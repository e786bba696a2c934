/**
 * `createUploadRequestData`: the `multipart/form-data` body of an upload.
 *
 * Each part is written as a delimiter line (section 5.1.1 of RFC 2046: CRLF,
 * "--", the boundary, CRLF), a `Content-Disposition: form-data` header with the
 * field name and file name (section 4.2 of RFC 7578), a `Content-Type` header,
 * an empty line and the part's raw bytes; the body ends with the close
 * delimiter (CRLF, "--", the boundary, "--", CRLF).
 *
 * The running buffer is ASSIGNED, not appended to, for each part, so only the
 * last part visited survives, followed by the close delimiter. The model keeps
 * that behaviour.
 */
module Multipart {
  import opened Wrappers
  import opened Utf8
  import opened HttpTypes

  /** `value.fileParameter?.fileName ?? ""` */
  function FileName(p: MultipartParameter): string {
    if p.fileParameter.Some? then p.fileParameter.value.fileName.GetOr("") else ""
  }

  /** `value.fileParameter?.mimeType ?? ""` */
  function MimeType(p: MultipartParameter): string {
    if p.fileParameter.Some? then p.fileParameter.value.mimeType.GetOr("") else ""
  }

  /** The delimiter line that opens a part. */
  function DelimiterLine(boundary: string): string {
    "\r\n--" + boundary + "\r\n"
  }

  /** `Content-Disposition: form-data; name="<name>"; filename="<file name or empty>"` and its line break. */
  function DispositionLine(part: NamedPart): string {
    "Content-Disposition: form-data; name=\"" + part.name + "\"; filename=\"" + FileName(part.parameter) + "\"\r\n"
  }

  /** `Content-Type: <MIME type or empty>`, its line break and the empty line before the data. */
  function ContentTypeLines(part: NamedPart): string {
    "Content-Type: " + MimeType(part.parameter) + "\r\n\r\n"
  }

  /** The header text of one part, up to and including the empty line before its data. */
  function PartHeader(boundary: string, part: NamedPart): string {
    DelimiterLine(boundary) + DispositionLine(part) + ContentTypeLines(part)
  }

  /** The bytes one part contributes: its header, UTF-8 encoded, then its data. */
  function PartBytes(boundary: string, part: NamedPart): Bytes {
    Encode(PartHeader(boundary, part)) + part.parameter.data
  }

  /** The close delimiter that ends the body. */
  function CloseDelimiter(boundary: string): string {
    "\r\n--" + boundary + "--\r\n"
  }

  /** The parts of all dictionaries, in the order they are visited. */
  function Flatten(parameters: seq<seq<NamedPart>>): seq<NamedPart> {
    if parameters == [] then []
    else Flatten(parameters[..|parameters| - 1]) + parameters[|parameters| - 1]
  }

  /** What the buffer holds after visiting `visited`: the last part's bytes, or nothing. */
  function LastPartBytes(boundary: string, visited: seq<NamedPart>): Bytes {
    if visited == [] then [] else PartBytes(boundary, visited[|visited| - 1])
  }

  /** The body the source produces. */
  function UploadBody(parameters: seq<seq<NamedPart>>, boundary: string): Bytes {
    LastPartBytes(boundary, Flatten(parameters)) + Encode(CloseDelimiter(boundary))
  }

  lemma {:induction false} FlattenAppend(parameters: seq<seq<NamedPart>>, dictionary: seq<NamedPart>)
    ensures Flatten(parameters + [dictionary]) == Flatten(parameters) + dictionary
  {
    assert (parameters + [dictionary])[..|parameters|] == parameters;
  }

  lemma {:induction false} FlattenConcat(earlier: seq<seq<NamedPart>>, later: seq<seq<NamedPart>>)
    ensures Flatten(earlier + later) == Flatten(earlier) + Flatten(later)
    decreases |later|
  {
    if later == [] {
      assert earlier + later == earlier;
    } else {
      var init, last := later[..|later| - 1], later[|later| - 1];
      assert later == init + [last];
      assert earlier + later == (earlier + init) + [last];
      FlattenAppend(earlier + init, last);
      FlattenConcat(earlier, init);
      FlattenAppend(init, last);
    }
  }

  /** With no parts at all the body is exactly the close delimiter. */
  lemma EmptyUploadBody(parameters: seq<seq<NamedPart>>, boundary: string)
    requires Flatten(parameters) == []
    ensures UploadBody(parameters, boundary) == Encode("\r\n--") + Encode(boundary) + Encode("--\r\n")
  {
    EncodeAppend("\r\n--", boundary);
    EncodeAppend("\r\n--" + boundary, "--\r\n");
  }

  /**
   * Whatever the parts, the body ends with the encoded close delimiter, whose
   * bytes are those of "\r\n--", then the boundary's, then those of "--\r\n".
   */
  lemma CloseDelimiterEndsBody(parameters: seq<seq<NamedPart>>, boundary: string)
    ensures var body := UploadBody(parameters, boundary);
            var close := Encode("\r\n--") + Encode(boundary) + Encode("--\r\n");
            |close| <= |body| && body[|body| - |close|..] == close
  {
    var close := Encode("\r\n--") + Encode(boundary) + Encode("--\r\n");
    assert Encode(CloseDelimiter(boundary)) == close by {
      EncodeAppend("\r\n--", boundary);
      EncodeAppend("\r\n--" + boundary, "--\r\n");
    }
    var prefix := LastPartBytes(boundary, Flatten(parameters));
    assert (prefix + close)[|prefix|..] == close;
  }

  /** For an ASCII boundary (a UUID string is one) the close delimiter is eight bytes longer than the boundary. */
  lemma CloseDelimiterLength(boundary: string)
    requires IsAscii(boundary)
    ensures |Encode(CloseDelimiter(boundary))| == |boundary| + 8
  {
    EncodeAppend("\r\n--", boundary);
    EncodeAppend("\r\n--" + boundary, "--\r\n");
    EncodeAscii(boundary);
  }

  /** With at least one part, the body is the last part's header and data, then the close delimiter. */
  lemma LastPartSurvives(parameters: seq<seq<NamedPart>>, boundary: string)
    requires Flatten(parameters) != []
    ensures var last := Flatten(parameters)[|Flatten(parameters)| - 1];
            UploadBody(parameters, boundary)
              == Encode(PartHeader(boundary, last)) + last.parameter.data + Encode(CloseDelimiter(boundary))
  {
  }

  /** Parts visited before a later non-empty dictionary leave no trace in the body. */
  lemma {:induction false} EarlierPartsDiscarded(earlier: seq<seq<NamedPart>>, later: seq<seq<NamedPart>>, boundary: string)
    requires Flatten(later) != []
    ensures UploadBody(earlier + later, boundary) == UploadBody(later, boundary)
  {
    FlattenConcat(earlier, later);
    var all := Flatten(earlier + later);
    assert all[|all| - 1] == Flatten(later)[|Flatten(later)| - 1];
  }

  /** After the inner loop, the parts visited are those of the dictionaries so far. */
  lemma DictionaryStep(parameters: seq<seq<NamedPart>>, i: nat)
    requires i < |parameters|
    ensures Flatten(parameters[..i + 1]) == Flatten(parameters[..i]) + parameters[i]
  {
    assert parameters[..i + 1] == parameters[..i] + [parameters[i]];
    FlattenAppend(parameters[..i], parameters[i]);
  }

  /**
   * The inner `parameter.forEach` of `createUploadRequestData`: for each part of
   * one dictionary, the buffer is replaced by that part's header bytes and
   * then its data is appended.
   */
  method WriteDictionary(bodyData: Bytes, parameter: seq<NamedPart>, boundary: string, ghost before: seq<NamedPart>)
    returns (out: Bytes)
    requires bodyData == LastPartBytes(boundary, before)
    ensures out == LastPartBytes(boundary, before + parameter)
  {
    out := bodyData;
    for j := 0 to |parameter|
      invariant out == LastPartBytes(boundary, before + parameter[..j])
    {
      var part := parameter[j];
      var bodyString := "";
      // Boundary
      bodyString := bodyString + DelimiterLine(boundary);
      // Name
      bodyString := bodyString + DispositionLine(part);
      // Mime type
      bodyString := bodyString + ContentTypeLines(part);
      assert bodyString == PartHeader(boundary, part) by {
        assert "" + DelimiterLine(boundary) == DelimiterLine(boundary);
      }
      // Convert to data: the buffer is replaced, not appended to
      out := Encode(bodyString);
      // Append binary data
      out := out + part.parameter.data;
      ghost var visited := before + parameter[..j + 1];
      assert visited[|visited| - 1] == part;
    }
    assert parameter[..|parameter|] == parameter;
  }

  /** `createUploadRequestData(parameters:boundary:)`; the source returns `Data?` but never nil. */
  method CreateUploadRequestData(parameters: seq<seq<NamedPart>>, boundary: string) returns (body: Option<Bytes>)
    ensures body == Some(UploadBody(parameters, boundary))
  {
    var bodyData: Bytes := [];

    for i := 0 to |parameters|
      invariant bodyData == LastPartBytes(boundary, Flatten(parameters[..i]))
    {
      bodyData := WriteDictionary(bodyData, parameters[i], boundary, Flatten(parameters[..i]));
      DictionaryStep(parameters, i);
    }
    assert parameters[..|parameters|] == parameters;

    // End the body with the close delimiter
    bodyData := bodyData + Encode(CloseDelimiter(boundary));
    return Some(bodyData);
  }
}
