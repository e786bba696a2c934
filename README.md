# VCNetworkKit-Session: request construction and response classification

A model of the deterministic core of `NetworkServiceUrlSession`, the adapter
that turns a declarative `Request` into a `URLRequest`, hands it to a
`URLSession`, and turns what the session delivers back into a
`NetworkResponse`:

- `RequestBuilder` — `createRequestUrl` (verb, parameters as URL query items or
  as a JSON body with `Content-Type: application/json`, caller headers) and
  `createUploadRequestUrl` (multipart `Content-Type` with the boundary, caller
  headers). Header writes overwrite, and the caller's come last, so the final
  header map is the builder's map overridden by the caller's.
- `Multipart` — `createUploadRequestData`, the `multipart/form-data` body:
  delimiter lines as in section 5.1.1 of RFC 2046 and
  `Content-Disposition: form-data; name="…"; filename="…"` as in section 4.2
  of RFC 7578, then the close delimiter.
- `ProcessResponse` — the first-match guard chain of `processResponse`.
- `HttpResponseInit` — the `HttpResponse.init(httpUrlResponse:url:data:)`
  extension initialiser, including the `as? [String: String]` cast.
- `NetworkService` — the entry points up to dispatch: an encoding failure
  completes at once with `encodingError(parameterEncoding)` and a cancel
  handle that does nothing; otherwise a data or upload task is started.
- `Utf8` — bytes, and the UTF-8 encoding that `String.data(using: .utf8)`
  performs (RFC 3629, section 3); `HttpTypes` and `Wrappers` hold the data
  model and `Option`.

Foundation calls whose behaviour lies outside this code
(`JSONSerialization.data`, the interpolation `"\(value)"`, whether
`URLComponents(url:resolvingAgainstBaseURL:)` succeeds) are fields of the
`Foundation` value passed to the builders. The multipart boundary (a UUID
string in the source) and the resolved URL (`Request.fullUrl`) are parameters.

Notes on the body layout:

- The multipart buffer is assigned, not appended to, for each part
  (`NetworkServiceUrlSession.swift` line 281). Only the last part visited
  reaches the body, followed by the close delimiter, so the body has at most
  one part section.
- Each part starts with CRLF before `--boundary`, which is the RFC 2046
  delimiter. It does not start with a bare `--boundary`.
- No part carries a declared byte length.

## Model

| member | source | states |
|---|---|---|
| `Utf8.EncodeScalar` | Sources/Service/NetworkServiceUrlSession.swift:281 | one to four bytes per scalar; exactly one, equal to the code, for ASCII; otherwise a lead byte of at least 0xC0 followed by continuation bytes |
| `Utf8.Encode` | Sources/Service/NetworkServiceUrlSession.swift:281 | a string encodes to between one and four bytes per character, and a non-empty string to non-empty bytes |
| `Utf8.EncodeAppend` | Sources/Service/NetworkServiceUrlSession.swift:292-298 | encoding a concatenation is concatenating the encodings, so a joined string's bytes are its pieces' bytes in order |
| `Utf8.EncodeAscii` | Sources/Service/NetworkServiceUrlSession.swift:292-298 | an ASCII string encodes to one byte per character, each byte equal to its character's code |
| `HttpResponseInit.CastToStringMap` | Sources/Extensions/HttpResponse+HttpUrlResponse.swift:10 | the cast succeeds exactly when every key and value is a string, and then yields the same entries (same keys, same values, same count) retyped |
| `HttpResponseInit.CastPreservesSize` | Sources/Extensions/HttpResponse+HttpUrlResponse.swift:10 | retyping string keys keeps the number of header fields |
| `HttpResponseInit.FromHttpUrlResponse` | Sources/Extensions/HttpResponse+HttpUrlResponse.swift:6-11 | total: `responseCode` is the status code; `data` is the given data or empty when nil; `url` is the response's URL or else the request URL; `headerFields` is the cast header map, present exactly when all entries are strings |
| `ProcessResponse.ProcessResponse` | Sources/Service/NetworkServiceUrlSession.swift:309-371 | exactly one result: `networkError(noHttpResponse, nil)` iff the response is absent or not HTTP, whatever the error and data; else with a transport error `networkError(network(e), meta)` with meta built from the response, URL and data; else a status outside `successCodes` gives `networkError(errorStatusCode, nil)` whatever the body; else `success` with payload equal to the data and meta built from it; never an encoding error; among errors only the transport error carries metadata |
| `RequestBuilder.QueryItems` | Sources/Service/NetworkServiceUrlSession.swift:131-134 | one query item `(k, "\(v)")` per parameter pair and nothing else, as many items as parameters |
| `RequestBuilder.QueryItemsCardinality` | Sources/Service/NetworkServiceUrlSession.swift:131-133 | distinct parameter names give distinct query items, so no item is lost |
| `RequestBuilder.BuiltRequestIsUnique` | Sources/Service/NetworkServiceUrlSession.swift:108-158 | the characterisation of the built request fixes every field: two requests satisfying it are equal |
| `RequestBuilder.JsonContentTypePrecedence` | Sources/Service/NetworkServiceUrlSession.swift:144-155 | in JSON mode `Content-Type` is the caller's value when the caller sets it, and `application/json` otherwise |
| `RequestBuilder.UploadContentTypePrecedence` | Sources/Service/NetworkServiceUrlSession.swift:229-241 | for an upload `Content-Type` is the caller's value when the caller sets it, and `multipart/form-data; boundary=B` otherwise |
| `HttpTypes.UrlRequest.SetValue` | Sources/Service/NetworkServiceUrlSession.swift:146 | `setValue(_:forHTTPHeaderField:)` as the builders use it: afterwards the field holds the new value, the set of fields gains exactly that field, every other field keeps its value, and URL, body, method, timeout and cache policy are unchanged |
| `RequestBuilder.SetHeaderValues` | Sources/Service/NetworkServiceUrlSession.swift:151-155 | writing the caller's header fields one by one, in whatever order the dictionary yields them, gives the old header map overridden by the caller's map: caller fields take the caller's values and all other fields keep theirs |
| `RequestBuilder.CreateRequestUrl` | Sources/Service/NetworkServiceUrlSession.swift:108-158 | returns nil exactly when the parameters are present and non-empty and URL mode cannot decompose the URL, or JSON mode cannot serialise; otherwise verb, timeout and cache policy are set; without parameters URL and body are untouched and the headers are the caller's; URL mode replaces the query by one item per pair and leaves the body nil; JSON mode sets the body to the serialised map and the headers to `Content-Type: application/json` overridden by the caller's |
| `RequestBuilder.CreateUploadRequestUrl` | Sources/Service/NetworkServiceUrlSession.swift:213-244 | URL untouched, verb, timeout and cache policy set, no body, headers `Content-Type: multipart/form-data; boundary=B` overridden by the caller's |
| `Multipart.FlattenAppend` | Sources/Service/NetworkServiceUrlSession.swift:252-253 | visiting one more dictionary visits its parts after all earlier ones |
| `Multipart.FlattenConcat` | Sources/Service/NetworkServiceUrlSession.swift:252-253 | the visiting order of two lists of dictionaries in sequence is the first list's order followed by the second's |
| `Multipart.EmptyUploadBody` | Sources/Service/NetworkServiceUrlSession.swift:250-298 | with no parts the body is exactly the bytes of `"\r\n--"`, the boundary and `"--\r\n"` |
| `Multipart.CloseDelimiterEndsBody` | Sources/Service/NetworkServiceUrlSession.swift:292-298 | every body, whatever the parts, ends with the bytes of `"\r\n--"`, then the boundary's bytes, then those of `"--\r\n"` |
| `Multipart.CloseDelimiterLength` | Sources/Service/NetworkServiceUrlSession.swift:292-298 | for an ASCII boundary (a UUID string is one) the close delimiter is eight bytes longer than the boundary |
| `Multipart.LastPartSurvives` | Sources/Service/NetworkServiceUrlSession.swift:252-298 | with at least one part, the body is the last visited part's header text `"\r\n--B\r\nContent-Disposition: form-data; name=\"k\"; filename=\"f\"\r\nContent-Type: m\r\n\r\n"` in UTF-8, then its data, then the close delimiter |
| `Multipart.EarlierPartsDiscarded` | Sources/Service/NetworkServiceUrlSession.swift:281 | because the buffer is reassigned per part, parts visited before a later non-empty dictionary leave no trace in the body |
| `Multipart.WriteDictionary` | Sources/Service/NetworkServiceUrlSession.swift:253-285 | the inner loop over one dictionary replaces the buffer for each part, so afterwards it holds the bytes of the last part visited so far, header then data, or its old contents when the dictionary is empty |
| `Multipart.CreateUploadRequestData` | Sources/Service/NetworkServiceUrlSession.swift:246-301 | the nested loops with the per-part reassignment produce the body above: empty parts give the close delimiter alone, otherwise last part's header and data then the close delimiter; never nil |
| `NetworkService.RequestWithParameters` | Sources/Service/NetworkServiceUrlSession.swift:68-106 | completes before dispatch exactly when encoding fails, with `encodingError(parameterEncoding)` and a cancel handle that does nothing; otherwise starts a data task with the built request and a cancel handle that cancels it |
| `NetworkService.UploadMultipart` | Sources/Service/NetworkServiceUrlSession.swift:165-211 | always starts an upload task, with the built upload request and the multipart body, and a cancel handle that cancels it; the encoding-error branch is never taken |
| `NetworkService.PerformRequest` | Sources/Service/NetworkServiceUrlSession.swift:31-61 | plain requests go through the parameter path, uploads through the multipart path, with the outcomes stated above; only a plain request whose encoding fails completes before dispatch |

## Left out

- URLSession dispatch: `dataTask`, `uploadTask`, `resume()` and what `operation.cancel()` does are platform I/O. A started task is a value, and the cancel handle is a tag saying whether it cancels that task. The task's completion handler calls `processResponse` with the captured request and URL. That call is modelled by `ProcessResponse.ProcessResponse`, but it is not linked to the task value.
- Boundary generation with `UUID().uuidString` is nondeterministic, so the boundary is an input.
- `JSONSerialization.data(withJSONObject:options:)`, the interpolation `"\(value)"` and the success of `URLComponents(url:resolvingAgainstBaseURL:)` are foreign calls, given as functions in `Foundation`.
- Recomposing `urlComponents.url`, with its percent-encoding, is modelled as replacing the URL's query by the item set. The case where `urlComponents.url` is nil is not modelled.
- URLRequest header names are compared case-insensitively by the platform. Here they are exact map keys.
- `Request.fullUrl`, `curlDescription`, `HttpMethod.urlRequestMethod`, the type of `successCodes` and `requestParsed` with its decoding belong to the VCNetworkKit dependency. The model uses the resolved URL, the verb string and a set of accepted codes.
- `timeout` is a floating-point `TimeInterval` that is only passed through; it is a `real` here.
- Debug printing (`Swift.print`, `printIfNeeded`) is observational only.
- Swift dictionary iteration order is unspecified. Header and parameter maps are maps, and query items are a set. Each multipart dictionary is a sequence in a fixed but arbitrary order, and the last-part results are stated relative to that order.
- Parameter values (`Any`) are a small datatype; only `describe` and `jsonData` look at them.
- The class `NetworkServiceUrlSession` and its initialisers only store the immutable `baseUrl`, `session` and `isDebugMode`. No operation here changes them, so there is no class in the model.
- `Utf8.Encode` assumes Dafny characters are Unicode scalar values. Swift strings are sequences of Unicode scalar values (their `unicodeScalars` view), which is what `.utf8` encodes.
