/** The `HttpResponse.init(httpUrlResponse:url:data:)` extension initialiser. */
module HttpResponseInit {
  import opened Wrappers
  import opened Utf8
  import opened HttpTypes

  /** Every key and every value of the header dictionary is a string. */
  predicate AllStrings(fields: map<AnyValue, AnyValue>) {
    forall k :: k in fields ==> k.StringValue? && fields[k].StringValue?
  }

  /**
   * The conditional cast `as? [String: String]`: the same dictionary, retyped,
   * when every key and value is a string, and nil otherwise.
   */
  function CastToStringMap(fields: map<AnyValue, AnyValue>): (r: Option<Headers>)
    ensures r.Some? <==> AllStrings(fields)
    ensures r.Some? ==> forall name :: name in r.value <==> StringValue(name) in fields
    ensures r.Some? ==> forall name :: name in r.value ==> fields[StringValue(name)] == StringValue(r.value[name])
    ensures r.Some? ==> |r.value| == |fields|
  {
    if AllStrings(fields) then
      var headers := map k | k in fields :: k.text := fields[k].text;
      assert headers.Keys == set k | k in fields :: k.text;
      CastPreservesSize(fields);
      Some(headers)
    else
      None
  }

  /** Retyping string keys to their text is one-to-one, so the key count is kept. */
  lemma {:induction false} CastPreservesSize(fields: map<AnyValue, AnyValue>)
    requires AllStrings(fields)
    ensures |set k | k in fields :: k.text| == |fields|
  {
    TextsCardinality(fields.Keys);
  }

  lemma {:induction false} TextsCardinality(keys: set<AnyValue>)
    requires forall k :: k in keys ==> k.StringValue?
    ensures |set k | k in keys :: k.text| == |keys|
    decreases |keys|
  {
    if keys != {} {
      var k :| k in keys;
      var rest := keys - {k};
      TextsCardinality(rest);
      assert (set x | x in keys :: x.text) == (set x | x in rest :: x.text) + {k.text};
      assert k.text !in (set x | x in rest :: x.text);
    }
  }

  /**
   * The metadata built from an HTTP response, the URL that was requested and
   * the body the transport delivered, if any.
   */
  function FromHttpUrlResponse(response: HttpUrlResponse, url: Url, data: Option<Bytes>): (h: HttpResponse)
    ensures h.responseCode == response.statusCode
    ensures data.Some? ==> h.data == data.value
    ensures data.None? ==> h.data == []
    ensures response.url.Some? ==> h.url == response.url.value
    ensures response.url.None? ==> h.url == url
    ensures h.headerFields.Some? <==> AllStrings(response.allHeaderFields)
    ensures h.headerFields == CastToStringMap(response.allHeaderFields)
  {
    HttpResponse(
      response.statusCode,
      data.GetOr([]),
      response.url.GetOr(url),
      CastToStringMap(response.allHeaderFields))
  }
}
