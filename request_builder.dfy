/**
 * `createRequestUrl` and `createUploadRequestUrl`: build the platform request
 * from the declarative one. Both start from a fresh `URLRequest` for the
 * resolved URL, set the verb, optionally encode parameters or set the
 * multipart content type, and finally write the caller's header fields one by
 * one, each overwriting whatever the builder set under the same name.
 */
module RequestBuilder {
  import opened Wrappers
  import opened Utf8
  import opened HttpTypes

  const ContentTypeField := "Content-Type"
  const JsonContentType := "application/json"

  /** The value of `Content-Type` for a multipart upload with the given boundary. */
  function MultipartContentType(boundary: string): string {
    "multipart/form-data; boundary=" + boundary
  }

  /** The parameters are present and not empty, the only case in which they are encoded. */
  predicate HasParameters(parameters: Option<Parameters>) {
    parameters.Some? && |parameters.value| > 0
  }

  function QueryItemOf(parameters: Parameters, describe: ParamValue -> string, key: string): QueryItem
    requires key in parameters
  {
    QueryItem(key, describe(parameters[key]))
  }

  /** One query item `(k, "\(v)")` per parameter, and nothing else. */
  function QueryItems(parameters: Parameters, describe: ParamValue -> string): (items: set<QueryItem>)
    ensures |items| == |parameters|
    ensures forall item :: item in items <==>
      item.name in parameters && item.value == describe(parameters[item.name])
  {
    QueryItemsCardinality(parameters, describe, parameters.Keys);
    set key | key in parameters :: QueryItemOf(parameters, describe, key)
  }

  lemma {:induction false} QueryItemsCardinality(parameters: Parameters, describe: ParamValue -> string, keys: set<string>)
    requires keys <= parameters.Keys
    ensures |set key | key in keys :: QueryItemOf(parameters, describe, key)| == |keys|
    decreases |keys|
  {
    if keys != {} {
      var k :| k in keys;
      var rest := keys - {k};
      QueryItemsCardinality(parameters, describe, rest);
      var restItems := set key | key in rest :: QueryItemOf(parameters, describe, key);
      assert (set key | key in keys :: QueryItemOf(parameters, describe, key))
        == restItems + {QueryItemOf(parameters, describe, k)};
      assert QueryItemOf(parameters, describe, k) !in restItems;
    }
  }

  /**
   * The parameter encoding fails: URL mode on a URL that `URLComponents`
   * cannot take apart, or JSON mode on parameters that do not serialise.
   */
  predicate EncodingFails(parameters: Option<Parameters>, encoding: ParametersEncoding, url: Url, fx: Foundation) {
    && HasParameters(parameters)
    && match encoding
       case UrlEncoding => !fx.componentsResolve(url)
       case JsonEncoding => fx.jsonData(parameters.value).None?
  }

  /**
   * The request `createRequestUrl` returns when encoding succeeds, field by field:
   * the verb, the timeout and cache policy are passed through; without
   * parameters the URL and body are untouched; URL mode replaces the query by
   * one item per parameter and leaves the body nil; JSON mode sets the body to
   * the serialised parameters and `Content-Type: application/json`; the
   * caller's header fields are written last and win.
   */
  predicate IsBuiltRequest(
    u: UrlRequest, request: Request, url: Url,
    parameters: Option<Parameters>, encoding: ParametersEncoding, fx: Foundation)
  {
    && u.cachePolicy == ReloadIgnoringLocalCacheData
    && u.timeout == request.timeout
    && u.httpMethod == request.httpMethod
    && if !HasParameters(parameters) then
         && u.url == Some(url)
         && u.httpBody == None
         && u.headers == CallerHeaders(request)
       else if encoding.UrlEncoding? then
         && u.url == Some(url.(query := QueryItems(parameters.value, fx.describe)))
         && u.httpBody == None
         && u.headers == CallerHeaders(request)
       else
         && u.url == Some(url)
         && u.httpBody.Some?
         && u.httpBody == fx.jsonData(parameters.value)
         && u.headers == map[ContentTypeField := JsonContentType] + CallerHeaders(request)
  }

  /** The request `createUploadRequestUrl` returns. */
  predicate IsBuiltUploadRequest(u: UrlRequest, request: Request, url: Url, boundary: string) {
    && u.url == Some(url)
    && u.cachePolicy == ReloadIgnoringLocalCacheData
    && u.timeout == request.timeout
    && u.httpMethod == request.httpMethod
    && u.httpBody == None
    && u.headers == map[ContentTypeField := MultipartContentType(boundary)] + CallerHeaders(request)
  }

  /** The characterisation leaves no freedom: at most one request satisfies it. */
  lemma BuiltRequestIsUnique(
    u: UrlRequest, v: UrlRequest, request: Request, url: Url,
    parameters: Option<Parameters>, encoding: ParametersEncoding, fx: Foundation)
    requires IsBuiltRequest(u, request, url, parameters, encoding, fx)
    requires IsBuiltRequest(v, request, url, parameters, encoding, fx)
    ensures u == v
  {
  }

  /**
   * In JSON mode `Content-Type` is always present: the caller's value when the
   * caller sets that field, `application/json` otherwise.
   */
  lemma JsonContentTypePrecedence(
    u: UrlRequest, request: Request, url: Url,
    parameters: Option<Parameters>, encoding: ParametersEncoding, fx: Foundation)
    requires IsBuiltRequest(u, request, url, parameters, encoding, fx)
    requires HasParameters(parameters) && encoding.JsonEncoding?
    ensures ContentTypeField in u.headers
    ensures ContentTypeField in CallerHeaders(request) ==> u.headers[ContentTypeField] == CallerHeaders(request)[ContentTypeField]
    ensures ContentTypeField !in CallerHeaders(request) ==> u.headers[ContentTypeField] == JsonContentType
  {
  }

  /** The same precedence for an upload's multipart `Content-Type`. */
  lemma UploadContentTypePrecedence(u: UrlRequest, request: Request, url: Url, boundary: string)
    requires IsBuiltUploadRequest(u, request, url, boundary)
    ensures ContentTypeField in u.headers
    ensures ContentTypeField in CallerHeaders(request) ==> u.headers[ContentTypeField] == CallerHeaders(request)[ContentTypeField]
    ensures ContentTypeField !in CallerHeaders(request) ==> u.headers[ContentTypeField] == MultipartContentType(boundary)
  {
  }

  /**
   * The `headers.forEach { setValue }` loop: the fields are visited in an
   * unspecified order, and since each key is visited once the order does not
   * matter: the result is the old fields overridden by the new ones.
   */
  method SetHeaderValues(u: UrlRequest, headers: Headers) returns (r: UrlRequest)
    ensures r == u.(headers := u.headers + headers)
  {
    r := u;
    var pending := headers.Keys;
    while pending != {}
      invariant pending <= headers.Keys
      invariant r == u.(headers := u.headers + (headers - pending))
      decreases pending
    {
      var field :| field in pending;
      r := r.SetValue(headers[field], field);
      assert headers - (pending - {field}) == (headers - pending)[field := headers[field]];
      pending := pending - {field};
    }
    assert headers - {} == headers;
  }

  /** `createRequestUrl(request:url:parameters:parametersEncoding:)`; None is the source's nil. */
  method CreateRequestUrl(
    request: Request, url: Url,
    parameters: Option<Parameters>, encoding: ParametersEncoding, fx: Foundation)
    returns (r: Option<UrlRequest>)
    ensures r.None? <==> EncodingFails(parameters, encoding, url, fx)
    ensures r.Some? ==> IsBuiltRequest(r.value, request, url, parameters, encoding, fx)
  {
    var urlRequest := NewUrlRequest(url, ReloadIgnoringLocalCacheData, request.timeout);
    urlRequest := urlRequest.(httpMethod := request.httpMethod);

    if HasParameters(parameters) {
      var params := parameters.value;
      match encoding {
        case UrlEncoding =>
          if !fx.componentsResolve(url) {
            return None;
          }
          var queryItems := QueryItems(params, fx.describe);
          urlRequest := urlRequest.(url := Some(url.(query := queryItems)));
        case JsonEncoding =>
          var jsonData := fx.jsonData(params);
          if jsonData.None? {
            return None;
          }
          urlRequest := urlRequest.(httpBody := jsonData);
          urlRequest := urlRequest.SetValue(JsonContentType, ContentTypeField);
      }
    }

    if request.headers.Some? && |request.headers.value| > 0 {
      urlRequest := SetHeaderValues(urlRequest, request.headers.value);
    } else {
      assert urlRequest.headers + CallerHeaders(request) == urlRequest.headers;
    }
    return Some(urlRequest);
  }

  /** `createUploadRequestUrl(request:url:parameters:boundary:)`; the parts are not used here. */
  method CreateUploadRequestUrl(request: Request, url: Url, boundary: string) returns (r: UrlRequest)
    ensures IsBuiltUploadRequest(r, request, url, boundary)
  {
    var urlRequest := NewUrlRequest(url, ReloadIgnoringLocalCacheData, request.timeout);
    urlRequest := urlRequest.(httpMethod := request.httpMethod);

    var contentTypeHeader := "multipart/form-data;" + " " + ("boundary=" + boundary);
    assert contentTypeHeader == MultipartContentType(boundary);
    urlRequest := urlRequest.SetValue(contentTypeHeader, ContentTypeField);

    if request.headers.Some? && |request.headers.value| > 0 {
      urlRequest := SetHeaderValues(urlRequest, request.headers.value);
    }
    return urlRequest;
  }
}
