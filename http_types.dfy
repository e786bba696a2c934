/**
 * The values the adapter consumes and produces: the declarative `Request`, the
 * platform's `URLRequest` and `HTTPURLResponse`, the `HttpResponse` metadata and
 * the `NetworkResponse` envelope handed to the completion handler.
 */
module HttpTypes {
  import opened Wrappers
  import opened Utf8

  /** Header fields, string keys to string values; one value per key. */
  type Headers = map<string, string>

  /** A parameter value (`Any` in the source); only its description and its JSON form are used. */
  datatype ParamValue =
    | Text(text: string)
    | Integer(number: int)
    | Flag(flag: bool)
    | Opaque(tag: string)

  type Parameters = map<string, ParamValue>

  datatype ParametersEncoding = UrlEncoding | JsonEncoding

  datatype QueryItem = QueryItem(name: string, value: string)

  /**
   * A URL split into its query and everything else (scheme, host, path,
   * fragment). Query items form a set: they come from a dictionary, whose
   * iteration order is unspecified.
   */
  datatype Url = Url(address: string, query: set<QueryItem>)

  datatype MultipartFileParameter = MultipartFileParameter(mimeType: Option<string>, fileName: Option<string>)

  datatype MultipartParameter = MultipartParameter(data: Bytes, fileParameter: Option<MultipartFileParameter>)

  /** One entry of a `[String: MultipartParameter]` dictionary. */
  datatype NamedPart = NamedPart(name: string, parameter: MultipartParameter)

  /**
   * The request kind. Each inner sequence of an upload is one dictionary of
   * parts, listed in that dictionary's (fixed but unspecified) iteration order.
   */
  datatype RequestType =
    | Plain(parameters: Option<Parameters>, encoding: ParametersEncoding)
    | UploadMultipartData(parts: seq<seq<NamedPart>>)

  /** `TimeInterval` is a floating-point duration that is only passed through. */
  type TimeInterval = real

  /**
   * A request as the caller declares it. `httpMethod` is the verb
   * `HttpMethod.urlRequestMethod` yields; the target URL is resolved by
   * `Request.fullUrl` before the builders see it.
   */
  datatype Request = Request(
    httpMethod: string,
    kind: RequestType,
    timeout: TimeInterval,
    headers: Option<Headers>,
    successCodes: set<int>)

  /** The one cache policy the builders set (`.reloadIgnoringLocalCacheData`). */
  datatype CachePolicy = ReloadIgnoringLocalCacheData

  /** The platform request value (a struct in the source, mutated through a local `var`). */
  datatype UrlRequest = UrlRequest(
    url: Option<Url>,
    cachePolicy: CachePolicy,
    timeout: TimeInterval,
    httpMethod: string,
    httpBody: Option<Bytes>,
    headers: Headers)
  {
    /** `setValue(_:forHTTPHeaderField:)`: sets one field, overwriting. */
    function SetValue(value: string, field: string): (r: UrlRequest)
      ensures r.(headers := headers) == this
      ensures r.headers.Keys == headers.Keys + {field} && r.headers[field] == value
      ensures forall f :: f in headers && f != field ==> r.headers[f] == headers[f]
    {
      this.(headers := headers[field := value])
    }
  }

  /** `URLRequest(url:cachePolicy:timeoutInterval:)`: method GET, no body, no header fields. */
  function NewUrlRequest(url: Url, cachePolicy: CachePolicy, timeout: TimeInterval): UrlRequest {
    UrlRequest(Some(url), cachePolicy, timeout, "GET", None, map[])
  }

  /** The headers a caller attached, the empty map when there are none. */
  function CallerHeaders(request: Request): Headers {
    request.headers.GetOr(map[])
  }

  /** A value of `allHeaderFields: [AnyHashable: Any]`, which may or may not be a string. */
  datatype AnyValue = StringValue(text: string) | NonStringValue(tag: string)

  datatype HttpUrlResponse = HttpUrlResponse(
    statusCode: int,
    url: Option<Url>,
    allHeaderFields: map<AnyValue, AnyValue>)

  /** What the transport hands back as `URLResponse?` once it is present. */
  datatype UrlResponse = Http(http: HttpUrlResponse) | NonHttp

  /** The transport's own error, carried through untouched. */
  datatype TransportError = TransportError(domain: string, code: int)

  /** The response metadata handed to the caller. */
  datatype HttpResponse = HttpResponse(
    responseCode: int,
    data: Bytes,
    url: Url,
    headerFields: Option<Headers>)

  datatype ResponseError = NoHttpResponse | Network(cause: TransportError) | ErrorStatusCode

  datatype RequestError = ParameterEncoding

  datatype NetworkResponse =
    | Success(payload: Option<Bytes>, response: HttpResponse)
    | NetworkError(error: ResponseError, meta: Option<HttpResponse>)
    | EncodingError(requestError: RequestError)

  /**
   * The Foundation calls the builders make and whose behaviour is not part of
   * this model, as given functions:
   * `jsonData` is `try? JSONSerialization.data(withJSONObject:options: [])`,
   * `describe` is the interpolation `"\(value)"`, and
   * `componentsResolve` says whether `URLComponents(url:resolvingAgainstBaseURL: false)`
   * returns a value.
   */
  datatype Foundation = Foundation(
    jsonData: Parameters -> Option<Bytes>,
    describe: ParamValue -> string,
    componentsResolve: Url -> bool)
}
