/**
 * `processResponse`: classifies what the transport delivered to the completion
 * handler. The guards are tried in a fixed order and the first that applies
 * decides: not an HTTP response, a transport error, a status code outside the
 * accepted set, and otherwise success. The single value returned is the one
 * `completion` is called with; every path calls it once and returns.
 */
module ProcessResponse {
  import opened Wrappers
  import opened Utf8
  import opened HttpTypes
  import opened HttpResponseInit

  /** The transport delivered a response object and it is an `HTTPURLResponse`. */
  predicate IsHttp(response: Option<UrlResponse>) {
    response.Some? && response.value.Http?
  }

  function ProcessResponse(
    request: Request, url: Url, data: Option<Bytes>,
    response: Option<UrlResponse>, error: Option<TransportError>): (r: NetworkResponse)
    // never an encoding error: that one is reported before dispatch
    ensures !r.EncodingError?
    // guard 1: anything but an HTTP response, whatever the error and data
    ensures r == NetworkError(NoHttpResponse, None) <==> !IsHttp(response)
    // guard 2: a transport error, with the metadata of the response
    ensures r.NetworkError? && r.error.Network? <==> IsHttp(response) && error.Some?
    ensures IsHttp(response) && error.Some? ==>
      r == NetworkError(Network(error.value), Some(FromHttpUrlResponse(response.value.http, url, data)))
    // guard 3: a rejected status code; the metadata is dropped whatever the body
    ensures r == NetworkError(ErrorStatusCode, None) <==>
      IsHttp(response) && error.None? && response.value.http.statusCode !in request.successCodes
    // otherwise success, with the body (if any) as payload
    ensures r.Success? <==>
      IsHttp(response) && error.None? && response.value.http.statusCode in request.successCodes
    ensures r.Success? ==>
      && r.payload == data
      && r.response == FromHttpUrlResponse(response.value.http, url, data)
      && r.response.responseCode in request.successCodes
    // only a transport error carries metadata among the errors
    ensures r.NetworkError? ==> (r.meta.Some? <==> r.error.Network?)
  {
    if !IsHttp(response) then
      NetworkError(NoHttpResponse, None)
    else
      var http := response.value.http;
      if error.Some? then
        NetworkError(Network(error.value), Some(FromHttpUrlResponse(http, url, data)))
      else if http.statusCode !in request.successCodes then
        NetworkError(ErrorStatusCode, None)
      else if data.None? then
        Success(None, FromHttpUrlResponse(http, url, None))
      else
        Success(data, FromHttpUrlResponse(http, url, data))
  }
}
