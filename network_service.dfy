/**
 * The entry points of `NetworkServiceUrlSession` up to the point where the
 * platform takes over: the request is built, and either the completion
 * handler is called at once with an encoding error, or a task is handed to
 * the session and started. What the session does with the task is not
 * modelled; its completion handler runs `ProcessResponse`.
 */
module NetworkService {
  import opened Wrappers
  import opened Utf8
  import opened HttpTypes
  import RequestBuilder
  import Multipart

  /** The session task created: `dataTask(with:)` or `uploadTask(with:from:)`. */
  datatype Task = DataTask(urlRequest: UrlRequest) | UploadTask(urlRequest: UrlRequest, body: Bytes)

  /** The `CancelRequest` closure returned: `{}` or `{ operation.cancel() }`. */
  datatype CancelRequest = DoNothing | CancelOperation

  /** How a call starts: completed before any dispatch, or a task resumed. */
  datatype Started =
    | CompletedBeforeDispatch(response: NetworkResponse, cancel: CancelRequest)
    | Dispatched(task: Task, cancel: CancelRequest)

  /** The private `request(request:url:parameters:parametersEncoding:completion:)`. */
  method RequestWithParameters(
    request: Request, url: Url,
    parameters: Option<Parameters>, encoding: ParametersEncoding, fx: Foundation)
    returns (s: Started)
    ensures s.CompletedBeforeDispatch? <==> RequestBuilder.EncodingFails(parameters, encoding, url, fx)
    ensures s.CompletedBeforeDispatch? ==>
      s.response == EncodingError(ParameterEncoding) && s.cancel == DoNothing
    ensures s.Dispatched? ==>
      && s.task.DataTask?
      && RequestBuilder.IsBuiltRequest(s.task.urlRequest, request, url, parameters, encoding, fx)
      && s.cancel == CancelOperation
  {
    var urlRequest := RequestBuilder.CreateRequestUrl(request, url, parameters, encoding, fx);
    if urlRequest.None? {
      return CompletedBeforeDispatch(EncodingError(ParameterEncoding), DoNothing);
    }
    return Dispatched(DataTask(urlRequest.value), CancelOperation);
  }

  /**
   * `uploadMultipart(request:url:parameters:completion:)` with the boundary
   * (a fresh UUID string in the source) given. The body never fails to build,
   * so an upload is always dispatched.
   */
  method UploadMultipart(request: Request, url: Url, parts: seq<seq<NamedPart>>, boundary: string)
    returns (s: Started)
    ensures s.Dispatched? && s.task.UploadTask? && s.cancel == CancelOperation
    ensures RequestBuilder.IsBuiltUploadRequest(s.task.urlRequest, request, url, boundary)
    ensures s.task.body == Multipart.UploadBody(parts, boundary)
  {
    var urlRequest := RequestBuilder.CreateUploadRequestUrl(request, url, boundary);
    var bodyData := Multipart.CreateUploadRequestData(parts, boundary);
    if bodyData.None? {
      return CompletedBeforeDispatch(EncodingError(ParameterEncoding), DoNothing);
    }
    return Dispatched(UploadTask(urlRequest, bodyData.value), CancelOperation);
  }

  /**
   * The public `request(_:completion:)`: splits on the request kind. `finalUrl`
   * is what `request.fullUrl(baseUrl:)` resolves; `boundary` is used only for uploads.
   */
  method PerformRequest(request: Request, finalUrl: Url, boundary: string, fx: Foundation)
    returns (s: Started)
    ensures s.CompletedBeforeDispatch? <==>
      request.kind.Plain? &&
      RequestBuilder.EncodingFails(request.kind.parameters, request.kind.encoding, finalUrl, fx)
    ensures s.CompletedBeforeDispatch? ==>
      s.response == EncodingError(ParameterEncoding) && s.cancel == DoNothing
    ensures s.Dispatched? ==> s.cancel == CancelOperation
    ensures s.Dispatched? && request.kind.Plain? ==>
      && s.task.DataTask?
      && RequestBuilder.IsBuiltRequest(
           s.task.urlRequest, request, finalUrl, request.kind.parameters, request.kind.encoding, fx)
    ensures request.kind.UploadMultipartData? ==>
      && s.Dispatched?
      && s.task.UploadTask?
      && RequestBuilder.IsBuiltUploadRequest(s.task.urlRequest, request, finalUrl, boundary)
      && s.task.body == Multipart.UploadBody(request.kind.parts, boundary)
  {
    match request.kind {
      case Plain(parameters, encoding) =>
        s := RequestWithParameters(request, finalUrl, parameters, encoding, fx);
      case UploadMultipartData(parts) =>
        s := UploadMultipart(request, finalUrl, parts, boundary);
    }
  }
}
