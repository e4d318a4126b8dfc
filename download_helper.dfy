/** DownloadHelper: the classification of a finished data task into exactly one of the
    failure or success callbacks. The network request itself is not modelled: the
    response is an input. */
module DownloadHelper {
  import opened Wrappers
  import opened Foundation

  /** What a `URLSession` data task hands its completion handler: a transport error (an
      `NSURLError` code), an HTTP status if the response is an `HTTPURLResponse`, and the body. */
  datatype Response = Response(transportError: Option<int>, httpStatus: Option<int>, body: Option<Data>)

  /** `DownloadHelper.DownloadError`. */
  datatype DownloadError =
    | InvalidResponseType
    | InvalidResponseCode(statusCode: int)
    | NoDataReturned
    | EmptyDataReturned

  /** Everything `loadData` can pass to its failure callback. */
  datatype LoadError = TransportError(code: int) | Download(error: DownloadError)

  /** The one callback `loadData` invokes. */
  datatype Callback = Failure(error: LoadError) | Success(data: Data)

  /** A status in `200..<300`. */
  predicate IsSuccessStatus(status: int) {
    200 <= status < 300
  }

  /** The guard chain of `loadData`'s completion handler. */
  function Classify(response: Response): (r: Callback)
    ensures response.transportError.Some? ==> r == Failure(TransportError(response.transportError.value))
    ensures response.transportError.None? && response.httpStatus.None? ==>
      r == Failure(Download(InvalidResponseType))
    ensures response.transportError.None? && response.httpStatus.Some? && !IsSuccessStatus(response.httpStatus.value) ==>
      r == Failure(Download(InvalidResponseCode(response.httpStatus.value)))
    ensures r == Failure(Download(NoDataReturned)) <==>
      response.transportError.None? && response.httpStatus.Some? && IsSuccessStatus(response.httpStatus.value)
      && response.body.None?
    ensures r == Failure(Download(EmptyDataReturned)) <==>
      response.transportError.None? && response.httpStatus.Some? && IsSuccessStatus(response.httpStatus.value)
      && response.body == Some([])
    ensures r.Success? <==>
      response.transportError.None? && response.httpStatus.Some? && IsSuccessStatus(response.httpStatus.value)
      && response.body.Some? && response.body.value != []
    ensures r.Success? ==> r.data == response.body.value
  {
    if response.transportError.Some? then Failure(TransportError(response.transportError.value))
    else if response.httpStatus.None? then Failure(Download(InvalidResponseType))
    else if !IsSuccessStatus(response.httpStatus.value) then Failure(Download(InvalidResponseCode(response.httpStatus.value)))
    else if response.body.None? then Failure(Download(NoDataReturned))
    else if response.body.value == [] then Failure(Download(EmptyDataReturned))
    else Success(response.body.value)
  }

  /** A status code error carries the status it was raised for, so two responses that fail
      on their status fail differently exactly when their statuses differ. */
  lemma StatusErrorsIdentifyTheStatus(a: Response, b: Response)
    requires a.transportError.None? && a.httpStatus.Some? && !IsSuccessStatus(a.httpStatus.value)
    requires b.transportError.None? && b.httpStatus.Some? && !IsSuccessStatus(b.httpStatus.value)
    ensures Classify(a) == Classify(b) <==> a.httpStatus == b.httpStatus
  {
  }
}
