/** The requester: GET and POST through the HTTP transport, followed by
    its own copy of the 2xx status check. */
module Requester {
  import opened Errors
  import opened Core

  /** The part of a transport response the requester inspects. */
  datatype RawResponse = RawResponse(statusCode: int)

  /** The wrapper handed back to the caller around the transport's
      response (absent when the transport produced none). */
  datatype HttpResponse = HttpResponse(response: Option<RawResponse>)

  /** What the transport call returned: a response, an error, or both. */
  datatype Exchange = Exchange(response: Option<RawResponse>, err: Option<Error>)

  /** The transport always produces a response when it reports no error. */
  predicate Delivered(x: Exchange) {
    x.err.None? ==> x.response.Some?
  }

  function ProcessResponse(resp: RawResponse): (err: Option<Error>)
    ensures err.None? <==> IsSuccessStatus(resp.statusCode)
    ensures err.Some? ==> err.value == StatusError(resp.statusCode)
  {
    if resp.statusCode < 200 || resp.statusCode >= 300 then
      Some(GlobalIdentityError([Decimal(resp.statusCode)]))
    else
      None
  }

  /** The step shared by `Post` and `Get` once the transport has answered. */
  function Finish(x: Exchange): (r: (HttpResponse, Option<Error>))
    requires Delivered(x)
    ensures r.0 == HttpResponse(x.response)
    ensures x.err.Some? ==> r.1 == x.err
    ensures x.err.None? ==> (r.1.None? <==> IsSuccessStatus(x.response.value.statusCode))
    ensures x.err.None? && r.1.Some? ==> r.1.value == StatusError(x.response.value.statusCode)
  {
    var err := if x.err.None? then ProcessResponse(x.response.value) else x.err;
    (HttpResponse(x.response), err)
  }

  /** A POST whose transport call returned `x`: a transport error is
      passed on unchanged and skips the status check; the wrapper is
      returned in every case. */
  function Post(x: Exchange): (r: (HttpResponse, Option<Error>))
    requires Delivered(x)
    ensures r.0 == HttpResponse(x.response)
    ensures x.err.Some? ==> r.1 == x.err
    ensures x.err.None? ==> r.1 == ProcessResponse(x.response.value)
  {
    Finish(x)
  }

  /** A GET whose transport call returned `x`; it decides like `Post`. */
  function Get(x: Exchange): (r: (HttpResponse, Option<Error>))
    requires Delivered(x)
    ensures r.0 == HttpResponse(x.response)
    ensures x.err.Some? ==> r.1 == x.err
    ensures x.err.None? ==> r.1 == ProcessResponse(x.response.value)
  {
    Finish(x)
  }
}
