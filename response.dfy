/** The shared request/response contract of the GlobalIdentity client
    (package `globalidentity`): the base response every endpoint decodes,
    its `Validate` convention, the plain records handed back to callers,
    the 2xx status rule, and the shape in which the model receives what
    the HTTP transport and the JSON decoder produced. */
module Core {
  import opened Errors

  /** The base response: a success flag and the service's messages. */
  datatype Response = Response(success: bool, operationReport: seq<string>) {

    /** No error exactly when the flag is set; otherwise the report, as
        it stands, becomes the error (an empty report still gives an
        error, with no messages). */
    function Validate(): (err: Option<Error>)
      ensures err.None? <==> success
      ensures err.Some? ==> err.value == GlobalIdentityError(operationReport)
    {
      if !success then Some(GlobalIdentityError(operationReport)) else None
    }
  }

  /** The token and user key handed back by a login. */
  datatype Authorization = Authorization(token: string, key: string)

  /** A role as handed back to callers. */
  datatype Role = Role(name: string, description: string, active: bool)

  /** The status range every filter in the package accepts. */
  predicate IsSuccessStatus(status: int) {
    200 <= status < 300
  }

  /** The error every status filter returns: one message, the status
      code in decimal. */
  function StatusError(status: int): (e: Error)
    ensures e.GlobalIdentityError? && |e.messages| == 1
  {
    GlobalIdentityError([Decimal(status)])
  }

  /** The one message of a status error names the status it came from. */
  lemma StatusErrorNamesStatus(status: int)
    ensures ParseDecimal(StatusError(status).messages[0]) == Some(status)
  {
    DecimalRoundTrip(status);
  }

  /** What the JSON decoder made of a body: the decoded record, or the
      decoder's error. */
  datatype Decoded<T> = Decoded(value: T) | DecodeFailure(err: Error)

  /** What one HTTP call produced: the transport's error, or a status
      code together with what decoding its body gives. */
  datatype Reply<T> = TransportFailure(err: Error) | Received(status: int, body: Decoded<T>)

  /** Two responses that differ only in their report validate alike as
      long as both succeed: the report is ignored on success. */
  lemma ValidateIgnoresReportOnSuccess(r: Response, s: Response)
    requires r.success && s.success
    ensures r.Validate() == s.Validate() == None
  {
  }

  /** A failed response keeps every message of its report, in order. */
  lemma ValidateKeepsReport(r: Response)
    requires !r.success
    ensures r.Validate().Some? && |r.Validate().value.messages| == |r.operationReport|
    ensures forall i :: 0 <= i < |r.operationReport| ==>
      r.Validate().value.messages[i] == r.operationReport[i]
  {
  }
}
