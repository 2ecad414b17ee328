/** The response processor: the status check that `UserRoles` runs on a
    response before it looks at the decoded body. */
module Processor {
  import opened Errors
  import opened Core

  /** `status` is the response's status code. `decodeResult` is what the
      JSON decoder returned when the processor decoded the body into the
      caller's record (which it does only for a 2xx status); the
      processor drops it. */
  function Process(status: int, decodeResult: Option<Error>): (err: Option<Error>)
    ensures err.None? <==> IsSuccessStatus(status)
    ensures err.Some? ==> err.value == GlobalIdentityError([Decimal(status)])
  {
    if status < 200 || status >= 300 then
      Some(GlobalIdentityError([Decimal(status)]))
    else
      None
  }

  /** A failed decode of the body goes unreported: the outcome depends on
      the status alone. */
  lemma ProcessDiscardsDecodeResult(status: int, d: Option<Error>, e: Option<Error>)
    ensures Process(status, d) == Process(status, e)
  {
  }

  /** Every status below 200 or from 300 on (the boundary 300 included)
      is rejected with exactly one message, from which the status can be
      read back. */
  lemma ProcessRejectsOutsideRange(status: int, d: Option<Error>)
    requires status < 200 || status >= 300
    ensures Process(status, d).Some?
    ensures |Process(status, d).value.messages| == 1
    ensures ParseDecimal(Process(status, d).value.messages[0]) == Some(status)
  {
    DecimalRoundTrip(status);
  }
}
