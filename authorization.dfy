/** The authorization manager (package `authorization`): six calls to the
    service's authorization endpoints. Each builds a request record that
    carries the manager's application key, posts it as JSON to the host
    followed by the endpoint's path, and maps the reply onto a result and
    an error. The transport and the JSON decoder are outside the model:
    each call receives the `Reply` they produced. */
module Authorization {
  import opened Errors
  import opened Core
  import Processor
  import Requester

  const ContentJson := "application/json"
  const ValidateApplicationSuffix := "/api/authorization/validateapplication"
  const AuthenticateUserSuffix := "/api/authorization/authenticate"
  const IsUserInRolesSuffix := "/api/authorization/isuserinroles"
  const ValidateTokenSuffix := "/api/authorization/validateToken"
  const RenewTokenSuffix := "/api/authorization/renewtoken"
  const RecoverPasswordSuffix := "/api/authorization/recoverPassword"

  /** The token lifetime a login asks for when the caller gives none. */
  const DefaultExpirationInMinutes := 15

  /** The request records, one per endpoint. */
  datatype Request =
    | AuthenticateUserRequest(applicationKey: string, tokenExpirationInMinutes: int, email: string, password: string)
    | RecoverPasswordRequest(applicationKey: string, email: string)
    | ValidateTokenRequest(applicationKey: string, token: string)
    | IsUserInRolesRequest(applicationKey: string, userKey: string, roleCollection: seq<string>)
    | RenewTokenRequest(applicationKey: string, token: string)
    | ValidateApplicationRequest(applicationKey: string, clientApplicationKey: string, rawData: string, encryptedData: string)

  /** The POST a call makes: where to, with which content type, and the
      record it encodes as the body. */
  datatype HttpPost = HttpPost(url: string, contentType: string, body: Request)

  /** One message of a login report. */
  datatype LoginOperationReport = LoginOperationReport(field: string, message: string)

  datatype AuthenticateUserResponse = AuthenticateUserResponse(
    authenticationToken: string,
    tokenExpirationInMinutes: int,
    userKey: string,
    name: string,
    success: bool,
    operationReport: seq<LoginOperationReport>)

  datatype RenewTokenResponse = RenewTokenResponse(newToken: string, expirationInMinutes: int, base: Response)

  /** What a call returns: the POST it made, its result and its error. */
  datatype Outcome<T> = Outcome(sent: HttpPost, value: T, err: Option<Error>)

  /** The status check each call that has one writes out inline. */
  function InlineStatusError(status: int): (err: Option<Error>)
    ensures err.None? <==> IsSuccessStatus(status)
    ensures err.Some? ==> err.value == StatusError(status)
  {
    if status < 200 || status >= 300 then Some(GlobalIdentityError([Decimal(status)])) else None
  }

  /** The three copies of the 2xx filter decide alike and give the same error. */
  lemma StatusFiltersAgree(status: int, decodeResult: Option<Error>)
    ensures Processor.Process(status, decodeResult)
         == Requester.ProcessResponse(Requester.RawResponse(status))
         == InlineStatusError(status)
  {
  }

  datatype Manager = Manager(applicationKey: string, globalIdentityHost: string) {

    /** Logs a user in. The first of `expirationInMinutes` is the lifetime
        asked for, 15 when none is given. No status check is made: a body
        that decodes is used whatever the status. */
    method AuthenticateUser(email: string, password: string, expirationInMinutes: seq<int>, reply: Reply<AuthenticateUserResponse>)
      returns (sent: HttpPost, auth: Option<Authorization>, err: Option<Error>)
      ensures sent.url == globalIdentityHost + AuthenticateUserSuffix && sent.contentType == ContentJson
      ensures sent.body.AuthenticateUserRequest?
      ensures sent.body.applicationKey == applicationKey
      ensures sent.body.email == email && sent.body.password == password
      ensures sent.body.tokenExpirationInMinutes
           == if |expirationInMinutes| == 0 then DefaultExpirationInMinutes else expirationInMinutes[0]
      ensures reply.TransportFailure? ==> auth.None? && err == Some(reply.err)
      ensures reply.Received? && reply.body.DecodeFailure? ==> auth.None? && err == Some(reply.body.err)
      ensures reply.Received? && reply.body.Decoded? ==>
        var r := reply.body.value;
        && auth == Some(Authorization(r.authenticationToken, r.userKey))
        && (err.None? <==> r.success)
        && (err.Some? ==>
              && err.value.GlobalIdentityError?
              && |err.value.messages| == |r.operationReport|
              && forall i :: 0 <= i < |r.operationReport| ==> err.value.messages[i] == r.operationReport[i].message)
    {
      var expirations := expirationInMinutes + [DefaultExpirationInMinutes];
      sent := HttpPost(globalIdentityHost + AuthenticateUserSuffix, ContentJson,
                       AuthenticateUserRequest(applicationKey, expirations[0], email, password));
      if reply.TransportFailure? {
        return sent, None, Some(reply.err);
      }
      if reply.body.DecodeFailure? {
        return sent, None, Some(reply.body.err);
      }
      var response := reply.body.value;
      err := None;
      if !response.success {
        var messages: seq<string> := [];
        for i := 0 to |response.operationReport|
          invariant |messages| == i
          invariant forall k :: 0 <= k < i ==> messages[k] == response.operationReport[k].message
        {
          messages := messages + [response.operationReport[i].message];
        }
        err := Some(GlobalIdentityError(messages));
      }
      auth := Some(Authorization(response.authenticationToken, response.userKey));
    }

    /** Asks for a password-recovery mail. The error is decided by a
        non-empty report, not by the success flag, which is returned as
        the result. */
    function RecoverPassword(email: string, reply: Reply<Response>): (r: Outcome<bool>)
      ensures r.sent == HttpPost(globalIdentityHost + RecoverPasswordSuffix, ContentJson, RecoverPasswordRequest(applicationKey, email))
      ensures reply.TransportFailure? ==> !r.value && r.err == Some(reply.err)
      ensures reply.Received? && !IsSuccessStatus(reply.status) ==> !r.value && r.err == Some(StatusError(reply.status))
      ensures reply.Received? && IsSuccessStatus(reply.status) && reply.body.DecodeFailure? ==>
        !r.value && r.err == Some(reply.body.err)
      ensures reply.Received? && IsSuccessStatus(reply.status) && reply.body.Decoded? ==>
        var response := reply.body.value;
        && r.value == response.success
        && (r.err.None? <==> response.operationReport == [])
        && (r.err.Some? ==> r.err.value == GlobalIdentityError(response.operationReport))
    {
      var sent := HttpPost(globalIdentityHost + RecoverPasswordSuffix, ContentJson, RecoverPasswordRequest(applicationKey, email));
      match reply
      case TransportFailure(e) => Outcome(sent, false, Some(e))
      case Received(status, body) =>
        if status < 200 || status >= 300 then
          Outcome(sent, false, Some(GlobalIdentityError([Decimal(status)])))
        else
          match body
          case DecodeFailure(e) => Outcome(sent, false, Some(e))
          case Decoded(response) =>
            var err := if |response.operationReport| > 0 then Some(GlobalIdentityError(response.operationReport)) else None;
            Outcome(sent, response.success, err)
    }

    /** The mapping shared by the calls that answer yes or no with a base
        response: false and the error on any failure before the body is
        read; otherwise the success flag, with the report as the error
        exactly when the flag is false. */
    function Answer(sent: HttpPost, reply: Reply<Response>): (r: Outcome<bool>)
      ensures r.sent == sent
      ensures r.err.None? <==> r.value
      ensures reply.TransportFailure? ==> r.err == Some(reply.err)
      ensures reply.Received? && !IsSuccessStatus(reply.status) ==> r.err == Some(StatusError(reply.status))
      ensures reply.Received? && IsSuccessStatus(reply.status) && reply.body.DecodeFailure? ==> r.err == Some(reply.body.err)
      ensures reply.Received? && IsSuccessStatus(reply.status) && reply.body.Decoded? ==>
        && r.value == reply.body.value.success
        && (r.err.Some? ==> r.err.value == GlobalIdentityError(reply.body.value.operationReport))
    {
      match reply
      case TransportFailure(e) => Outcome(sent, false, Some(e))
      case Received(status, body) =>
        if status < 200 || status >= 300 then
          Outcome(sent, false, Some(GlobalIdentityError([Decimal(status)])))
        else
          match body
          case DecodeFailure(e) => Outcome(sent, false, Some(e))
          case Decoded(response) => Outcome(sent, response.success, response.Validate())
    }

    /** Checks that a token is still valid. */
    function ValidateToken(token: string, reply: Reply<Response>): (r: Outcome<bool>)
      ensures r.sent == HttpPost(globalIdentityHost + ValidateTokenSuffix, ContentJson, ValidateTokenRequest(applicationKey, token))
      ensures r.err.None? <==> r.value
      ensures reply.TransportFailure? ==> r.err == Some(reply.err)
      ensures reply.Received? && !IsSuccessStatus(reply.status) ==> r.err == Some(StatusError(reply.status))
      ensures reply.Received? && IsSuccessStatus(reply.status) && reply.body.DecodeFailure? ==> r.err == Some(reply.body.err)
      ensures reply.Received? && IsSuccessStatus(reply.status) && reply.body.Decoded? ==>
        r.value == reply.body.value.success && r.err == reply.body.value.Validate()
    {
      Answer(HttpPost(globalIdentityHost + ValidateTokenSuffix, ContentJson, ValidateTokenRequest(applicationKey, token)), reply)
    }

    /** Checks that a user holds the given roles. */
    function IsUserInRoles(userKey: string, roles: seq<string>, reply: Reply<Response>): (r: Outcome<bool>)
      ensures r.sent == HttpPost(globalIdentityHost + IsUserInRolesSuffix, ContentJson, IsUserInRolesRequest(applicationKey, userKey, roles))
      ensures r.err.None? <==> r.value
      ensures reply.TransportFailure? ==> r.err == Some(reply.err)
      ensures reply.Received? && !IsSuccessStatus(reply.status) ==> r.err == Some(StatusError(reply.status))
      ensures reply.Received? && IsSuccessStatus(reply.status) && reply.body.DecodeFailure? ==> r.err == Some(reply.body.err)
      ensures reply.Received? && IsSuccessStatus(reply.status) && reply.body.Decoded? ==>
        r.value == reply.body.value.success && r.err == reply.body.value.Validate()
    {
      Answer(HttpPost(globalIdentityHost + IsUserInRolesSuffix, ContentJson, IsUserInRolesRequest(applicationKey, userKey, roles)), reply)
    }

    /** Checks a client application's signature over some data. */
    function ValidateApplication(clientApplicationKey: string, rawData: string, encryptedData: string, reply: Reply<Response>): (r: Outcome<bool>)
      ensures r.sent == HttpPost(globalIdentityHost + ValidateApplicationSuffix, ContentJson,
                                 ValidateApplicationRequest(applicationKey, clientApplicationKey, rawData, encryptedData))
      ensures r.err.None? <==> r.value
      ensures reply.TransportFailure? ==> r.err == Some(reply.err)
      ensures reply.Received? && !IsSuccessStatus(reply.status) ==> r.err == Some(StatusError(reply.status))
      ensures reply.Received? && IsSuccessStatus(reply.status) && reply.body.DecodeFailure? ==> r.err == Some(reply.body.err)
      ensures reply.Received? && IsSuccessStatus(reply.status) && reply.body.Decoded? ==>
        r.value == reply.body.value.success && r.err == reply.body.value.Validate()
    {
      Answer(HttpPost(globalIdentityHost + ValidateApplicationSuffix, ContentJson,
                      ValidateApplicationRequest(applicationKey, clientApplicationKey, rawData, encryptedData)), reply)
    }

    /** Exchanges a token for a new one. A failure before the body is read
        gives the empty token; a decoded body gives its new token even when
        its success flag is false, together with the report as the error. */
    function RenewToken(token: string, reply: Reply<RenewTokenResponse>): (r: Outcome<string>)
      ensures r.sent == HttpPost(globalIdentityHost + RenewTokenSuffix, ContentJson, RenewTokenRequest(applicationKey, token))
      ensures reply.TransportFailure? ==> r.value == "" && r.err == Some(reply.err)
      ensures reply.Received? && !IsSuccessStatus(reply.status) ==> r.value == "" && r.err == Some(StatusError(reply.status))
      ensures reply.Received? && IsSuccessStatus(reply.status) && reply.body.DecodeFailure? ==>
        r.value == "" && r.err == Some(reply.body.err)
      ensures reply.Received? && IsSuccessStatus(reply.status) && reply.body.Decoded? ==>
        var response := reply.body.value;
        && r.value == response.newToken
        && (r.err.None? <==> response.base.success)
        && (r.err.Some? ==> r.err.value == GlobalIdentityError(response.base.operationReport))
    {
      var sent := HttpPost(globalIdentityHost + RenewTokenSuffix, ContentJson, RenewTokenRequest(applicationKey, token));
      match reply
      case TransportFailure(e) => Outcome(sent, "", Some(e))
      case Received(status, body) =>
        if status < 200 || status >= 300 then
          Outcome(sent, "", Some(GlobalIdentityError([Decimal(status)])))
        else
          match body
          case DecodeFailure(e) => Outcome(sent, "", Some(e))
          case Decoded(response) => Outcome(sent, response.newToken, response.base.Validate())
    }
  }

  /** `RecoverPassword` and `ValidateToken` part ways on the same decoded
      body: a failure with an empty report is no error for the first and
      an error for the second; a success with a report is an error for the
      first and none for the second. */
  lemma RecoverPasswordDecidesOnReport(m: Manager, email: string, token: string, status: int)
    requires IsSuccessStatus(status)
    ensures var quiet := Received(status, Decoded(Response(false, [])));
            m.RecoverPassword(email, quiet).err.None? && !m.RecoverPassword(email, quiet).value
            && m.ValidateToken(token, quiet).err == Some(GlobalIdentityError([]))
    ensures var noisy := Received(status, Decoded(Response(true, ["notice"])));
            m.RecoverPassword(email, noisy).err == Some(GlobalIdentityError(["notice"])) && m.RecoverPassword(email, noisy).value
            && m.ValidateToken(token, noisy).err.None?
  {
  }
}
