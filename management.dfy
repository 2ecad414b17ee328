/** The management manager (package `management`): the one call that
    lists a user's roles in an application. It GETs the roles URL with
    the manager's API key as a bearer token, runs the response processor
    on the reply, validates the base response and copies each role it
    received into a caller-side `Role`. */
module Management {
  import opened Errors
  import opened Core
  import Processor
  import GoFormat

  const ContentJson := "application/json"

  const ManagementPath := "/api/management/"
  const UsersPath := "/users/"
  const RolesPath := "/roles"

  /** The path of the roles listing, `/api/management/%s/users/%s/roles`,
      as a format with two `%s` verbs: the application key, then the
      user's email. */
  const ListUserRoles := ManagementPath + ("%s" + (UsersPath + ("%s" + RolesPath)))

  /** A role as the service sends it. */
  datatype RoleRecord = RoleRecord(roleName: string, description: string, active: bool)

  /** The record the roles reply is decoded into. It embeds the base
      response through a pointer: `base` is `None` while that pointer is
      nil, which it stays unless the body sets `Success` or
      `OperationReport`. */
  datatype RolesResponse = RolesResponse(roles: seq<RoleRecord>, base: Option<Response>)

  /** The record as freshly allocated, before anything is decoded. */
  const EmptyRolesResponse := RolesResponse([], None)

  /** The record after the processor has decoded the body into it: what
      the decoder produced, or, when the body did not decode, the record
      as allocated (the decoder rejects malformed text before it assigns
      any field). */
  function DecodedInto(body: Decoded<RolesResponse>): (t: RolesResponse)
    ensures body.DecodeFailure? ==> t == EmptyRolesResponse
    ensures body.Decoded? ==> t == body.value
  {
    match body
    case Decoded(v) => v
    case DecodeFailure(_) => EmptyRolesResponse
  }

  /** A computation that either returns a value or stops the program
      with a run-time panic. */
  datatype Run<T> = Returned(value: T) | Panicked

  /** `response.Validate()` on the decoded record as the code has it:
      the method is promoted from the embedded pointer, so with the
      pointer nil it dereferences nil. */
  function ValidateRolesAsWritten(t: RolesResponse): (r: Run<Option<Error>>)
    ensures r.Panicked? <==> t.base.None?
    ensures r.Returned? ==> r.value == t.base.value.Validate()
  {
    match t.base
    case None => Panicked
    case Some(b) => Returned(b.Validate())
  }

  /** The validation the call evidently intends: a record whose base was
      never set validates as the zero base response (flag false, empty
      report), which is what embedding the base by value would give. */
  function ValidateRoles(t: RolesResponse): (err: Option<Error>)
    ensures t.base.Some? ==> err == t.base.value.Validate()
    ensures t.base.None? ==> err == Some(GlobalIdentityError([]))
  {
    match t.base
    case None => Response(false, []).Validate()
    case Some(b) => b.Validate()
  }

  /** A 2xx reply whose body does not decode (the service's plain-text
      "mock" answer, say) makes the code as written panic; the corrected
      validation reports an error instead. */
  lemma UndecodableRolesBodyPanics(e: Error)
    ensures ValidateRolesAsWritten(DecodedInto(DecodeFailure(e))).Panicked?
    ensures ValidateRoles(DecodedInto(DecodeFailure(e))).Some?
  {
  }

  /** Wherever the code as written does not panic, the corrected
      validation gives the same answer. */
  lemma ValidateRolesAgreesWhenBaseSet(t: RolesResponse)
    ensures ValidateRolesAsWritten(t).Returned? ==> ValidateRolesAsWritten(t).value == ValidateRoles(t)
  {
  }

  /** The host ends in `%s` and has no other `%`. */
  predicate EndsInVerb(host: string) {
    |host| >= 2 && host[|host| - 2..] == "%s" && '%' !in host[..|host| - 2]
  }

  /** The host without its final `%s`. */
  function HostBeforeVerb(host: string): string
    requires EndsInVerb(host)
  {
    host[..|host| - 2]
  }

  /** The fixed pieces of the roles path hold no `%`. */
  lemma PathPiecesPlain()
    ensures '%' !in ManagementPath && '%' !in UsersPath && '%' !in RolesPath
  {
  }

  /** The roles path formatted after a host without `%`. */
  lemma RolesFormatPlain(h: string, key: string, email: string)
    requires '%' !in h
    ensures GoFormat.Supported(h + ListUserRoles)
    ensures GoFormat.Sprintf(h + ListUserRoles, [key, email])
         == h + (ManagementPath + (key + (UsersPath + (email + RolesPath))))
  {
    PathPiecesPlain();
    GoFormat.FormatTwo(h, ManagementPath, UsersPath, RolesPath, key, email);
  }

  /** The roles path formatted after a host that ends in `%s`. */
  lemma RolesFormatShifted(h: string, key: string, email: string)
    requires '%' !in h
    ensures GoFormat.Supported((h + "%s") + ListUserRoles)
    ensures GoFormat.Sprintf((h + "%s") + ListUserRoles, [key, email])
         == h + (key + (ManagementPath + (email + (UsersPath + ("%!s(MISSING)" + RolesPath)))))
  {
    assert (h + "%s") + ListUserRoles
        == h + ("%s" + (ManagementPath + ("%s" + (UsersPath + ("%s" + RolesPath)))));
    PathPiecesPlain();
    GoFormat.FormatTwoShifted(h, ManagementPath, UsersPath, RolesPath, key, email);
  }

  /** The GET the call makes: where to and with which headers. */
  datatype HttpGet = HttpGet(url: string, headers: map<string, string>)

  datatype Manager = Manager(applicationKey: string, apiKey: string, globalIdentityHost: string) {

    /** The headers of every management request: JSON in both directions
        and the API key as a bearer token. */
    function RequestOptions(): (headers: map<string, string>)
      ensures headers.Keys == {"Accept", "Authorization", "Content-Type"}
      ensures headers["Accept"] == ContentJson && headers["Content-Type"] == ContentJson
      ensures headers["Authorization"] == "bearer " + apiKey
    {
      map["Accept" := ContentJson, "Authorization" := "bearer " + apiKey, "Content-Type" := ContentJson]
    }

    /** The roles URL as the code builds it: the host is glued to the
        format before formatting, so a `%` in the host is read as a verb.
        A host without `%` gives the intended URL; a host that ends in
        `%s` takes the application key as its operand, the email lands
        where the key belongs and the email's own verb is marked missing. */
    function RolesUrlAsWritten(email: string): (url: string)
      requires GoFormat.Supported(globalIdentityHost + ListUserRoles)
      ensures '%' !in globalIdentityHost ==> url == RolesUrl(email)
      ensures EndsInVerb(globalIdentityHost) ==>
        url == HostBeforeVerb(globalIdentityHost)
          + (applicationKey + (ManagementPath + (email + (UsersPath + ("%!s(MISSING)" + RolesPath)))))
    {
      var f := globalIdentityHost + ListUserRoles;
      assert '%' !in globalIdentityHost ==> GoFormat.Sprintf(f, [applicationKey, email]) == RolesUrl(email) by {
        if '%' !in globalIdentityHost {
          RolesFormatPlain(globalIdentityHost, applicationKey, email);
        }
      }
      assert EndsInVerb(globalIdentityHost) ==>
        GoFormat.Sprintf(f, [applicationKey, email])
          == HostBeforeVerb(globalIdentityHost)
            + (applicationKey + (ManagementPath + (email + (UsersPath + ("%!s(MISSING)" + RolesPath))))) by {
        if EndsInVerb(globalIdentityHost) {
          assert globalIdentityHost == HostBeforeVerb(globalIdentityHost) + "%s";
          RolesFormatShifted(HostBeforeVerb(globalIdentityHost), applicationKey, email);
        }
      }
      GoFormat.Sprintf(f, [applicationKey, email])
    }

    /** The roles URL as evidently intended: the host, taken literally
        whatever it holds, then the path with the application key and the
        email in place and nothing marked or dropped. */
    function RolesUrl(email: string): (url: string)
      ensures |url| == |globalIdentityHost| + |applicationKey| + |email| + |ListUserRoles| - 4
      ensures url[..|globalIdentityHost|] == globalIdentityHost
    {
      globalIdentityHost + (ManagementPath + (applicationKey + (UsersPath + (email + RolesPath))))
    }

    /** Lists the roles of the user with the given email. A transport,
        status or validation failure gives no roles and the error; a
        success gives one role per role received, in order, and no error. */
    method UserRoles(email: string, reply: Reply<RolesResponse>)
      returns (sent: HttpGet, roles: array?<Role>, err: Option<Error>)
      ensures sent.url == RolesUrl(email)
      ensures sent.headers == RequestOptions()
      ensures roles == null <==> err.Some?
      ensures roles != null ==> fresh(roles)
      ensures reply.TransportFailure? ==> err == Some(reply.err)
      ensures reply.Received? && !IsSuccessStatus(reply.status) ==> err == Some(StatusError(reply.status))
      ensures reply.Received? && IsSuccessStatus(reply.status) ==> err == ValidateRoles(DecodedInto(reply.body))
      ensures roles != null ==>
        && reply.Received?
        && var received := DecodedInto(reply.body).roles;
        && roles.Length == |received|
        && forall i :: 0 <= i < roles.Length ==>
             roles[i] == Role(received[i].roleName, received[i].description, received[i].active)
    {
      sent := HttpGet(RolesUrl(email), RequestOptions());
      if reply.TransportFailure? {
        return sent, null, Some(reply.err);
      }
      var decodeResult := if reply.body.DecodeFailure? then Some(reply.body.err) else None;
      var response := DecodedInto(reply.body);
      err := Processor.Process(reply.status, decodeResult);
      if err.Some? {
        return sent, null, err;
      }
      err := ValidateRoles(response);
      if err.Some? {
        return sent, null, err;
      }
      var a := new Role[|response.roles|];
      for i := 0 to |response.roles|
        invariant forall k :: 0 <= k < i ==>
          a[k] == Role(response.roles[k].roleName, response.roles[k].description, response.roles[k].active)
      {
        a[i] := Role(response.roles[i].roleName, response.roles[i].description, response.roles[i].active);
      }
      roles := a;
    }
  }

  /** For a host without `%`, formatting gives the intended URL, whatever
      the application key and the email hold. */
  lemma RolesUrlAsWrittenWithoutPercent(m: Manager, email: string)
    requires '%' !in m.globalIdentityHost
    ensures GoFormat.Supported(m.globalIdentityHost + ListUserRoles)
    ensures m.RolesUrlAsWritten(email) == m.RolesUrl(email)
  {
    RolesFormatPlain(m.globalIdentityHost, m.applicationKey, email);
  }

  /** A host that ends in `%s` takes the application key as its operand:
      the email lands where the key belongs and the email's own verb is
      marked as missing, so the URL never is the intended one. */
  lemma PercentInHostCorruptsRolesUrl(m: Manager, email: string, h: string)
    requires '%' !in h && m.globalIdentityHost == h + "%s"
    ensures GoFormat.Supported(m.globalIdentityHost + ListUserRoles)
    ensures m.RolesUrlAsWritten(email)
         == h + (m.applicationKey + (ManagementPath + (email + (UsersPath + ("%!s(MISSING)" + RolesPath)))))
    ensures m.RolesUrlAsWritten(email) != m.RolesUrl(email)
  {
    RolesFormatShifted(h, m.applicationKey, email);
    assert m.globalIdentityHost[..|h|] == h && m.globalIdentityHost[|h|..] == "%s";
    assert EndsInVerb(m.globalIdentityHost) && HostBeforeVerb(m.globalIdentityHost) == h;
    assert |m.RolesUrlAsWritten(email)| == |m.RolesUrl(email)| + 10;
  }

  /** A host whose last character is `%` cannot be formatted by the part
      of `fmt` modelled here: that `%` meets the `/` of the path. */
  lemma PercentBeforePathUnsupported(h: string)
    requires '%' !in h
    ensures !GoFormat.Supported(h + ("%" + ListUserRoles))
  {
    GoFormat.ScanLiteral(h, "%" + ListUserRoles, []);
    assert ("%" + ListUserRoles)[1] == '/';
  }
}
