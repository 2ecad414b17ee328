# GlobalIdentity client: response classification

A Dafny model of the response-classification layer of `globalidentity-go`,
the Go client of the GlobalIdentity identity and authorization service.
Each call of the client sends a request, then turns the HTTP status code
and the decoded JSON body of the reply into a `(result, error)` pair. The
model covers:

- the shared success contract `Response.Validate` (a `Success` flag plus
  an `OperationReport` list that becomes a `GlobalIdentityError`);
- the three copies of the 2xx status filter (the response processor, the
  requester, and the inline checks of the authorization calls), and the
  requester's `Post`/`Get` decision flow;
- the six authorization calls: the request each one sends and how it maps
  the reply, including the default token lifetime of 15 minutes, the login
  report messages, `RecoverPassword` deciding on a non-empty report, and
  the values returned together with an error;
- the management call `UserRoles`: its URL, its headers, its error
  propagation and its role mapping.

The HTTP transport and the JSON decoder are not modelled. Each call
receives what they produced as an input: `Core.Reply<T>` is either the
transport's error or a status code together with the decoded record or
the decoder's error. The requester receives the transport's
`(response, error)` pair as a `Requester.Exchange`. Errors from outside
the model are `ForeignError` values, and the calls pass them on unchanged.
A `GlobalIdentityError` is its list of messages (`seq<string>`). A Go
`nil` result is `None`, or `null` for the roles array.

Files: `errors.dfy` (module `Errors`: `Option`, `Error`, Go's decimal
rendering of an int), `response.dfy` (`Core`), `processor.dfy`
(`Processor`), `requester.dfy` (`Requester`), `format.dfy` (`GoFormat`: the
part of `fmt.Sprintf` the roles URL uses), `authorization.dfy`
(`Authorization`), `management.dfy` (`Management`).

`AuthenticateUser` and `UserRoles` build their results in loops, so they
are methods with loop invariants. `AuthenticateUser` collects the report
messages. `UserRoles` fills a freshly allocated `array<Role>` by index.
Everything else is a function on values. That includes `Validate`, which
therefore cannot change the response it inspects.

`AuthenticateUser` has no status check, unlike the other five
authorization calls. If the body decodes, it is used whatever the status.
The contract of `Authorization.Manager.AuthenticateUser` does not mention
the status.

## Model

| member | source | states |
|---|---|---|
| `Errors.Decimal` | requester.go:45 | Go's `%d` rendering of an int: never empty, and it starts with a digit exactly when the value is not negative |
| `Errors.DecimalRoundTrip` | processor.go:17 | the decimal text can be read back to the status code it was made from |
| `Core.Response.Validate` | response.go:10-16 | no error exactly when `Success` is true, whatever the report holds; otherwise the error is `GlobalIdentityError(OperationReport)` exactly, an empty report included |
| `Core.ValidateKeepsReport` | response.go:11-12 | a failed response, whatever its report, empty included, gives an error with as many messages as the report, each equal to the report's message at the same index |
| `Core.ValidateIgnoresReportOnSuccess` | response.go:11-15 | two succeeding responses validate alike (no error), whatever their reports |
| `Core.StatusError` | requester.go:45 | the status error is a `GlobalIdentityError` with exactly one message |
| `Core.StatusErrorNamesStatus` | processor.go:16-17 | the one message of a status error reads back as the status code |
| `Processor.Process` | processor.go:14-22 | no error exactly for statuses in [200, 300); otherwise one message, the status in decimal |
| `Processor.ProcessDiscardsDecodeResult` | processor.go:20-21 | the outcome does not depend on whether the body decoded |
| `Processor.ProcessRejectsOutsideRange` | processor.go:16-17 | every status below 200 or from 300 on, 300 included, is rejected with exactly one message that reads back as the status |
| `Requester.ProcessResponse` | requester.go:42-49 | no error exactly for statuses in [200, 300); otherwise the one-message status error |
| `Requester.Finish` | requester.go:26-30 | the wrapper is always the transport's response; a transport error is returned unchanged; with no transport error, the error is absent exactly for a 2xx status and is otherwise the status error |
| `Requester.Post` | requester.go:23-31 | the wrapper is returned in every case; a transport error is passed on and skips the status check; otherwise the error is the status check's |
| `Requester.Get` | requester.go:32-40 | the same decision as `Post`, for the GET transport call |
| `GoFormat.Sprintf` | management/manager.go:30 | the formatted text followed by Go's `%!(EXTRA string=…)` note on unused operands; a format without `%` comes out unchanged, followed by that note for every operand |
| `GoFormat.Scan` | management/manager.go:30 | formatting uses no more operands than it is given |
| `GoFormat.ScanLiteral` | management/manager.go:30 | text without `%` is copied unchanged and uses no operand |
| `GoFormat.ScanVerb` | management/manager.go:30 | a `%s` takes the next operand |
| `GoFormat.ScanMissing` | management/manager.go:30 | a `%s` with no operand left is rendered `%!s(MISSING)` |
| `GoFormat.FormatTwo` | management/manager.go:30 | a format with two `%s` verbs between texts without `%` puts its two operands in place, in order, and appends nothing |
| `GoFormat.FormatTwoShifted` | management/manager.go:30 | with one more `%s` in front, the operands shift one verb to the left and the last verb is marked `%!s(MISSING)` |
| `Authorization.InlineStatusError` | authorization/manager.go:83-85 | the inline filter gives no error exactly for a 2xx status, and otherwise the one-message status error |
| `Authorization.StatusFiltersAgree` | authorization/manager.go:116-118 | the processor's, the requester's and the inline filter decide alike and give the same error |
| `Authorization.Manager.AuthenticateUser` | authorization/manager.go:30-65 | posts the manager's application key, the email and the password to host + `/api/authorization/authenticate`, asking for a lifetime of 15 when none is given and otherwise the first one given; a transport or decode error gives no authorization and that error; a decoded body gives the token and user key in every case, the error being absent exactly when `Success` is true and otherwise the report's `Message` fields in order, with the `Field` values dropped |
| `Authorization.Manager.RecoverPassword` | authorization/manager.go:67-99 | posts the application key and email; a transport, status or decode failure gives false and the error; a decoded body gives `Success` as the result, with an error exactly when the report is non-empty (the report itself), whatever `Success` is |
| `Authorization.Manager.Answer` | authorization/manager.go:116-129 | result true exactly when there is no error; false with the transport, status or decode error; for a decoded 2xx body, the result is `Success` and any error is the report |
| `Authorization.Manager.ValidateToken` | authorization/manager.go:101-130 | posts the application key and token to host + `/api/authorization/validateToken`; true exactly when there is no error; `(false, [status])` outside [200, 300); for a decoded 2xx body, `Success` with the error `Validate` gives |
| `Authorization.Manager.IsUserInRoles` | authorization/manager.go:132-162 | posts the application key, the user key and the roles; classifies the reply as `ValidateToken` does |
| `Authorization.Manager.ValidateApplication` | authorization/manager.go:195-227 | posts the application key, the client key, the raw data and the encrypted data; classifies the reply as `ValidateToken` does |
| `Authorization.Manager.RenewToken` | authorization/manager.go:164-193 | posts the application key and token; `""` with the error on a transport, status or decode failure; for a decoded 2xx body, `NewToken` even when `Success` is false, together with the report as the error exactly then |
| `Authorization.RecoverPasswordDecidesOnReport` | authorization/manager.go:94-98 | on the same decoded body, `RecoverPassword` and `ValidateToken` differ: a failure with an empty report is no error for the first and an empty error for the second; a success with a report is the reverse |
| `Management.DecodedInto` | management/manager.go:38-40 | after processing, the record is the decoded one, or, when the body did not decode, the record as allocated (no roles, nil base) |
| `Management.ValidateRolesAsWritten` | management/manager.go:44 | the code's validation panics exactly when the embedded base pointer is nil; otherwise it is the base's `Validate` |
| `Management.ValidateRoles` | management/manager.go:44-46 | corrected validation: the base's `Validate` when the base is set, and an error with no messages when it is not |
| `Management.UndecodableRolesBodyPanics` | management/manager.go:38-46 | with a 2xx body that does not decode, the code as written panics, while the corrected validation returns an error |
| `Management.ValidateRolesAgreesWhenBaseSet` | management/manager.go:44-46 | wherever the code as written does not panic, the corrected validation gives the same answer |
| `Management.Manager.RequestOptions` | management/manager.go:61-69 | exactly the headers `Accept`, `Authorization` and `Content-Type`; both content headers are `application/json`; `Authorization` is `bearer ` followed by the API key |
| `Management.Manager.RolesUrlAsWritten` | management/manager.go:30 | the URL the code formats from host + path: for a host without `%` it is the intended URL; for a host `h%s` with no other `%`, the key fills the host's verb, the email the key's place, and the email's verb is `%!s(MISSING)` |
| `Management.Manager.RolesUrl` | management/manager.go:30 | the intended URL: the host taken literally as its prefix, then the path with the key and email in place and nothing marked or dropped (its value for a `%`-free host is tied to the formatted one by `RolesUrlAsWrittenWithoutPercent`) |
| `Management.Manager.UserRoles` | management/manager.go:28-59 | GETs the roles URL with those headers; roles are null exactly when there is an error, and otherwise a newly allocated array; a transport error, a non-2xx status (one message, the decimal status) or a failed validation gives that error; on success there is one role per received role, in the same order, with `RoleName` copied to `Name` and `Description` and `Active` unchanged |
| `Management.RolesFormatPlain` | management/manager.go:30 | the roles path formatted after a host without `%`, with any key and email, is host + `/api/management/<key>/users/<email>/roles` |
| `Management.RolesFormatShifted` | management/manager.go:30 | the roles path formatted after a host `h%s` is `h<key>/api/management/<email>/users/%!s(MISSING)/roles` |
| `Management.RolesUrlAsWrittenWithoutPercent` | management/manager.go:30 | for a host without `%`, the URL built by formatting is host + `/api/management/<applicationKey>/users/<email>/roles`, whatever the key and email hold |
| `Management.PercentInHostCorruptsRolesUrl` | management/manager.go:30 | for a host ending in `%s`, the key fills the host's verb, the email fills the key's place, the email's verb is marked missing, and the URL differs from the intended one |
| `Management.PercentBeforePathUnsupported` | management/manager.go:30 | a host whose only `%` is its last character is outside the modelled part of `fmt`: that `%` is followed by the `/` of the path |

## Left out

- HTTP transport (`net/http.Post`, `grequests.Get`/`Post`, TLS, connections): it is I/O. Each call receives the transport's outcome as an input.
- JSON encoding and decoding (`ToJson`, `FromJson`, `resp.JSON`): they are calls into `encoding/json`. A decoded body is an input. `ToJson` cannot fail on the request records, which hold only strings, ints and string slices, so that error path is not modelled. The request is modelled as the record that would be encoded.
- A roles body that decodes only in part is not modelled. That happens when a field has the wrong type and `encoding/json` has already assigned other fields. A body that fails to decode leaves the record as allocated, which is what a syntax error does.
- The text of `GlobalIdentityError.Error()`: it depends on Go's `%#v` quoting. A `GlobalIdentityError` is modelled only as its list of messages. This also identifies a nil message slice with an empty one.
- `ListUsers`, `User` and the `listUsers` format: the tests call them, but they are not defined in the management manager.
- The constructors `New`: they only store their arguments. The managers are datatypes built from those arguments.
- Status codes are unbounded integers. Go's `int` width does not matter for codes.
- `Management.Manager.RolesUrlAsWritten` requires every `%` of the host to be followed by `s` or `%`. A host that ends in `%` is excluded (`PercentBeforePathUnsupported`): Go prints `%!/(string=<key>)` there and uses up the key, which is not modelled. Go's other verbs, flags and widths are not modelled either.
- `Requester.Delivered`: `Post`, `Get` and `Finish` assume that a transport call reporting no error also returned a response. The HTTP client gives that guarantee, and without it the code would dereference a nil response.
- `GoFormat.Scan`: its contract says only that it uses no more operands than it is given. What it produces is stated by `ScanLiteral`, `ScanVerb`, `ScanMissing` and the two `FormatTwo` lemmas.
- `Management.Manager.UserRoles` uses the corrected validation and the corrected URL. It does not reproduce the panic or the misformatted URL of the code as written (see Findings).

## Findings

| source | as written | input that shows it | evidently intended | confidence | as-written member | corrected member |
|---|---|---|---|---|---|---|
| management/manager.go:38-44 (with management/response.go:7) | `rolesResponse` embeds `*core.Response`. The pointer is nil unless the body sets `Success` or `OperationReport`, and `response.Validate()` then dereferences nil | status 200 with the body `mock` (the package's own `TestUserRolesWrongResponse`): `Process` drops the decode error, the base stays nil, and the call panics instead of returning an error | a nil base is a failed validation: an error and no roles, as with a value-embedded base (compare `renewTokenResponse`) | not executed; high | `Management.UndecodableRolesBodyPanics` (on `Management.ValidateRolesAsWritten`) | `Management.ValidateRoles`, used by `Management.Manager.UserRoles` |
| management/manager.go:30 | the host is concatenated with the format before `fmt.Sprintf`, so any `%` in the host is read as a verb | host `h%s` for any `h` without `%`: the URL becomes `h<key>/api/management/<email>/users/%!s(MISSING)/roles` | the host is used literally and only the key and email are substituted | not executed; high for the behaviour, low for practical impact | `Management.PercentInHostCorruptsRolesUrl` (on `Management.Manager.RolesUrlAsWritten`) | `Management.Manager.RolesUrl`, equal to the formatted URL for every host without `%` (`Management.RolesUrlAsWrittenWithoutPercent`) |
