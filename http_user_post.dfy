/**
 * The signup orchestrator (lambda/src/http-user-post.js, class HttpUserPost):
 * gate on the domain command, validate the signup fields, build the identity
 * provider's sign-up parameters with their secret hash, call the provider at
 * most once, and map its outcome to a response.
 */
module Signup {
  import opened Wrappers
  import opened Strings
  import opened CommandParsing

  // ---------------------------------------------------------------------------
  // Data
  // ---------------------------------------------------------------------------

  /** `new Response(statusCode, message, errorMessage)`; None is `null`/`undefined`. */
  datatype Response = Response(statusCode: int, message: Option<string>, errorMessage: Option<string>)

  const SignupCompleted: string := "Signup completed. Confirmation required."
  const InvalidCommand: string := "Invalid or missing domain command"
  const IdentityUnavailable: string := "Identity could not process the request at this time."
  const ClientInformationMissing: string := "Client information missing."

  const InvalidPasswordCode: string := "InvalidPasswordException"
  const UsernameExistsCode: string := "UsernameExistsException"
  const InvalidParameterCode: string := "InvalidParameterException"

  /** The 201 response a completed (or masked) sign-up gets. */
  const Created: Response := Response(201, Some(SignupCompleted), None)

  /** The parsed request body; each field may be absent (None). */
  datatype SignUpRequest = SignUpRequest(
    username: Option<string>,
    email: Option<string>,
    password: Option<string>,
    clientId: Option<string>,       // body field client_id
    clientSecret: Option<string>)   // body field client_secret

  /** One entry of `UserAttributes`. */
  datatype Attribute = Attribute(name: string, value: string)

  /** The record handed to the identity provider's `signUp`. */
  datatype SignUpParameters = SignUpParameters(
    clientId: string,
    password: string,
    username: string,
    secretHash: string,
    userAttributes: seq<Attribute>)

  /** What the identity provider's `signUp` settles with: success, or an error with `code` and `message`. */
  datatype SignUpOutcome = Accepted | Rejected(code: string, message: string)

  /** `base64(HMAC-SHA256(key, data))`, supplied from outside the model. */
  type Digest = (string, string) -> string

  // ---------------------------------------------------------------------------
  // validateNewUser
  // ---------------------------------------------------------------------------

  /** JavaScript truthiness of a string-or-absent value: `null`, `undefined` and `""` are falsy. */
  predicate Truthy(x: Option<string>)
    ensures Truthy(x) <==> x.Some? && |x.value| > 0
  {
    x.Some? && x.value != ""
  }

  /** The four presence checks, in the order they are made. */
  datatype Field = Username | Password | Email | ClientCredentials

  /** The 422 response reporting a missing field. */
  function MissingField(f: Field): (r: Response)
    ensures r.statusCode == 422 && r.message.None? && r.errorMessage.Some?
  {
    match f
    case Username => Response(422, None, Some("Field \"username\" is missing."))
    case Password => Response(422, None, Some("Field \"password\" is missing."))
    case Email => Response(422, None, Some("Field \"email\" is missing."))
    case ClientCredentials => Response(422, None, Some(ClientInformationMissing))
  }

  /** `validateNewUser`: the first failed presence check as a 422, or None (`null`) when all pass. */
  function ValidateNewUser(username: Option<string>, email: Option<string>, password: Option<string>,
                           clientId: Option<string>, clientSecret: Option<string>): (r: Option<Response>)
    ensures r.None? <==> Truthy(username) && Truthy(password) && Truthy(email) && Truthy(clientId) && Truthy(clientSecret)
    ensures r.Some? ==> r.value.statusCode == 422 && r.value.message.None?
  {
    if !Truthy(username) then Some(MissingField(Username))
    else if !Truthy(password) then Some(MissingField(Password))
    else if !Truthy(email) then Some(MissingField(Email))
    else if !Truthy(clientId) || !Truthy(clientSecret) then Some(MissingField(ClientCredentials))
    else None
  }

  /** Reference order of the checks, each paired with whether it passes. */
  function Checks(username: Option<string>, email: Option<string>, password: Option<string>,
                  clientId: Option<string>, clientSecret: Option<string>): seq<(Field, bool)>
  {
    [ (Username, Truthy(username)),
      (Password, Truthy(password)),
      (Email, Truthy(email)),
      (ClientCredentials, Truthy(clientId) && Truthy(clientSecret)) ]
  }

  /** The first check in `checks` that fails. */
  function FirstFailing(checks: seq<(Field, bool)>): (r: Option<Field>)
    ensures r.None? <==> forall k :: 0 <= k < |checks| ==> checks[k].1
  {
    if |checks| == 0 then None
    else if !checks[0].1 then Some(checks[0].0)
    else
      var r := FirstFailing(checks[1..]);
      assert forall k :: 1 <= k < |checks| ==> checks[k] == checks[1..][k - 1];
      r
  }

  /** `checks[i]` fails and every check before it passes. */
  predicate FirstFailingAt(checks: seq<(Field, bool)>, i: nat)
  {
    i < |checks| && !checks[i].1 && forall j :: 0 <= j < i ==> checks[j].1
  }

  /** FirstFailing finds the earliest failing check. */
  lemma {:induction false} FirstFailingIsEarliest(checks: seq<(Field, bool)>, i: nat)
    requires FirstFailingAt(checks, i)
    ensures FirstFailing(checks) == Some(checks[i].0)
  {
    if i > 0 {
      assert FirstFailingAt(checks[1..], i - 1);
      FirstFailingIsEarliest(checks[1..], i - 1);
    }
  }

  /**
   * Only the first missing field is reported, in the order username,
   * password, email, client credentials.
   */
  lemma ValidateReportsFirstMissing(username: Option<string>, email: Option<string>, password: Option<string>,
                                    clientId: Option<string>, clientSecret: Option<string>)
    ensures ValidateNewUser(username, email, password, clientId, clientSecret)
         == match FirstFailing(Checks(username, email, password, clientId, clientSecret))
            case None => None
            case Some(f) => Some(MissingField(f))
  {
    var checks := Checks(username, email, password, clientId, clientSecret);
    if !checks[0].1 {
      FirstFailingIsEarliest(checks, 0);
    } else if !checks[1].1 {
      FirstFailingIsEarliest(checks, 1);
    } else if !checks[2].1 {
      FirstFailingIsEarliest(checks, 2);
    } else if !checks[3].1 {
      FirstFailingIsEarliest(checks, 3);
    }
  }

  // ---------------------------------------------------------------------------
  // createSecretHash, createSignUpParameters
  // ---------------------------------------------------------------------------

  /** `createSecretHash`: the digest keyed by the client secret over username then client id, no delimiter. */
  function CreateSecretHash(digest: Digest, username: string, clientId: string, clientSecret: string): (r: string)
    ensures r == digest(clientSecret, username + clientId)
  {
    digest(clientSecret, username + clientId)
  }

  /** `createSignUpParameters`. */
  function CreateSignUpParameters(digest: Digest, username: string, email: string, password: string,
                                  clientId: string, clientSecret: string): (r: SignUpParameters)
    ensures r.clientId == clientId && r.password == password && r.username == username
    ensures r.secretHash == CreateSecretHash(digest, username, clientId, clientSecret)
    ensures r.userAttributes == [Attribute("email", email)]
  {
    SignUpParameters(clientId, password, username, CreateSecretHash(digest, username, clientId, clientSecret),
                     [Attribute("email", email)])
  }

  /**
   * The hash sees only the concatenation: two username/client-id splits of
   * the same text get the same secret hash.
   */
  lemma SecretHashSeesConcatenation(digest: Digest, username: string, clientId: string,
                                    username': string, clientId': string, clientSecret: string)
    requires username + clientId == username' + clientId'
    ensures CreateSecretHash(digest, username, clientId, clientSecret)
         == CreateSecretHash(digest, username', clientId', clientSecret)
  {
  }

  /** For instance `ab`/`c` and `a`/`bc`: distinct usernames, one secret hash. */
  lemma SecretHashSplitExample(digest: Digest, clientSecret: string)
    ensures CreateSecretHash(digest, "ab", "c", clientSecret) == CreateSecretHash(digest, "a", "bc", clientSecret)
  {
    assert "ab" + "c" == "a" + "bc";
  }

  // ---------------------------------------------------------------------------
  // processSignUpError and the sign-up outcome
  // ---------------------------------------------------------------------------

  /** `processSignUpError`: provider error to response; `username` is only logged. */
  function ProcessSignUpError(code: string, message: string, username: string): (r: Response)
    ensures r.statusCode in {201, 422, 500}
    ensures r.statusCode == 201 <==> code == UsernameExistsCode
    ensures r.statusCode == 422 <==> code == InvalidPasswordCode || code == InvalidParameterCode
    ensures r.statusCode == 201 ==> r == Created
    ensures r.statusCode == 422 ==> r == Response(422, None, Some(message))
    ensures r.statusCode == 500 ==> r == Response(500, None, Some(IdentityUnavailable))
  {
    if code == InvalidPasswordCode then Response(422, None, Some(message))
    else if code == UsernameExistsCode then Created
    else if code == InvalidParameterCode then Response(422, None, Some(message))
    else Response(500, None, Some(IdentityUnavailable))
  }

  /** The response for what `signUp` settled with (the try/catch around it in `createUser`). */
  function SignUpResponse(outcome: SignUpOutcome, username: string): (r: Response)
    ensures r == Created <==> outcome.Accepted? || outcome.code == UsernameExistsCode
  {
    match outcome
    case Accepted => Created
    case Rejected(code, message) => ProcessSignUpError(code, message, username)
  }

  /** An existing username cannot be told apart from a fresh sign-up. */
  lemma UsernameExistsMasked(message: string, username: string)
    ensures SignUpResponse(Rejected(UsernameExistsCode, message), username) == SignUpResponse(Accepted, username)
  {
  }

  // ---------------------------------------------------------------------------
  // The request flow as a value
  // ---------------------------------------------------------------------------

  /** A result together with the one `signUp` call it made, if any. */
  datatype Handled<T> = Handled(result: T, call: Option<SignUpParameters>)

  /** What leaves `run`: a response, or the TypeError of `request.email.toLowerCase()` on an absent email. */
  datatype RunResult = Responded(response: Response) | Faulted

  /** The call log entries one call adds. */
  function CallLog(call: Option<SignUpParameters>): (log: seq<SignUpParameters>)
    ensures |log| <= 1
    ensures call.None? <==> log == []
  {
    if call.Some? then [call.value] else []
  }

  /** `createUser`, with the provider's behaviour given by `respond`. */
  function CreateUserSpec(digest: Digest, respond: SignUpParameters -> SignUpOutcome,
                          username: Option<string>, email: string, password: Option<string>,
                          clientId: Option<string>, clientSecret: Option<string>): (r: Handled<Response>)
    ensures r.call.Some? <==> ValidateNewUser(username, Some(email), password, clientId, clientSecret).None?
    ensures r.call.None? ==> r.result == ValidateNewUser(username, Some(email), password, clientId, clientSecret).value
    ensures r.call.Some? ==>
      && r.call.value.username == username.value
      && r.call.value.userAttributes == [Attribute("email", email)]
      && r.result == SignUpResponse(respond(r.call.value), username.value)
  {
    match ValidateNewUser(username, Some(email), password, clientId, clientSecret)
    case Some(failure) => Handled(failure, None)
    case None =>
      var params := CreateSignUpParameters(digest, username.value, email, password.value, clientId.value, clientSecret.value);
      Handled(SignUpResponse(respond(params), username.value), Some(params))
  }

  /** `routeCommand` for a given value of `this.command`. */
  function RouteSpec(digest: Digest, respond: SignUpParameters -> SignUpOutcome,
                     command: Option<string>, request: SignUpRequest): (r: Handled<RunResult>)
    ensures command != Some(CreateUserCommand) ==> r == Handled(Responded(Response(404, None, Some(InvalidCommand))), None)
    ensures r.result.Faulted? <==> command == Some(CreateUserCommand) && request.email.None?
    ensures r.call.Some? ==> command == Some(CreateUserCommand)
  {
    if command == Some(CreateUserCommand) then
      if request.email.None? then Handled(Faulted, None)
      else
        var h := CreateUserSpec(digest, respond, request.username, Lower(request.email.value),
                                request.password, request.clientId, request.clientSecret);
        Handled(Responded(h.result), h.call)
    else Handled(Responded(Response(404, None, Some(InvalidCommand))), None)
  }

  /** `run`: the command gate, then routing. */
  function RunSpec(digest: Digest, respond: SignUpParameters -> SignUpOutcome,
                   headers: Headers, request: SignUpRequest): (r: Handled<RunResult>)
    ensures ParseCommand(headers).Failure? ==> r == Handled(Responded(Response(404, None, None)), None)
  {
    match ParseCommand(headers)
    case Failure(_) => Handled(Responded(Response(404, None, None)), None)
    case Success(command) => RouteSpec(digest, respond, Some(command), request)
  }

  // ---------------------------------------------------------------------------
  // The objects
  // ---------------------------------------------------------------------------

  /** The identity provider: answers `signUp` by `respond` and logs every call. */
  class IdentityService {
    const respond: SignUpParameters -> SignUpOutcome
    ghost var calls: seq<SignUpParameters>

    constructor(respond: SignUpParameters -> SignUpOutcome)
      ensures this.respond == respond && calls == []
    {
      this.respond := respond;
      calls := [];
    }

    method SignUp(params: SignUpParameters) returns (outcome: SignUpOutcome)
      modifies this`calls
      ensures calls == old(calls) + [params]
      ensures outcome == respond(params)
    {
      calls := calls + [params];
      outcome := respond(params);
    }
  }

  /** HttpUserPost: holds the identity service, the request headers and the hash. */
  class HttpUserPost {
    const identityService: IdentityService
    const headers: Headers
    const digest: Digest
    var command: Option<string>

    constructor(identityService: IdentityService, headers: Headers, digest: Digest)
      ensures this.identityService == identityService && this.headers == headers && this.digest == digest
      ensures command.None?
    {
      this.identityService := identityService;
      this.headers := headers;
      this.digest := digest;
      command := None;
    }

    /** `createUser`: validate, and only then build the parameters and call `signUp` once. */
    method CreateUser(username: Option<string>, email: string, password: Option<string>,
                      clientId: Option<string>, clientSecret: Option<string>) returns (r: Response)
      modifies identityService`calls
      ensures var spec := CreateUserSpec(digest, identityService.respond, username, email, password, clientId, clientSecret);
        r == spec.result && identityService.calls == old(identityService.calls) + CallLog(spec.call)
    {
      var validationResult := ValidateNewUser(username, Some(email), password, clientId, clientSecret);
      if validationResult.Some? {
        return validationResult.value;
      }
      var params := CreateSignUpParameters(digest, username.value, email, password.value, clientId.value, clientSecret.value);
      var outcome := identityService.SignUp(params);
      if outcome.Accepted? {
        return Created;
      }
      r := ProcessSignUpError(outcome.code, outcome.message, username.value);
    }

    /** `routeCommand`: only `create-user` is routed; the email is lower-cased on the way. */
    method RouteCommand(request: SignUpRequest) returns (r: RunResult)
      modifies identityService`calls
      ensures var spec := RouteSpec(digest, identityService.respond, command, request);
        r == spec.result && identityService.calls == old(identityService.calls) + CallLog(spec.call)
    {
      if command == Some(CreateUserCommand) {
        if request.email.None? {
          return Faulted;
        }
        var response := CreateUser(request.username, Lower(request.email.value),
                                   request.password, request.clientId, request.clientSecret);
        return Responded(response);
      }
      return Responded(Response(404, None, Some(InvalidCommand)));
    }

    /** `run`: construct the parser (a throw becomes a 404 without text), record the command, route. */
    method Run(request: SignUpRequest) returns (r: RunResult)
      modifies this`command, identityService`calls
      ensures var spec := RunSpec(digest, identityService.respond, headers, request);
        r == spec.result && identityService.calls == old(identityService.calls) + CallLog(spec.call)
      ensures command == if ParseCommand(headers).Success? then Some(CreateUserCommand) else old(command)
    {
      var parser := Create(headers);
      if parser.Failure? {
        return Responded(Response(404, None, None));
      }
      command := parser.value.command;
      r := RouteCommand(request);
    }
  }

  // ---------------------------------------------------------------------------
  // Properties of the flow
  // ---------------------------------------------------------------------------

  /** The provider is called only for a recognised command and a request whose every field is present. */
  lemma RunCallsOnlyWhenValid(digest: Digest, respond: SignUpParameters -> SignUpOutcome,
                              headers: Headers, request: SignUpRequest)
    ensures RunSpec(digest, respond, headers, request).call.Some? <==>
      && ParseCommand(headers).Success?
      && Truthy(request.username) && Truthy(request.email) && Truthy(request.password)
      && Truthy(request.clientId) && Truthy(request.clientSecret)
  {
    if ParseCommand(headers).Success? && request.email.Some? {
      LowerEmpty(request.email.value);
    }
  }

  /** What the provider is sent: the request's fields, the lower-cased email, and the secret hash. */
  lemma RunSendsRequestFields(digest: Digest, respond: SignUpParameters -> SignUpOutcome,
                              headers: Headers, request: SignUpRequest)
    requires RunSpec(digest, respond, headers, request).call.Some?
    ensures request.username.Some? && request.email.Some? && request.password.Some?
    ensures request.clientId.Some? && request.clientSecret.Some?
    ensures RunSpec(digest, respond, headers, request).call.value
         == SignUpParameters(
              request.clientId.value,
              request.password.value,
              request.username.value,
              digest(request.clientSecret.value, request.username.value + request.clientId.value),
              [Attribute("email", Lower(request.email.value))])
  {
    RunCallsOnlyWhenValid(digest, respond, headers, request);
  }

  /**
   * When the command parses and the email is present but a field is missing,
   * `run` returns the 422 of the first missing field, in the order username,
   * password, email, client credentials, and makes no call.
   */
  lemma RunReportsFirstMissing(digest: Digest, respond: SignUpParameters -> SignUpOutcome,
                               headers: Headers, request: SignUpRequest)
    requires ParseCommand(headers).Success? && request.email.Some?
    requires ValidateNewUser(request.username, Some(Lower(request.email.value)), request.password,
                             request.clientId, request.clientSecret).Some?
    ensures var first := FirstFailing(Checks(request.username, Some(Lower(request.email.value)),
                                             request.password, request.clientId, request.clientSecret));
      first.Some? && RunSpec(digest, respond, headers, request) == Handled(Responded(MissingField(first.value)), None)
  {
    ValidateReportsFirstMissing(request.username, Some(Lower(request.email.value)), request.password,
                                request.clientId, request.clientSecret);
  }

  /** The email the provider sees holds no upper-case letter, whatever case was supplied. */
  lemma RunSendsLowerCaseEmail(digest: Digest, respond: SignUpParameters -> SignUpOutcome,
                               headers: Headers, request: SignUpRequest)
    requires RunSpec(digest, respond, headers, request).call.Some?
    ensures var sent := RunSpec(digest, respond, headers, request).call.value.userAttributes[0].value;
      forall i :: 0 <= i < |sent| ==> !IsUpper(sent[i])
  {
    RunSendsRequestFields(digest, respond, headers, request);
  }

  /** Every response `run` produces has one of the four status codes 201, 404, 422 or 500. */
  lemma RunStatusCodes(digest: Digest, respond: SignUpParameters -> SignUpOutcome,
                       headers: Headers, request: SignUpRequest)
    requires RunSpec(digest, respond, headers, request).result.Responded?
    ensures RunSpec(digest, respond, headers, request).result.response.statusCode in {201, 404, 422, 500}
  {
    if ParseCommand(headers).Success? {
      var lowered := Lower(request.email.value);
      var h := CreateUserSpec(digest, respond, request.username, lowered, request.password,
                              request.clientId, request.clientSecret);
      if h.call.Some? {
        match respond(h.call.value)
        case Accepted =>
        case Rejected(code, message) =>
          assert ProcessSignUpError(code, message, request.username.value).statusCode in {201, 422, 500};
      }
    }
  }

  /**
   * A provider that answers UsernameExistsException where another accepts
   * yields the very same result from `run`, with the very same call.
   */
  lemma RunMasksExistingUsername(digest: Digest, accepts: SignUpParameters -> SignUpOutcome,
                                 reportsExisting: SignUpParameters -> SignUpOutcome,
                                 headers: Headers, request: SignUpRequest)
    requires forall p :: accepts(p) == Accepted
    requires forall p :: reportsExisting(p).Rejected? && reportsExisting(p).code == UsernameExistsCode
    ensures RunSpec(digest, accepts, headers, request) == RunSpec(digest, reportsExisting, headers, request)
  {
    if ParseCommand(headers).Success? && request.email.Some? {
      var lowered := Lower(request.email.value);
      var h := CreateUserSpec(digest, accepts, request.username, lowered, request.password,
                              request.clientId, request.clientSecret);
      if h.call.Some? {
        UsernameExistsMasked(reportsExisting(h.call.value).message, request.username.value);
      }
    }
  }

  // ---------------------------------------------------------------------------
  // Worked examples
  // ---------------------------------------------------------------------------

  /**
   * The upper-case example email lowers to `alice@example.com`. The literals
   * come in through parameters: written directly into the ensures, they make
   * the solver unfold `Lower` over the literal and run out of resource.
   */
  lemma AliceEmailLowered(upper: string, lower: string)
    requires upper == "ALICE@EXAMPLE.COM" && lower == "alice@example.com"
    ensures Lower(upper) == lower
  {
    assert forall i :: 0 <= i < |upper| ==> LowerChar(upper[i]) == lower[i];
  }

  /**
   * A well-formed header and a request with an upper-case email, with a
   * provider that accepts: 201, and exactly one call carrying the lower-cased
   * email and the secret hash.
   */
  lemma ExampleAliceSignsUp(digest: Digest, respond: SignUpParameters -> SignUpOutcome,
                            h: map<string, string>, email: string)
    requires LowerCaseKey in h && h[LowerCaseKey] == "application/json; " + Marker + CreateUserCommand
    requires email == "ALICE@EXAMPLE.COM"
    requires forall p :: respond(p) == Accepted
    ensures RunSpec(digest, respond, Some(h), SignUpRequest(Some("alice"), Some(email), Some("p@ss"), Some("cid1"), Some("secret1")))
         == Handled(Responded(Created),
                    Some(SignUpParameters("cid1", "p@ss", "alice", digest("secret1", "alicecid1"),
                                          [Attribute("email", "alice@example.com")])))
  {
    ExampleLowerCaseHeaderAccepted(h);
    AliceEmailLowered(email, "alice@example.com");
    assert "alice" + "cid1" == "alicecid1";
  }

  /** An empty username is reported as missing, and the provider is not called. */
  lemma ExampleEmptyUsername(digest: Digest, respond: SignUpParameters -> SignUpOutcome,
                             h: map<string, string>, email: string)
    requires LowerCaseKey in h && h[LowerCaseKey] == "application/json; " + Marker + CreateUserCommand
    requires email == "ALICE@EXAMPLE.COM"
    ensures RunSpec(digest, respond, Some(h), SignUpRequest(Some(""), Some(email), Some("p@ss"), Some("cid1"), Some("secret1")))
         == Handled(Responded(Response(422, None, Some("Field \"username\" is missing."))), None)
  {
    ExampleLowerCaseHeaderAccepted(h);
  }
}
