# Signup request pipeline, modelled in Dafny

This project models the core of a serverless user-registration endpoint. It models two parts that run one after the other:

1. **The domain-command parser** (`lambda/src/shared/commandParser.js`). The request names the command it wants as a `domain-model=<command>` parameter of its content-type header. The parser reads the `content-type` key, and falls back to `Content-Type` when that value is missing or empty. It splits the header on `;` and takes the first parameter that contains `domain-model=`. It then splits that parameter on `=`, requires exactly two parts, and accepts the second part only when it is exactly `create-user`. Every failure is a thrown string. A failure while locating the parameter (no headers, no content-type header, no marked parameter) is caught and re-thrown as the single message "Unable to find the domain-model parameter on Content-Type header.".
2. **The signup orchestrator** (`lambda/src/http-user-post.js`, class `HttpUserPost`). It gates on the parser and routes on the command. It lower-cases the email, then checks the fields in a fixed order using JavaScript truthiness. It builds the identity provider's sign-up parameters, whose secret hash is keyed by the client secret over `username + clientId`. It calls the provider's `signUp` at most once, and only when validation passes. Finally it maps the outcome to a response.

Files:

- `wrappers.dfy`: `Option` (a JavaScript value that may be `null`/`undefined`) and `Result` (a value, or what was thrown).
- `strings.dfy`: the JavaScript string primitives the core uses. `Split` is `split` with a one-character separator; it is proved inverse to `Join` in both directions, and its length is the separator count plus one. `Contains` is `includes`, characterised by an occurrence index. `Lower` is an ASCII `toLowerCase`.
- `command_parser.dfy`: the parser. `ParseCommand` is the specification function. The class `CommandParser` holds the fields the JavaScript object has. `ValidateCommand` sets `command` only on success, and `Create` models `new CommandParser(event)`, which either yields a parser with `command` set or throws.
- `http_user_post.dfy`: the orchestrator. `ValidateNewUser`, `CreateSignUpParameters` and `ProcessSignUpError` are pure functions. The flow as a value is `CreateUserSpec`, `RouteSpec` and `RunSpec`: each gives the result together with the one `signUp` call made, if any. The class `IdentityService` stands for the provider: it answers by a function `respond` and logs every call in a ghost `calls` sequence. The class `HttpUserPost` has the methods `Run`, `RouteCommand` and `CreateUser`; each is proved to return its specification's result and to append exactly that call to the log.

External collaborators become parameters:

- The identity provider's answer is the function `respond` of the service object.
- `base64(HMAC-SHA256(key, data))` is a function-valued parameter `digest` (type `Digest`).
- The request headers and the parsed JSON body are inputs.
- `DomainCommands.createUser` is the constant `"create-user"` (`CreateUserCommand`).
- `Response` (shared/response.js is not part of this model) is a datatype `Response(statusCode, message, errorMessage)`.

Behaviour of the code worth knowing, all of it modelled as written:

- When the command cannot be parsed, `run` answers 404 with no error text. The parser throws plain strings, whose `message` is `undefined`, so the parser's text is not passed on.
- Missing headers and a missing `domain-model` parameter give the same message. A missing content-type header raises a `TypeError` inside the parser, which ends in that message too.
- The header lookup consults exactly `content-type`, then `Content-Type`. Any other casing, such as `Content-type`, is not found (`ExampleOtherCasingNotFound`).
- An absent (`null`/`undefined`) email makes `run` throw, because `toLowerCase` is called before validation (`RunResult.Faulted`). Only an empty email gets the 422.
- The secret hash sees only `username + clientId`, so two usernames can share a hash: `ab`/`c` and `a`/`bc` do (`SecretHashSeesConcatenation`, `SecretHashSplitExample`). The identity provider mandates this construction.

## Model

| member | source | states |
|---|---|---|
| Strings.Contains | lambda/src/shared/commandParser.js:52 | `includes` holds exactly when some index starts an occurrence of the needle |
| Strings.Split | lambda/src/shared/commandParser.js:51 | `split` on one character yields at least one piece, and no piece contains the separator |
| Strings.JoinSplit | lambda/src/shared/commandParser.js:51 | joining the pieces of a split with the separator gives back the original string |
| Strings.SplitJoin | lambda/src/shared/commandParser.js:15 | splitting a join of separator-free pieces gives back exactly those pieces |
| Strings.SplitLength | lambda/src/shared/commandParser.js:15 | a split has one piece more than the string has separators |
| Strings.SplitPrefix | lambda/src/shared/commandParser.js:15 | a separator-free prefix is glued onto the first piece of what follows it |
| Strings.SplitNoSeparator | lambda/src/shared/commandParser.js:15 | a separator-free string splits into itself alone |
| Strings.ContainsInContext | lambda/src/shared/commandParser.js:52 | a string contains any text that appears inside it |
| Strings.LowerChar | lambda/src/http-user-post.js:45 | an ASCII upper-case letter moves to its lower-case letter; every other character is kept |
| Strings.Lower | lambda/src/http-user-post.js:45 | `toLowerCase` keeps the length, lowers each ASCII letter, and leaves no upper-case letter |
| Strings.LowerEmpty | lambda/src/http-user-post.js:45 | the lowered email is empty exactly when the supplied one is, so the truthiness check is unaffected |
| CommandParsing.ContentTypeHeader | lambda/src/shared/commandParser.js:45-48 | the header value used is one of the headers' values |
| CommandParsing.ContentTypeHeaderIgnoresOtherKeys | lambda/src/shared/commandParser.js:45-48 | no header key other than `content-type` and `Content-Type` influences the lookup |
| CommandParsing.ContentTypeHeaderPreference | lambda/src/shared/commandParser.js:45-48 | a non-empty `content-type` value wins; otherwise only the `Content-Type` entry decides |
| CommandParsing.DomainModelSegments | lambda/src/shared/commandParser.js:50-52 | the filter keeps only parameters of the header that contain `domain-model=` |
| CommandParsing.NoDomainModelSegment | lambda/src/shared/commandParser.js:54-56 | the filter is empty exactly when no parameter contains `domain-model=` |
| CommandParsing.FirstDomainModelSegment | lambda/src/shared/commandParser.js:50-58 | the parameter returned is the first one, in header order, containing `domain-model=` |
| CommandParsing.DomainModelParameter | lambda/src/shared/commandParser.js:33-59 | no parameter is found exactly when the headers are missing, the content-type header is missing, or no parameter contains `domain-model=`; otherwise the found parameter is the first such one in header order |
| CommandParsing.FirstDomainModelSegments | lambda/src/shared/commandParser.js:50-58 | for every header, the filter's first element is the earliest parameter containing `domain-model=` |
| CommandParsing.ParseError.Message | lambda/src/shared/commandParser.js:11-28 | the two fixed error sentences, and for an unsupported command a sentence that embeds the token verbatim after `The ` |
| CommandParsing.ParseSegment | lambda/src/shared/commandParser.js:21-30 | checking the found parameter can only succeed with `create-user`, and never fails with the not-found error |
| CommandParsing.ParseCommand | lambda/src/shared/commandParser.js:11-31 | a successful parse always yields `create-user` |
| CommandParsing.CommandParser.constructor | lambda/src/shared/commandParser.js:3-7 | the parser holds the headers and the supported command, and `command` is unset |
| CommandParsing.CommandParser.ValidateCommand | lambda/src/shared/commandParser.js:11-31 | returns the parse result, and sets `command` on success and only then |
| CommandParsing.Create | lambda/src/shared/commandParser.js:3-9 | `new CommandParser` either yields a fresh parser whose `command` is the parsed command, or throws the parse error and yields no parser |
| CommandParsing.MarkedSegmentHasKeyAndValue | lambda/src/shared/commandParser.js:15 | the found parameter always splits on `=` into at least two parts |
| CommandParsing.ParseSegmentKeyValue | lambda/src/shared/commandParser.js:21-28 | `key=token` with a single `=` is accepted exactly when the token is `create-user` verbatim, and is otherwise rejected naming the token |
| CommandParsing.ParseSegmentSucceeds | lambda/src/shared/commandParser.js:21-30 | a parameter is accepted exactly when it is some `=`-free key followed by `=create-user` |
| CommandParsing.ParseSegmentCommandNotSpecified | lambda/src/shared/commandParser.js:21-23 | "Command not specified" is thrown exactly when the parameter does not have exactly one `=` |
| CommandParsing.ParseCommandParameterNotFound | lambda/src/shared/commandParser.js:13-19 | the single not-found error arises exactly for missing headers, a missing content-type header, or no parameter containing `domain-model=` |
| CommandParsing.ParseCommandUsesFirstSegment | lambda/src/shared/commandParser.js:50-58 | with several marked parameters, the first one in header order alone decides the outcome |
| CommandParsing.ParseCommandSucceeds | lambda/src/shared/commandParser.js:21-30 | parsing succeeds exactly when the first marked parameter is an `=`-free key then `=create-user`, and the command is then `create-user` |
| CommandParsing.ContainsHasChar | lambda/src/shared/commandParser.js:52 | a character of the needle occurs in any string that contains the needle |
| CommandParsing.CountCharPositive | lambda/src/shared/commandParser.js:15 | a string containing `=` counts at least one `=` |
| CommandParsing.NotMarked | lambda/src/shared/commandParser.js:52 | a parameter without `=` cannot contain `domain-model=` |
| CommandParsing.ParseCommandSecondParameter | lambda/src/shared/commandParser.js:50-58 | in a two-parameter header whose first parameter has no `=`, the second parameter decides |
| CommandParsing.ParseCommandOnlyParameter | lambda/src/shared/commandParser.js:50-58 | a header that is a single marked parameter is decided by that parameter |
| CommandParsing.MarkedCreateUserParameter | lambda/src/shared/commandParser.js:25-30 | any `=`- and `;`-free text followed by `domain-model=create-user` is an accepted parameter |
| CommandParsing.ExampleLowerCaseHeaderAccepted | lambda/src/shared/commandParser.js:45-58 | `application/json; domain-model=create-user` under `content-type` parses to `create-user`, whatever the other headers |
| CommandParsing.ExampleTrailingSpaceRejected | lambda/src/shared/commandParser.js:25-28 | the token is not trimmed: `create-user ` is rejected as not supported |
| CommandParsing.ExampleExtraEqualsRejected | lambda/src/shared/commandParser.js:21-23 | `domain-model=a=b` is rejected as "Command not specified" |
| CommandParsing.ExampleUncheckedKeyAccepted | lambda/src/shared/commandParser.js:52 | the key before `=` is not checked: ` xdomain-model=create-user` is accepted |
| CommandParsing.ExampleOtherCasingNotFound | lambda/src/shared/commandParser.js:45-48 | a `Content-type` key is not consulted, so the parameter is not found |
| Signup.Truthy | lambda/src/http-user-post.js:105-111 | a field passes the `!value` test exactly when it is present and non-empty |
| Signup.MissingField | lambda/src/http-user-post.js:105-113 | each validation failure is a 422 with an error text and no message |
| Signup.ValidateNewUser | lambda/src/http-user-post.js:104-117 | validation returns null exactly when all five fields are truthy; otherwise it returns a 422 without a message |
| Signup.FirstFailing | lambda/src/http-user-post.js:104-117 | the reference check order reports nothing exactly when every check passes |
| Signup.FirstFailingIsEarliest | lambda/src/http-user-post.js:104-117 | the reported check is the earliest failing one |
| Signup.ValidateReportsFirstMissing | lambda/src/http-user-post.js:104-117 | validation reports exactly the first missing field in the order username, password, email, client credentials |
| Signup.CreateSecretHash | lambda/src/http-user-post.js:119-124 | the secret hash is the digest keyed by the client secret over the username followed directly by the client id |
| Signup.CreateSignUpParameters | lambda/src/http-user-post.js:86-101 | the parameters carry the client id, password and username, the secret hash over `username + clientId` keyed by the client secret, and the single attribute `email` |
| Signup.SecretHashSeesConcatenation | lambda/src/http-user-post.js:119-124 | the hash depends on username and client id only through their plain concatenation |
| Signup.SecretHashSplitExample | lambda/src/http-user-post.js:119-124 | usernames `ab` and `a`, with client ids `c` and `bc`, get the same secret hash |
| Signup.ProcessSignUpError | lambda/src/http-user-post.js:73-84 | the error mapping is total: 201 exactly for UsernameExistsException, 422 with the provider message exactly for InvalidPasswordException and InvalidParameterException, otherwise the generic 500 |
| Signup.SignUpResponse | lambda/src/http-user-post.js:60-70 | the 201 completion response arises exactly from success or UsernameExistsException |
| Signup.UsernameExistsMasked | lambda/src/http-user-post.js:76-78 | an existing username gets the same response as a successful sign-up |
| Signup.CallLog | lambda/src/http-user-post.js:62 | a request adds at most one entry to the call log, and none when no call is made |
| Signup.CreateUserSpec | lambda/src/http-user-post.js:52-71 | `signUp` is called exactly when validation passes, with the username and email given; otherwise no call is made and the result is exactly the response validation returned |
| Signup.RouteSpec | lambda/src/http-user-post.js:41-50 | any command but `create-user` gives 404 "Invalid or missing domain command" without a call; only an absent email under `create-user` throws |
| Signup.RunSpec | lambda/src/http-user-post.js:28-39 | a failed command parse gives 404 with no error text and no call |
| Signup.IdentityService.constructor | lambda/src/http-user-post.js:24 | the service starts with an empty call log |
| Signup.IdentityService.SignUp | lambda/src/http-user-post.js:62-63 | each call appends its parameters to the log and answers from the provider's behaviour |
| Signup.HttpUserPost.constructor | lambda/src/http-user-post.js:21-26 | the object holds the identity service, the event headers and the hash; no command yet |
| Signup.HttpUserPost.CreateUser | lambda/src/http-user-post.js:52-71 | returns the `CreateUserSpec` result, and the call log grows by exactly its one call, or not at all |
| Signup.HttpUserPost.RouteCommand | lambda/src/http-user-post.js:41-50 | returns the `RouteSpec` result for the current command, with exactly its call logged |
| Signup.HttpUserPost.Run | lambda/src/http-user-post.js:28-39 | returns the `RunSpec` result with exactly its call logged, and records `create-user` as the command exactly when parsing succeeded |
| Signup.RunCallsOnlyWhenValid | lambda/src/http-user-post.js:30-56 | `run` calls the provider exactly when the command parses and all five fields are present and non-empty |
| Signup.RunReportsFirstMissing | lambda/src/http-user-post.js:45-56 | a parsed request with an email that fails validation gets the 422 naming the first missing field, and no call is made |
| Signup.RunSendsRequestFields | lambda/src/http-user-post.js:86-101 | the call carries the request's client id, password and username, the secret hash, and the lower-cased email |
| Signup.RunSendsLowerCaseEmail | lambda/src/http-user-post.js:45 | the email sent to the provider contains no upper-case letter |
| Signup.RunStatusCodes | lambda/src/http-user-post.js:28-84 | every response of `run` has status 201, 404, 422 or 500 |
| Signup.RunMasksExistingUsername | lambda/src/http-user-post.js:73-78 | a provider that reports an existing username and one that accepts give identical results and identical calls |
| Signup.AliceEmailLowered | lambda/src/http-user-post.js:45 | `ALICE@EXAMPLE.COM` lowers to `alice@example.com` |
| Signup.ExampleAliceSignsUp | lambda/src/http-user-post.js:28-65 | a well-formed request accepted by the provider gives 201, with one call carrying the lower-cased email and the secret hash |
| Signup.ExampleEmptyUsername | lambda/src/http-user-post.js:104-106 | an empty username gives 422 'Field "username" is missing.' with no call |

## Left out

- lambda/lambda-user-post.js is not part of this model. It builds the AWS SDK client, opens tracing segments, and parses the body with `JSON.parse`. Its catch-all 500 response is plumbing around the core.
- lambda/src/shared/configuration.js is not part of this model: it only copies environment variables into fields. For the same reason, `HttpUserPost`'s `configuration` and `context` constructor arguments are not kept, since the core never reads them.
- HMAC-SHA256 and base64 inside `createSecretHash` are Node `crypto` calls. The model takes them as the `digest` parameter and proves nothing about them.
- The promise returned by `signUp(...).promise()` and the `async`/`await` mechanics are left out. The call is one sequential method.
- All `console` logging is left out. This includes the username logged by `processSignUpError`, which is why `username` does not affect the response.
- The `payload` field of `Response` is left out, because the core never sets it.
- Strings.Lower: only ASCII letters are lowered. Full Unicode `toLowerCase` is not modelled.
- Body values that are not strings are left out: each field is a string or absent. So are a body that is not an object, and a provider error whose `code` or `message` is not a string. An error without a `code` behaves like any unrecognised code.
- The identity provider is deterministic in the model: it answers through the fixed function `respond`. Its own state, and calls made by other requests, are not modelled.
