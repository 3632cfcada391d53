# Continuum plugin for Jenkins: a Dafny model of its decision logic

The Continuum plugin lets Jenkins pipeline steps call the REST API of a CollabNet
Continuum server: start a pipeline instance, post data to it, or set data on it. This
project models the sequential logic around those calls and proves properties of it:

- **the per-run pipeline registry** (`PipelineInitiatedAction`). It maps a server URL to
  the pipeline-instance IDs started on that server, in insertion order and without
  duplicates. It is modelled as a class over `map<string, seq<string>>` whose methods
  keep the no-duplicates invariant.
- **request shaping in the REST client** (`ContinuumClient`). This covers the endpoint
  URL, the `Authorization: Token …` header, the fixed timeouts, how a reply becomes a
  result or an exception, the resources released on every exit, and the TLS protocol
  filter. The HTTP exchange is an oracle from request to reply.
- **the input builders** (`CommandInputBuilder`, `InitiatePipelineInputBuilder`). The
  required-parameter check is computed but never enforced, and the model shows that the
  payload does not depend on its outcome.
- **the command-step logic** (`CtmCommandStep`). This covers the environment-variable
  fallback for the server URL and the credentials ID, the first-match credential search,
  the API token, the `markUnstable` guard, the console line format, and `executeCommand`.
- **the `ctmSetPiData` step** (`CtmSetPiDataStep`). This covers the validation gates in
  the order URL, key, value; pipeline-ID resolution; and the posting loop, which stops
  at the first failure.

Modules follow the Java files:

- `Actions`, `ContinuumClient`, `CommandInputBuilder`, `InitiatePipelineInputBuilder`,
  `CtmCommandStep` and `CtmSetPiDataStep` model the files of the same names.
- `JavaText` holds `isBlank`, `trim` and the `split("\\s*,\\s*")` used on the explicit
  list.
- `Host` holds what Jenkins provides: exceptions, the build run and stored credentials.
- `ContinuumConstants` copies the string constants of `ContinuumConstants.java`.
- `Wrappers` holds `Option` and `Result`.

How Java is represented:

- A Java `String` that may be `null` is an `Option<string>`.
- The JSON library is two function-typed parameters:
  - `toJson` serialises a parameter map;
  - `parsesAsJsonObject` says whether `JSONObject.fromObject(value)` succeeds.
- The HTTP exchange is the function-typed parameter `exchange`, from the request sent
  to what the server answers.
- `closeFails` says whether `close()` throws.
- The credentials store is a function from the server URL to the ordered candidates.
- The environment is an `Option<map<string, string>>`. It is `None` when the step
  context cannot provide one.
- The console is the sequence of lines written to it.
- The requests sent are recorded in `sent`.

Java's `int` division truncates toward zero. The model writes it out as `JavaDiv`, so the
status test `code / 100 == 2` is proved to mean `200 <= code <= 299` for every integer,
negative codes included. No precondition is needed.

## Model

| member | source | states |
|---|---|---|
| Actions.PipelineInitiatedAction.constructor | src/main/java/jenkins/plugins/continuum/actions/PipelineInitiatedAction.java:20-25 | the registry holds exactly one server with exactly the one seeded ID, and the invariant holds |
| Actions.SeededRegistry | src/main/java/jenkins/plugins/continuum/actions/PipelineInitiatedAction.java:20-25 | after seeding with `(s, id)` the IDs of `s` are `[id]`, its last ID is `id`, and every other server has none |
| Actions.PipelineInitiatedAction.GetPipelineIds | src/main/java/jenkins/plugins/continuum/actions/PipelineInitiatedAction.java:27-32 | the view is duplicate-free, empty for an unknown server, and contains exactly the server's registered IDs |
| Actions.UnknownServerIsEmpty | src/main/java/jenkins/plugins/continuum/actions/PipelineInitiatedAction.java:27-30 | a server never added has no IDs and no last ID |
| Actions.PipelineInitiatedAction.AddPipelineId | src/main/java/jenkins/plugins/continuum/actions/PipelineInitiatedAction.java:34-44 | returns true exactly when the ID was absent for that server; the new registry is `Added(old, server, id)` and stays duplicate-free |
| Actions.AddedKeepsWellFormed | src/main/java/jenkins/plugins/continuum/actions/PipelineInitiatedAction.java:34-44 | adding keeps every server's IDs duplicate-free |
| Actions.AddedContents | src/main/java/jenkins/plugins/continuum/actions/PipelineInitiatedAction.java:34-44 | afterwards the ID is present; a new ID is appended at the end, a duplicate leaves the sequence unchanged, and other servers are untouched |
| Actions.AddedLast | src/main/java/jenkins/plugins/continuum/actions/PipelineInitiatedAction.java:34-44 | a new ID becomes the last ID; a duplicate add leaves the last ID as it was |
| Actions.AddedTwice | src/main/java/jenkins/plugins/continuum/actions/PipelineInitiatedAction.java:34-44 | the second add of the same ID changes nothing, and the ID occurs exactly once |
| Actions.OccursOnce | src/main/java/jenkins/plugins/continuum/actions/PipelineInitiatedAction.java:43 | in a duplicate-free sequence a present ID has multiplicity one, as in a `LinkedHashSet` |
| Actions.PipelineInitiatedAction.GetLastPipelineId | src/main/java/jenkins/plugins/continuum/actions/PipelineInitiatedAction.java:46-54 | the loop that walks to the end returns the last inserted ID, or `null` for an unknown or emptied server |
| Actions.PipelineInitiatedAction.Reset | src/main/java/jenkins/plugins/continuum/actions/PipelineInitiatedAction.java:56-61 | the new registry is `Cleared(old, server)` and stays duplicate-free |
| Actions.ClearedKeepsWellFormed | src/main/java/jenkins/plugins/continuum/actions/PipelineInitiatedAction.java:56-61 | clearing keeps the invariant |
| Actions.ClearedContents | src/main/java/jenkins/plugins/continuum/actions/PipelineInitiatedAction.java:56-61 | after `reset(s)` the server has no IDs and no last ID; other servers keep theirs; an unknown server is a no-op |
| Actions.AddedIdPersists | src/main/java/jenkins/plugins/continuum/actions/PipelineInitiatedAction.java:34-61 | an ID added for `s` stays among `s`'s IDs through any sequence of later adds and resets of other servers |
| Actions.LastOfThree | src/main/java/jenkins/plugins/continuum/actions/PipelineInitiatedAction.java:46-54 | adding `a`, `b`, `c` leaves `c` as the last ID |
| ContinuumClient.JavaDiv | src/main/java/jenkins/plugins/continuum/ContinuumClient.java:73 | Java division: the remainder has the sign of the dividend and is smaller in magnitude than the divisor |
| ContinuumClient.IsSuccess | src/main/java/jenkins/plugins/continuum/ContinuumClient.java:73 | `code / 100 == 2` in Java arithmetic holds exactly for `200 <= code <= 299`, for every integer |
| ContinuumClient.ApiUrl | src/main/java/jenkins/plugins/continuum/ContinuumClient.java:51-58 | the URL starts with the base, ends with `/api/<command>`, and is longer than the base plus `api/<command>` by exactly one character when the base lacks a trailing `/`, and by none otherwise |
| ContinuumClient.ApiUrlSingleSeparator | src/main/java/jenkins/plugins/continuum/ContinuumClient.java:52-54 | a base with and without its trailing `/` give the same endpoint |
| ContinuumClient.ApiUrlKeepsSlash | src/main/java/jenkins/plugins/continuum/ContinuumClient.java:52-58 | a base ending in `/` gets no extra separator |
| ContinuumClient.ApiUrlExample | src/main/java/jenkins/plugins/continuum/ContinuumClient.java:51-58 | concrete endpoint for a base with and without a trailing slash |
| ContinuumClient.AuthHeaders | src/main/java/jenkins/plugins/continuum/ContinuumClient.java:65-67 | at most one header; there is one exactly when the token is non-`null`, named `Authorization` with value `Token <token>` |
| ContinuumClient.EmptyTokenStillSent | src/main/java/jenkins/plugins/continuum/ContinuumClient.java:65-67 | an empty token still produces `Token `, and a `null` token no header |
| ContinuumClient.PostRequest | src/main/java/jenkins/plugins/continuum/ContinuumClient.java:50-67 | the request `post` builds: the URL of `ApiUrl`, the headers of `AuthHeaders`, the payload as JSON and the default timeouts, whose values `PostRequestSettings` states |
| ContinuumClient.PostRequestSettings | src/main/java/jenkins/plugins/continuum/ContinuumClient.java:84-88 | both timeouts are 10000 ms, the payload is sent unchanged, and the content type is JSON |
| ContinuumClient.ReadResponse | src/main/java/jenkins/plugins/continuum/ContinuumClient.java:110-112 | fails exactly when the entity cannot be read; gives `null` exactly when there is no entity, and the text otherwise |
| ContinuumClient.Classify | src/main/java/jenkins/plugins/continuum/ContinuumClient.java:69-77 | succeeds exactly when the exchange answered, the body was readable and the status is 2xx, and then returns the body; an exchange error propagates; a non-2xx status fails with an `IOException` carrying the reason phrase |
| ContinuumClient.ReadBeforeClassify | src/main/java/jenkins/plugins/continuum/ContinuumClient.java:71-73 | the body is read before the status is tested, so a read error wins whatever the status |
| ContinuumClient.ClassifyExamples | src/main/java/jenkins/plugins/continuum/ContinuumClient.java:70-77 | 204 without an entity succeeds with `null`; 404 fails with its reason; a negative status fails |
| ContinuumClient.ClosedOnExit | src/main/java/jenkins/plugins/continuum/ContinuumClient.java:78-81 | the client is always closed, and last; the response is closed exactly when there is one |
| ContinuumClient.CloseQuietly | src/main/java/jenkins/plugins/continuum/ContinuumClient.java:114-122 | a non-`null` resource is closed whether or not `close` fails, a `null` one is skipped, and nothing is thrown |
| ContinuumClient.Post | src/main/java/jenkins/plugins/continuum/ContinuumClient.java:50-82 | the request built by appending equals `PostRequest`; the result is `Classify` of the reply; the resources closed are `ClosedOnExit` of the reply |
| ContinuumClient.NonSsl | src/main/java/jenkins/plugins/continuum/ContinuumClient.java:131-140 | no enabled protocol starts with `SSL`, and there are no more of them than supported ones |
| ContinuumClient.PrepareSocket | src/main/java/jenkins/plugins/continuum/ContinuumClient.java:131-140 | the loop enables exactly `NonSsl` of the supported protocols |
| ContinuumClient.NonSslMembers | src/main/java/jenkins/plugins/continuum/ContinuumClient.java:134-138 | a protocol is enabled exactly when it is supported and does not start with `SSL` |
| ContinuumClient.NonSslAppend | src/main/java/jenkins/plugins/continuum/ContinuumClient.java:134-138 | filtering distributes over concatenation |
| ContinuumClient.NonSslIsSubsequence | src/main/java/jenkins/plugins/continuum/ContinuumClient.java:134-138 | the enabled protocols keep the order of the supported ones |
| ContinuumClient.NonSslIdempotent | src/main/java/jenkins/plugins/continuum/ContinuumClient.java:134-138 | filtering twice equals filtering once |
| ContinuumClient.PrepareSocketExample | src/main/java/jenkins/plugins/continuum/ContinuumClient.java:131-140 | `[SSLv2Hello, SSLv3, TLSv1, TLSv1.1, TLSv1.2]` enables `[TLSv1, TLSv1.1, TLSv1.2]` |
| CommandInputBuilder.VerifyRequiredParameters | src/main/java/jenkins/plugins/continuum/CommandInputBuilder.java:43-52 | the early return happens exactly for a `null` or empty required set; "all present" exactly when the required set is a non-empty subset of the keys; otherwise the missing names are non-empty, disjoint from the keys and equal to `required - keys` |
| CommandInputBuilder.ToContinuumApi | src/main/java/jenkins/plugins/continuum/CommandInputBuilder.java:31-34 | the payload is the serialisation of the unchanged parameters |
| CommandInputBuilder.PayloadIgnoresRequiredNames | src/main/java/jenkins/plugins/continuum/CommandInputBuilder.java:31-34 | two builders with any required names give the same payload |
| InitiatePipelineInputBuilder.RequiredParameterNames | src/main/java/jenkins/plugins/continuum/InitiatePipelineInputBuilder.java:28-34 | the required set is exactly `{definition, group, project}` |
| InitiatePipelineInputBuilder.NeverNothingRequired | src/main/java/jenkins/plugins/continuum/InitiatePipelineInputBuilder.java:28-34 | verification never takes the early return for this builder |
| InitiatePipelineInputBuilder.ThreeKeysSuffice | src/main/java/jenkins/plugins/continuum/InitiatePipelineInputBuilder.java:28-34 | any map with the three keys, extras allowed, passes the containment check |
| InitiatePipelineInputBuilder.MissingKeyStillSerialises | src/main/java/jenkins/plugins/continuum/InitiatePipelineInputBuilder.java:28-34 | a map lacking one of them takes the ignored branch and still serialises to its JSON |
| JavaText.IsBlank | src/main/java/jenkins/plugins/continuum/steps/CtmSetPiDataStep.java:125-139 | `StringUtils.isBlank`, used by every gate and fallback: `null`, empty, or made of `Character.isWhitespace` characters only |
| JavaText.Trim | src/main/java/jenkins/plugins/continuum/steps/CtmSetPiDataStep.java:181 | `String.trim` leaves no character `<= ' '` at either end |
| JavaText.StripStartDropsOnly | src/main/java/jenkins/plugins/continuum/steps/CtmSetPiDataStep.java:181 | removing leading characters keeps a suffix of the text and removes only characters of the given class |
| JavaText.StripEndDropsOnly | src/main/java/jenkins/plugins/continuum/steps/CtmSetPiDataStep.java:181 | removing trailing characters keeps a prefix of the text and removes only characters of the given class |
| JavaText.StripDropsOnly | src/main/java/jenkins/plugins/continuum/steps/CtmSetPiDataStep.java:181 | stripping both ends keeps one slice `s[i..j]` of the text, and every character outside it is of the given class |
| JavaText.TrimDropsOnlyBlanks | src/main/java/jenkins/plugins/continuum/steps/CtmSetPiDataStep.java:181 | `String.trim` keeps one slice of the text and removes only characters `<= ' '` around it, so nothing inside is lost |
| JavaText.SplitOnComma | src/main/java/jenkins/plugins/continuum/steps/CtmSetPiDataStep.java:181 | there is at least one field, and no field contains a comma |
| JavaText.JoinSplitOnComma | src/main/java/jenkins/plugins/continuum/steps/CtmSetPiDataStep.java:181 | joining the fields with commas gives the text back |
| JavaText.SplitJoinWithComma | src/main/java/jenkins/plugins/continuum/steps/CtmSetPiDataStep.java:181 | splitting comma-free fields joined with commas gives the fields back |
| JavaText.DropTrailingEmpty | src/main/java/jenkins/plugins/continuum/steps/CtmSetPiDataStep.java:181 | `split` keeps a prefix of the pieces; the last piece kept is non-empty, and every piece dropped is empty |
| JavaText.SplitPiList | src/main/java/jenkins/plugins/continuum/steps/CtmSetPiDataStep.java:181 | a trimmed text without a comma is one ID; otherwise the last ID, if any, is non-empty |
| JavaText.SplitPiListPieces | src/main/java/jenkins/plugins/continuum/steps/CtmSetPiDataStep.java:181 | no ID contains a comma or has `\s` at either end |
| JavaText.SplitPiListOfJoin | src/main/java/jenkins/plugins/continuum/steps/CtmSetPiDataStep.java:181 | round trip: well-formed IDs joined with commas split back into exactly those IDs |
| JavaText.SplitPiListSpaced | src/main/java/jenkins/plugins/continuum/steps/CtmSetPiDataStep.java:181 | `" a , b "` gives exactly the IDs `a` and `b`: blanks around the list and around each comma are removed |
| JavaText.SplitPiListCommaOnly | src/main/java/jenkins/plugins/continuum/steps/CtmSetPiDataStep.java:181 | `","` yields no IDs, because trailing empty pieces are dropped |
| CtmCommandStep.EnvGet | src/main/java/jenkins/plugins/continuum/steps/CtmCommandStep.java:179-182 | a variable is found exactly when it is set, with its value |
| CtmCommandStep.WithEnvFallback | src/main/java/jenkins/plugins/continuum/steps/CtmCommandStep.java:176-185 | a non-blank value is kept; a blank one is replaced by the environment variable when the environment is available, and kept otherwise |
| CtmCommandStep.FallbackBlankOnlyIfNoSource | src/main/java/jenkins/plugins/continuum/steps/CtmCommandStep.java:176-196 | the result is blank exactly when the configured value is blank and the environment is missing or has a blank variable |
| CtmCommandStep.ServerUrl | src/main/java/jenkins/plugins/continuum/steps/CtmCommandStep.java:176-185 | the configured URL, else `CTM_SERVER_URL`, else the configured blank value |
| CtmCommandStep.CredentialsId | src/main/java/jenkins/plugins/continuum/steps/CtmCommandStep.java:187-196 | the configured ID, else `CTM_CRED_ID`, else the configured blank value |
| CtmCommandStep.FirstIndexWithId | src/main/java/jenkins/plugins/continuum/steps/CtmCommandStep.java:255-260 | the index of a candidate with the ID and none before it, or none when no candidate has it |
| CtmCommandStep.CredentialFor | src/main/java/jenkins/plugins/continuum/steps/CtmCommandStep.java:251-263 | nothing for a blank ID; otherwise a candidate with that ID, and nothing only when no candidate has it |
| CtmCommandStep.FirstMatchWins | src/main/java/jenkins/plugins/continuum/steps/CtmCommandStep.java:255-260 | the earliest candidate with the ID is the one returned |
| CtmCommandStep.GetCredentials | src/main/java/jenkins/plugins/continuum/steps/CtmCommandStep.java:251-263 | the loop with `break` returns `CredentialFor` |
| CtmCommandStep.TokenFrom | src/main/java/jenkins/plugins/continuum/steps/CtmCommandStep.java:200-217 | a non-blank token is kept; a username/password credential gives its password or `null`; a credential of another kind gives its probed secret, or the blank token when it has none; with no credential the blank token stays |
| CtmCommandStep.ApiToken | src/main/java/jenkins/plugins/continuum/steps/CtmCommandStep.java:198-225 | a non-blank token is returned as is; it fails, with a `NullPointerException`, exactly when the token is blank and there is no run |
| CtmCommandStep.ExplicitTokenWins | src/main/java/jenkins/plugins/continuum/steps/CtmCommandStep.java:198-200 | a non-blank token does not depend on the credentials store |
| CtmCommandStep.PasswordBecomesToken | src/main/java/jenkins/plugins/continuum/steps/CtmCommandStep.java:201-205 | a blank token with a username/password credential found becomes its password |
| CtmCommandStep.SecretBecomesToken | src/main/java/jenkins/plugins/continuum/steps/CtmCommandStep.java:206-216 | a blank token with a credential of another kind whose probed `getSecret` gives a secret becomes that secret |
| CtmCommandStep.NoCredentialKeepsBlankToken | src/main/java/jenkins/plugins/continuum/steps/CtmCommandStep.java:206-219 | a blank token with no credential, or one without a secret, comes back as the blank value |
| CtmCommandStep.LogLineFormat | src/main/java/jenkins/plugins/continuum/steps/CtmCommandStep.java:246-249 | a log line starts with `Continuum `, ends with a line break, and holds the command name and the message at fixed positions |
| CtmCommandStep.LogLineInjective | src/main/java/jenkins/plugins/continuum/steps/CtmCommandStep.java:246-249 | distinct messages give distinct lines for the same command |
| CtmCommandStep.LogLine | src/main/java/jenkins/plugins/continuum/steps/CtmCommandStep.java:246-249 | the console line `log` writes: the product prefix, the command name, the message and a line break, whose layout `LogLineFormat` states |
| CtmCommandStep.CommandCall | src/main/java/jenkins/plugins/continuum/steps/CtmCommandStep.java:154-165 | a request is sent exactly when there is a step, a URL, and a token lookup that does not fail (the token itself may be `null`, and the request then has no `Authorization` header); it is `PostRequest` of those; its result is the classified reply; otherwise the call fails with a `NullPointerException` |
| CtmCommandStep.CommandCallTarget | src/main/java/jenkins/plugins/continuum/steps/CtmCommandStep.java:157-158 | the request goes to the resolved server's `/api/<command>` endpoint and carries the payload unchanged |
| CtmCommandStep.CtmCommandStepExecution.constructor | src/main/java/jenkins/plugins/continuum/steps/CtmCommandStep.java:146-152 | the execution starts with no converter, an empty console and nothing sent |
| CtmCommandStep.CtmCommandStepExecution.Log | src/main/java/jenkins/plugins/continuum/steps/CtmCommandStep.java:246-249 | appends exactly one `LogLine` and changes nothing else |
| CtmCommandStep.CtmCommandStepExecution.MarkUnstable | src/main/java/jenkins/plugins/continuum/steps/CtmCommandStep.java:230-236 | with a run, the result becomes UNSTABLE exactly when the step is missing or its flag is set, and is unchanged otherwise |
| CtmCommandStep.CtmCommandStepExecution.ExecuteCommand | src/main/java/jenkins/plugins/continuum/steps/CtmCommandStep.java:154-165 | without a converter it fails, having logged and sent nothing; otherwise it returns the call's result unchanged, records the request if one was sent, and logs `Request payload: <payload>` exactly on failure |
| CtmSetPiDataStep.ResolvePipelineIds | src/main/java/jenkins/plugins/continuum/steps/CtmSetPiDataStep.java:178-202 | without an explicit list the IDs are a subset of the registry's IDs for the server |
| CtmSetPiDataStep.ExplicitListWins | src/main/java/jenkins/plugins/continuum/steps/CtmSetPiDataStep.java:180-185 | a non-blank list gives the IDs of its split, whatever the registry and `useLastPi` |
| CtmSetPiDataStep.ExplicitListOfJoin | src/main/java/jenkins/plugins/continuum/steps/CtmSetPiDataStep.java:180-185 | a list of well-formed comma-joined IDs resolves to exactly those IDs |
| CtmSetPiDataStep.CommaOnlyResolvesToNothing | src/main/java/jenkins/plugins/continuum/steps/CtmSetPiDataStep.java:181-184 | `","` resolves to no instance |
| CtmSetPiDataStep.NoRegistryResolvesToNothing | src/main/java/jenkins/plugins/continuum/steps/CtmSetPiDataStep.java:186-188 | without a list and without a registry there is nothing to post to |
| CtmSetPiDataStep.UseLastPiResolvesToLast | src/main/java/jenkins/plugins/continuum/steps/CtmSetPiDataStep.java:190-195 | with `useLastPi`: at most one ID; the last ID when it is not blank; nothing when it is blank or missing; and any ID found is the last one |
| CtmSetPiDataStep.AllRegistryIds | src/main/java/jenkins/plugins/continuum/steps/CtmSetPiDataStep.java:196-198 | without `useLastPi`, an ID is resolved exactly when the registry holds it for the server |
| CtmSetPiDataStep.LastAfterAdd | src/main/java/jenkins/plugins/continuum/steps/CtmSetPiDataStep.java:190-195 | right after a new non-blank ID is added, `useLastPi` picks exactly it |
| CtmSetPiDataStep.NothingAfterReset | src/main/java/jenkins/plugins/continuum/steps/CtmSetPiDataStep.java:186-199 | after `reset` of the server, nothing is resolved from the registry |
| CtmSetPiDataStep.ValueObject | src/main/java/jenkins/plugins/continuum/steps/CtmSetPiDataStep.java:153-159 | the value is embedded as a JSON object exactly when it parses as one, and carries the value's text either way |
| CtmSetPiDataStep.PiDataParams | src/main/java/jenkins/plugins/continuum/steps/CtmSetPiDataStep.java:150-160 | the parameters have exactly the keys `pi`, `key`, `value`, holding the instance, the key and the value object |
| CtmSetPiDataStep.PiDataParamsDifferOnlyInPi | src/main/java/jenkins/plugins/continuum/steps/CtmSetPiDataStep.java:150-152 | the commands for two instances differ, and only in `pi` |
| CtmSetPiDataStep.GateOutcome | src/main/java/jenkins/plugins/continuum/steps/CtmSetPiDataStep.java:124-140 | a failed gate is a missing URL, key or value, or the crash of a missing step |
| CtmSetPiDataStep.GatesInOrder | src/main/java/jenkins/plugins/continuum/steps/CtmSetPiDataStep.java:124-140 | a blank URL gives the missing-URL outcome whatever the key and value; a non-blank URL with a blank key the missing-key outcome; a non-blank URL and key with a blank value the missing-value outcome; all gates pass exactly when the three are non-blank |
| CtmSetPiDataStep.GateMessage | src/main/java/jenkins/plugins/continuum/steps/CtmSetPiDataStep.java:124-140 | the message each failed gate logs: the invalid-URL constant, or the invalid-key or invalid-value message the step borrows |
| CtmSetPiDataStep.Resolution | src/main/java/jenkins/plugins/continuum/steps/CtmSetPiDataStep.java:178-199 | fails exactly when the registry is needed and there is no run; otherwise gives `ResolvePipelineIds` |
| CtmSetPiDataStep.FailureLines | src/main/java/jenkins/plugins/continuum/steps/CtmSetPiDataStep.java:165-174 | the report lines of the two catch blocks: the Jenkins-URL notice, or the exception's message and the failure notice; their shape is stated by `FailureReportShape` |
| CtmSetPiDataStep.FailureReportShape | src/main/java/jenkins/plugins/continuum/steps/CtmSetPiDataStep.java:165-174 | an `IllegalStateException` is reported on one line asking for a Jenkins URL; any other exception is reported on two lines; of the modelled lines (the stack trace is not modelled), the last tells the two cases apart |
| CtmSetPiDataStep.NullPointerReportedAsNull | src/main/java/jenkins/plugins/continuum/steps/CtmSetPiDataStep.java:170-172 | an exception without a message is logged as `null`, then the failure notice |
| CtmSetPiDataStep.PostedRequests | src/main/java/jenkins/plugins/continuum/steps/CtmSetPiDataStep.java:149-161 | the loop sends at most one request per instance |
| CtmSetPiDataStep.DataSetLines | src/main/java/jenkins/plugins/continuum/steps/CtmSetPiDataStep.java:162 | exactly one `Pipeline data set:` line per instance set |
| CtmSetPiDataStep.PostedOneMore | src/main/java/jenkins/plugins/continuum/steps/CtmSetPiDataStep.java:149-163 | one more instance adds its request, if sent, and on success its line, after those before |
| CtmSetPiDataStep.AllSucceededOneMore | src/main/java/jenkins/plugins/continuum/steps/CtmSetPiDataStep.java:149-163 | a success keeps "every posted instance succeeded" |
| CtmSetPiDataStep.PostedSetOneMore | src/main/java/jenkins/plugins/continuum/steps/CtmSetPiDataStep.java:149 | taking one more element of the set keeps `posted` duplicate-free and moves the element from the remaining to the posted ones |
| CtmSetPiDataStep.AllOrNoneSent | src/main/java/jenkins/plugins/continuum/steps/CtmSetPiDataStep.java:149-161 | every command of a run goes to the same server with the same token, so either all are sent or none is |
| CtmSetPiDataStep.OneRequestPerInstance | src/main/java/jenkins/plugins/continuum/steps/CtmSetPiDataStep.java:149-161 | when requests go out, the `k`-th request is the command for the `k`-th instance posted to |
| CtmSetPiDataStep.CtmSetPiDataStepExecution.constructor | src/main/java/jenkins/plugins/continuum/steps/CtmSetPiDataStep.java:111-114 | the shared execution is for `set_pi_data`, with no converter, an empty console and nothing sent |
| CtmSetPiDataStep.CtmSetPiDataStepExecution.Initialize | src/main/java/jenkins/plugins/continuum/steps/CtmSetPiDataStep.java:223-228 | the converter is set only when missing, so a second call changes nothing |
| CtmSetPiDataStep.CtmSetPiDataStepExecution.MarkUnstableAndLog | src/main/java/jenkins/plugins/continuum/steps/CtmSetPiDataStep.java:212-216 | logs the message, then marks the run as `markUnstable` does |
| CtmSetPiDataStep.CtmSetPiDataStepExecution.ReportFailure | src/main/java/jenkins/plugins/continuum/steps/CtmSetPiDataStep.java:165-174 | writes the failure lines and marks the run, sending nothing |
| CtmSetPiDataStep.CtmSetPiDataStepExecution.PipelineIds | src/main/java/jenkins/plugins/continuum/steps/CtmSetPiDataStep.java:178-202 | the set built with `addAll`/`add` is `Resolution` of the step, the run and its registry |
| CtmSetPiDataStep.CtmSetPiDataStepExecution.SetOne | src/main/java/jenkins/plugins/continuum/steps/CtmSetPiDataStep.java:150-162 | one command: its result, its request if sent, and either its `Pipeline data set:` line or its payload line |
| CtmSetPiDataStep.CtmSetPiDataStepExecution.PostNext | src/main/java/jenkins/plugins/continuum/steps/CtmSetPiDataStep.java:149-163 | one pass of the loop, stated against everything posted before it |
| CtmSetPiDataStep.CtmSetPiDataStepExecution.PostUntilFailure | src/main/java/jenkins/plugins/continuum/steps/CtmSetPiDataStep.java:149-163 | without failure, every instance is posted once in some order and all succeeded; on failure, the last instance posted is the failing one, all before it succeeded, and nothing after it was sent |
| CtmSetPiDataStep.CtmSetPiDataStepExecution.PostAll | src/main/java/jenkins/plugins/continuum/steps/CtmSetPiDataStep.java:149-174 | the loop and its catch blocks: all set and the run untouched, or stopped at the first failure, which is reported and marks the run |
| CtmSetPiDataStep.CtmSetPiDataStepExecution.SetData | src/main/java/jenkins/plugins/continuum/steps/CtmSetPiDataStep.java:142-174 | a failed resolution is reported; an empty set logs `There are no pipelines to set data on`, posts nothing and leaves the run alone; otherwise the commands are posted as `PostAll` states |
| CtmSetPiDataStep.CtmSetPiDataStepExecution.Run | src/main/java/jenkins/plugins/continuum/steps/CtmSetPiDataStep.java:122-176 | the first failing gate logs its message, marks the run and returns with nothing sent and the converter untouched; past the gates the converter is set, and the step ends with nothing to post, all set, or aborted at the first failure, with the console and the requests as stated |

## Left out

- The HTTP exchange, the JSON library (`toJsonString`, `JSONObject.fromObject`) and the
  credentials store are foreign code. They are parameters: `exchange`, `sv.toJson`,
  `sv.parsesAsJsonObject` and `lookup`. `URIRequirementBuilder` is folded into
  `lookup`, which receives the server URL.
- The serialiser `toJson` is total, so a serialisation failure in `executeCommand` is
  not modelled. In the source that failure happens before the `try`, so nothing would
  be logged.
- The reflective `getSecret` probe of `getAPIToken` is the optional `secret` of a
  non-username/password credential. A probe that throws, or returns something that is
  not a `Secret`, is `None`.
- The source calls `getEnvVars()` again in every `getServerUrl` and `getCredentialsId`
  call, and the step's gate and `executeCommand` each call `getServerUrl`. The model
  takes one environment per execution, so it assumes the step context returns the same
  environment on every call.
- `EnvVars` compares variable names case-insensitively. The model uses exact-key
  lookup.
- `println` writes the platform line separator; the model writes `"\n"`.
- Strings are sequences of `char` (UTF-16 code units in Java, Unicode scalar values in
  Dafny). Surrogate pairs are not modelled.
- `java.util.logging` warnings are host-side diagnostics and are not modelled.
- After each failure report the step prints the exception's stack trace to the build
  console (`printStackTrace(consoleLogger)`). The model does not write the stack trace:
  the console holds the report lines only.
- The model assumes a JVM from Java 9 to Java 14. A `NullPointerException` raised by
  the JVM has no message there (helpful messages are on by default from Java 15). And
  `IsWhitespace` follows the character table of those versions, which no longer lists
  U+180E as whitespace.
- `getPipelineIds` of the registry returns an unmodifiable live view. The model returns
  a snapshot of the IDs.
- `null` server URLs or IDs as registry keys or elements are not modelled.
- `Run.setResult` in Jenkins only ever worsens a result. The model stores UNSTABLE as
  the `markUnstable` code requests it.
- `CloseQuietly` swallows every failure of `close`. The source catches only
  `IOException`, so an unchecked exception from `close` is not modelled.
- The `HttpPost` constructor's `IllegalArgumentException` for a malformed URI is not
  modelled; the URL is only built.
- The commented-out proxy block of `getHttpClient` has no behaviour.
- Descriptors, form validation, UI, `SynchNonBlockingStepExecution` scheduling and
  `StepContext` retrieval belong to the host.
- `CtmPostPiDataStep` and `PostPiDataInputBuilder` are not part of this model. The
  `LOG_MESSAGE_INVALID_KEY` and `LOG_MESSAGE_INVALID_VALUE` messages that the gates
  borrow from it are constructor values. The `post_pi_data` builder the step borrows is
  a constructor value too, so its required names are whatever that value carries.
- `CtmSetPiDataStep.CtmSetPiDataStepExecution.Run`: the order of the `HashSet` iteration
  is unspecified. The loop chooses any remaining element, and `posted` reports the order
  used, so every property is stated for whichever order occurs.
- `CtmSetPiDataStep.CtmSetPiDataStepExecution.Run`: all three exception kinds are
  modelled alike when they escape `post`, because any `Exception` lands in the same
  catch block. An `IllegalStateException` takes its own block, as in the source.
- `CtmSetPiDataStep.ResolvePipelineIds`: a `null` server URL is never a registry key. It
  cannot reach the registry once the URL gate has passed.
