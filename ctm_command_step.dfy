/** The shared part of every Continuum pipeline step: where the server URL, the
    credentials ID and the API token come from, how the run is marked unstable, the
    console log format, and how one command is sent. */
module CtmCommandStep {
  import opened Wrappers
  import opened JavaText
  import C = ContinuumConstants
  import H = Host
  import CIB = CommandInputBuilder
  import Client = ContinuumClient

  /** The build environment: variable name to value. */
  type EnvVars = map<string, string>

  const LOG_MESSAGE_INVALID_URL: string := "The URL to the Continuum server is missing."

  /** The configured step: server URL, credentials ID, the mark-unstable flag and an
      explicit API token, each as the user left it (`null` possible). */
  datatype CommandStep = CommandStep(ctmUrl: Option<string>, credentialsId: Option<string>,
                                     markUnstable: bool, apiToken: Option<string>)

  /** `EnvVars.get`: `null` for a variable that is not set. */
  function EnvGet(env: EnvVars, name: string): (v: Option<string>)
    ensures v.Some? <==> name in env
    ensures v.Some? ==> v.value == env[name]
  {
    if name in env then Some(env[name]) else None
  }

  /** A blank configured value falls back to an environment variable, when the
      environment is available; otherwise the configured value stays, blank as it is. */
  function WithEnvFallback(configured: Option<string>, env: Option<EnvVars>, name: string): (r: Option<string>)
    ensures !IsBlank(configured) ==> r == configured
    ensures IsBlank(configured) && env.Some? ==> r == EnvGet(env.value, name)
    ensures IsBlank(configured) && env.None? ==> r == configured
  {
    if IsBlank(configured) && env.Some? then EnvGet(env.value, name) else configured
  }

  /** The fallback yields a blank value only when every source is blank or missing, and
      it never replaces a value the user configured. */
  lemma FallbackBlankOnlyIfNoSource(configured: Option<string>, env: Option<EnvVars>, name: string)
    ensures IsBlank(WithEnvFallback(configured, env, name)) <==>
              IsBlank(configured) && (env.None? || IsBlank(EnvGet(env.value, name)))
    ensures forall e: Option<EnvVars> :: !IsBlank(configured) ==> WithEnvFallback(configured, e, name) == configured
  {
  }

  /** `getServerUrl`: the configured URL, else `CTM_SERVER_URL`. */
  function ServerUrl(step: CommandStep, env: Option<EnvVars>): (url: Option<string>)
    ensures !IsBlank(step.ctmUrl) ==> url == step.ctmUrl
    ensures IsBlank(step.ctmUrl) && env.Some? ==> url == EnvGet(env.value, "CTM_SERVER_URL")
    ensures IsBlank(step.ctmUrl) && env.None? ==> url == step.ctmUrl
  {
    WithEnvFallback(step.ctmUrl, env, C.ENV_VARIABLE__SERVER_URL)
  }

  /** `getCredentialsId`: the configured ID, else `CTM_CRED_ID`. */
  function CredentialsId(step: CommandStep, env: Option<EnvVars>): (id: Option<string>)
    ensures !IsBlank(step.credentialsId) ==> id == step.credentialsId
    ensures IsBlank(step.credentialsId) && env.Some? ==> id == EnvGet(env.value, "CTM_CRED_ID")
    ensures IsBlank(step.credentialsId) && env.None? ==> id == step.credentialsId
  {
    WithEnvFallback(step.credentialsId, env, C.ENV_VARIABLE__CREDENTIAL_ID)
  }

  /** The position of the first credential with the given ID, in lookup order. */
  function FirstIndexWithId(candidates: seq<H.Credential>, id: string): (k: Option<nat>)
    ensures k.Some? ==> k.value < |candidates| && candidates[k.value].id == id
                        && forall j :: 0 <= j < k.value ==> candidates[j].id != id
    ensures k.None? ==> forall j :: 0 <= j < |candidates| ==> candidates[j].id != id
  {
    if candidates == [] then None
    else if candidates[0].id == id then Some(0)
    else
      var rest := FirstIndexWithId(candidates[1..], id);
      if rest.None? then None else Some(rest.value + 1)
  }

  /** Static `getCredentials`: nothing for a blank ID, else the first match, if any. */
  function CredentialFor(credentialsId: Option<string>, candidates: seq<H.Credential>): (c: Option<H.Credential>)
    ensures IsBlank(credentialsId) ==> c.None?
    ensures c.Some? ==> c.value in candidates && c.value.id == credentialsId.value
    ensures !IsBlank(credentialsId) && c.None? ==> forall j :: 0 <= j < |candidates| ==> candidates[j].id != credentialsId.value
  {
    if IsBlank(credentialsId) then None
    else
      var k := FirstIndexWithId(candidates, credentialsId.value);
      if k.None? then None else Some(candidates[k.value])
  }

  /** Among several credentials with the same ID the earliest in lookup order is taken. */
  lemma FirstMatchWins(credentialsId: string, candidates: seq<H.Credential>, k: nat)
    requires !IsBlank(Some(credentialsId))
    requires k < |candidates| && candidates[k].id == credentialsId
    requires forall j :: 0 <= j < k ==> candidates[j].id != credentialsId
    ensures CredentialFor(Some(credentialsId), candidates) == Some(candidates[k])
  {
  }

  /** The loop of static `getCredentials`, which stops at the first match. */
  method GetCredentials(credentialsId: Option<string>, candidates: seq<H.Credential>) returns (result: Option<H.Credential>)
    ensures result == CredentialFor(credentialsId, candidates)
  {
    result := None;
    if !IsBlank(credentialsId) {
      var i := 0;
      while i < |candidates|
        invariant 0 <= i <= |candidates|
        invariant forall j :: 0 <= j < i ==> candidates[j].id != credentialsId.value
      {
        if candidates[i].id == credentialsId.value {
          result := Some(candidates[i]);
          FirstMatchWins(credentialsId.value, candidates, i);
          break;
        }
        i := i + 1;
      }
    }
  }

  /** The token a blank configured token is replaced by, given the credential found: a
      username/password credential gives its password (or `null`); another kind gives
      its probed secret when there is one; otherwise the configured value stays. */
  function TokenFrom(configured: Option<string>, credential: Option<H.Credential>): (t: Option<string>)
    ensures !IsBlank(configured) ==> t == configured
    ensures IsBlank(configured) && credential.Some? && credential.value.UsernamePassword? ==> t == credential.value.password
    ensures IsBlank(configured) && credential.None? ==> t == configured
    ensures IsBlank(configured) && credential.Some? && credential.value.OtherCredential? ==>
              t == if credential.value.secret.Some? then credential.value.secret else configured
  {
    if !IsBlank(configured) then configured
    else match credential
      case None => configured
      case Some(UsernamePassword(_, password)) => password
      case Some(OtherCredential(_, secret)) => if secret.Some? then secret else configured
  }

  /** `getAPIToken`. With a blank configured token the credential lookup goes through the
      run's parent, which fails with a `NullPointerException` when there is no run. */
  function ApiToken(step: CommandStep, hasRun: bool, env: Option<EnvVars>,
                    lookup: Option<string> -> seq<H.Credential>): (r: Result<Option<string>, H.Exception>)
    ensures !IsBlank(step.apiToken) ==> r == Success(step.apiToken)
    ensures r.Failure? <==> IsBlank(step.apiToken) && !hasRun
    ensures r.Failure? ==> r.error == H.NullPointer
  {
    if !IsBlank(step.apiToken) then Success(step.apiToken)
    else if !hasRun then Failure(H.NullPointer)
    else
      var credential := CredentialFor(CredentialsId(step, env), lookup(ServerUrl(step, env)));
      Success(TokenFrom(step.apiToken, credential))
  }

  /** A usable explicit token is returned without consulting any credential store. */
  lemma ExplicitTokenWins(step: CommandStep, hasRun: bool, env: Option<EnvVars>,
                          lookup1: Option<string> -> seq<H.Credential>, lookup2: Option<string> -> seq<H.Credential>)
    requires !IsBlank(step.apiToken)
    ensures ApiToken(step, hasRun, env, lookup1) == ApiToken(step, hasRun, env, lookup2) == Success(step.apiToken)
  {
  }

  /** A blank token with a username/password credential found yields its password. */
  lemma PasswordBecomesToken(step: CommandStep, env: Option<EnvVars>, lookup: Option<string> -> seq<H.Credential>,
                             id: string, password: Option<string>)
    requires IsBlank(step.apiToken)
    requires CredentialFor(CredentialsId(step, env), lookup(ServerUrl(step, env))) == Some(H.UsernamePassword(id, password))
    ensures ApiToken(step, true, env, lookup) == Success(password)
  {
  }

  /** A blank token with a credential of another kind whose probed `getSecret` gives a
      secret becomes that secret. */
  lemma SecretBecomesToken(step: CommandStep, env: Option<EnvVars>, lookup: Option<string> -> seq<H.Credential>,
                           id: string, secret: string)
    requires IsBlank(step.apiToken)
    requires CredentialFor(CredentialsId(step, env), lookup(ServerUrl(step, env))) == Some(H.OtherCredential(id, Some(secret)))
    ensures ApiToken(step, true, env, lookup) == Success(Some(secret))
  {
  }

  /** A blank token with no usable credential comes back as the configured blank value. */
  lemma NoCredentialKeepsBlankToken(step: CommandStep, env: Option<EnvVars>, lookup: Option<string> -> seq<H.Credential>)
    requires IsBlank(step.apiToken)
    requires var c := CredentialFor(CredentialsId(step, env), lookup(ServerUrl(step, env)));
             c.None? || (c.value.OtherCredential? && c.value.secret.None?)
    ensures ApiToken(step, true, env, lookup) == Success(step.apiToken)
    ensures IsBlank(ApiToken(step, true, env, lookup).value)
  {
  }

  /** The `markUnstable` guard: a missing step, or one with the flag set. */
  predicate MarksUnstable(step: Option<CommandStep>) {
    step.None? || step.value.markUnstable
  }

  /** One console line: `Continuum <command> - <message>` and a line break. */
  function LogLine(commandName: string, msg: string): string {
    "Continuum " + commandName + " - " + msg + "\n"
  }

  /** A console line starts with the product prefix, ends with a line break, and the
      command name and message can be read back from their positions. */
  lemma LogLineFormat(commandName: string, msg: string)
    ensures var line := LogLine(commandName, msg);
            && StartsWith(line, "Continuum ") && EndsWith(line, "\n")
            && |line| == |"Continuum "| + |commandName| + |" - "| + |msg| + 1
            && line[|"Continuum "|..|"Continuum "| + |commandName|] == commandName
            && line[|line| - 1 - |msg|..|line| - 1] == msg
  {
  }

  /** Distinct messages give distinct console lines for the same command. */
  lemma LogLineInjective(commandName: string, m1: string, m2: string)
    requires LogLine(commandName, m1) == LogLine(commandName, m2)
    ensures m1 == m2
  {
    var l := LogLine(commandName, m1);
    LogLineFormat(commandName, m1);
    LogLineFormat(commandName, m2);
    assert |m1| == |m2|;
    assert m1 == l[|l| - 1 - |m1|..|l| - 1] == m2;
  }

  /** What `executeCommand` does once the payload is built: the request it sends, if it
      gets as far as sending one, and what it returns or throws. */
  datatype Call = Call(request: Option<Client.Request>, result: Result<Option<string>, H.Exception>)

  /** Sending one command: the step is needed for the URL, the run for a credential
      lookup, and a `null` URL fails in `post` before anything is sent. */
  function CommandCall(step: Option<CommandStep>, hasRun: bool, env: Option<EnvVars>,
                       lookup: Option<string> -> seq<H.Credential>, commandName: string, payload: string,
                       exchange: Client.Request -> Client.Reply): (call: Call)
    ensures call.request.Some? <==> step.Some? && ServerUrl(step.value, env).Some?
                                     && ApiToken(step.value, hasRun, env, lookup).Success?
    ensures call.request.Some? ==> call.request.value == Client.PostRequest(ServerUrl(step.value, env).value,
                                     ApiToken(step.value, hasRun, env, lookup).value, commandName, payload)
    ensures call.request.Some? ==> call.result == Client.Classify(exchange(call.request.value))
    ensures call.request.None? ==> call.result == Failure(H.NullPointer)
  {
    if step.None? then Call(None, Failure(H.NullPointer))
    else
      var url := ServerUrl(step.value, env);
      var token := ApiToken(step.value, hasRun, env, lookup);
      if token.Failure? || url.None? then Call(None, Failure(H.NullPointer))
      else
        var request := Client.PostRequest(url.value, token.value, commandName, payload);
        Call(Some(request), Client.Classify(exchange(request)))
  }

  /** The request goes to the resolved server and carries the payload unchanged. */
  lemma CommandCallTarget(step: CommandStep, hasRun: bool, env: Option<EnvVars>,
                          lookup: Option<string> -> seq<H.Credential>, commandName: string, payload: string,
                          exchange: Client.Request -> Client.Reply)
    requires CommandCall(Some(step), hasRun, env, lookup, commandName, payload, exchange).request.Some?
    ensures var r := CommandCall(Some(step), hasRun, env, lookup, commandName, payload, exchange).request.value;
            StartsWith(r.url, ServerUrl(step, env).value) && EndsWith(r.url, "/api/" + commandName) && r.payload == payload
  {
  }

  /** The console line `executeCommand` writes before rethrowing a failure. */
  function PayloadLine(commandName: string, payload: string): string {
    LogLine(commandName, "Request payload: " + payload)
  }

  /** The execution of a command step: what it was started with, its lazily set input
      builder, and what it has done so far (the console lines, the requests sent). */
  class CtmCommandStepExecution {
    const step: Option<CommandStep>
    const commandName: string
    const run: H.Run?
    /** What the step context yields for `EnvVars`; `None` when that fails. */
    const env: Option<EnvVars>
    /** The credentials store, queried with the server URL as the domain requirement. */
    const lookup: Option<string> -> seq<H.Credential>
    var converter: Option<CIB.InputBuilder>
    /** The lines written to the build console, in order, each with its line break. */
    var console: seq<string>
    var sent: seq<Client.Request>

    constructor (step: Option<CommandStep>, commandName: string, run: H.Run?, env: Option<EnvVars>,
                 lookup: Option<string> -> seq<H.Credential>)
      ensures this.step == step && this.commandName == commandName && this.run == run
      ensures this.env == env && this.lookup == lookup
      ensures converter.None? && console == [] && sent == []
    {
      this.step := step;
      this.commandName := commandName;
      this.run := run;
      this.env := env;
      this.lookup := lookup;
      converter := None;
      console := [];
      sent := [];
    }

    /** `log`: appends one formatted line to the console. */
    method Log(msg: string)
      modifies this
      ensures console == old(console) + [LogLine(commandName, msg)]
      ensures converter == old(converter) && sent == old(sent)
    {
      var line := "Continuum " + commandName + " - " + msg + "\n";
      console := console + [line];
    }

    /** `markUnstable`: sets the run's result to unstable when the guard allows and there
        is a run; otherwise nothing changes. */
    method MarkUnstable()
      modifies run
      ensures run != null ==> run.pipelineAction == old(run.pipelineAction)
      ensures run != null && MarksUnstable(step) ==> run.result == Some(H.UnstableResult)
      ensures run != null && !MarksUnstable(step) ==> run.result == old(run.result)
    {
      if step.None? || step.value.markUnstable {
        if run != null {
          run.result := Some(H.UnstableResult);
        }
      }
    }

    /** `executeCommand`: builds the payload with the converter (a missing converter
        fails at once), sends it, and on any later failure logs the payload and rethrows
        the same error; a success returns the client's result unchanged. */
    method ExecuteCommand(params: CIB.Params, toJson: CIB.Params -> string, exchange: Client.Request -> Client.Reply,
                          closeFails: Client.Resource -> bool)
      returns (result: Result<Option<string>, H.Exception>)
      modifies this
      ensures converter == old(converter)
      ensures old(converter).None? ==> result == Failure(H.NullPointer) && console == old(console) && sent == old(sent)
      ensures old(converter).Some? ==>
                var payload := CIB.ToContinuumApi(old(converter).value, params, toJson);
                var call := CommandCall(step, run != null, env, lookup, commandName, payload, exchange);
                && result == call.result
                && sent == old(sent) + (if call.request.Some? then [call.request.value] else [])
                && console == old(console) + (if result.Failure? then [PayloadLine(commandName, payload)] else [])
    {
      if converter.None? {
        return Failure(H.NullPointer);
      }
      var payload := CIB.ToContinuumApi(converter.value, params, toJson);
      if step.None? {
        result := Failure(H.NullPointer);
      } else {
        var serverUrl := ServerUrl(step.value, env);
        var apiToken := ApiToken(step.value, run != null, env, lookup);
        if apiToken.Failure? || serverUrl.None? {
          result := Failure(H.NullPointer);
        } else {
          var request, r, closed := Client.Post(serverUrl.value, apiToken.value, commandName, payload, exchange, closeFails);
          sent := sent + [request];
          result := r;
        }
      }
      if result.Failure? {
        Log("Request payload: " + payload);
      }
    }
  }
}
