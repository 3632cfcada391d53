/** The `ctmSetPiData` step: validate the configuration, resolve the pipeline instances
    to write to, and post one `set_pi_data` command per instance, stopping at the first
    failure. */
module CtmSetPiDataStep {
  import opened Wrappers
  import opened JavaText
  import C = ContinuumConstants
  import H = Host
  import A = Actions
  import CIB = CommandInputBuilder
  import Client = ContinuumClient
  import opened CtmCommandStep

  const NO_PIPELINES: string := "There are no pipelines to set data on"
  const NEEDS_JENKINS_URL: string := "this step needs a Jenkins URL (go to Manage Jenkins > Configure System; click Save)"
  const FAILED_DETAILS: string := "Failed to set PI data...Details: "
  const DATA_SET: string := "Pipeline data set: "

  /** The configured step: the common settings plus the instance list, the data key and
      value, and whether to write to the last initiated instance. */
  datatype SetPiDataStep = SetPiDataStep(base: CommandStep, pi: Option<string>, key: Option<string>,
                                         value: Option<string>, useLastPi: bool)

  /** The foreign services a run depends on: JSON serialisation of a parameter map, the
      test whether a string parses as a JSON object, and the HTTP exchange. */
  datatype Services = Services(toJson: CIB.Params -> string, parsesAsJsonObject: string -> bool,
                               exchange: Client.Request -> Client.Reply)

  function Elements(ids: seq<string>): set<string> {
    set id | id in ids
  }

  /** The registry's IDs for a server; a `null` server URL is never a key. */
  function RegistryIds(m: A.Registry, serverUrl: Option<string>): seq<string> {
    if serverUrl.None? then [] else A.Ids(m, serverUrl.value)
  }

  function RegistryLast(m: A.Registry, serverUrl: Option<string>): Option<string> {
    if serverUrl.None? then None else A.Last(m, serverUrl.value)
  }

  /** `getPipelineIds` once the run is known: a non-blank explicit list wins, split on
      commas; otherwise the registry attached to the run, if any, gives its last ID
      (dropped when blank) or all its IDs for the server. */
  function ResolvePipelineIds(pi: Option<string>, useLastPi: bool, registry: Option<A.Registry>,
                              serverUrl: Option<string>): (ids: set<string>)
    ensures IsBlank(pi) && registry.Some? ==> ids <= Elements(RegistryIds(registry.value, serverUrl))
  {
    if !IsBlank(pi) then
      var pis := SplitPiList(pi.value);
      if |pis| > 0 then Elements(pis) else {}
    else if registry.None? then {}
    else if useLastPi then
      var last := RegistryLast(registry.value, serverUrl);
      if !IsBlank(last) then {last.value} else {}
    else Elements(RegistryIds(registry.value, serverUrl))
  }

  /** A non-blank explicit list decides alone: the registry and `useLastPi` are ignored. */
  lemma ExplicitListWins(pi: string, useLast1: bool, useLast2: bool, r1: Option<A.Registry>, r2: Option<A.Registry>,
                         url1: Option<string>, url2: Option<string>)
    requires !IsBlank(Some(pi))
    ensures ResolvePipelineIds(Some(pi), useLast1, r1, url1) == ResolvePipelineIds(Some(pi), useLast2, r2, url2)
    ensures ResolvePipelineIds(Some(pi), useLast1, r1, url1) == Elements(SplitPiList(pi))
  {
  }

  /** A list written as comma-joined IDs resolves to exactly those IDs. */
  lemma ExplicitListOfJoin(ids: seq<string>, useLastPi: bool, registry: Option<A.Registry>, serverUrl: Option<string>)
    requires |ids| >= 1 && forall k :: 0 <= k < |ids| ==> IsListableId(ids[k])
    requires !IsBlank(Some(JoinWithComma(ids)))
    ensures ResolvePipelineIds(Some(JoinWithComma(ids)), useLastPi, registry, serverUrl) == Elements(ids)
  {
    SplitPiListOfJoin(ids);
  }

  /** Only commas: every piece is an empty trailing piece, so there is nothing to post to. */
  lemma CommaOnlyResolvesToNothing(useLastPi: bool, registry: Option<A.Registry>, serverUrl: Option<string>)
    ensures ResolvePipelineIds(Some(","), useLastPi, registry, serverUrl) == {}
  {
  }

  /** Without an explicit list and without a registry there is nothing to post to. */
  lemma NoRegistryResolvesToNothing(pi: Option<string>, useLastPi: bool, serverUrl: Option<string>)
    requires IsBlank(pi)
    ensures ResolvePipelineIds(pi, useLastPi, None, serverUrl) == {}
  {
  }

  /** With `useLastPi` the result is the server's last ID when it is not blank, else
      nothing; in particular at most one instance. */
  lemma UseLastPiResolvesToLast(pi: Option<string>, m: A.Registry, serverUrl: string)
    requires IsBlank(pi)
    ensures var ids := ResolvePipelineIds(pi, true, Some(m), Some(serverUrl));
            && |ids| <= 1
            && (A.Last(m, serverUrl).Some? && !IsBlank(A.Last(m, serverUrl)) ==> ids == {A.Last(m, serverUrl).value})
            && (IsBlank(A.Last(m, serverUrl)) ==> ids == {})
            && (ids != {} ==> A.Last(m, serverUrl).Some? && ids == {A.Last(m, serverUrl).value})
  {
  }

  /** Without `useLastPi` the result is every registry ID for the server. */
  lemma AllRegistryIds(pi: Option<string>, m: A.Registry, serverUrl: string)
    requires IsBlank(pi)
    ensures forall id :: id in ResolvePipelineIds(pi, false, Some(m), Some(serverUrl)) <==> id in A.Ids(m, serverUrl)
  {
  }

  /** Right after a new, non-blank ID is added for the server, `useLastPi` picks that ID. */
  lemma LastAfterAdd(m: A.Registry, serverUrl: string, id: string)
    requires id !in A.Ids(m, serverUrl) && !IsBlank(Some(id))
    ensures ResolvePipelineIds(None, true, Some(A.Added(m, serverUrl, id)), Some(serverUrl)) == {id}
  {
  }

  /** After `reset` of the server, `useLastPi` finds nothing to post to. */
  lemma NothingAfterReset(m: A.Registry, serverUrl: string, useLastPi: bool)
    ensures ResolvePipelineIds(None, useLastPi, Some(A.Cleared(m, serverUrl)), Some(serverUrl)) == {}
  {
  }

  /** The data value: embedded as a JSON object when it parses as one, else as text. */
  function ValueObject(value: string, parsesAsJsonObject: string -> bool): (v: CIB.Value)
    ensures v.JsonObject? <==> parsesAsJsonObject(value)
    ensures (if v.JsonObject? then v.source else v.text) == value
  {
    if parsesAsJsonObject(value) then CIB.JsonObject(value) else CIB.Text(value)
  }

  /** The parameters of one `set_pi_data` command. */
  function PiDataParams(pi: string, key: string, value: string, parsesAsJsonObject: string -> bool): (params: CIB.Params)
    ensures params.Keys == {"pi", "key", "value"}
    ensures params["pi"] == CIB.Text(pi) && params["key"] == CIB.Text(key)
    ensures params["value"] == ValueObject(value, parsesAsJsonObject)
  {
    map[C.COMMAND_PARAMETER__PI := CIB.Text(pi), C.COMMAND_PARAMETER__KEY := CIB.Text(key),
        C.COMMAND_PARAMETER__VALUE := ValueObject(value, parsesAsJsonObject)]
  }

  /** Commands for two different instances differ exactly in their `pi` entry. */
  lemma PiDataParamsDifferOnlyInPi(p1: string, p2: string, key: string, value: string, parses: string -> bool)
    requires p1 != p2
    ensures PiDataParams(p1, key, value, parses) != PiDataParams(p2, key, value, parses)
    ensures PiDataParams(p1, key, value, parses)["pi" := CIB.Text(p2)] == PiDataParams(p2, key, value, parses)
  {
  }

  /** How the step ends. `Crashed` is an exception that escapes the step; `Aborted` is
      one caught by the step after the gates. */
  datatype SetOutcome =
    | Crashed(error: H.Exception)
    | MissingServerUrl
    | MissingKey
    | MissingValue
    | NoPipelines
    | AllSet
    | Aborted(error: H.Exception)

  /** The validation gates, in order: server URL, key, value. `None` means all passed. */
  function GateOutcome(step: Option<SetPiDataStep>, env: Option<EnvVars>): (o: Option<SetOutcome>)
    ensures o.Some? ==> o.value in {Crashed(H.NullPointer), MissingServerUrl, MissingKey, MissingValue}
  {
    if step.None? then Some(Crashed(H.NullPointer))
    else if IsBlank(ServerUrl(step.value.base, env)) then Some(MissingServerUrl)
    else if IsBlank(step.value.key) then Some(MissingKey)
    else if IsBlank(step.value.value) then Some(MissingValue)
    else None
  }

  /** The first gate that fails decides, whatever the later ones would say; all three
      pass exactly when URL, key and value are all non-blank. */
  lemma GatesInOrder(step: SetPiDataStep, env: Option<EnvVars>)
    ensures IsBlank(ServerUrl(step.base, env)) ==> GateOutcome(Some(step), env) == Some(MissingServerUrl)
    ensures !IsBlank(ServerUrl(step.base, env)) && IsBlank(step.key) ==> GateOutcome(Some(step), env) == Some(MissingKey)
    ensures !IsBlank(ServerUrl(step.base, env)) && !IsBlank(step.key) && IsBlank(step.value) ==>
              GateOutcome(Some(step), env) == Some(MissingValue)
    ensures GateOutcome(Some(step), env).None? <==>
              !IsBlank(ServerUrl(step.base, env)) && !IsBlank(step.key) && !IsBlank(step.value)
    ensures GateOutcome(Some(step), env).None? ==> ServerUrl(step.base, env).Some? && step.key.Some? && step.value.Some?
  {
  }

  /** The message a failed gate logs before marking the run. */
  function GateMessage(o: SetOutcome, invalidKeyMessage: string, invalidValueMessage: string): string {
    match o
    case MissingServerUrl => LOG_MESSAGE_INVALID_URL
    case MissingKey => invalidKeyMessage
    case MissingValue => invalidValueMessage
    case _ => ""
  }

  /** How the step reports an exception it catches after the gates: an
      `IllegalStateException` asks for a configured Jenkins URL; anything else logs its
      message (`null` when it has none) and a failure notice. */
  function FailureLines(e: H.Exception): seq<string> {
    if e.IllegalState? then [LogLine(C.COMMAND_NAME__SET_PI_DATA, NEEDS_JENKINS_URL)]
    else [LogLine(C.COMMAND_NAME__SET_PI_DATA, H.Render(H.Message(e))), LogLine(C.COMMAND_NAME__SET_PI_DATA, FAILED_DETAILS)]
  }

  /** An `IllegalStateException` is reported on one line; any other exception on two,
      its message and then the failure notice. Of the lines modelled, the last tells the
      two apart (the stack trace printed after them is not modelled). */
  lemma FailureReportShape(e: H.Exception)
    ensures |FailureLines(e)| == if e.IllegalState? then 1 else 2
    ensures FailureLines(e)[|FailureLines(e)| - 1] == LogLine(C.COMMAND_NAME__SET_PI_DATA, NEEDS_JENKINS_URL) <==> e.IllegalState?
  {
  }

  /** A `NullPointerException` raised by the JVM has no message (Java 14 and earlier), so
      it is reported as `null`. */
  lemma NullPointerReportedAsNull()
    ensures FailureLines(H.NullPointer) == [LogLine("set_pi_data", "null"), LogLine("set_pi_data", FAILED_DETAILS)]
  {
  }

  /** `getPipelineIds` with the run's state: the explicit list does not need the run;
      consulting the registry does. */
  function Resolution(step: SetPiDataStep, hasRun: bool, registry: Option<A.Registry>, env: Option<EnvVars>)
    : (r: Result<set<string>, H.Exception>)
    ensures r.Failure? <==> IsBlank(step.pi) && !hasRun
    ensures r.Success? ==> r.value == ResolvePipelineIds(step.pi, step.useLastPi, registry, ServerUrl(step.base, env))
  {
    if IsBlank(step.pi) && !hasRun then Failure(H.NullPointer)
    else Success(ResolvePipelineIds(step.pi, step.useLastPi, registry, ServerUrl(step.base, env)))
  }

  /** The payload of the command for one instance. */
  function PiDataPayload(step: SetPiDataStep, pi: string, sv: Services): string
    requires step.key.Some? && step.value.Some?
  {
    sv.toJson(PiDataParams(pi, step.key.value, step.value.value, sv.parsesAsJsonObject))
  }

  /** The command sent for one instance. */
  function PiDataCall(step: SetPiDataStep, hasRun: bool, env: Option<EnvVars>, lookup: Option<string> -> seq<H.Credential>,
                      pi: string, sv: Services): Call
    requires step.key.Some? && step.value.Some?
  {
    CommandCall(Some(step.base), hasRun, env, lookup, C.COMMAND_NAME__SET_PI_DATA, PiDataPayload(step, pi, sv), sv.exchange)
  }

  /** The requests sent for the instances, in posting order. */
  function PostedRequests(step: SetPiDataStep, hasRun: bool, env: Option<EnvVars>, lookup: Option<string> -> seq<H.Credential>,
                          posted: seq<string>, sv: Services): (requests: seq<Client.Request>)
    requires step.key.Some? && step.value.Some?
    ensures |requests| <= |posted|
  {
    if posted == [] then []
    else
      var call := PiDataCall(step, hasRun, env, lookup, posted[|posted| - 1], sv);
      PostedRequests(step, hasRun, env, lookup, posted[..|posted| - 1], sv)
        + (if call.request.Some? then [call.request.value] else [])
  }

  /** The console lines of the instances that were set, in posting order. */
  function DataSetLines(step: SetPiDataStep, hasRun: bool, env: Option<EnvVars>, lookup: Option<string> -> seq<H.Credential>,
                        posted: seq<string>, sv: Services): (lines: seq<string>)
    requires step.key.Some? && step.value.Some?
    ensures |lines| == |posted|
  {
    if posted == [] then []
    else
      var call := PiDataCall(step, hasRun, env, lookup, posted[|posted| - 1], sv);
      DataSetLines(step, hasRun, env, lookup, posted[..|posted| - 1], sv)
        + [LogLine(C.COMMAND_NAME__SET_PI_DATA, DATA_SET + H.Render(if call.result.Success? then call.result.value else None))]
  }

  /** Posting to one more instance adds its request, if one was sent, and its line. */
  lemma PostedOneMore(step: SetPiDataStep, hasRun: bool, env: Option<EnvVars>, lookup: Option<string> -> seq<H.Credential>,
                      posted: seq<string>, pi: string, sv: Services)
    requires step.key.Some? && step.value.Some?
    ensures var call := PiDataCall(step, hasRun, env, lookup, pi, sv);
            && PostedRequests(step, hasRun, env, lookup, posted + [pi], sv)
                 == PostedRequests(step, hasRun, env, lookup, posted, sv) + (if call.request.Some? then [call.request.value] else [])
            && (call.result.Success? ==>
                  DataSetLines(step, hasRun, env, lookup, posted + [pi], sv)
                    == DataSetLines(step, hasRun, env, lookup, posted, sv)
                       + [LogLine(C.COMMAND_NAME__SET_PI_DATA, DATA_SET + H.Render(call.result.value))])
  {
  }

  /** Every instance in `posted` was set successfully. */
  predicate AllSucceeded(step: SetPiDataStep, hasRun: bool, env: Option<EnvVars>, lookup: Option<string> -> seq<H.Credential>,
                         posted: seq<string>, sv: Services)
    requires step.key.Some? && step.value.Some?
  {
    forall k :: 0 <= k < |posted| ==> PiDataCall(step, hasRun, env, lookup, posted[k], sv).result.Success?
  }

  lemma AllSucceededOneMore(step: SetPiDataStep, hasRun: bool, env: Option<EnvVars>, lookup: Option<string> -> seq<H.Credential>,
                            posted: seq<string>, pi: string, sv: Services)
    requires step.key.Some? && step.value.Some?
    requires AllSucceeded(step, hasRun, env, lookup, posted, sv)
    ensures PiDataCall(step, hasRun, env, lookup, pi, sv).result.Success? ==> AllSucceeded(step, hasRun, env, lookup, posted + [pi], sv)
    ensures AllSucceeded(step, hasRun, env, lookup, (posted + [pi])[..|posted|], sv)
  {
  }

  /** Sequence concatenation regrouped; called in `PostNext` only to keep its proof cheap. */
  lemma AppendAssociates<T>(a: seq<T>, b: seq<T>, c: seq<T>)
    ensures (a + b) + c == a + (b + c)
  {
  }

  /** Posting to one more, not yet posted, instance keeps `posted` duplicate-free and
      moves that instance from the remaining ones to the posted ones. */
  lemma PostedSetOneMore(posted: seq<string>, pi: string, pis: set<string>, remaining: set<string>)
    requires pi in remaining && remaining <= pis && Elements(posted) == pis - remaining && A.NoDuplicates(posted)
    ensures A.NoDuplicates(posted + [pi])
    ensures Elements(posted + [pi]) == pis - (remaining - {pi})
    ensures (posted + [pi])[..|posted|] == posted
  {
    assert Elements(posted + [pi]) == Elements(posted) + {pi};
  }

  /** Every command of a run targets the same server with the same token, so either all
      of them are sent or none is. */
  lemma AllOrNoneSent(step: SetPiDataStep, hasRun: bool, env: Option<EnvVars>, lookup: Option<string> -> seq<H.Credential>,
                      p1: string, p2: string, sv: Services)
    requires step.key.Some? && step.value.Some?
    ensures PiDataCall(step, hasRun, env, lookup, p1, sv).request.Some? == PiDataCall(step, hasRun, env, lookup, p2, sv).request.Some?
  {
  }

  /** When requests go out, one request is sent per instance posted to. */
  lemma {:induction false} OneRequestPerInstance(step: SetPiDataStep, hasRun: bool, env: Option<EnvVars>,
                                                 lookup: Option<string> -> seq<H.Credential>, posted: seq<string>, sv: Services)
    requires step.key.Some? && step.value.Some?
    requires forall k :: 0 <= k < |posted| ==> PiDataCall(step, hasRun, env, lookup, posted[k], sv).request.Some?
    ensures |PostedRequests(step, hasRun, env, lookup, posted, sv)| == |posted|
    ensures forall k :: 0 <= k < |posted| ==>
              PostedRequests(step, hasRun, env, lookup, posted, sv)[k] == PiDataCall(step, hasRun, env, lookup, posted[k], sv).request.value
  {
    if posted != [] {
      var init := posted[..|posted| - 1];
      assert forall k :: 0 <= k < |init| ==> init[k] == posted[k];
      OneRequestPerInstance(step, hasRun, env, lookup, init, sv);
    }
  }

  function BaseOf(step: Option<SetPiDataStep>): Option<CommandStep> {
    if step.None? then None else Some(step.value.base)
  }

  /** The registry attached to the run, if there is a run and it has one. */
  function AttachedRegistry(run: H.Run?): Option<A.Registry>
    reads run
    reads if run != null && run.pipelineAction != null then {run.pipelineAction} else {}
  {
    if run == null || run.pipelineAction == null then None else Some(run.pipelineAction.serverPipelineIds)
  }

  /** The attached registry, if any, keeps its invariant. */
  ghost predicate RegistryValid(run: H.Run?)
    reads run
    reads if run != null && run.pipelineAction != null then {run.pipelineAction} else {}
  {
    run != null && run.pipelineAction != null ==> run.pipelineAction.Valid()
  }

  /** The execution of a `ctmSetPiData` step. */
  class CtmSetPiDataStepExecution {
    /** The common execution state, for the `set_pi_data` command. */
    const exec: CtmCommandStepExecution
    const step: Option<SetPiDataStep>
    /** The `post_pi_data` input builder this step borrows when it has none. */
    const postPiDataBuilder: CIB.InputBuilder
    /** The messages of the key and value gates. */
    const invalidKeyMessage: string
    const invalidValueMessage: string

    ghost predicate Valid() {
      exec.step == BaseOf(step) && exec.commandName == C.COMMAND_NAME__SET_PI_DATA
    }

    constructor (step: Option<SetPiDataStep>, run: H.Run?, env: Option<EnvVars>, lookup: Option<string> -> seq<H.Credential>,
                 postPiDataBuilder: CIB.InputBuilder, invalidKeyMessage: string, invalidValueMessage: string)
      ensures Valid() && fresh(exec)
      ensures this.step == step && exec.run == run && exec.env == env && exec.lookup == lookup
      ensures exec.converter.None? && exec.console == [] && exec.sent == []
      ensures this.postPiDataBuilder == postPiDataBuilder
      ensures this.invalidKeyMessage == invalidKeyMessage && this.invalidValueMessage == invalidValueMessage
    {
      this.step := step;
      this.postPiDataBuilder := postPiDataBuilder;
      this.invalidKeyMessage := invalidKeyMessage;
      this.invalidValueMessage := invalidValueMessage;
      exec := new CtmCommandStepExecution(BaseOf(step), C.COMMAND_NAME__SET_PI_DATA, run, env, lookup);
    }

    /** `initialize`: supplies the converter only when there is none, so a repeated call
        changes nothing. */
    method Initialize()
      modifies exec
      ensures exec.converter == if old(exec.converter).None? then Some(postPiDataBuilder) else old(exec.converter)
      ensures exec.converter.Some?
      ensures exec.console == old(exec.console) && exec.sent == old(exec.sent)
    {
      if exec.converter.None? {
        exec.converter := Some(postPiDataBuilder);
      }
    }

    /** `markUnstable(logger, message)`: logs the message, then marks the run. */
    method MarkUnstableAndLog(msg: string)
      modifies exec, exec.run
      ensures exec.console == old(exec.console) + [LogLine(exec.commandName, msg)]
      ensures exec.converter == old(exec.converter) && exec.sent == old(exec.sent)
      ensures exec.run != null ==> exec.run.pipelineAction == old(exec.run.pipelineAction)
      ensures exec.run != null && MarksUnstable(exec.step) ==> exec.run.result == Some(H.UnstableResult)
      ensures exec.run != null && !MarksUnstable(exec.step) ==> exec.run.result == old(exec.run.result)
    {
      exec.Log(msg);
      exec.MarkUnstable();
    }

    /** Reports an exception caught after the gates, as `run`'s catch blocks do. */
    method ReportFailure(e: H.Exception)
      requires Valid()
      modifies exec, exec.run
      ensures exec.console == old(exec.console) + FailureLines(e)
      ensures exec.converter == old(exec.converter) && exec.sent == old(exec.sent)
      ensures exec.run != null ==> exec.run.pipelineAction == old(exec.run.pipelineAction)
      ensures exec.run != null && MarksUnstable(exec.step) ==> exec.run.result == Some(H.UnstableResult)
      ensures exec.run != null && !MarksUnstable(exec.step) ==> exec.run.result == old(exec.run.result)
    {
      if e.IllegalState? {
        MarkUnstableAndLog(NEEDS_JENKINS_URL);
      } else {
        MarkUnstableAndLog(H.Render(H.Message(e)));
        exec.Log(FAILED_DETAILS);
      }
    }

    /** `getPipelineIds`: the explicit list, or the registry of the run. */
    method PipelineIds() returns (result: Result<set<string>, H.Exception>)
      requires step.Some? && RegistryValid(exec.run)
      ensures result == Resolution(step.value, exec.run != null, AttachedRegistry(exec.run), exec.env)
    {
      var s := step.value;
      var ids: set<string> := {};
      if !IsBlank(s.pi) {
        var pis := SplitPiList(s.pi.value);
        if |pis| > 0 {
          ids := ids + Elements(pis);
        }
      } else {
        if exec.run == null {
          return Failure(H.NullPointer);
        }
        var pia := exec.run.pipelineAction;
        if pia != null {
          var serverUrl := ServerUrl(s.base, exec.env);
          if s.useLastPi {
            var lastPi: Option<string> := None;
            if serverUrl.Some? {
              lastPi := pia.GetLastPipelineId(serverUrl.value);
            }
            if !IsBlank(lastPi) {
              ids := ids + {lastPi.value};
            }
          } else if serverUrl.Some? {
            ids := ids + Elements(pia.GetPipelineIds(serverUrl.value));
          } else {
            assert Elements(RegistryIds(pia.serverPipelineIds, serverUrl)) == {};
          }
        }
      }
      assert ids == ResolvePipelineIds(s.pi, s.useLastPi, AttachedRegistry(exec.run), ServerUrl(s.base, exec.env));
      return Success(ids);
    }
    /** The run's result after `markUnstable`, given the result before. */
    function MarkedResult(before: Option<H.BuildResult>): Option<H.BuildResult> {
      if MarksUnstable(exec.step) then Some(H.UnstableResult) else before
    }

    /** The `try` block of `run` once the instances are resolved: a failed resolution is
        reported, an empty set is logged, otherwise the commands are posted. */
    method SetData(s: SetPiDataStep, resolved: Result<set<string>, H.Exception>, sv: Services,
                   closeFails: Client.Resource -> bool)
      returns (outcome: SetOutcome, posted: seq<string>)
      requires Valid() && step == Some(s) && s.key.Some? && s.value.Some? && exec.converter.Some?
      modifies exec, exec.run
      ensures exec.run != null ==> exec.run.pipelineAction == old(exec.run.pipelineAction)
      ensures exec.converter == old(exec.converter)
      ensures resolved.Failure? ==>
                && outcome == Aborted(resolved.error) && posted == [] && exec.sent == old(exec.sent)
                && exec.console == old(exec.console) + FailureLines(resolved.error)
      ensures resolved == Success({}) ==>
                && outcome == NoPipelines && posted == [] && exec.sent == old(exec.sent)
                && exec.console == old(exec.console) + [LogLine(C.COMMAND_NAME__SET_PI_DATA, NO_PIPELINES)]
                && (exec.run != null ==> exec.run.result == old(exec.run.result))
      ensures resolved.Success? && resolved.value != {} ==>
                && (outcome == AllSet || outcome.Aborted?)
                && A.NoDuplicates(posted) && Elements(posted) <= resolved.value
                && exec.sent == old(exec.sent) + PostedRequests(s, exec.run != null, exec.env, exec.lookup, posted, sv)
      ensures resolved.Success? && resolved.value != {} && outcome.Aborted? ==> posted != []
      ensures outcome == AllSet ==>
                && resolved.Success? && Elements(posted) == resolved.value
                && AllSucceeded(s, exec.run != null, exec.env, exec.lookup, posted, sv)
                && exec.console == old(exec.console) + DataSetLines(s, exec.run != null, exec.env, exec.lookup, posted, sv)
                && (exec.run != null ==> exec.run.result == old(exec.run.result))
      ensures outcome.Aborted? && posted != [] ==>
                && PiDataCall(s, exec.run != null, exec.env, exec.lookup, posted[|posted| - 1], sv).result
                     == Failure(outcome.error)
                && AllSucceeded(s, exec.run != null, exec.env, exec.lookup, posted[..|posted| - 1], sv)
                && exec.console == old(exec.console)
                     + DataSetLines(s, exec.run != null, exec.env, exec.lookup, posted[..|posted| - 1], sv)
                     + [PayloadLine(C.COMMAND_NAME__SET_PI_DATA, PiDataPayload(s, posted[|posted| - 1], sv))]
                     + FailureLines(outcome.error)
                && (exec.run != null ==> exec.run.result == MarkedResult(old(exec.run.result)))
    {
      if resolved.Failure? {
        ReportFailure(resolved.error);
        outcome, posted := Aborted(resolved.error), [];
      } else if resolved.value == {} {
        exec.Log(NO_PIPELINES);
        outcome, posted := NoPipelines, [];
      } else {
        outcome, posted := PostAll(s, resolved.value, sv, closeFails);
        assert resolved.Success? && resolved.value != {};
      }
    }

    /** `run`: the three gates, then the instances to write to, then one command per
        instance in the set's iteration order (free here: `posted` records it), stopping
        at the first failure. */
    method Run(sv: Services, closeFails: Client.Resource -> bool) returns (outcome: SetOutcome, posted: seq<string>)
      requires Valid() && RegistryValid(exec.run)
      modifies exec, exec.run
      ensures exec.run != null ==> exec.run.pipelineAction == old(exec.run.pipelineAction)
      // stopped at a gate: nothing is sent and the converter is untouched
      ensures GateOutcome(step, exec.env).Some? ==>
                && outcome == GateOutcome(step, exec.env).value && posted == []
                && exec.sent == old(exec.sent) && exec.converter == old(exec.converter)
      ensures step.None? ==>
                exec.console == old(exec.console) && (exec.run != null ==> exec.run.result == old(exec.run.result))
      ensures step.Some? && GateOutcome(step, exec.env).Some? ==>
                && exec.console == old(exec.console)
                     + [LogLine(C.COMMAND_NAME__SET_PI_DATA, GateMessage(outcome, invalidKeyMessage, invalidValueMessage))]
                && (exec.run != null ==> exec.run.result == MarkedResult(old(exec.run.result)))
      // past the gates
      ensures GateOutcome(step, exec.env).None? ==>
                exec.converter == if old(exec.converter).None? then Some(postPiDataBuilder) else old(exec.converter)
      ensures GateOutcome(step, exec.env).None? ==>
                var res := Resolution(step.value, exec.run != null, old(AttachedRegistry(exec.run)), exec.env);
                res.Failure? ==>
                  && outcome == Aborted(res.error) && posted == [] && exec.sent == old(exec.sent)
                  && exec.console == old(exec.console) + FailureLines(res.error)
      ensures GateOutcome(step, exec.env).None? ==>
                var res := Resolution(step.value, exec.run != null, old(AttachedRegistry(exec.run)), exec.env);
                res == Success({}) ==>
                  && outcome == NoPipelines && posted == [] && exec.sent == old(exec.sent)
                  && exec.console == old(exec.console) + [LogLine(C.COMMAND_NAME__SET_PI_DATA, NO_PIPELINES)]
                  && (exec.run != null ==> exec.run.result == old(exec.run.result))
      ensures GateOutcome(step, exec.env).None? ==>
                var res := Resolution(step.value, exec.run != null, old(AttachedRegistry(exec.run)), exec.env);
                res.Success? && res.value != {} ==>
                  && (outcome == AllSet || outcome.Aborted?)
                  && A.NoDuplicates(posted) && Elements(posted) <= res.value
                  && exec.sent == old(exec.sent) + PostedRequests(step.value, exec.run != null, exec.env, exec.lookup, posted, sv)
      ensures GateOutcome(step, exec.env).None? ==>
                var res := Resolution(step.value, exec.run != null, old(AttachedRegistry(exec.run)), exec.env);
                res.Success? && res.value != {} && outcome.Aborted? ==> posted != []
      // every instance set
      ensures GateOutcome(step, exec.env).None? && outcome == AllSet ==>
                && Elements(posted) == Resolution(step.value, exec.run != null, old(AttachedRegistry(exec.run)), exec.env).value
                && AllSucceeded(step.value, exec.run != null, exec.env, exec.lookup, posted, sv)
                && exec.console == old(exec.console) + DataSetLines(step.value, exec.run != null, exec.env, exec.lookup, posted, sv)
                && (exec.run != null ==> exec.run.result == old(exec.run.result))
      // stopped by the first failing command
      ensures GateOutcome(step, exec.env).None? && outcome.Aborted? && posted != [] ==>
                && PiDataCall(step.value, exec.run != null, exec.env, exec.lookup, posted[|posted| - 1], sv).result
                     == Failure(outcome.error)
                && AllSucceeded(step.value, exec.run != null, exec.env, exec.lookup, posted[..|posted| - 1], sv)
                && exec.console == old(exec.console)
                     + DataSetLines(step.value, exec.run != null, exec.env, exec.lookup, posted[..|posted| - 1], sv)
                     + [PayloadLine(C.COMMAND_NAME__SET_PI_DATA, PiDataPayload(step.value, posted[|posted| - 1], sv))]
                     + FailureLines(outcome.error)
                && (exec.run != null ==> exec.run.result == MarkedResult(old(exec.run.result)))
    {
      posted := [];
      if step.None? {
        // the server URL lookup dereferences the missing step
        return Crashed(H.NullPointer), [];
      }
      var s := step.value;
      if IsBlank(ServerUrl(s.base, exec.env)) {
        MarkUnstableAndLog(LOG_MESSAGE_INVALID_URL);
        return MissingServerUrl, [];
      }
      if IsBlank(s.key) {
        MarkUnstableAndLog(invalidKeyMessage);
        return MissingKey, [];
      }
      if IsBlank(s.value) {
        MarkUnstableAndLog(invalidValueMessage);
        return MissingValue, [];
      }
      Initialize();
      var resolved := PipelineIds();
      outcome, posted := SetData(s, resolved, sv, closeFails);
    }

    /** One pass of the loop of `run`: the command for one instance, and on success the
        line that reports it. */
    method SetOne(s: SetPiDataStep, pi: string, sv: Services, closeFails: Client.Resource -> bool)
      returns (r: Result<Option<string>, H.Exception>)
      requires Valid() && step == Some(s) && s.key.Some? && s.value.Some? && exec.converter.Some?
      modifies exec
      ensures exec.converter == old(exec.converter)
      ensures var call := PiDataCall(s, exec.run != null, exec.env, exec.lookup, pi, sv);
              && r == call.result
              && exec.sent == old(exec.sent) + (if call.request.Some? then [call.request.value] else [])
      ensures r.Success? ==> exec.console == old(exec.console) + [LogLine(C.COMMAND_NAME__SET_PI_DATA, DATA_SET + H.Render(r.value))]
      ensures r.Failure? ==> exec.console == old(exec.console) + [PayloadLine(C.COMMAND_NAME__SET_PI_DATA, PiDataPayload(s, pi, sv))]
    {
      var params := PiDataParams(pi, s.key.value, s.value.value, sv.parsesAsJsonObject);
      r := exec.ExecuteCommand(params, sv.toJson, sv.exchange, closeFails);
      if r.Success? {
        exec.Log(DATA_SET + H.Render(r.value));
      }
    }

    /** One pass of the loop, stated against everything posted before it. */
    method PostNext(s: SetPiDataStep, pi: string, sv: Services, closeFails: Client.Resource -> bool,
                    pis: set<string>, remaining: set<string>, before: seq<string>)
      returns (r: Result<Option<string>, H.Exception>, posted: seq<string>)
      requires Valid() && step == Some(s) && s.key.Some? && s.value.Some? && exec.converter.Some?
      requires pi in remaining && remaining <= pis && Elements(before) == pis - remaining && A.NoDuplicates(before)
      requires AllSucceeded(s, exec.run != null, exec.env, exec.lookup, before, sv)
      modifies exec
      ensures exec.converter == old(exec.converter)
      ensures posted == before + [pi] && posted[..|posted| - 1] == before && posted[|posted| - 1] == pi
      ensures Elements(posted) == pis - (remaining - {pi}) && A.NoDuplicates(posted)
      ensures r == PiDataCall(s, exec.run != null, exec.env, exec.lookup, pi, sv).result
      ensures exec.sent == old(exec.sent) + (var call := PiDataCall(s, exec.run != null, exec.env, exec.lookup, pi, sv);
                                             if call.request.Some? then [call.request.value] else [])
      ensures PostedRequests(s, exec.run != null, exec.env, exec.lookup, posted, sv)
                == PostedRequests(s, exec.run != null, exec.env, exec.lookup, before, sv)
                   + (var call := PiDataCall(s, exec.run != null, exec.env, exec.lookup, pi, sv);
                      if call.request.Some? then [call.request.value] else [])
      ensures r.Success? ==> AllSucceeded(s, exec.run != null, exec.env, exec.lookup, posted, sv)
      ensures r.Success? ==> exec.console == old(exec.console) + [LogLine(C.COMMAND_NAME__SET_PI_DATA, DATA_SET + H.Render(r.value))]
      ensures r.Success? ==> DataSetLines(s, exec.run != null, exec.env, exec.lookup, posted, sv)
                               == DataSetLines(s, exec.run != null, exec.env, exec.lookup, before, sv)
                                  + [LogLine(C.COMMAND_NAME__SET_PI_DATA, DATA_SET + H.Render(r.value))]
      ensures r.Failure? ==> exec.console == old(exec.console) + [PayloadLine(C.COMMAND_NAME__SET_PI_DATA, PiDataPayload(s, pi, sv))]
    {
      r := SetOne(s, pi, sv, closeFails);
      PostedOneMore(s, exec.run != null, exec.env, exec.lookup, before, pi, sv);
      AllSucceededOneMore(s, exec.run != null, exec.env, exec.lookup, before, pi, sv);
      PostedSetOneMore(before, pi, pis, remaining);
      posted := before + [pi];
    }

    /** The loop of `run`: one `set_pi_data` command per instance, in the set's iteration
        order (free here: `posted` records it), until one fails. */
    method PostUntilFailure(s: SetPiDataStep, pis: set<string>, sv: Services, closeFails: Client.Resource -> bool)
      returns (posted: seq<string>, failure: Option<H.Exception>)
      requires Valid() && step == Some(s) && s.key.Some? && s.value.Some? && exec.converter.Some?
      modifies exec
      ensures exec.converter == old(exec.converter)
      ensures A.NoDuplicates(posted) && Elements(posted) <= pis
      ensures exec.sent == old(exec.sent) + PostedRequests(s, exec.run != null, exec.env, exec.lookup, posted, sv)
      ensures failure.None? ==>
                && Elements(posted) == pis
                && AllSucceeded(s, exec.run != null, exec.env, exec.lookup, posted, sv)
                && exec.console == old(exec.console) + DataSetLines(s, exec.run != null, exec.env, exec.lookup, posted, sv)
      ensures failure.Some? ==>
                && posted != []
                && PiDataCall(s, exec.run != null, exec.env, exec.lookup, posted[|posted| - 1], sv).result == Failure(failure.value)
                && AllSucceeded(s, exec.run != null, exec.env, exec.lookup, posted[..|posted| - 1], sv)
                && exec.console == old(exec.console)
                     + DataSetLines(s, exec.run != null, exec.env, exec.lookup, posted[..|posted| - 1], sv)
                     + [PayloadLine(C.COMMAND_NAME__SET_PI_DATA, PiDataPayload(s, posted[|posted| - 1], sv))]
    {
      posted := [];
      var remaining := pis;
      while remaining != {}
        invariant remaining <= pis && Elements(posted) == pis - remaining
        invariant A.NoDuplicates(posted)
        invariant AllSucceeded(s, exec.run != null, exec.env, exec.lookup, posted, sv)
        invariant exec.sent == old(exec.sent) + PostedRequests(s, exec.run != null, exec.env, exec.lookup, posted, sv)
        invariant exec.console == old(exec.console) + DataSetLines(s, exec.run != null, exec.env, exec.lookup, posted, sv)
        invariant exec.converter == old(exec.converter)
        decreases |remaining|
      {
        var pi :| pi in remaining;
        ghost var before := posted;
        ghost var sentBefore := exec.sent;
        ghost var consoleBefore := exec.console;
        var r;
        r, posted := PostNext(s, pi, sv, closeFails, pis, remaining, posted);
        AppendAssociates(old(exec.sent), PostedRequests(s, exec.run != null, exec.env, exec.lookup, before, sv),
                         exec.sent[|sentBefore|..]);
        if r.Failure? {
          return posted, Some(r.error);
        }
        AppendAssociates(old(exec.console), DataSetLines(s, exec.run != null, exec.env, exec.lookup, before, sv),
                         [LogLine(C.COMMAND_NAME__SET_PI_DATA, DATA_SET + H.Render(r.value))]);
        remaining := remaining - {pi};
      }
      return posted, None;
    }

    /** The loop of `run` with its catch blocks: the first failure is reported and ends
        the step. */
    method PostAll(s: SetPiDataStep, pis: set<string>, sv: Services, closeFails: Client.Resource -> bool)
      returns (outcome: SetOutcome, posted: seq<string>)
      requires Valid() && step == Some(s) && s.key.Some? && s.value.Some? && exec.converter.Some?
      modifies exec, exec.run
      ensures exec.converter == old(exec.converter)
      ensures exec.run != null ==> exec.run.pipelineAction == old(exec.run.pipelineAction)
      ensures outcome == AllSet || outcome.Aborted?
      ensures A.NoDuplicates(posted) && Elements(posted) <= pis
      ensures exec.sent == old(exec.sent) + PostedRequests(s, exec.run != null, exec.env, exec.lookup, posted, sv)
      ensures outcome == AllSet ==>
                && Elements(posted) == pis
                && AllSucceeded(s, exec.run != null, exec.env, exec.lookup, posted, sv)
                && exec.console == old(exec.console) + DataSetLines(s, exec.run != null, exec.env, exec.lookup, posted, sv)
                && (exec.run != null ==> exec.run.result == old(exec.run.result))
      ensures outcome.Aborted? ==>
                && posted != []
                && PiDataCall(s, exec.run != null, exec.env, exec.lookup, posted[|posted| - 1], sv).result == Failure(outcome.error)
                && AllSucceeded(s, exec.run != null, exec.env, exec.lookup, posted[..|posted| - 1], sv)
                && exec.console == old(exec.console)
                     + DataSetLines(s, exec.run != null, exec.env, exec.lookup, posted[..|posted| - 1], sv)
                     + [PayloadLine(C.COMMAND_NAME__SET_PI_DATA, PiDataPayload(s, posted[|posted| - 1], sv))]
                     + FailureLines(outcome.error)
                && (exec.run != null ==> exec.run.result == MarkedResult(old(exec.run.result)))
    {
      var failure;
      posted, failure := PostUntilFailure(s, pis, sv, closeFails);
      if failure.None? {
        return AllSet, posted;
      }
      ReportFailure(failure.value);
      return Aborted(failure.value), posted;
    }
  }
}
