/** What the plugin receives from the CI host and its libraries: Java exceptions, the
    build run with its result and its attached registry, and stored credentials. */
module Host {
  import opened Wrappers
  import Actions

  /** The exceptions the modelled code throws or lets through. */
  datatype Exception =
    | NullPointer
      /** An `IOException`, among them the one `post` raises for a non-2xx status. */
    | IOError(message: Option<string>)
    | IllegalState(message: Option<string>)
    | OtherError(message: Option<string>)

  /** `Throwable.getMessage`; a `NullPointerException` raised by a JVM without helpful
      exception messages (Java 14 and earlier) has none. */
  function Message(e: Exception): Option<string> {
    match e
    case NullPointer => None
    case IOError(m) => m
    case IllegalState(m) => m
    case OtherError(m) => m
  }

  /** How string concatenation and `println` render a possibly-`null` string. */
  function Render(s: Option<string>): string {
    if s.None? then "null" else s.value
  }

  /** `hudson.model.Result`. */
  datatype BuildResult = SuccessResult | UnstableResult | FailureResult | NotBuiltResult | AbortedResult

  /** The build run: its result (`null` while running) and the pipeline registry attached
      to it, if any step initiated a pipeline. */
  class Run {
    var result: Option<BuildResult>
    var pipelineAction: Actions.PipelineInitiatedAction?

    constructor (result: Option<BuildResult>, pipelineAction: Actions.PipelineInitiatedAction?)
      ensures this.result == result && this.pipelineAction == pipelineAction
    {
      this.result := result;
      this.pipelineAction := pipelineAction;
    }
  }

  /** A stored credential as the credentials lookup returns it. A username/password
      credential carries its password secret (`null` possible); for any other kind,
      `secret` is what probing it for a `getSecret()` method returning a `Secret` yields:
      the plain text, or nothing when there is no such method, it fails, or it returns
      something else. */
  datatype Credential =
    | UsernamePassword(id: string, password: Option<string>)
    | OtherCredential(id: string, secret: Option<string>)
}
