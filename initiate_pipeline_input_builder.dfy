/** The input builder of the `initiate_pipeline` command. */
module InitiatePipelineInputBuilder {
  import opened Wrappers
  import opened CommandInputBuilder
  import C = ContinuumConstants

  /** `getRequiredParamaterNames`: definition, group and project. */
  function RequiredParameterNames(): (names: set<string>)
    ensures names == {"definition", "group", "project"}
  {
    {C.COMMAND_PARAMETER__DEFINITION, C.COMMAND_PARAMETER__GROUP, C.COMMAND_PARAMETER__PROJECT}
  }

  function Builder(): InputBuilder {
    InputBuilder(Some(RequiredParameterNames()))
  }

  /** The required set is never empty, so verification never returns early. */
  lemma NeverNothingRequired(params: Params)
    ensures VerifyRequiredParameters(Builder(), params) != NothingRequired
  {
  }

  /** Any map that has the three keys, extras allowed, passes the containment check. */
  lemma ThreeKeysSuffice(params: Params)
    requires "definition" in params && "group" in params && "project" in params
    ensures VerifyRequiredParameters(Builder(), params) == AllPresent
  {
  }

  /** A map that lacks one of the three still serialises, exactly as a complete one
      would: the missing names are found and ignored. */
  lemma MissingKeyStillSerialises(params: Params, toJson: Params -> string)
    requires "definition" !in params || "group" !in params || "project" !in params
    ensures VerifyRequiredParameters(Builder(), params).MissingIgnored?
    ensures ToContinuumApi(Builder(), params, toJson) == toJson(params)
  {
  }
}
