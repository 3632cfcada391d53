/** The base of the command input builders: check the required parameters, then
    serialise the parameter map to JSON text. */
module CommandInputBuilder {
  import opened Wrappers

  /** A command-parameter value: a plain string, or a string that parsed as a JSON
      object and is embedded as one. */
  datatype Value = Text(text: string) | JsonObject(source: string)

  type Params = map<string, Value>

  /** A builder is characterised by what its `getRequiredParamaterNames` returns
      (`null` possible). */
  datatype InputBuilder = InputBuilder(requiredParameterNames: Option<set<string>>)

  /** Which branch `verifyRequiredParameters` takes. None of them throws or changes
      anything: the branch for missing names is empty. */
  datatype Verification = NothingRequired | AllPresent | MissingIgnored(missing: set<string>)

  /** Every required name is a key of the parameter map. */
  predicate HasRequired(required: set<string>, params: Params) {
    required <= params.Keys
  }

  function VerifyRequiredParameters(builder: InputBuilder, params: Params): (v: Verification)
    ensures v == NothingRequired <==> builder.requiredParameterNames.None? || builder.requiredParameterNames.value == {}
    ensures v == AllPresent <==> builder.requiredParameterNames.Some? && builder.requiredParameterNames.value != {}
                                 && HasRequired(builder.requiredParameterNames.value, params)
    ensures v.MissingIgnored? ==> v.missing != {} && v.missing !! params.Keys
                                  && v.missing == builder.requiredParameterNames.value - params.Keys
  {
    var required := builder.requiredParameterNames;
    if required.None? || required.value == {} then NothingRequired
    else if HasRequired(required.value, params) then AllPresent
    else
      var missing := required.value - params.Keys;
      assert missing != {} by {
        var name :| name in required.value && name !in params.Keys;
        assert name in missing;
      }
      MissingIgnored(missing)
  }

  /** `toContinuumAPI`: verify, then serialise with `toJson` (the JSON library, which is
      not part of this model). */
  function ToContinuumApi(builder: InputBuilder, params: Params, toJson: Params -> string): (payload: string)
    ensures payload == toJson(params)
  {
    var _ := VerifyRequiredParameters(builder, params);
    toJson(params)
  }

  /** The payload does not depend on the builder's required names: verification has no
      effect on the result. */
  lemma PayloadIgnoresRequiredNames(b1: InputBuilder, b2: InputBuilder, params: Params, toJson: Params -> string)
    ensures ToContinuumApi(b1, params, toJson) == ToContinuumApi(b2, params, toJson)
  {
  }
}
