/** The string constants of the Continuum REST API and of the plugin's environment
    variables. */
module ContinuumConstants {

  const PATH_API := "api/"

  const COMMAND_PARAMETER__DEFINITION := "definition"
  const COMMAND_PARAMETER__DETAILS := "details"
  const COMMAND_PARAMETER__GROUP := "group"
  const COMMAND_PARAMETER__KEY := "key"
  const COMMAND_PARAMETER__INSTANCE_NAME := "instance_name"
  const COMMAND_PARAMETER__PI := "pi"
  const COMMAND_PARAMETER__PROJECT := "project"
  const COMMAND_PARAMETER__VALUE := "value"

  const COMMAND_NAME__INITIATE_PIPELINE := "initiate_pipeline"
  const COMMAND_NAME__POST_PI_DATA := "post_pi_data"
  const COMMAND_NAME__SET_PI_DATA := "set_pi_data"

  const ENV_VARIABLE__SERVER_URL := "CTM_SERVER_URL"
  const ENV_VARIABLE__CREDENTIAL_ID := "CTM_CRED_ID"
}
