/** `checkFieldValidity` and `parseAndValidateInputs`: read the action's inputs by name and
    reject a missing token or destination. */
module Inputs {
  import opened Results
  import opened JsValues

  const TokenError: string := "Token is not valid"
  const ToError: string := "to address is not valid"

  /** The object `parseAndValidateInputs` returns. */
  datatype ActionInputs = ActionInputs(
    token: string,
    to: string,
    threadId: string,
    disableWebPagePreview: JsValue,
    disableNotification: JsValue,
    status: string,
    event: string,
    actor: string,
    repository: string,
    workflow: string)

  /** `getInput(name)`: the input's value, or the empty string when it was not given. */
  function GetInput(env: map<string, string>, name: string): (r: string)
    ensures name in env ==> r == env[name]
    ensures name !in env ==> r == ""
  {
    if name in env then env[name] else ""
  }

  /** `checkFieldValidity(field, message)`: throws `message` exactly when `field` is falsy. */
  function CheckFieldValidity(field: JsValue, message: string): (r: Outcome)
    ensures r.Fail? <==> !Truthy(field)
    ensures r.Fail? ==> r.error == message
  {
    if !Truthy(field) then Fail(message) else Pass
  }

  /** `parseAndValidateInputs()`, with the inputs passed in as `env`. */
  function ParseAndValidateInputs(env: map<string, string>): (r: Result<ActionInputs>)
    ensures r.Err? <==> GetInput(env, "token") == "" || GetInput(env, "to") == ""
    ensures r.Err? ==> r.error == TokenError || r.error == ToError
    ensures r.Ok? ==> r.value.token == GetInput(env, "token") && r.value.to == GetInput(env, "to")
    ensures r.Ok? ==> r.value.threadId == GetInput(env, "thread_id")
    ensures r.Ok? ==> (Truthy(r.value.disableWebPagePreview) <==> GetInput(env, "disable_web_page_preview") != "")
    ensures r.Ok? ==> (Truthy(r.value.disableNotification) <==> GetInput(env, "disable_notification") != "")
    ensures r.Ok? ==> r.value.status == GetInput(env, "status")
  {
    var token := GetInput(env, "token");
    var to := GetInput(env, "to");
    var threadId := GetInput(env, "thread_id");
    var disableWebPagePreview := OrFalse(GetInput(env, "disable_web_page_preview"));
    var disableNotification := OrFalse(GetInput(env, "disable_notification"));
    var status := GetInput(env, "status");
    var event := GetInput(env, "status");
    var actor := GetInput(env, "status");
    var repository := GetInput(env, "status");
    var workflow := GetInput(env, "status");
    match CheckFieldValidity(Str(token), TokenError)
    case Fail(m) => Err(m)
    case Pass =>
      match CheckFieldValidity(Str(to), ToError)
      case Fail(m) => Err(m)
      case Pass =>
        Ok(ActionInputs(token, to, threadId, disableWebPagePreview, disableNotification,
                        status, event, actor, repository, workflow))
  }

  /** The token is checked before the destination: a missing token is reported as such
      even when the destination is missing too. */
  lemma TokenCheckedFirst(env: map<string, string>)
    ensures GetInput(env, "token") == "" ==> ParseAndValidateInputs(env) == Err(TokenError)
    ensures GetInput(env, "token") != "" && GetInput(env, "to") == "" ==> ParseAndValidateInputs(env) == Err(ToError)
  {
  }

  /** Event, actor, repository and workflow are all read from the `status` input. */
  lemma InputsAliasStatus(env: map<string, string>)
    requires ParseAndValidateInputs(env).Ok?
    ensures var v := ParseAndValidateInputs(env).value;
      v.event == v.status && v.actor == v.status && v.repository == v.status && v.workflow == v.status
    ensures var v := ParseAndValidateInputs(env).value;
      GetInput(env, "event") != GetInput(env, "status") ==> v.event != GetInput(env, "event")
  {
  }
}
