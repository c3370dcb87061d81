/** `run`: validate the inputs, build the link and the message, and prepare the one
    `sendMessage` request. The URI encoding of the message is a parameter of the model. */
module Action {
  import opened Results
  import opened JsValues
  import opened Inputs
  import opened Links
  import opened Composer
  import opened Telegram

  /** The message `run` composes from validated inputs. */
  function Message(v: ActionInputs): string {
    Compose(v.status, v.event, v.actor, v.repository, v.workflow, GenerateLink(v.event, v.repository))
  }

  /** `run()`, with the inputs passed in as `env` and `encodeURI` as `encode`: either the
      validation failure that `setFailed` reports, or the request sent to the chat endpoint. */
  function Run(env: map<string, string>, encode: string -> string): (r: Result<Request>)
    ensures r.Err? <==> ParseAndValidateInputs(env).Err?
    ensures r.Err? ==> r == Err(ParseAndValidateInputs(env).error)
    ensures r.Ok? ==> r.value.endpoint == Endpoint(GetInput(env, "token"))
    ensures r.Ok? ==> 2 <= |r.value.params| && r.value.params[0] == Param(ChatId, GetInput(env, "to"))
    ensures r.Ok? ==> (2 <= |r.value.params| &&
      r.value.params[|r.value.params| - 1] == Param(Text, encode(Message(ParseAndValidateInputs(env).value))))
  {
    match ParseAndValidateInputs(env)
    case Err(m) => Err(m)
    case Ok(v) =>
      Ok(SendTextMessage(v.token, v.to, encode(Message(v)), Str(v.threadId),
                         v.disableWebPagePreview, v.disableNotification))
  }

  /** A missing token aborts before anything is composed or sent, even without a destination. */
  lemma MissingTokenAborts(env: map<string, string>, encode: string -> string)
    requires GetInput(env, "token") == ""
    ensures Run(env, encode) == Err(TokenError)
  {
    TokenCheckedFirst(env);
  }

  /** Every field of the message comes from the `status` input: with `s` that input, the
      message is the template filled with `s`'s icon, its escape three times, and `s` itself
      as the workflow name and as the link's repository and event. */
  lemma MessageFromStatus(env: map<string, string>, encode: string -> string)
    requires GetInput(env, "token") != "" && GetInput(env, "to") != ""
    ensures var s := GetInput(env, "status");
      var p := Run(env, encode).value.params;
      p[|p| - 1].value == encode(
        (PropertyText(Icons, s) + " *" + EscapeSpec(s) + "*")
        + ("\n    was made at " + EscapeSpec(s)
           + "\n    by " + EscapeSpec(s)
           + "\n    check here [" + s + "](" + GenerateLink(s, s) + ")"))
  {
    var v := ParseAndValidateInputs(env).value;
    InputsAliasStatus(env);
  }

  /** The delivery flags are sent exactly when their inputs are non-empty (so the text `false`
      still sets them), and every optional parameter carries the `thread_id` input. */
  lemma RunOptionalParams(env: map<string, string>, encode: string -> string)
    requires GetInput(env, "token") != "" && GetInput(env, "to") != ""
    ensures var p := Run(env, encode).value.params;
      var keep := [GetInput(env, "thread_id") != "", GetInput(env, "disable_web_page_preview") != "",
                   GetInput(env, "disable_notification") != ""];
      && |p| == 2 + |Select(OptionalNames, keep)|
      && (forall i :: 0 < i < |p| - 1 ==> p[i].name == Select(OptionalNames, keep)[i - 1])
      && (forall i :: 0 < i < |p| - 1 ==> p[i].value == GetInput(env, "thread_id"))
  {
    var v := ParseAndValidateInputs(env).value;
    assert Run(env, encode).value == SendTextMessage(v.token, v.to, encode(Message(v)), Str(v.threadId),
                                                     v.disableWebPagePreview, v.disableNotification);
    assert [Truthy(Str(v.threadId)), Truthy(v.disableWebPagePreview), Truthy(v.disableNotification)]
      == [GetInput(env, "thread_id") != "", GetInput(env, "disable_web_page_preview") != "",
          GetInput(env, "disable_notification") != ""];
    assert ToText(Str(v.threadId)) == GetInput(env, "thread_id");
    OptionalParams(v.token, v.to, encode(Message(v)), Str(v.threadId),
                   v.disableWebPagePreview, v.disableNotification);
  }
}
