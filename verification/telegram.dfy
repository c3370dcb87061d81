/** The request `sendTextMessage` builds: the bot endpoint and its ordered query parameters. */
module Telegram {
  import opened JsValues

  /** The query parameter names the action sends. */
  datatype ParamName = ChatId | MessageThreadId | DisableWebPagePreview | DisableNotification | Text {
    /** The name as it appears in the query string. */
    function Wire(): string {
      match this
      case ChatId => "chat_id"
      case MessageThreadId => "message_thread_id"
      case DisableWebPagePreview => "disable_web_page_preview"
      case DisableNotification => "disable_notification"
      case Text => "text"
    }

    /** The names `appendFn` may add between `chat_id` and `text`. */
    predicate IsOptional() {
      MessageThreadId? || DisableWebPagePreview? || DisableNotification?
    }

    /** The position of an optional name in the order `sendTextMessage` appends them. */
    function Rank(): nat
      requires IsOptional()
    {
      match this
      case MessageThreadId => 0
      case DisableWebPagePreview => 1
      case DisableNotification => 2
    }
  }

  /** One `name=value` query parameter. */
  datatype Param = Param(name: ParamName, value: string)

  /** The Bot API `sendMessage` endpoint for a token, and the parameters sent to it in order. */
  datatype Request = Request(endpoint: string, params: seq<Param>)

  const ApiBase: string := "https://api.telegram.org/bot"

  /** The optional parameter names, in the order `sendTextMessage` appends them. */
  const OptionalNames: seq<ParamName> := [MessageThreadId, DisableWebPagePreview, DisableNotification]

  function Endpoint(token: string): string {
    ApiBase + token + "/sendMessage"
  }

  /** `appendFn(name, param)`: appends `name` when `param` is truthy, always with the thread id as value. */
  function AppendFn(name: ParamName, param: JsValue, threadId: JsValue): (r: seq<Param>)
    ensures |r| <= 1
    ensures r != [] <==> Truthy(param)
    ensures r != [] ==> r[0] == Param(name, ToText(threadId))
  {
    if Truthy(param) then [Param(name, ToText(threadId))] else []
  }

  /** The parameters the three `appendFn` calls add, in order. */
  function Optional(threadId: JsValue, preview: JsValue, notification: JsValue): seq<Param> {
    AppendFn(MessageThreadId, threadId, threadId)
    + AppendFn(DisableWebPagePreview, preview, threadId)
    + AppendFn(DisableNotification, notification, threadId)
  }

  /** The request of `sendTextMessage(token, chat_id, text, thread_id, disable_web_page_preview,
      disable_notification)`, before it is handed to the HTTP client. */
  function SendTextMessage(token: string, chatId: string, text: string, threadId: JsValue,
                           disableWebPagePreview: JsValue, disableNotification: JsValue): (req: Request)
    ensures req.endpoint == Endpoint(token)
    ensures 2 <= |req.params| <= 5
    ensures req.params[0] == Param(ChatId, chatId)
    ensures req.params[|req.params| - 1] == Param(Text, text)
  {
    Request(Endpoint(token),
      [Param(ChatId, chatId)]
      + Optional(threadId, disableWebPagePreview, disableNotification)
      + [Param(Text, text)])
  }

  // ---------------------------------------------------------------------------
  // A reference description of the optional parameters

  /** The names among `names` whose flag in `keep` is set, in their original order. */
  function Select(names: seq<ParamName>, keep: seq<bool>): (r: seq<ParamName>)
    requires |names| == |keep|
    ensures |r| <= |names|
    decreases |names|
  {
    if names == [] then []
    else (if keep[0] then [names[0]] else []) + Select(names[1..], keep[1..])
  }

  /** `Select` over the three optional names, written out. */
  lemma SelectThree(b0: bool, b1: bool, b2: bool)
    ensures Select(OptionalNames, [b0, b1, b2]) ==
      (if b0 then [MessageThreadId] else []) + (if b1 then [DisableWebPagePreview] else [])
      + (if b2 then [DisableNotification] else [])
  {
  }

  lemma OptionalIsSelect(threadId: JsValue, preview: JsValue, notification: JsValue)
    ensures var mid := Optional(threadId, preview, notification);
      var sel := Select(OptionalNames, [Truthy(threadId), Truthy(preview), Truthy(notification)]);
      |mid| == |sel| && forall i :: 0 <= i < |mid| ==> mid[i] == Param(sel[i], ToText(threadId))
  {
  }

  /** Every parameter is an optional one, and they come in strictly increasing rank. */
  predicate InFixedOrder(ps: seq<Param>) {
    && (forall i :: 0 <= i < |ps| ==> ps[i].name.IsOptional())
    && (forall i, j :: 0 <= i < j < |ps| ==> ps[i].name.Rank() < ps[j].name.Rank())
  }

  /** The optional parameters keep the fixed order of `OptionalNames`. */
  lemma OptionalRanks(threadId: JsValue, preview: JsValue, notification: JsValue)
    ensures InFixedOrder(Optional(threadId, preview, notification))
  {
  }

  /** Between `chat_id` and `text` come exactly the optional names whose own argument is truthy,
      in the fixed order, each carrying the thread id. */
  lemma {:induction false} OptionalParams(token: string, chatId: string, text: string, threadId: JsValue,
                                          preview: JsValue, notification: JsValue)
    ensures var p := SendTextMessage(token, chatId, text, threadId, preview, notification).params;
      var keep := [Truthy(threadId), Truthy(preview), Truthy(notification)];
      && |p| == 2 + |Select(OptionalNames, keep)|
      && (forall i :: 0 < i < |p| - 1 ==> p[i].name == Select(OptionalNames, keep)[i - 1])
      && (forall i :: 0 < i < |p| - 1 ==> p[i].value == ToText(threadId))
  {
    var mid := Optional(threadId, preview, notification);
    var p := SendTextMessage(token, chatId, text, threadId, preview, notification).params;
    assert p == [Param(ChatId, chatId)] + mid + [Param(Text, text)];
    OptionalIsSelect(threadId, preview, notification);
    forall i | 0 < i < |p| - 1 ensures p[i] == mid[i - 1] {
    }
  }

  /** The optional names appear in the fixed order, at most once each, and `text` appears
      exactly once, at the end. */
  lemma ParamOrder(token: string, chatId: string, text: string, threadId: JsValue,
                   preview: JsValue, notification: JsValue)
    ensures var p := SendTextMessage(token, chatId, text, threadId, preview, notification).params;
      && InFixedOrder(p[1..|p| - 1])
      && (forall i :: 0 <= i < |p| - 1 ==> p[i].name != Text)
  {
    var mid := Optional(threadId, preview, notification);
    var p := SendTextMessage(token, chatId, text, threadId, preview, notification).params;
    assert p == [Param(ChatId, chatId)] + mid + [Param(Text, text)];
    assert p[1..|p| - 1] == mid;
    OptionalRanks(threadId, preview, notification);
    forall i | 0 < i < |p| - 1 ensures p[i].name != Text {
      assert p[i] == mid[i - 1];
    }
  }

  /** Each optional parameter is present exactly when its own argument is truthy. */
  lemma ParamPresentIff(token: string, chatId: string, text: string, threadId: JsValue,
                        preview: JsValue, notification: JsValue)
    ensures var p := SendTextMessage(token, chatId, text, threadId, preview, notification).params;
      && ((exists i :: 0 <= i < |p| && p[i].name == MessageThreadId) <==> Truthy(threadId))
      && ((exists i :: 0 <= i < |p| && p[i].name == DisableWebPagePreview) <==> Truthy(preview))
      && ((exists i :: 0 <= i < |p| && p[i].name == DisableNotification) <==> Truthy(notification))
  {
    var p := SendTextMessage(token, chatId, text, threadId, preview, notification).params;
    var a := AppendFn(MessageThreadId, threadId, threadId);
    var b := AppendFn(DisableWebPagePreview, preview, threadId);
    var c := AppendFn(DisableNotification, notification, threadId);
    assert p == [Param(ChatId, chatId)] + a + b + c + [Param(Text, text)];
    if Truthy(threadId) { assert p[1].name == MessageThreadId; }
    if Truthy(preview) { assert p[1 + |a|].name == DisableWebPagePreview; }
    if Truthy(notification) { assert p[1 + |a| + |b|].name == DisableNotification; }
  }

  /** With the default arguments (`null` thread, both flags `false`) only `chat_id` and `text` are sent. */
  lemma DefaultArguments(token: string, chatId: string, text: string)
    ensures SendTextMessage(token, chatId, text, Null, Bool(false), Bool(false)).params
      == [Param(ChatId, chatId), Param(Text, text)]
  {
  }

  /** A delivery flag carries the thread id, not its own value: with no thread id and
      `disable_notification` set, the parameter is sent with an empty value. */
  lemma FlagCarriesThreadId(token: string, chatId: string, text: string)
    ensures SendTextMessage(token, chatId, text, Str(""), Bool(false), Str("true")).params
      == [Param(ChatId, chatId), Param(DisableNotification, ""), Param(Text, text)]
  {
  }
}
