/** `TelegramBotController`: the webhook. Callback queries go to the quiz's
    callback service, messages to the gate in front of the text generation
    service; the answer is `{"status": "Ok"}` unless a handler throws. */
module BotController {
  import opened Common
  import opened Telegram
  import opened Store
  import opened Texts
  import opened MessageGate
  import CallbackQueryService

  /** The kinds of update the controller tells apart. */
  datatype Update =
    | CallbackUpdate(query: CallbackQueryService.CallbackQuery)
    | MessageUpdate(message: Message)
    | OtherUpdate

  const Notice := "Пожалуйста, заверши викторину перед тем, как задать вопрос. Используй команду /quiz для продолжения."

  /** `ChatGPTMessage($update)`: the gate, with nothing caught. A message
      without text fails in `isCommand`, whose parameter is a `string`. */
  function ChatGptMessageSpec(t: Tables, env: Env, m: Message, reply: string): Step<()>
  {
    match m.text
    case None => Step(t, Err(RuntimeError("isCommand(): argument must be of type string, null given")))
    case Some(text) => GateSpec(t, env, ChatGpt, Notice, m.from, m.chat, text, reply)
  }

  /** `processingWebhook`, for given texts of a completed quiz and the
      generation service's reply. */
  function WebhookSpec(t: Tables, env: Env, u: Update, w: Wording, reply: string): Step<string>
  {
    var handled :=
      match u
      case CallbackUpdate(q) => CallbackQueryService.HandleSpec(t, env, q, w)
      case MessageUpdate(m) => ChatGptMessageSpec(t, env, m, reply)
      case OtherUpdate => Step(t, Ok(()));
    match handled.result
    case Err(f) => Step(handled.after, Err(f))
    case Ok(_) => Step(handled.after, Ok("Ok"))
  }

  /** Each kind of update reaches its handler and only it; other updates do
      nothing; the status is "Ok" whenever the handler returns. */
  lemma WebhookRoutes(t: Tables, env: Env, u: Update, w: Wording, reply: string)
    ensures var s := WebhookSpec(t, env, u, w, reply);
      (s.result.Ok? ==> s.result.value == "Ok") &&
      (u.CallbackUpdate? ==>
        s.after == CallbackQueryService.HandleSpec(t, env, u.query, w).after &&
        (s.result.Ok? <==> CallbackQueryService.HandleSpec(t, env, u.query, w).result.Ok?)) &&
      (u.MessageUpdate? ==>
        s.after == ChatGptMessageSpec(t, env, u.message, reply).after &&
        (s.result.Ok? <==> ChatGptMessageSpec(t, env, u.message, reply).result.Ok?)) &&
      (u.OtherUpdate? ==> s == Step(t, Ok("Ok")))
  {
  }

  /** A Telegram error is caught by the callback service, so a callback
      update only ever fails with another kind of error. */
  lemma CallbackNeverRaisesTelegram(t: Tables, env: Env, q: CallbackQueryService.CallbackQuery, w: Wording, reply: string)
    ensures var s := WebhookSpec(t, env, CallbackUpdate(q), w, reply);
      s.result.Err? ==> s.result.failure.RuntimeError?
  {
    CallbackQueryService.HandleAcknowledges(t, env, q, w);
  }

  /** A message without text fails and changes nothing. */
  lemma TextlessMessageFails(t: Tables, env: Env, chat: Int64, from: Int64, w: Wording, reply: string)
    ensures var s := WebhookSpec(t, env, MessageUpdate(Message(chat, from, None)), w, reply);
      s.after == t && s.result.Err? && s.result.failure.RuntimeError?
  {
  }

  /** The webhook keeps the tables consistent, whatever the update. */
  lemma WebhookConsistent(t: Tables, env: Env, u: Update, w: Wording, reply: string)
    requires Consistent(t)
    ensures Consistent(WebhookSpec(t, env, u, w, reply).after)
  {
    match u
    case CallbackUpdate(q) => CallbackQueryService.HandleConsistent(t, env, q, w);
    case MessageUpdate(m) =>
      if m.text.Some? {
        GateConsistent(t, env, ChatGpt, Notice, m.from, m.chat, m.text.value, reply);
      }
    case OtherUpdate =>
  }

  method ChatGptMessage(db: World, m: Message, reply: string) returns (r: Result<()>)
    requires db.Valid()
    modifies db`users, db`outbox, db`states
    ensures db.Valid()
    ensures db.Snap() == ChatGptMessageSpec(old(db.Snap()), db.env, m, reply).after
    ensures r == ChatGptMessageSpec(old(db.Snap()), db.env, m, reply).result
  {
    if m.text.Some? {
      GateConsistent(db.Snap(), db.env, ChatGpt, Notice, m.from, m.chat, m.text.value, reply);
    }
    if m.text.None? {
      return Err(RuntimeError("isCommand(): argument must be of type string, null given"));
    }
    r := Gate(db, ChatGpt, Notice, m.from, m.chat, m.text.value, reply);
  }

  method ProcessingWebhook(db: World, u: Update, reply: string) returns (r: Result<string>)
    requires db.Valid()
    modifies db`users, db`catalog, db`outbox, db`states, db`responses
    ensures db.Valid()
    ensures db.Snap() == WebhookSpec(old(db.Snap()), db.env, u, db.wording, reply).after
    ensures r == WebhookSpec(old(db.Snap()), db.env, u, db.wording, reply).result
  {
    var handled: Result<()> := Ok(());
    match u {
      case CallbackUpdate(q) =>
        handled := CallbackQueryService.HandleCallbackQuery(db, q);
      case MessageUpdate(m) =>
        handled := ChatGptMessage(db, m, reply);
      case OtherUpdate =>
    }
    if handled.Err? {
      return Err(handled.failure);
    }
    r := Ok("Ok");
  }
}
