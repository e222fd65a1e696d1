/** `SDXLMessageService`: the gate in front of the image generation
    service, with the "blocked" catch; a message without text is ignored. */
module SdxlMessageService {
  import opened Common
  import opened Telegram
  import opened Store
  import opened MessageGate

  const Notice := "Сначало завершите викторину перед тем, как сделать запрос. 🤓"

  /** `handleMessage($update)`, with the service's reply to the request as
      input. */
  function HandleMessageSpec(t: Tables, env: Env, m: Message, reply: string): Step<()>
  {
    match m.text
    case None => Step(t, Ok(()))
    case Some(text) => CatchBlocked(GateSpec(t, env, Sdxl, Notice, m.from, m.chat, text, reply), m.from)
  }

  /** A message without text, or a command, changes nothing and sends
      nothing. */
  lemma HandleIgnores(t: Tables, env: Env, m: Message, reply: string)
    requires m.text.None? || IsCommandText(Registry, m.text.value)
    ensures HandleMessageSpec(t, env, m, reply) == Step(t, Ok(()))
  {
  }

  /** A user who completed the quiz, in a private chat, gets one image
      request for the text and the reply, and is back at `initial_state`, so
      that the next text is refused. */
  lemma HandleRequestsOnce(t: Tables, env: Env, m: Message, reply: string)
    requires m.text.Some? && !IsCommandText(Registry, m.text.value) && m.chat == m.from
    requires StateOf(t, m.from) == Some(QuizCompleted)
    requires SendMessage(m.chat, reply, None) !in env.failures
    ensures var after := HandleMessageSpec(t, env, m, reply).after;
      after.outbox == t.outbox + [Generate(Sdxl, m.chat, m.text.value), SendMessage(m.chat, reply, None)] &&
      StateOf(after, m.from) == Some(InitialState)
  {
    GateRequests(t, env, Sdxl, Notice, m.from, m.chat, m.text.value, reply);
    var g := GateSpec(t, env, Sdxl, Notice, m.from, m.chat, m.text.value, reply);
    CatchBlockedCases(g, m.from);
  }

  /** When Telegram reports the bot blocked in the chat, the handler ends
      normally with the sender marked inactive; any other Telegram error is
      thrown on. */
  lemma HandleBlocked(t: Tables, env: Env, m: Message, reply: string)
    requires m.text.Some? && !IsCommandText(Registry, m.text.value)
    requires GateCall(t, Notice, m.from, m.chat, reply) in env.failures
    ensures var s := HandleMessageSpec(t, env, m, reply);
      var d := env.failures[GateCall(t, Notice, m.from, m.chat, reply)];
      (Contains(d, Blocked) ==> s.result.Ok? && s.after.users[m.from].status == Some(Inactive) && s.after.states == t.states) &&
      (!Contains(d, Blocked) ==> s.result == Err(TelegramRaised(d)))
  {
    var g := GateSpec(t, env, Sdxl, Notice, m.from, m.chat, m.text.value, reply);
    CatchBlockedCases(g, m.from);
    GateCreatesUser(t, env, Sdxl, Notice, m.from, m.chat, m.text.value, reply);
  }

  method HandleMessage(db: World, m: Message, reply: string) returns (r: Result<()>)
    requires db.Valid()
    modifies db`users, db`outbox, db`states
    ensures db.Valid()
    ensures db.Snap() == HandleMessageSpec(old(db.Snap()), db.env, m, reply).after
    ensures r == HandleMessageSpec(old(db.Snap()), db.env, m, reply).result
  {
    if m.text.None? {
      return Ok(());
    }
    r := GateCatchingBlocked(db, Sdxl, Notice, m.from, m.chat, m.text.value, reply);
  }
}
