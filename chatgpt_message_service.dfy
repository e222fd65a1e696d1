/** `ChatGPTMessageService`: the gate in front of the text generation
    service, with the "blocked" catch. */
module ChatGptMessageService {
  import opened Common
  import opened Telegram
  import opened Store
  import opened MessageGate

  const Notice := "Сначало завершите викторину перед тем, как сделать запрос."

  /** `handleMessage($update)`, with the service's reply to the request as
      input. A message without text fails in `isCommand`, whose parameter is
      a `string`; that error is not a Telegram one and escapes. */
  function HandleMessageSpec(t: Tables, env: Env, m: Message, reply: string): Step<()>
  {
    match m.text
    case None => Step(t, Err(RuntimeError("isCommand(): argument must be of type string, null given")))
    case Some(text) => CatchBlocked(GateSpec(t, env, ChatGpt, Notice, m.from, m.chat, text, reply), m.from)
  }

  /** When Telegram reports the bot blocked in the chat, the handler ends
      normally with the sender marked inactive; their state and responses
      stay as the gate left them, and no reply reached the chat. */
  lemma HandleBlocked(t: Tables, env: Env, m: Message, reply: string)
    requires m.text.Some? && !IsCommandText(Registry, m.text.value)
    requires var call := GateCall(t, Notice, m.from, m.chat, reply);
      call in env.failures && Contains(env.failures[call], Blocked)
    ensures var s := HandleMessageSpec(t, env, m, reply);
      s.result.Ok? && m.from in s.after.users && s.after.users[m.from].status == Some(Inactive) &&
      s.after.states == t.states && s.after.responses == t.responses &&
      forall a :: a in s.after.outbox[|t.outbox|..] ==> a.Generate?
  {
    var g := GateSpec(t, env, ChatGpt, Notice, m.from, m.chat, m.text.value, reply);
    CatchBlockedCases(g, m.from);
    GateCreatesUser(t, env, ChatGpt, Notice, m.from, m.chat, m.text.value, reply);
  }

  /** Any other Telegram error is thrown on. */
  lemma HandleOtherFailure(t: Tables, env: Env, m: Message, reply: string)
    requires m.text.Some? && !IsCommandText(Registry, m.text.value)
    requires var call := GateCall(t, Notice, m.from, m.chat, reply);
      call in env.failures && !Contains(env.failures[call], Blocked)
    ensures HandleMessageSpec(t, env, m, reply).result == Err(TelegramRaised(env.failures[GateCall(t, Notice, m.from, m.chat, reply)]))
  {
  }

  method HandleMessage(db: World, m: Message, reply: string) returns (r: Result<()>)
    requires db.Valid()
    modifies db`users, db`outbox, db`states
    ensures db.Valid()
    ensures db.Snap() == HandleMessageSpec(old(db.Snap()), db.env, m, reply).after
    ensures r == HandleMessageSpec(old(db.Snap()), db.env, m, reply).result
  {
    if m.text.None? {
      return Err(RuntimeError("isCommand(): argument must be of type string, null given"));
    }
    r := GateCatchingBlocked(db, ChatGpt, Notice, m.from, m.chat, m.text.value, reply);
  }
}
