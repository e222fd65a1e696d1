/** The gate in front of the generation services, shared by the webhook
    controller and the two message services: command texts are left alone;
    any other text creates the user, and only a user whose quiz is completed
    gets a request to the service, whose reply is sent back before the state
    returns to `initial_state`. Everyone else gets a notice. */
module MessageGate {
  import opened Common
  import opened Telegram
  import opened Store
  import QuizCommand

  /** The parts of an incoming message the handlers read: its chat, its
      sender's Telegram id, and its text, which a message without text lacks. */
  datatype Message = Message(chat: Int64, from: Int64, text: Option<string>)

  /** The names of the configured commands: `StartCommand` and
      `QuizCommand`. */
  const Registry: seq<string> := ["start", QuizCommand.Name()]

  /** `isCommand($text)`: the text is `/` followed by the name of one of the
      commands. */
  predicate IsCommandText(names: seq<string>, text: string)
  {
    exists k :: 0 <= k < |names| && text == "/" + names[k]
  }

  /** The loop of `isCommand`, returning at the first command whose name
      matches. */
  method IsCommand(names: seq<string>, text: string) returns (b: bool)
    ensures b <==> IsCommandText(names, text)
  {
    var k := 0;
    while k < |names|
      invariant 0 <= k <= |names|
      invariant forall j :: 0 <= j < k ==> text != "/" + names[j]
    {
      if text == "/" + names[k] {
        return true;
      }
      k := k + 1;
    }
    return false;
  }

  /** Both commands are recognised, and a text that does not start with `/`
      never is. */
  lemma RegistryCommands(text: string)
    ensures IsCommandText(Registry, "/start") && IsCommandText(Registry, "/quiz")
    ensures (text == [] || text[0] != '/') ==> !IsCommandText(Registry, text)
  {
    assert "/quiz" == "/" + Registry[1];
    assert "/start" == "/" + Registry[0];
  }

  /** `requestChatGPT` / `requestSDXL`: one request to the service, its
      reply sent to the chat, then the state of the user whose Telegram id
      is the chat id, if there is one, set to `initial_state`. */
  function RequestSpec(t: Tables, env: Env, api: Api, chat: Int64, text: string, reply: string): Step<()>
  {
    var asked := Deliver(t, env, Generate(api, chat, text));
    var sent := Deliver(asked.after, env, SendMessage(chat, reply, None));
    if sent.result.Err? then sent
    else if chat in sent.after.users then Step(WithStateColumn(sent.after, chat, InitialState), Ok(()))
    else sent
  }

  /** `handleMessage` / `ChatGPTMessage` for a text, with the notice a user
      who has not completed the quiz gets, and the service's reply. */
  function GateSpec(t: Tables, env: Env, api: Api, notice: string, from: Int64, chat: Int64, text: string, reply: string): Step<()>
  {
    if IsCommandText(Registry, text) then Step(t, Ok(()))
    else
      var t1 := WithUser(t, from);
      if StateOf(t1, from) != Some(QuizCompleted) then Deliver(t1, env, SendMessage(chat, notice, None))
      else RequestSpec(t1, env, api, chat, text, reply)
  }

  /** The one Telegram call the gate makes for a text that is no command:
      the reply for a user whose quiz is completed, the notice for anyone
      else. */
  function GateCall(t: Tables, notice: string, from: Int64, chat: Int64, reply: string): Action
  {
    if StateOf(t, from) == Some(QuizCompleted) then SendMessage(chat, reply, None) else SendMessage(chat, notice, None)
  }

  /** Command texts change nothing and send nothing. */
  lemma GateIgnoresCommands(t: Tables, env: Env, api: Api, notice: string, from: Int64, chat: Int64, text: string, reply: string)
    requires IsCommandText(Registry, text)
    ensures GateSpec(t, env, api, notice, from, chat, text, reply) == Step(t, Ok(()))
  {
  }

  /** Any other text leaves the user in the table. */
  lemma GateCreatesUser(t: Tables, env: Env, api: Api, notice: string, from: Int64, chat: Int64, text: string, reply: string)
    requires !IsCommandText(Registry, text)
    ensures from in GateSpec(t, env, api, notice, from, chat, text, reply).after.users
  {
  }

  /** A user whose quiz is not completed gets the notice, no request, and
      keeps their state. */
  lemma GateRejects(t: Tables, env: Env, api: Api, notice: string, from: Int64, chat: Int64, text: string, reply: string)
    requires !IsCommandText(Registry, text) && StateOf(t, from) != Some(QuizCompleted)
    ensures var s := GateSpec(t, env, api, notice, from, chat, text, reply);
      s.after.states == t.states && s.after.responses == t.responses &&
      s.after.outbox == t.outbox + (if SendMessage(chat, notice, None) in env.failures then [] else [SendMessage(chat, notice, None)])
  {
  }

  /** A user whose quiz is completed gets exactly one request, for the text
      they sent, and the reply; when it is delivered the state row keyed by
      the chat id gets `initial_state`, keeping its current question, and no
      other row changes. */
  lemma GateRequests(t: Tables, env: Env, api: Api, notice: string, from: Int64, chat: Int64, text: string, reply: string)
    requires !IsCommandText(Registry, text) && StateOf(t, from) == Some(QuizCompleted)
    requires GateSpec(t, env, api, notice, from, chat, text, reply).result.Ok?
    ensures var after := GateSpec(t, env, api, notice, from, chat, text, reply).after;
      after.outbox == t.outbox + [Generate(api, chat, text), SendMessage(chat, reply, None)] &&
      after.responses == t.responses &&
      (chat in WithUser(t, from).users ==> after.states == WithStateColumn(t, chat, InitialState).states) &&
      (chat !in WithUser(t, from).users ==> after.states == t.states)
  {
  }

  /** In a private chat, where the chat id is the user's id, a completed quiz
      buys one request: after it, the next text is rejected. */
  lemma OneRequestPerCompletion(t: Tables, env: Env, api: Api, notice: string, user: Int64, text: string, reply: string,
                                api': Api, notice': string, text': string, reply': string)
    requires !IsCommandText(Registry, text) && !IsCommandText(Registry, text')
    requires StateOf(t, user) == Some(QuizCompleted)
    requires GateSpec(t, env, api, notice, user, user, text, reply).result.Ok?
    ensures var after := GateSpec(t, env, api, notice, user, user, text, reply).after;
      StateOf(after, user) == Some(InitialState) &&
      GateSpec(after, env, api', notice', user, user, text', reply').after.outbox ==
        after.outbox + (if SendMessage(user, notice', None) in env.failures then [] else [SendMessage(user, notice', None)])
  {
    var after := GateSpec(t, env, api, notice, user, user, text, reply).after;
    GateRequests(t, env, api, notice, user, user, text, reply);
    GateRejects(after, env, api', notice', user, user, text', reply');
  }

  /** In a chat whose id is not the sender's, the reset lands on another
      row: the sender stays `quiz_completed` and may ask again. */
  lemma ResetFollowsChat(t: Tables, env: Env, api: Api, notice: string, from: Int64, chat: Int64, text: string, reply: string)
    requires chat != from
    requires !IsCommandText(Registry, text) && StateOf(t, from) == Some(QuizCompleted)
    ensures StateOf(GateSpec(t, env, api, notice, from, chat, text, reply).after, from) == Some(QuizCompleted)
  {
  }

  const Blocked := "bot was blocked by the user"
  const Inactive := "неактивный"

  /** The `catch` of the message services: a Telegram error whose description
      mentions that the bot was blocked marks the user, if there is one,
      inactive and ends the handler normally; any other error goes on. */
  function CatchBlocked(s: Step<()>, from: Int64): Step<()>
  {
    match s.result
    case Err(TelegramRaised(d)) =>
      if Contains(d, Blocked) then
        if from in s.after.users then
          Step(s.after.(users := s.after.users[from := s.after.users[from].(status := Some(Inactive))]), Ok(()))
        else Step(s.after, Ok(()))
      else s
    case _ => s
  }

  /** The catch turns exactly the "blocked" Telegram errors into a normal
      end, marking the user inactive and touching nothing else; every other
      outcome passes through unchanged. */
  lemma CatchBlockedCases(s: Step<()>, from: Int64)
    ensures var c := CatchBlocked(s, from);
      (s.result.Err? && s.result.failure.TelegramRaised? && Contains(s.result.failure.description, Blocked) ==>
        c.result.Ok? &&
        c.after == s.after.(users := c.after.users) &&
        c.after.users.Keys == s.after.users.Keys &&
        (from in s.after.users ==> c.after.users[from] == s.after.users[from].(status := Some(Inactive))) &&
        (forall u :: u in s.after.users && u != from ==> c.after.users[u] == s.after.users[u])) &&
      (!(s.result.Err? && s.result.failure.TelegramRaised? && Contains(s.result.failure.description, Blocked)) ==>
        c == s)
  {
  }

  /** The gate keeps the tables consistent, with or without the catch: it
      adds the sender before touching any state row, and the reset lands on
      a row only when its user exists. */
  lemma GateConsistent(t: Tables, env: Env, api: Api, notice: string, from: Int64, chat: Int64, text: string, reply: string)
    requires Consistent(t)
    ensures Consistent(GateSpec(t, env, api, notice, from, chat, text, reply).after)
    ensures Consistent(CatchBlocked(GateSpec(t, env, api, notice, from, chat, text, reply), from).after)
  {
    var g := GateSpec(t, env, api, notice, from, chat, text, reply);
    if !IsCommandText(Registry, text) {
      var t1 := WithUser(t, from);
      WithUserConsistent(t, from);
      if StateOf(t1, from) == Some(QuizCompleted) {
        assert Consistent(RequestSpec(t1, env, api, chat, text, reply).after) by {
          var asked := Deliver(t1, env, Generate(api, chat, text));
          var sent := Deliver(asked.after, env, SendMessage(chat, reply, None));
          assert sent.after.users == t1.users && sent.after.states == t1.states;
        }
      }
    }
    assert Consistent(g.after);
    CatchBlockedCases(g, from);
  }

  /** `$user->update(['status' => 'неактивный'])` for the user with that
      Telegram id, if any. */
  method MarkInactive(db: World, from: Int64)
    modifies db`users
    ensures from in old(db.users) ==> db.Snap() == old(db.Snap()).(users := old(db.users)[from := old(db.users)[from].(status := Some(Inactive))])
    ensures from !in old(db.users) ==> db.Snap() == old(db.Snap())
  {
    if from in db.users {
      db.users := db.users[from := db.users[from].(status := Some(Inactive))];
    }
  }

  /** The gate with its catch, as the message services run it. */
  method GateCatchingBlocked(db: World, api: Api, notice: string, from: Int64, chat: Int64, text: string, reply: string) returns (r: Result<()>)
    modifies db`users, db`outbox, db`states
    ensures db.Snap() == CatchBlocked(GateSpec(old(db.Snap()), db.env, api, notice, from, chat, text, reply), from).after
    ensures r == CatchBlocked(GateSpec(old(db.Snap()), db.env, api, notice, from, chat, text, reply), from).result
    ensures old(db.Valid()) ==> db.Valid()
  {
    if db.Valid() {
      GateConsistent(db.Snap(), db.env, api, notice, from, chat, text, reply);
    }
    r := Gate(db, api, notice, from, chat, text, reply);
    if r.Err? && r.failure.TelegramRaised? && Contains(r.failure.description, Blocked) {
      MarkInactive(db, from);
      r := Ok(());
    }
  }

  /** `UserState::updateOrCreate(['user_id' => ...], ['state' => $s])`. */
  method SetState(db: World, id: Int64, s: string)
    modifies db`states
    ensures db.Snap() == WithStateColumn(old(db.Snap()), id, s)
  {
    var row := if id in db.states then db.states[id].(state := s) else UserState(s, None);
    db.states := db.states[id := row];
  }

  method Request(db: World, api: Api, chat: Int64, text: string, reply: string) returns (r: Result<()>)
    modifies db`outbox, db`states
    ensures db.Snap() == RequestSpec(old(db.Snap()), db.env, api, chat, text, reply).after
    ensures r == RequestSpec(old(db.Snap()), db.env, api, chat, text, reply).result
  {
    r := db.Send(Generate(api, chat, text));
    r := db.Send(SendMessage(chat, reply, None));
    if r.Err? {
      return;
    }
    if chat in db.users {
      SetState(db, chat, InitialState);
    }
  }

  method Gate(db: World, api: Api, notice: string, from: Int64, chat: Int64, text: string, reply: string) returns (r: Result<()>)
    modifies db`users, db`outbox, db`states
    ensures db.Snap() == GateSpec(old(db.Snap()), db.env, api, notice, from, chat, text, reply).after
    ensures r == GateSpec(old(db.Snap()), db.env, api, notice, from, chat, text, reply).result
    ensures old(db.Valid()) ==> db.Valid()
  {
    if db.Valid() {
      GateConsistent(db.Snap(), db.env, api, notice, from, chat, text, reply);
    }
    var command := IsCommand(Registry, text);
    if command {
      return Ok(());
    }
    db.FirstOrCreate(from);
    if StateOf(db.Snap(), from) != Some(QuizCompleted) {
      r := db.Send(SendMessage(chat, notice, None));
      return;
    }
    r := Request(db, api, chat, text, reply);
  }
}
