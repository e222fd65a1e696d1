/** The bot's persistent world: the quiz catalog and the `users`,
    `user_states` and `user_quiz_responses` tables, keyed by Telegram user id,
    together with the log of everything sent out. `World` is the mutable
    database the handlers update in place; `Tables` is its value, on which the
    handlers are specified. */
module Store {
  import opened Common
  import opened Catalog
  import opened Telegram
  import opened Texts

  /** A `users` row. Rows are created with every flag false and no status. */
  datatype User = User(
    isSubscribed: bool,
    clickedOnLink: bool,
    clickedOnNeurotexterLink: bool,
    status: Option<string>)

  const NewUser := User(false, false, false, None)

  /** A `user_states` row: the conversation state and, while a quiz runs, the
      id of the question last sent. */
  datatype UserState = UserState(state: string, currentQuestionId: Option<Int64>)

  const QuizInProgress := "quiz_in_progress"
  const QuizCompleted := "quiz_completed"
  const InitialState := "initial_state"

  /** A `user_quiz_responses` row. */
  datatype Response = Response(answerId: Int64, isCorrect: bool)

  datatype Tables = Tables(
    catalog: Table,
    users: map<Int64, User>,
    states: map<Int64, UserState>,
    responses: map<Int64, seq<Response>>,
    outbox: seq<Action>)

  /** Every state row and every response row belongs to an existing user, and
      question ids are a key. */
  predicate Consistent(t: Tables)
  {
    DistinctIds(t.catalog) && t.states.Keys <= t.users.Keys && t.responses.Keys <= t.users.Keys
  }

  /** The tables after a handler ran, and how it ended: normally with a value,
      or with the exception it let escape. */
  datatype Step<+T> = Step(after: Tables, result: Result<T>)

  /** A Telegram call: refused calls raise and leave no trace; accepted ones
      are appended to the outbox. */
  function Deliver(t: Tables, env: Env, a: Action): (s: Step<()>)
    ensures s.result.Ok? <==> Refusal(env, a).None?
    ensures s.result.Ok? ==> s.after == t.(outbox := t.outbox + [a])
    ensures s.result.Err? ==> s.after == t && s.result.failure == TelegramRaised(Refusal(env, a).value)
  {
    match Refusal(env, a)
    case Some(d) => Step(t, Err(TelegramRaised(d)))
    case None => Step(t.(outbox := t.outbox + [a]), Ok(()))
  }

  /** `User::firstOrCreate(['telegram_id' => $id])`. */
  function WithUser(t: Tables, id: Int64): (t': Tables)
    ensures id in t'.users && t'.users.Keys == t.users.Keys + {id}
    ensures forall u :: u in t.users ==> t'.users[u] == t.users[u]
    ensures t'.catalog == t.catalog && t'.states == t.states
    ensures t'.responses == t.responses && t'.outbox == t.outbox
  {
    if id in t.users then t else t.(users := t.users[id := NewUser])
  }

  /** The conversation state of a user, `null` when there is no row. */
  function StateOf(t: Tables, id: Int64): Option<string>
  {
    if id in t.states then Some(t.states[id].state) else None
  }

  /** The user's responses; no rows reads as the empty list. */
  function ResponsesOf(t: Tables, id: Int64): seq<Response>
  {
    if id in t.responses then t.responses[id] else []
  }

  /** `UserState::updateOrCreate(['user_id' => ...], ['state' => $s])`: only
      the state column changes; a new row has no current question. */
  function WithStateColumn(t: Tables, id: Int64, s: string): (t': Tables)
    ensures t'.states.Keys == t.states.Keys + {id}
    ensures t'.states[id].state == s
    ensures id in t.states ==> t'.states[id].currentQuestionId == t.states[id].currentQuestionId
    ensures id !in t.states ==> t'.states[id].currentQuestionId.None?
    ensures forall u :: u in t.states && u != id ==> t'.states[u] == t.states[u]
  {
    var row := if id in t.states then t.states[id].(state := s) else UserState(s, None);
    t.(states := t.states[id := row])
  }

  /** Firstly-or-creating a user keeps the tables consistent. */
  lemma WithUserConsistent(t: Tables, id: Int64)
    requires Consistent(t)
    ensures Consistent(WithUser(t, id))
  {
  }

  /** The database and the outbox, updated in place by the handlers. The
      outside world, `env`, is fixed for the lifetime of a world, and so are
      the texts the bot sends, `wording`. */
  class World {
    var catalog: Table
    var users: map<Int64, User>
    var states: map<Int64, UserState>
    var responses: map<Int64, seq<Response>>
    var outbox: seq<Action>
    const env: Env
    const wording: Wording

    function Snap(): Tables
      reads this
    {
      Tables(catalog, users, states, responses, outbox)
    }

    predicate Valid()
      reads this
    {
      Consistent(Snap())
    }

    /** A fresh database over a question catalog; the bot runs with
        `wording == QuizWording`. */
    constructor (catalog: Table, env: Env, wording: Wording)
      requires DistinctIds(catalog)
      ensures Valid() && this.env == env && this.wording == wording
      ensures Snap() == Tables(catalog, map[], map[], map[], [])
    {
      this.catalog := catalog;
      this.users := map[];
      this.states := map[];
      this.responses := map[];
      this.outbox := [];
      this.env := env;
      this.wording := wording;
    }

    /** Makes one Telegram call. */
    method Send(a: Action) returns (r: Result<()>)
      modifies this`outbox
      ensures Snap() == Deliver(old(Snap()), env, a).after
      ensures r == Deliver(old(Snap()), env, a).result
      ensures Valid() == old(Valid())
    {
      match Refusal(env, a)
      case Some(d) =>
        r := Err(TelegramRaised(d));
      case None =>
        outbox := outbox + [a];
        r := Ok(());
    }

    /** `User::firstOrCreate(['telegram_id' => $id])`. */
    method FirstOrCreate(id: Int64)
      modifies this`users
      ensures Snap() == WithUser(old(Snap()), id)
      ensures old(Valid()) ==> Valid()
    {
      if Valid() {
        WithUserConsistent(Snap(), id);
      }
      if id !in users {
        users := users[id := NewUser];
      }
    }
  }
}
