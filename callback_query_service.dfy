/** The Telegram `CallbackQueryService`: a press on an answer button is
    graded, recorded, answered, and the quiz moves on to the next question or
    is completed; the query is then acknowledged. */
module CallbackQueryService {
  import opened Common
  import opened Catalog
  import opened CallbackData
  import opened Telegram
  import opened Store
  import opened Texts
  import opened QuizService

  /** The parts of a callback query the handler reads: its id, its data, the
      chat of the message carrying the keyboard, and the id of the user who
      pressed. */
  datatype CallbackQuery = CallbackQuery(id: string, data: string, chat: Int64, from: Int64)

  // ---------------------------------------------------------------------
  // Escaping the explanation

  /** The characters `htmlspecialchars` turns into entities, with the flags
      PHP 8.1 uses by default. */
  predicate IsSpecial(c: char)
  {
    c == '&' || c == '<' || c == '>' || c == '"' || c == '\''
  }

  function Entity(c: char): (e: string)
    ensures |e| >= 1 && e[0] == (if IsSpecial(c) then '&' else c)
    ensures forall k :: 0 <= k < |e| ==> e[k] != '<' && e[k] != '>' && e[k] != '"' && e[k] != '\''
  {
    if c == '&' then "&amp;"
    else if c == '<' then "&lt;"
    else if c == '>' then "&gt;"
    else if c == '"' then "&quot;"
    else if c == '\'' then "&#039;"
    else [c]
  }

  /** `htmlspecialchars($s)`: no tag or quote character survives, and text
      without special characters is left as it is. */
  function HtmlSpecialChars(s: string): (r: string)
    ensures |r| >= |s|
    ensures forall k :: 0 <= k < |r| ==> r[k] != '<' && r[k] != '>' && r[k] != '"' && r[k] != '\''
    ensures (forall k :: 0 <= k < |s| ==> !IsSpecial(s[k])) ==> r == s
  {
    if s == [] then []
    else
      var rest := HtmlSpecialChars(s[1..]);
      assert forall k :: 0 <= k < |s| - 1 ==> s[1..][k] == s[k + 1];
      Entity(s[0]) + rest
  }

  /** `htmlspecialchars_decode`, the inverse reading of the five entities. */
  function HtmlDecode(s: string): string
  {
    if s == [] then []
    else if StartsWith(s, "&amp;") then "&" + HtmlDecode(s[5..])
    else if StartsWith(s, "&lt;") then "<" + HtmlDecode(s[4..])
    else if StartsWith(s, "&gt;") then ">" + HtmlDecode(s[4..])
    else if StartsWith(s, "&quot;") then "\"" + HtmlDecode(s[6..])
    else if StartsWith(s, "&#039;") then "'" + HtmlDecode(s[6..])
    else [s[0]] + HtmlDecode(s[1..])
  }

  /** Decoding one escaped character, then the rest. */
  lemma DecodeEntity(c: char, rest: string)
    ensures HtmlDecode(Entity(c) + rest) == [c] + HtmlDecode(rest)
  {
    var s := Entity(c) + rest;
    if c == '&' {
      assert s[..5] == "&amp;" && s[5..] == rest;
      assert HtmlDecode(s) == "&" + HtmlDecode(s[5..]);
    } else if c == '<' {
      assert s[..4] == "&lt;" && s[4..] == rest;
      assert !StartsWith(s, "&amp;") by { assert s[1] == 'l'; }
      assert HtmlDecode(s) == "<" + HtmlDecode(s[4..]);
    } else if c == '>' {
      assert s[..4] == "&gt;" && s[4..] == rest;
      assert !StartsWith(s, "&amp;") && !StartsWith(s, "&lt;") by { assert s[1] == 'g'; }
      assert HtmlDecode(s) == ">" + HtmlDecode(s[4..]);
    } else if c == '"' {
      assert s[..6] == "&quot;" && s[6..] == rest;
      assert !StartsWith(s, "&amp;") && !StartsWith(s, "&lt;") && !StartsWith(s, "&gt;") by { assert s[1] == 'q'; }
      assert HtmlDecode(s) == "\"" + HtmlDecode(s[6..]);
    } else if c == '\'' {
      assert s[..6] == "&#039;" && s[6..] == rest;
      assert !StartsWith(s, "&amp;") && !StartsWith(s, "&lt;") && !StartsWith(s, "&gt;") && !StartsWith(s, "&quot;") by { assert s[1] == '#'; }
      assert HtmlDecode(s) == "'" + HtmlDecode(s[6..]);
    } else {
      assert s[0] == c && s[1..] == rest;
      assert !StartsWith(s, "&amp;") && !StartsWith(s, "&lt;") && !StartsWith(s, "&gt;") && !StartsWith(s, "&quot;") && !StartsWith(s, "&#039;") by { assert s[0] != '&'; }
      assert HtmlDecode(s) == [c] + HtmlDecode(s[1..]);
    }
  }

  /** Escaping loses nothing: decoding gives the explanation back. */
  lemma {:induction false} HtmlRoundTrip(s: string)
    ensures HtmlDecode(HtmlSpecialChars(s)) == s
  {
    if s != [] {
      HtmlRoundTrip(s[1..]);
      DecodeEntity(s[0], HtmlSpecialChars(s[1..]));
      assert s == [s[0]] + s[1..];
    }
  }

  // ---------------------------------------------------------------------
  // The reply

  const RightReply := "✅ Верно!"
  const WrongReply := "❌ Неверно."

  /** `getCurrentQuestionExplanation`: an explanation that is set and not
      empty (`""` and `"0"` are empty), escaped and set in italics with a
      marker; otherwise none. */
  function Explanation(q: Question): (e: Option<string>)
    ensures e.Some? <==> q.explanation.Some? && TruthyString(q.explanation.value)
    ensures e.Some? ==> TruthyString(e.value) && Contains(e.value, HtmlSpecialChars(q.explanation.value))
  {
    if q.explanation.Some? && TruthyString(q.explanation.value) then
      var body := HtmlSpecialChars(q.explanation.value);
      ContainsMiddle("<em>🔸", body, "</em>");
      Some("<em>🔸" + body + "</em>")
    else None
  }

  /** The reply to an answer: the verdict, and for a correct answer the
      explanation when there is a non-empty one. */
  function ReplyText(isCorrect: bool, q: Question): string
  {
    if isCorrect then
      match Explanation(q)
      case Some(e) => if TruthyString(e) then RightReply + "\n\n" + e else RightReply
      case None => RightReply
    else WrongReply
  }

  /** A wrong answer gets the plain verdict; a right one the verdict, followed
      by the escaped explanation exactly when the question has a non-empty
      one. */
  lemma ReplyExplains(isCorrect: bool, q: Question)
    ensures !isCorrect ==> ReplyText(isCorrect, q) == WrongReply
    ensures isCorrect ==> StartsWith(ReplyText(isCorrect, q), RightReply)
    ensures isCorrect && q.explanation.Some? && TruthyString(q.explanation.value) ==>
      Contains(ReplyText(isCorrect, q), HtmlSpecialChars(q.explanation.value))
    ensures isCorrect && !(q.explanation.Some? && TruthyString(q.explanation.value)) ==>
      ReplyText(isCorrect, q) == RightReply
  {
    if !isCorrect {
    } else if Explanation(q).Some? {
      var x := HtmlSpecialChars(q.explanation.value);
      var lead := RightReply + "\n\n" + "<em>🔸";
      var reply := RightReply + "\n\n" + Explanation(q).value;
      assert reply == ReplyText(isCorrect, q);
      assert reply == lead + x + "</em>" by {
        assert Explanation(q).value == "<em>🔸" + x + "</em>";
      }
      assert StartsWith(reply, RightReply) by {
        assert reply[..|RightReply|] == RightReply;
      }
      assert Contains(reply, x) by {
        ContainsMiddle(lead, x, "</em>");
      }
    } else {
      assert ReplyText(isCorrect, q) == RightReply;
      assert RightReply[..|RightReply|] == RightReply;
    }
  }

  // ---------------------------------------------------------------------
  // Processing an answer

  /** The user's responses with one more appended. */
  function Record(t: Tables, user: Int64, r: Response): (t': Tables)
    ensures ResponsesOf(t', user) == ResponsesOf(t, user) + [r]
    ensures t'.responses.Keys == t.responses.Keys + {user}
    ensures forall u :: u in t.responses && u != user ==> t'.responses[u] == t.responses[u]
  {
    t.(responses := t.responses[user := ResponsesOf(t, user) + [r]])
  }

  /** `processCallbackData`, for given texts of a completed quiz: the user is
      fetched or created; a question id that names no question fails on
      `answers()` of null; otherwise the answer is graded and recorded, the
      verdict is sent, and the quiz moves on from the question of the
      callback, or is completed when there is no question after it. */
  function ProcessSpec(t: Tables, env: Env, from: Int64, chat: Int64, qid: Int64, aid: Int64, w: Wording): Step<()>
  {
    var t1 := WithUser(t, from);
    match Find(t1.catalog, qid)
    case None => Step(t1, Err(RuntimeError("answers() on null")))
    case Some(q) =>
      var correct := HasCorrectAnswer(q.answers, aid);
      var reply := Deliver(Record(t1, from, Response(aid, correct)), env, SendMessage(chat, ReplyText(correct, q), None));
      if reply.result.Err? then reply
      else AfterReply(reply.after, env, from, chat, qid, w)
  }

  /** Moving on once the verdict is sent: the next question, or when there
      is none the completion of the quiz. */
  function AfterReply(t: Tables, env: Env, from: Int64, chat: Int64, qid: Int64, w: Wording): Step<()>
  {
    var next := SendNextQuestionSpec(t, env, from, qid, chat);
    match next.result
    case Err(f) => Step(next.after, Err(f))
    case Ok(moved) => if moved then Step(next.after, Ok(())) else CompleteQuizSpec(next.after, env, from, chat, w)
  }

  /** The tables once the answer is recorded and its verdict sent. */
  function Answered(t: Tables, from: Int64, chat: Int64, q: Question, aid: Int64): Tables
  {
    var correct := HasCorrectAnswer(q.answers, aid);
    var t1 := Record(WithUser(t, from), from, Response(aid, correct));
    t1.(outbox := t1.outbox + [SendMessage(chat, ReplyText(correct, q), None)])
  }

  /** An id naming no question: the user now exists, nothing else changed,
      and the error is not one from Telegram. */
  lemma ProcessUnknownQuestion(t: Tables, env: Env, from: Int64, chat: Int64, qid: Int64, aid: Int64, w: Wording)
    requires forall i :: 0 <= i < |t.catalog| ==> t.catalog[i].id != qid
    ensures ProcessSpec(t, env, from, chat, qid, aid, w) == Step(WithUser(t, from), Err(RuntimeError("answers() on null")))
  {
    assert Find(WithUser(t, from).catalog, qid).None?;
  }

  /** The answer is recorded, correct or not, whatever happens after it; a
      refused verdict stops right there. */
  lemma ProcessRecords(t: Tables, env: Env, from: Int64, chat: Int64, q: Question, aid: Int64, w: Wording)
    requires Find(t.catalog, q.id) == Some(q)
    ensures var correct := HasCorrectAnswer(q.answers, aid);
      var s := ProcessSpec(t, env, from, chat, q.id, aid, w);
      var verdict := SendMessage(chat, ReplyText(correct, q), None);
      (verdict in env.failures ==>
        s == Step(Record(WithUser(t, from), from, Response(aid, correct)), Err(TelegramRaised(env.failures[verdict])))) &&
      (verdict !in env.failures ==>
        s == AfterReply(Answered(t, from, chat, q, aid), env, from, chat, q.id, w))
  {
  }

  /** When the quiz moves on, it moves from the question of the callback,
      whatever question the user's state holds: the user is on the smallest
      id above it, with the quiz in progress, and the recorded response
      stays. */
  lemma ProcessAdvances(t: Tables, env: Env, from: Int64, chat: Int64, q: Question, aid: Int64, w: Wording)
    requires Find(t.catalog, q.id) == Some(q)
    requires NextQuestionId(t.catalog, q.id).Some?
    requires ProcessSpec(t, env, from, chat, q.id, aid, w).result.Ok?
    ensures var after := ProcessSpec(t, env, from, chat, q.id, aid, w).after;
      after.states == t.states[from := UserState(QuizInProgress, NextQuestionId(t.catalog, q.id))] &&
      ResponsesOf(after, from) == ResponsesOf(t, from) + [Response(aid, HasCorrectAnswer(q.answers, aid))] &&
      from in after.users
  {
    ProcessRecords(t, env, from, chat, q, aid, w);
    var a := Answered(t, from, chat, q, aid);
    AfterReplyAdvances(a, env, from, chat, q.id, w);
  }

  /** When the verdict goes through but the next question does not, the
      handler fails with the response recorded and the user's state not
      moved on. */
  lemma ProcessNextRefused(t: Tables, env: Env, from: Int64, chat: Int64, q: Question, aid: Int64, w: Wording)
    requires Find(t.catalog, q.id) == Some(q)
    requires SendMessage(chat, ReplyText(HasCorrectAnswer(q.answers, aid), q), None) !in env.failures
    requires SendNextQuestionSpec(Answered(t, from, chat, q, aid), env, from, q.id, chat).result.Err?
    ensures var s := ProcessSpec(t, env, from, chat, q.id, aid, w);
      s.result == Err(SendNextQuestionSpec(Answered(t, from, chat, q, aid), env, from, q.id, chat).result.failure) &&
      s.after.states == t.states &&
      ResponsesOf(s.after, from) == ResponsesOf(t, from) + [Response(aid, HasCorrectAnswer(q.answers, aid))]
  {
    var a := Answered(t, from, chat, q, aid);
    ProcessRecords(t, env, from, chat, q, aid, w);
    SendNextQuestionRefused(a, env, from, q.id, chat);
  }

  lemma AfterReplyAdvances(t: Tables, env: Env, from: Int64, chat: Int64, qid: Int64, w: Wording)
    requires NextQuestionId(t.catalog, qid).Some?
    requires AfterReply(t, env, from, chat, qid, w).result.Ok?
    ensures var after := AfterReply(t, env, from, chat, qid, w).after;
      after.states == t.states[from := UserState(QuizInProgress, NextQuestionId(t.catalog, qid))] &&
      after.users == t.users && after.responses == t.responses
  {
    var next := SendNextQuestionSpec(t, env, from, qid, chat);
    if next.result == Ok(false) {
      SendNextQuestionFalseAtEnd(t, env, from, qid, chat);
      assert false;
    }
    SendNextQuestionAdvances(t, env, from, qid, chat);
  }

  /** With no question after the callback's, the quiz is completed: the
      verdict, the closing text and the result message for the score that
      counts this answer are sent, the responses are wiped and the state is
      `quiz_completed`. */
  lemma ProcessCompletes(t: Tables, env: Env, from: Int64, chat: Int64, q: Question, aid: Int64, w: Wording)
    requires Find(t.catalog, q.id) == Some(q)
    requires forall i :: 0 <= i < |t.catalog| ==> t.catalog[i].id <= q.id
    requires ProcessSpec(t, env, from, chat, q.id, aid, w).result.Ok?
    ensures var after := ProcessSpec(t, env, from, chat, q.id, aid, w).after;
      var correct := HasCorrectAnswer(q.answers, aid);
      var score := CountCorrect(ResponsesOf(t, from) + [Response(aid, correct)]);
      after.states == t.states[from := UserState(QuizCompleted, None)] &&
      ResponsesOf(after, from) == [] &&
      after.outbox == t.outbox + [SendMessage(chat, ReplyText(correct, q), None),
        SendMessage(chat, w.closing, None), SendMessage(chat, ResultMessage(score, w.scoreTail), None)]
  {
    ProcessRecords(t, env, from, chat, q, aid, w);
    var correct := HasCorrectAnswer(q.answers, aid);
    var a := Answered(t, from, chat, q, aid);
    AfterReplyCompletes(a, env, from, chat, q.id, w);
    var score := CountCorrect(ResponsesOf(t, from) + [Response(aid, correct)]);
    assert ResponsesOf(a, from) == ResponsesOf(t, from) + [Response(aid, correct)];
    var closing := [SendMessage(chat, w.closing, None), SendMessage(chat, ResultMessage(score, w.scoreTail), None)];
    var reply := SendMessage(chat, ReplyText(correct, q), None);
    assert a.outbox == t.outbox + [reply];
    AppendThree(t.outbox, reply, closing[0], closing[1]);
  }

  lemma AppendThree(s: seq<Action>, x: Action, y: Action, z: Action)
    ensures s + [x] + [y, z] == s + [x, y, z]
  {
  }

  lemma AfterReplyCompletes(t: Tables, env: Env, from: Int64, chat: Int64, qid: Int64, w: Wording)
    requires forall i :: 0 <= i < |t.catalog| ==> t.catalog[i].id <= qid
    requires AfterReply(t, env, from, chat, qid, w).result.Ok?
    ensures var after := AfterReply(t, env, from, chat, qid, w).after;
      after.states == t.states[from := UserState(QuizCompleted, None)] &&
      ResponsesOf(after, from) == [] &&
      after.outbox == t.outbox + [SendMessage(chat, w.closing, None),
        SendMessage(chat, ResultMessage(CountCorrect(ResponsesOf(t, from)), w.scoreTail), None)]
  {
    SendNextQuestionAtEnd(t, env, from, qid, chat);
    CompleteQuizEnds(t, env, from, chat, w.closing, ResultMessage(CountCorrect(ResponsesOf(t, from)), w.scoreTail));
  }

  /** Processing keeps the tables consistent. */
  lemma ProcessConsistent(t: Tables, env: Env, from: Int64, chat: Int64, qid: Int64, aid: Int64, w: Wording)
    requires Consistent(t)
    ensures Consistent(ProcessSpec(t, env, from, chat, qid, aid, w).after)
  {
    var t1 := WithUser(t, from);
    match Find(t1.catalog, qid)
    case None =>
    case Some(q) =>
      var a := Answered(t, from, chat, q, aid);
      ProcessRecords(t, env, from, chat, q, aid, w);
      if SendMessage(chat, ReplyText(HasCorrectAnswer(q.answers, aid), q), None) !in env.failures {
        AfterReplyConsistent(a, env, from, chat, qid, w);
      }
  }

  lemma AfterReplyConsistent(t: Tables, env: Env, from: Int64, chat: Int64, qid: Int64, w: Wording)
    requires Consistent(t) && from in t.users
    ensures Consistent(AfterReply(t, env, from, chat, qid, w).after)
  {
    SendNextQuestionConsistent(t, env, from, qid, chat);
    var next := SendNextQuestionSpec(t, env, from, qid, chat);
    if next.result == Ok(false) {
      SendNextQuestionAtEnd(t, env, from, qid, chat);
      CompleteQuizConsistent(next.after, env, from, chat, w.closing,
        ResultMessage(CountCorrect(ResponsesOf(next.after, from)), w.scoreTail));
    }
  }

  // ---------------------------------------------------------------------
  // Handling a query

  /** `handleCallbackQuery`: answer data is processed, anything else is
      ignored; then the query is acknowledged. A Telegram error, from the
      processing or the acknowledgement, is caught and ends the handler;
      any other error escapes. */
  function HandleSpec(t: Tables, env: Env, query: CallbackQuery, w: Wording): Step<()>
  {
    var processed :=
      match Decode(query.data)
      case None => Step(t, Ok(()))
      case Some(ids) => ProcessSpec(t, env, query.from, query.chat, ids.0, ids.1, w);
    match processed.result
    case Err(TelegramRaised(_)) => Step(processed.after, Ok(()))
    case Err(f) => processed
    case Ok(_) => Step(Deliver(processed.after, env, AnswerCallbackQuery(query.id)).after, Ok(()))
  }

  /** Data that is not an answer changes nothing but the acknowledgement. */
  lemma HandleIgnoresOtherData(t: Tables, env: Env, query: CallbackQuery, w: Wording)
    requires !IsAnswerData(Explode(query.data))
    ensures HandleSpec(t, env, query, w).result == Ok(())
    ensures HandleSpec(t, env, query, w).after ==
      if AnswerCallbackQuery(query.id) in env.failures then t
      else t.(outbox := t.outbox + [AnswerCallbackQuery(query.id)])
  {
  }

  /** The press of an answer button is processed with the question and
      answer ids the button was made with. */
  lemma HandleButton(t: Tables, env: Env, query: CallbackQuery, qid: Int64, aid: Int64, w: Wording)
    requires query.data == Encode(qid, aid)
    ensures var p := ProcessSpec(t, env, query.from, query.chat, qid, aid, w);
      HandleSpec(t, env, query, w) ==
        match p.result
        case Err(TelegramRaised(_)) => Step(p.after, Ok(()))
        case Err(f) => p
        case Ok(_) => Step(Deliver(p.after, env, AnswerCallbackQuery(query.id)).after, Ok(()))
  {
    DecodeEncode(qid, aid);
  }

  /** The query is acknowledged exactly when nothing failed before and
      Telegram accepts the acknowledgement; a Telegram error never escapes. */
  lemma HandleAcknowledges(t: Tables, env: Env, query: CallbackQuery, w: Wording)
    ensures var processed :=
        match Decode(query.data)
        case None => Step(t, Ok(()))
        case Some(ids) => ProcessSpec(t, env, query.from, query.chat, ids.0, ids.1, w);
      var h := HandleSpec(t, env, query, w);
      (h.result.Err? ==> h.result.failure.RuntimeError?) &&
      (processed.result.Ok? && AnswerCallbackQuery(query.id) !in env.failures <==>
        h.after.outbox == processed.after.outbox + [AnswerCallbackQuery(query.id)])
  {
  }

  /** Handling a query keeps the tables consistent. */
  lemma HandleConsistent(t: Tables, env: Env, query: CallbackQuery, w: Wording)
    requires Consistent(t)
    ensures Consistent(HandleSpec(t, env, query, w).after)
  {
    match Decode(query.data)
    case None =>
    case Some(ids) => ProcessConsistent(t, env, query.from, query.chat, ids.0, ids.1, w);
  }

  // ---------------------------------------------------------------------
  // The handler on the database

  /** `$user->quizResponses()->create([...])`. */
  method RecordResponse(db: World, user: Int64, r: Response)
    modifies db`responses
    ensures db.Snap() == Record(old(db.Snap()), user, r)
  {
    db.responses := db.responses[user := ResponsesOf(db.Snap(), user) + [r]];
  }

  method ProcessCallbackData(db: World, from: Int64, chat: Int64, qid: Int64, aid: Int64) returns (r: Result<()>)
    modifies db`users, db`catalog, db`outbox, db`states, db`responses
    ensures db.Snap() == ProcessSpec(old(db.Snap()), db.env, from, chat, qid, aid, db.wording).after
    ensures r == ProcessSpec(old(db.Snap()), db.env, from, chat, qid, aid, db.wording).result
    ensures old(db.Valid()) ==> db.Valid()
  {
    if db.Valid() {
      ProcessConsistent(db.Snap(), db.env, from, chat, qid, aid, db.wording);
    }
    db.FirstOrCreate(from);
    var found := Find(db.catalog, qid);
    if found.None? {
      return Err(RuntimeError("answers() on null"));
    }
    var q := found.value;
    var correct := HasCorrectAnswer(q.answers, aid);
    RecordResponse(db, from, Response(aid, correct));
    r := db.Send(SendMessage(chat, ReplyText(correct, q), None));
    if r.Err? {
      return;
    }
    r := MoveOn(db, from, chat, qid);
  }

  /** `if (!sendNextQuestion(...)) completeQuiz(...)`. */
  method MoveOn(db: World, from: Int64, chat: Int64, qid: Int64) returns (r: Result<()>)
    modifies db`catalog, db`outbox, db`states, db`responses
    ensures db.Snap() == AfterReply(old(db.Snap()), db.env, from, chat, qid, db.wording).after
    ensures r == AfterReply(old(db.Snap()), db.env, from, chat, qid, db.wording).result
    ensures old(db.Valid()) && from in old(db.users) ==> db.Valid()
  {
    if db.Valid() && from in db.users {
      AfterReplyConsistent(db.Snap(), db.env, from, chat, qid, db.wording);
    }
    var moved := SendNextQuestion(db, from, qid, chat);
    if moved.Err? {
      return Err(moved.failure);
    }
    if moved.value {
      return Ok(());
    }
    r := CompleteQuiz(db, from, chat);
  }

  method HandleCallbackQuery(db: World, query: CallbackQuery) returns (r: Result<()>)
    requires db.Valid()
    modifies db`users, db`catalog, db`outbox, db`states, db`responses
    ensures db.Valid()
    ensures db.Snap() == HandleSpec(old(db.Snap()), db.env, query, db.wording).after
    ensures r == HandleSpec(old(db.Snap()), db.env, query, db.wording).result
  {
    HandleConsistent(db.Snap(), db.env, query, db.wording);
    var processed: Result<()> := Ok(());
    var ids := Decode(query.data);
    if ids.Some? {
      processed := ProcessCallbackData(db, query.from, query.chat, ids.value.0, ids.value.1);
    }
    if processed.Err? {
      if processed.failure.TelegramRaised? {
        return Ok(());
      }
      return processed;
    }
    var acked := db.Send(AnswerCallbackQuery(query.id));
    r := Ok(());
  }
}
