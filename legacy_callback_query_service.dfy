/** The older `App\Services\CallbackQueryService`: it grades an answer and
    replies, with the next question, a completion text or a retry text, and
    keeps nothing: no state, no responses. */
module LegacyCallbackQueryService {
  import opened Common
  import opened Catalog
  import opened CallbackData
  import opened Telegram
  import opened Store
  import opened QuizCommand
  import CallbackQueryService

  const NextIntro := "Красавчик! Следующий вопрос:"
  const Finished := "Достойно! Прошел quiz." + "\n" + "Теперь спроси что-нибудь у ChatGPT:"
  const RetryLead := "Ну ты гонишь?. Попробуй еще раз. Нажми "
  const Retry := RetryLead + "/quiz"

  /** The reply to answer `aid` of question `q`: for a right answer the next
      question with its keyboard, or when `if ($nextQuestionId)` finds none
      (no greater id, or the id 0, which PHP reads as false) the completion
      text; for a wrong one the retry text. Only the next question comes
      with a keyboard. */
  function Reply(catalog: Table, chat: Int64, q: Question, aid: Int64): (r: Result<Action>)
    ensures r.Ok? ==> r.value.SendMessage? && r.value.chat == chat
    ensures r.Ok? ==> (r.value.keyboard.Some? <==>
      HasCorrectAnswer(q.answers, aid) && NextQuestionId(catalog, q.id).Some? && NextQuestionId(catalog, q.id).value != 0)
  {
    if HasCorrectAnswer(q.answers, aid) then
      var next := NextQuestionId(catalog, q.id);
      if next.Some? && next.value != 0 then
        match Find(catalog, next.value)
        case None => Err(RuntimeError("answers of null"))
        case Some(n) => Ok(SendMessage(chat, NextIntro + "\n" + n.text, Some(Rows(n.id, n.answers))))
      else Ok(SendMessage(chat, Finished, None))
    else Ok(SendMessage(chat, Retry, None))
  }

  /** `processCallbackData`: `answers()` of a question that is not there
      fails; otherwise the reply is sent. */
  function ProcessSpec(t: Tables, env: Env, chat: Int64, qid: Int64, aid: Int64): Step<()>
  {
    match Find(t.catalog, qid)
    case None => Step(t, Err(RuntimeError("answers() on null")))
    case Some(q) =>
      match Reply(t.catalog, chat, q, aid)
      case Err(f) => Step(t, Err(f))
      case Ok(m) => Deliver(t, env, m)
  }

  /** `handleCallbackQuery`: answer data is processed, then the query is
      acknowledged. Nothing is caught: any error ends the handler. */
  function HandleSpec(t: Tables, env: Env, query: CallbackQueryService.CallbackQuery): Step<()>
  {
    var processed :=
      match Decode(query.data)
      case None => Step(t, Ok(()))
      case Some(ids) => ProcessSpec(t, env, query.chat, ids.0, ids.1);
    if processed.result.Err? then processed
    else Deliver(processed.after, env, AnswerCallbackQuery(query.id))
  }

  /** The next question always exists, so the reply to a question in the
      catalog never fails. */
  lemma ReplyNeverFails(catalog: Table, chat: Int64, q: Question, aid: Int64)
    ensures Reply(catalog, chat, q, aid).Ok?
  {
    var next := NextQuestionId(catalog, q.id);
    if next.Some? {
      var i :| 0 <= i < |catalog| && catalog[i].id == next.value;
    }
  }

  /** A right answer with a question after it gets that question, the one
      with the smallest greater id, with its keyboard. */
  lemma RightAnswerGetsNext(catalog: Table, chat: Int64, q: Question, aid: Int64)
    requires HasCorrectAnswer(q.answers, aid)
    requires exists i :: 0 <= i < |catalog| && catalog[i].id > q.id
    requires NextQuestionId(catalog, q.id).value != 0
    ensures var n := Find(catalog, NextQuestionId(catalog, q.id).value);
      n.Some? && n.value.id > q.id &&
      (forall i :: 0 <= i < |catalog| && catalog[i].id > q.id ==> n.value.id <= catalog[i].id) &&
      Reply(catalog, chat, q, aid) == Ok(SendMessage(chat, NextIntro + "\n" + n.value.text, Some(Rows(n.value.id, n.value.answers))))
  {
    ReplyNeverFails(catalog, chat, q, aid);
  }

  /** A right answer to the last question gets the completion text, with no
      keyboard. */
  lemma RightAnswerAtEnd(catalog: Table, chat: Int64, q: Question, aid: Int64)
    requires HasCorrectAnswer(q.answers, aid)
    requires forall i :: 0 <= i < |catalog| ==> catalog[i].id <= q.id
    ensures Reply(catalog, chat, q, aid) == Ok(SendMessage(chat, Finished, None))
  {
  }

  /** A wrong answer gets the retry text pointing to `/quiz`, with no
      keyboard and no next question. */
  lemma WrongAnswerRetries(catalog: Table, chat: Int64, q: Question, aid: Int64)
    requires !HasCorrectAnswer(q.answers, aid)
    ensures Reply(catalog, chat, q, aid) == Ok(SendMessage(chat, Retry, None))
    ensures Contains(Retry, "/" + Name())
  {
    ContainsMiddle(RetryLead, "/quiz", "");
    assert RetryLead + "/quiz" + "" == Retry;
  }

  /** The variant keeps nothing: the handler only ever appends to the
      outbox, at most the reply and the acknowledgement. */
  lemma StoresNothing(t: Tables, env: Env, query: CallbackQueryService.CallbackQuery)
    ensures var after := HandleSpec(t, env, query).after;
      after == t.(outbox := after.outbox) &&
      |t.outbox| <= |after.outbox| <= |t.outbox| + 2 && after.outbox[..|t.outbox|] == t.outbox
  {
    var processed :=
      match Decode(query.data)
      case None => Step(t, Ok(()))
      case Some(ids) => ProcessSpec(t, env, query.chat, ids.0, ids.1);
    var p := processed.after;
    assert p == t.(outbox := p.outbox) && |t.outbox| <= |p.outbox| <= |t.outbox| + 1 && p.outbox[..|t.outbox|] == t.outbox by {
      match Decode(query.data)
      case None =>
      case Some(ids) =>
        match Find(t.catalog, ids.0)
        case None =>
        case Some(q) =>
          match Reply(t.catalog, query.chat, q, ids.1)
          case Err(_) =>
          case Ok(m) =>
            assert (t.outbox + [m])[..|t.outbox|] == t.outbox;
    }
    if processed.result.Ok? {
      var ack := AnswerCallbackQuery(query.id);
      assert (p.outbox + [ack])[..|t.outbox|] == p.outbox[..|t.outbox|];
    }
  }

  /** The query is acknowledged, as the last call, exactly when processing
      did not fail and Telegram accepts the acknowledgement; data that is not
      an answer gets the acknowledgement alone. */
  lemma Acknowledges(t: Tables, env: Env, query: CallbackQueryService.CallbackQuery)
    ensures var processed :=
        match Decode(query.data)
        case None => Step(t, Ok(()))
        case Some(ids) => ProcessSpec(t, env, query.chat, ids.0, ids.1);
      var h := HandleSpec(t, env, query);
      (h.result.Ok? <==> processed.result.Ok? && AnswerCallbackQuery(query.id) !in env.failures) &&
      (h.result.Ok? ==> h.after.outbox == processed.after.outbox + [AnswerCallbackQuery(query.id)])
    ensures Decode(query.data).None? ==> HandleSpec(t, env, query) == Deliver(t, env, AnswerCallbackQuery(query.id))
  {
  }
}
