/** `QuizService`: moving a user on to the next question, sending a question
    with its pictures, and completing the quiz with a scored result. */
module QuizService {
  import opened Common
  import opened Catalog
  import opened Telegram
  import opened Store
  import opened Texts
  import opened QuizCommand
  import ResultMessageTrait

  // ---------------------------------------------------------------------
  // Scoring

  /** `calculateQuizResults`: the number of the user's responses flagged
      correct. */
  function CountCorrect(rs: seq<Response>): (n: nat)
    ensures n <= |rs|
    ensures n == |rs| <==> forall k :: 0 <= k < |rs| ==> rs[k].isCorrect
    ensures n == 0 <==> forall k :: 0 <= k < |rs| ==> !rs[k].isCorrect
  {
    if rs == [] then 0
    else
      var init := rs[..|rs| - 1];
      assert forall k :: 0 <= k < |init| ==> init[k] == rs[k];
      CountCorrect(init) + (if rs[|rs| - 1].isCorrect then 1 else 0)
  }

  /** Recording one more response raises the score by one exactly when that
      response is correct. */
  lemma CountCorrectAppend(rs: seq<Response>, r: Response)
    ensures CountCorrect(rs + [r]) == CountCorrect(rs) + (if r.isCorrect then 1 else 0)
  {
    assert (rs + [r])[..|rs|] == rs;
  }

  /** `$result`: the label chosen by the if/elseif chain. */
  function ResultLabel(score: int): string
  {
    if score <= 2 then "🤓 Ученик."
    else if score <= 5 then "😏 Уверенный юзер."
    else "😎 Всевидящее око."
  }

  /** The label is the score's tier, so this variant and
      `ResultMessageTrait` give every score the same title. */
  lemma ResultLabelIsTier(score: int)
    ensures ResultLabel(score) == ResultMessageTrait.TierLabel(ResultMessageTrait.TierOf(score))
    ensures ResultLabel(score) == ResultMessageTrait.RankTitle(score)
  {
  }

  const TitleOpen: string := "<strong>Твоё звание - "

  const AfterLabel: string := "</strong>\n\n<strong>Правильные ответы: "

  /** The text up to the score: the title with the label, then the opening
      of the additional message. */
  function ResultHeader(score: int): string
  {
    TitleOpen + ResultLabel(score) + AfterLabel
  }

  /** Whatever follows the header, the message starts with the header and
      names the tier. */
  lemma HeaderThen(score: int, rest: string)
    ensures StartsWith(ResultHeader(score) + rest, ResultHeader(score))
    ensures Contains(ResultHeader(score) + rest, ResultMessageTrait.TierLabel(ResultMessageTrait.TierOf(score)))
  {
    ContainsMiddle(TitleOpen, ResultLabel(score), AfterLabel + rest);
    assert TitleOpen + ResultLabel(score) + (AfterLabel + rest) == ResultHeader(score) + rest;
  }

  /** `getResultMessage($score)`, for a given tail (`Texts.ScoreTail` in the bot):
      the message names the tier of the score, and after its header comes
      the score, which `(int)` reads back. */
  function ResultMessage(score: int, tail: string): (m: string)
    ensures StartsWith(m, ResultHeader(score))
    ensures Contains(m, ResultMessageTrait.TierLabel(ResultMessageTrait.TierOf(score)))
    ensures MinInt64 <= score <= MaxInt64 ==> PhpIntCast(m[|ResultHeader(score)|..]) == score
  {
    var close := ResultMessageTrait.StrongOpen + tail;
    HeaderThen(score, IntToString(score) + close);
    ResultMessageTrait.OpensWithTag(tail);
    if MinInt64 <= score <= MaxInt64 then
      CastAfterPrefix(ResultHeader(score), score as Int64, close);
      ResultHeader(score) + (IntToString(score) + close)
    else
      ResultHeader(score) + (IntToString(score) + close)
  }

  // ---------------------------------------------------------------------
  // Pictures and their cached Telegram file ids

  /** `if ($picture->telegram_file_id)`: a cached id counts when it is
      truthy. */
  predicate HasFileId(p: Picture)
  {
    p.telegramFileId.Some? && TruthyString(p.telegramFileId.value)
  }

  /** A picture after a step, and the calls that step delivered. */
  datatype Fetched = Fetched(picture: Picture, sent: seq<Action>)

  /** `fetchAndSaveTelegramFileId`: a picture whose file exists is uploaded to
      the chat; when Telegram accepts it, the file id of the last photo size
      is stored. A missing file, or a refused upload (caught), changes
      nothing. */
  function FetchFileId(p: Picture, env: Env, chat: Int64): (f: Fetched)
    ensures f.picture.path == p.path
    ensures f.sent == [UploadPhoto(chat, p.path)] <==>
      p.path in env.files && Refusal(env, UploadPhoto(chat, p.path)).None?
    ensures f.sent != [UploadPhoto(chat, p.path)] ==> f.sent == [] && f.picture == p
    ensures f.picture != p ==>
      f.sent != [] && |env.files[p.path]| > 0 &&
      f.picture.telegramFileId == Some(env.files[p.path][|env.files[p.path]| - 1])
  {
    var upload := UploadPhoto(chat, p.path);
    if p.path !in env.files || Refusal(env, upload).Some? then Fetched(p, [])
    else
      var sizes := env.files[p.path];
      if sizes == [] then Fetched(p, [upload])
      else Fetched(p.(telegramFileId := Some(sizes[|sizes| - 1])), [upload])
  }

  /** One turn of the picture loop: only a picture without a usable id is
      fetched. */
  function Visit(p: Picture, env: Env, chat: Int64): Fetched
  {
    if HasFileId(p) then Fetched(p, []) else FetchFileId(p, env, chat)
  }

  /** The state of the picture loop: the pictures so far, the uploads made,
      `$allImagesHaveIds` and `$mediaGroup`. */
  datatype PictureRun = PictureRun(
    pictures: seq<Picture>,
    sent: seq<Action>,
    allHadIds: bool,
    group: seq<string>)

  /** One turn of the loop: visit `p`, keep the picture as it is afterwards,
      the uploads made, whether it had an id, and its id in the group. */
  function Extend(run: PictureRun, p: Picture, env: Env, chat: Int64): PictureRun
  {
    var f := Visit(p, env, chat);
    PictureRun(
      run.pictures + [f.picture],
      run.sent + f.sent,
      run.allHadIds && HasFileId(p),
      run.group + (if HasFileId(f.picture) then [f.picture.telegramFileId.value] else []))
  }

  /** The loop of `sendQuestion` over the pictures in order. */
  function RunPictures(pics: seq<Picture>, env: Env, chat: Int64): (run: PictureRun)
    ensures |run.pictures| == |pics|
  {
    if pics == [] then PictureRun([], [], true, [])
    else Extend(RunPictures(pics[..|pics| - 1], env, chat), pics[|pics| - 1], env, chat)
  }

  /** The usable file ids of some pictures, in picture order. */
  function CachedIds(pics: seq<Picture>): (ids: seq<string>)
    ensures |ids| <= |pics|
  {
    if pics == [] then []
    else
      var p := pics[|pics| - 1];
      CachedIds(pics[..|pics| - 1]) + (if HasFileId(p) then [p.telegramFileId.value] else [])
  }

  /** `$allImagesHaveIds` ends true exactly when every picture had a usable
      id before the loop. */
  lemma {:induction false} RunAllHad(pics: seq<Picture>, env: Env, chat: Int64)
    ensures RunPictures(pics, env, chat).allHadIds <==> forall k :: 0 <= k < |pics| ==> HasFileId(pics[k])
  {
    if pics != [] {
      var init := pics[..|pics| - 1];
      RunAllHad(init, env, chat);
      assert forall k :: 0 <= k < |init| ==> init[k] == pics[k];
    }
  }

  /** Every picture keeps its path; a picture that had a usable id is left
      as it was, and one that gets a new id had none. */
  lemma {:induction false} RunKeepsCached(pics: seq<Picture>, env: Env, chat: Int64)
    ensures var run := RunPictures(pics, env, chat);
      forall k :: 0 <= k < |pics| ==>
        run.pictures[k].path == pics[k].path &&
        (HasFileId(pics[k]) ==> run.pictures[k] == pics[k])
  {
    if pics != [] {
      var init := pics[..|pics| - 1];
      RunKeepsCached(init, env, chat);
      var run := RunPictures(pics, env, chat);
      var prev := RunPictures(init, env, chat);
      assert run.pictures == prev.pictures + [Visit(pics[|pics| - 1], env, chat).picture];
      forall k | 0 <= k < |pics|
        ensures run.pictures[k].path == pics[k].path
        ensures HasFileId(pics[k]) ==> run.pictures[k] == pics[k]
      {
        if k < |init| {
          assert run.pictures[k] == prev.pictures[k] && pics[k] == init[k];
        }
      }
    }
  }

  /** `$mediaGroup` is exactly the usable ids of the pictures as they stand
      after their fetch step, in picture order. */
  lemma {:induction false} RunGroup(pics: seq<Picture>, env: Env, chat: Int64)
    ensures RunPictures(pics, env, chat).group == CachedIds(RunPictures(pics, env, chat).pictures)
  {
    if pics != [] {
      var init := pics[..|pics| - 1];
      RunGroup(init, env, chat);
      var run := RunPictures(pics, env, chat);
      var prev := RunPictures(init, env, chat);
      assert run.pictures[..|run.pictures| - 1] == prev.pictures;
    }
  }

  /** When every picture already had a usable id, nothing is uploaded, no
      picture changes and the group holds one id per picture. */
  lemma {:induction false} RunAllCached(pics: seq<Picture>, env: Env, chat: Int64)
    requires forall k :: 0 <= k < |pics| ==> HasFileId(pics[k])
    ensures var run := RunPictures(pics, env, chat);
      run.sent == [] && run.pictures == pics && run.group == CachedIds(pics) && |run.group| == |pics|
  {
    if pics != [] {
      var init := pics[..|pics| - 1];
      assert forall k :: 0 <= k < |init| ==> init[k] == pics[k];
      RunAllCached(init, env, chat);
      assert init + [pics[|pics| - 1]] == pics;
    }
  }

  /** The loop makes only uploads, to the question's chat, of pictures that
      had no usable id. */
  lemma {:induction false} RunSendsUploads(pics: seq<Picture>, env: Env, chat: Int64)
    ensures var run := RunPictures(pics, env, chat);
      forall a :: a in run.sent ==>
        a.UploadPhoto? && a.chat == chat &&
        exists k :: 0 <= k < |pics| && !HasFileId(pics[k]) && pics[k].path == a.path
  {
    if pics != [] {
      var init := pics[..|pics| - 1];
      RunSendsUploads(init, env, chat);
      var run := RunPictures(pics, env, chat);
      var prev := RunPictures(init, env, chat);
      var f := Visit(pics[|pics| - 1], env, chat);
      assert run.sent == prev.sent + f.sent;
      forall a | a in run.sent
        ensures a.UploadPhoto? && a.chat == chat
        ensures exists k :: 0 <= k < |pics| && !HasFileId(pics[k]) && pics[k].path == a.path
      {
        if a in prev.sent {
          var k :| 0 <= k < |init| && !HasFileId(init[k]) && init[k].path == a.path;
          assert pics[k] == init[k];
        } else {
          assert a in f.sent;
          assert !HasFileId(pics[|pics| - 1]);
        }
      }
    }
  }

  /** The catalog with picture `k` of question `qi` replaced. */
  function SetPicture(t: Table, qi: nat, k: nat, p: Picture): (t': Table)
    requires qi < |t| && k < |t[qi].pictures|
    ensures |t'| == |t| && forall i :: 0 <= i < |t| ==> t'[i].id == t[i].id
  {
    t[qi := t[qi].(pictures := t[qi].pictures[k := p])]
  }

  /** Putting back the picture that is there changes nothing. */
  lemma SetPictureSame(t: Table, qi: nat, k: nat)
    requires qi < |t| && k < |t[qi].pictures|
    ensures SetPicture(t, qi, k, t[qi].pictures[k]) == t
  {
    assert t[qi].pictures[k := t[qi].pictures[k]] == t[qi].pictures;
    assert t[qi].(pictures := t[qi].pictures) == t[qi];
  }

  /** The catalog with the pictures of question `qi` replaced. */
  function SetPictures(t: Table, qi: nat, pics: seq<Picture>): (t': Table)
    requires qi < |t|
    ensures |t'| == |t| && forall i :: 0 <= i < |t| ==> t'[i].id == t[i].id
  {
    t[qi := t[qi].(pictures := pics)]
  }

  // ---------------------------------------------------------------------
  // Sending a question

  const ChooseAnswer: string := "<em>Выберите вариант ответа:</em>"

  /** `sendQuestion`: the question text; the pictures' loop; the media group
      when it is non-empty and every picture had an id; then the keyboard in a
      message of its own. */
  function SendQuestionSpec(t: Tables, env: Env, qi: nat, text: string, keyboard: Keyboard, chat: Int64): Step<()>
    requires qi < |t.catalog|
  {
    var first := Deliver(t, env, SendMessage(chat, text, None));
    if first.result.Err? then first
    else
      var run := RunPictures(t.catalog[qi].pictures, env, chat);
      var t1 := first.after;
      var t2 := t1.(catalog := SetPictures(t1.catalog, qi, run.pictures), outbox := t1.outbox + run.sent);
      var grouped :=
        if run.group != [] && run.allHadIds then Deliver(t2, env, SendMediaGroup(chat, run.group))
        else Step(t2, Ok(()));
      if grouped.result.Err? then grouped
      else Deliver(grouped.after, env, SendMessage(chat, ChooseAnswer, Some(keyboard)))
  }

  /** A question sent in full changes only the question's pictures and the
      outbox: the text, the uploads, a media group of every picture's id
      exactly when there are pictures and all had an id, and the keyboard. */
  lemma SendQuestionSends(t: Tables, env: Env, qi: nat, text: string, keyboard: Keyboard, chat: Int64)
    requires qi < |t.catalog|
    requires SendQuestionSpec(t, env, qi, text, keyboard, chat).result.Ok?
    ensures var pics := t.catalog[qi].pictures;
      var run := RunPictures(pics, env, chat);
      var allHad := forall k :: 0 <= k < |pics| ==> HasFileId(pics[k]);
      SendQuestionSpec(t, env, qi, text, keyboard, chat).after ==
        t.(catalog := SetPictures(t.catalog, qi, run.pictures),
           outbox := t.outbox + [SendMessage(chat, text, None)] + run.sent
             + (if pics != [] && allHad then [SendMediaGroup(chat, CachedIds(pics))] else [])
             + [SendMessage(chat, ChooseAnswer, Some(keyboard))])
  {
    var pics := t.catalog[qi].pictures;
    RunAllHad(pics, env, chat);
    var run := RunPictures(pics, env, chat);
    if forall k :: 0 <= k < |pics| ==> HasFileId(pics[k]) {
      RunAllCached(pics, env, chat);
    }
  }

  /** `fetchAndSaveTelegramFileId($picture, $chatId)` on picture `k` of
      question `qi`. */
  method FetchAndSaveTelegramFileId(db: World, qi: nat, k: nat, chat: Int64)
    requires qi < |db.catalog| && k < |db.catalog[qi].pictures|
    modifies db`catalog, db`outbox
    ensures var f := FetchFileId(old(db.catalog[qi].pictures[k]), db.env, chat);
      db.catalog == SetPicture(old(db.catalog), qi, k, f.picture) && db.outbox == old(db.outbox) + f.sent
  {
    var p := db.catalog[qi].pictures[k];
    if p.path in db.env.files {
      var r := db.Send(UploadPhoto(chat, p.path));
      if r.Ok? {
        var sizes := db.env.files[p.path];
        if sizes != [] {
          db.catalog := SetPicture(db.catalog, qi, k, p.(telegramFileId := Some(sizes[|sizes| - 1])));
        }
      }
    }
    if FetchFileId(p, db.env, chat).picture == p {
      SetPictureSame(old(db.catalog), qi, k);
    }
  }

  /** One turn of the loop in terms of the sequences it keeps. */
  lemma LoopStep(done: seq<Picture>, pics: seq<Picture>, k: nat, p: Picture)
    requires |done| == k < |pics|
    ensures (done + pics[k..])[k := p] == (done + [p]) + pics[k + 1..]
  {
    assert pics[k..][1..] == pics[k + 1..];
  }

  /** One more picture visited: the run over the first k + 1 pictures is the
      run over the first k followed by the visit of picture k. */
  lemma RunStep(pics: seq<Picture>, k: nat, env: Env, chat: Int64)
    requires k < |pics|
    ensures RunPictures(pics[..k + 1], env, chat) == Extend(RunPictures(pics[..k], env, chat), pics[k], env, chat)
  {
    assert pics[..k + 1][..k] == pics[..k];
  }

  /** Replacing one picture of replaced pictures replaces that picture in
      them. */
  lemma SetPictureOfSetPictures(t: Table, qi: nat, pics: seq<Picture>, k: nat, p: Picture)
    requires qi < |t| && k < |pics|
    ensures SetPicture(SetPictures(t, qi, pics), qi, k, p) == SetPictures(t, qi, pics[k := p])
  {
  }

  /** Putting back the pictures that are there changes nothing. */
  lemma SetPicturesSame(t: Table, qi: nat)
    requires qi < |t|
    ensures SetPictures(t, qi, t[qi].pictures) == t
  {
    assert t[qi].(pictures := t[qi].pictures) == t[qi];
  }

  /** The body of the `foreach` for picture `k`: fetch it when it has no
      usable id, then read its id back for the group. */
  method VisitPicture(db: World, qi: nat, k: nat, chat: Int64) returns (had: bool, id: Option<string>)
    requires qi < |db.catalog| && k < |db.catalog[qi].pictures|
    modifies db`catalog, db`outbox
    ensures var f := Visit(old(db.catalog[qi].pictures[k]), db.env, chat);
      db.catalog == SetPicture(old(db.catalog), qi, k, f.picture) && db.outbox == old(db.outbox) + f.sent &&
      had == HasFileId(old(db.catalog[qi].pictures[k])) &&
      id == (if HasFileId(f.picture) then Some(f.picture.telegramFileId.value) else None)
  {
    var p := db.catalog[qi].pictures[k];
    had := HasFileId(p);
    if !had {
      FetchAndSaveTelegramFileId(db, qi, k, chat);
    } else {
      SetPictureSame(db.catalog, qi, k);
    }
    p := db.catalog[qi].pictures[k];
    id := if HasFileId(p) then Some(p.telegramFileId.value) else None;
  }

  /** The `foreach` of `sendQuestion` over the pictures of question `qi`:
      it returns `$allImagesHaveIds` and `$mediaGroup`. */
  method SendPictures(db: World, qi: nat, chat: Int64) returns (allHave: bool, group: seq<string>)
    requires qi < |db.catalog|
    modifies db`catalog, db`outbox
    ensures var run := RunPictures(old(db.catalog[qi].pictures), db.env, chat);
      db.catalog == SetPictures(old(db.catalog), qi, run.pictures) && db.outbox == old(db.outbox) + run.sent &&
      allHave == run.allHadIds && group == run.group
  {
    ghost var cat0, out0 := db.catalog, db.outbox;
    ghost var pics := db.catalog[qi].pictures;
    var n := |db.catalog[qi].pictures|;
    allHave := true;
    group := [];
    var k := 0;
    ghost var run := PictureRun([], [], true, []);
    assert pics[..0] == [] && run.pictures + pics[0..] == pics;
    SetPicturesSame(cat0, qi);
    while k < n
      invariant 0 <= k <= n == |pics|
      invariant run == RunPictures(pics[..k], db.env, chat)
      invariant db.catalog == SetPictures(cat0, qi, run.pictures + pics[k..])
      invariant db.outbox == out0 + run.sent
      invariant allHave == run.allHadIds && group == run.group
    {
      ghost var next := Extend(run, pics[k], db.env, chat);
      PictureTurn(cat0, qi, pics, k, run, db.env, chat);
      var had, id := VisitPicture(db, qi, k, chat);
      if !had {
        allHave := false;
      }
      if id.Some? {
        group := group + [id.value];
      }
      run := next;
      k := k + 1;
    }
    assert pics[..k] == pics && run.pictures + pics[k..] == run.pictures;
  }

  /** What one turn of the picture loop does to the catalog and to the run,
      for the picture `k` still in its place. */
  lemma PictureTurn(t: Table, qi: nat, pics: seq<Picture>, k: nat, run: PictureRun, env: Env, chat: Int64)
    requires qi < |t| && k < |pics| && run == RunPictures(pics[..k], env, chat)
    ensures var f := Visit(pics[k], env, chat);
      var next := Extend(run, pics[k], env, chat);
      var cat := SetPictures(t, qi, run.pictures + pics[k..]);
      next == RunPictures(pics[..k + 1], env, chat) &&
      k < |cat[qi].pictures| && cat[qi].pictures[k] == pics[k] &&
      next.sent == run.sent + f.sent &&
      next.allHadIds == (run.allHadIds && HasFileId(pics[k])) &&
      next.group == run.group + (if HasFileId(f.picture) then [f.picture.telegramFileId.value] else []) &&
      SetPicture(cat, qi, k, f.picture) == SetPictures(t, qi, next.pictures + pics[k + 1..])
  {
    var f := Visit(pics[k], env, chat);
    var before := run.pictures + pics[k..];
    assert before[k] == pics[k];
    LoopStep(run.pictures, pics, k, f.picture);
    RunStep(pics, k, env, chat);
    SetPictureOfSetPictures(t, qi, before, k, f.picture);
  }

  /** `sendQuestion($question, $text, $keyboard, $chatId)` for question
      `qi` of the catalog. */
  method SendQuestion(db: World, qi: nat, text: string, keyboard: Keyboard, chat: Int64) returns (r: Result<()>)
    requires qi < |db.catalog|
    modifies db`catalog, db`outbox
    ensures db.Snap() == SendQuestionSpec(old(db.Snap()), db.env, qi, text, keyboard, chat).after
    ensures r == SendQuestionSpec(old(db.Snap()), db.env, qi, text, keyboard, chat).result
  {
    r := db.Send(SendMessage(chat, text, None));
    if r.Err? {
      return;
    }
    var allHave, group := SendPictures(db, qi, chat);
    if group != [] && allHave {
      r := db.Send(SendMediaGroup(chat, group));
      if r.Err? {
        return;
      }
    }
    r := db.Send(SendMessage(chat, ChooseAnswer, Some(keyboard)));
  }

  // ---------------------------------------------------------------------
  // Moving on and completing

  /** The text above a question: its number, then its text, in bold. */
  function QuestionText(index: nat, text: string): string
  {
    "<strong>ВОПРОС #" + NatToString(index) + "\n\n" + text + "</strong>"
  }

  /** `sendNextQuestion($user, $currentQuestionId, $chatId)`: with no id
      above the current one, false and nothing changes; otherwise the next
      question is sent, numbered one past the count of ids up to the current
      one, the user's state becomes `quiz_in_progress` on that question, and
      the result is true. */
  function SendNextQuestionSpec(t: Tables, env: Env, user: Int64, current: Int64, chat: Int64): Step<bool>
  {
    var index := QuestionIndex(t.catalog, current);
    match NextQuestionId(t.catalog, current)
    case None => Step(t, Ok(false))
    case Some(next) =>
      match IndexOf(t.catalog, next)
      case None => Step(t, Ok(false))
      case Some(qi) =>
        var q := t.catalog[qi];
        var sent := SendQuestionSpec(t, env, qi, QuestionText(index, q.text), Rows(q.id, q.answers), chat);
        if sent.result.Err? then Step(sent.after, Err(sent.result.failure))
        else Step(sent.after.(states := sent.after.states[user := UserState(QuizInProgress, Some(next))]), Ok(true))
  }

  /** With no id above the current one, the answer is false and nothing
      changes. */
  lemma SendNextQuestionAtEnd(t: Tables, env: Env, user: Int64, current: Int64, chat: Int64)
    requires forall i :: 0 <= i < |t.catalog| ==> t.catalog[i].id <= current
    ensures SendNextQuestionSpec(t, env, user, current, chat) == Step(t, Ok(false))
  {
  }

  /** The answer is false only when no id is above the current one. */
  lemma SendNextQuestionFalseAtEnd(t: Tables, env: Env, user: Int64, current: Int64, chat: Int64)
    requires SendNextQuestionSpec(t, env, user, current, chat).result == Ok(false)
    ensures forall i :: 0 <= i < |t.catalog| ==> t.catalog[i].id <= current
  {
  }

  /** Sending a question touches neither users, states nor responses, and
      keeps every question id where it was. */
  lemma SendQuestionFrame(t: Tables, env: Env, qi: nat, text: string, keyboard: Keyboard, chat: Int64)
    requires qi < |t.catalog|
    ensures var after := SendQuestionSpec(t, env, qi, text, keyboard, chat).after;
      after.users == t.users && after.states == t.states && after.responses == t.responses &&
      |after.catalog| == |t.catalog| &&
      forall i :: 0 <= i < |t.catalog| ==> after.catalog[i].id == t.catalog[i].id
  {
  }

  /** On true, the user is on the smallest id above the current one with the
      quiz in progress; no other user's state, no user and no response
      changed. */
  lemma SendNextQuestionAdvances(t: Tables, env: Env, user: Int64, current: Int64, chat: Int64)
    requires SendNextQuestionSpec(t, env, user, current, chat).result == Ok(true)
    ensures NextQuestionId(t.catalog, current).Some?
    ensures var after := SendNextQuestionSpec(t, env, user, current, chat).after;
      after.states == t.states[user := UserState(QuizInProgress, NextQuestionId(t.catalog, current))] &&
      after.users == t.users && after.responses == t.responses
  {
    var next := NextQuestionId(t.catalog, current).value;
    var qi := IndexOf(t.catalog, next).value;
    var q := t.catalog[qi];
    SendQuestionFrame(t, env, qi, QuestionText(QuestionIndex(t.catalog, current), q.text), Rows(q.id, q.answers), chat);
  }

  /** On true, the first message sent is the next question's text, numbered
      one past the count of question ids up to the current one. */
  lemma SendNextQuestionShowsNumber(t: Tables, env: Env, user: Int64, current: Int64, chat: Int64)
    requires SendNextQuestionSpec(t, env, user, current, chat).result == Ok(true)
    ensures NextQuestionId(t.catalog, current).Some? && Find(t.catalog, NextQuestionId(t.catalog, current).value).Some?
    ensures var q := Find(t.catalog, NextQuestionId(t.catalog, current).value).value;
      var after := SendNextQuestionSpec(t, env, user, current, chat).after;
      |after.outbox| > |t.outbox| &&
      after.outbox[|t.outbox|] == SendMessage(chat, QuestionText(QuestionIndex(t.catalog, current), q.text), None)
  {
    var next := NextQuestionId(t.catalog, current).value;
    var qi := IndexOf(t.catalog, next).value;
    var q := t.catalog[qi];
    var text := QuestionText(QuestionIndex(t.catalog, current), q.text);
    var sent := SendQuestionSpec(t, env, qi, text, Rows(q.id, q.answers), chat);
    SendQuestionOpens(t, env, qi, text, Rows(q.id, q.answers), chat);
    assert SendNextQuestionSpec(t, env, user, current, chat).after.outbox == sent.after.outbox;
    assert Find(t.catalog, next) == Some(q);
  }

  /** When the text goes through but a later call is refused, the file ids
      fetched on the way stay saved and the calls made before the refusal
      stay sent. */
  lemma SendQuestionFailsLate(t: Tables, env: Env, qi: nat, text: string, keyboard: Keyboard, chat: Int64)
    requires qi < |t.catalog|
    requires SendMessage(chat, text, None) !in env.failures
    requires SendQuestionSpec(t, env, qi, text, keyboard, chat).result.Err?
    ensures var run := RunPictures(t.catalog[qi].pictures, env, chat);
      var grouped := run.group != [] && run.allHadIds;
      var after := SendQuestionSpec(t, env, qi, text, keyboard, chat).after;
      after.catalog == SetPictures(t.catalog, qi, run.pictures) &&
      after.outbox == t.outbox + [SendMessage(chat, text, None)] + run.sent +
        (if grouped && SendMediaGroup(chat, run.group) !in env.failures then [SendMediaGroup(chat, run.group)] else [])
  {
  }

  /** A question sent in full starts with its text. */
  lemma SendQuestionOpens(t: Tables, env: Env, qi: nat, text: string, keyboard: Keyboard, chat: Int64)
    requires qi < |t.catalog|
    requires SendQuestionSpec(t, env, qi, text, keyboard, chat).result.Ok?
    ensures var after := SendQuestionSpec(t, env, qi, text, keyboard, chat).after;
      |after.outbox| > |t.outbox| && after.outbox[|t.outbox|] == SendMessage(chat, text, None)
  {
    var first := Deliver(t, env, SendMessage(chat, text, None));
    var run := RunPictures(t.catalog[qi].pictures, env, chat);
    var t2 := first.after.(catalog := SetPictures(first.after.catalog, qi, run.pictures), outbox := first.after.outbox + run.sent);
    assert t2.outbox == t.outbox + [SendMessage(chat, text, None)] + run.sent;
    assert t2.outbox[|t.outbox|] == SendMessage(chat, text, None);
  }

  /** When Telegram refuses a call, the state is not updated. */
  lemma SendNextQuestionRefused(t: Tables, env: Env, user: Int64, current: Int64, chat: Int64)
    requires SendNextQuestionSpec(t, env, user, current, chat).result.Err?
    ensures var after := SendNextQuestionSpec(t, env, user, current, chat).after;
      after.states == t.states && after.users == t.users && after.responses == t.responses
  {
    var next := NextQuestionId(t.catalog, current).value;
    var qi := IndexOf(t.catalog, next).value;
    var q := t.catalog[qi];
    SendQuestionFrame(t, env, qi, QuestionText(QuestionIndex(t.catalog, current), q.text), Rows(q.id, q.answers), chat);
  }

  /** The question ids of the catalog, and so its consistency, survive
      moving on. */
  lemma SendNextQuestionConsistent(t: Tables, env: Env, user: Int64, current: Int64, chat: Int64)
    requires Consistent(t) && user in t.users
    ensures Consistent(SendNextQuestionSpec(t, env, user, current, chat).after)
  {
    match NextQuestionId(t.catalog, current)
    case None =>
    case Some(next) =>
      match IndexOf(t.catalog, next)
      case None =>
      case Some(qi) =>
        var q := t.catalog[qi];
        var text := QuestionText(QuestionIndex(t.catalog, current), q.text);
        var sent := SendQuestionSpec(t, env, qi, text, Rows(q.id, q.answers), chat);
        SendQuestionFrame(t, env, qi, text, Rows(q.id, q.answers), chat);
        assert DistinctIds(sent.after.catalog) by {
          forall i, j | 0 <= i < j < |sent.after.catalog|
            ensures sent.after.catalog[i].id != sent.after.catalog[j].id
          {
            assert sent.after.catalog[i].id == t.catalog[i].id;
            assert sent.after.catalog[j].id == t.catalog[j].id;
          }
        }
        assert Consistent(sent.after);
  }

  method SendNextQuestion(db: World, user: Int64, current: Int64, chat: Int64) returns (r: Result<bool>)
    modifies db`catalog, db`outbox, db`states
    ensures db.Snap() == SendNextQuestionSpec(old(db.Snap()), db.env, user, current, chat).after
    ensures r == SendNextQuestionSpec(old(db.Snap()), db.env, user, current, chat).result
    ensures old(db.Valid()) && user in old(db.users) ==> db.Valid()
  {
    if db.Valid() && user in db.users {
      SendNextQuestionConsistent(db.Snap(), db.env, user, current, chat);
    }
    var index := QuestionIndex(db.catalog, current);
    var next := NextQuestionId(db.catalog, current);
    if next.None? {
      return Ok(false);
    }
    var qi := IndexOf(db.catalog, next.value);
    if qi.None? {
      return Ok(false);
    }
    var q := db.catalog[qi.value];
    var keyboard := CreateQuestionKeyboard(q);
    var sent := SendQuestion(db, qi.value, QuestionText(index, q.text), keyboard, chat);
    if sent.Err? {
      return Err(sent.failure);
    }
    db.states := db.states[user := UserState(QuizInProgress, Some(next.value))];
    r := Ok(true);
  }

  /** The steps of `completeQuiz` for a given closing text and result
      message: the closing text; the wiping of the user's responses; the
      result; the state `quiz_completed` with no current question. A refused
      message ends the steps there. */
  function CompleteQuizSteps(t: Tables, env: Env, user: Int64, chat: Int64, closing: string, result: string): Step<()>
  {
    var first := Deliver(t, env, SendMessage(chat, closing, None));
    if first.result.Err? then first
    else
      var wiped := first.after.(responses := first.after.responses - {user});
      var second := Deliver(wiped, env, SendMessage(chat, result, None));
      if second.result.Err? then second
      else Step(second.after.(states := second.after.states[user := UserState(QuizCompleted, None)]), Ok(()))
  }

  /** `completeQuiz($user, $chatId)`, for given texts: the score is counted
      before anything changes, and the result message is the one for that
      score. */
  function CompleteQuizSpec(t: Tables, env: Env, user: Int64, chat: Int64, w: Wording): Step<()>
  {
    CompleteQuizSteps(t, env, user, chat, w.closing, ResultMessage(CountCorrect(ResponsesOf(t, user)), w.scoreTail))
  }

  /** A completed quiz leaves the user with no responses and the state
      `quiz_completed` without a question, after sending the two messages;
      other users keep their responses and states. */
  lemma CompleteQuizEnds(t: Tables, env: Env, user: Int64, chat: Int64, closing: string, result: string)
    requires CompleteQuizSteps(t, env, user, chat, closing, result).result.Ok?
    ensures var after := CompleteQuizSteps(t, env, user, chat, closing, result).after;
      ResponsesOf(after, user) == [] &&
      after.states == t.states[user := UserState(QuizCompleted, None)] &&
      after.responses == t.responses - {user} &&
      after.users == t.users && after.catalog == t.catalog &&
      after.outbox == t.outbox + [SendMessage(chat, closing, None), SendMessage(chat, result, None)]
  {
  }

  /** If Telegram refuses the closing text, nothing changes: the responses
      are not wiped. */
  lemma CompleteQuizRefused(t: Tables, env: Env, user: Int64, chat: Int64, closing: string, result: string)
    requires SendMessage(chat, closing, None) in env.failures
    ensures CompleteQuizSteps(t, env, user, chat, closing, result) ==
      Step(t, Err(TelegramRaised(env.failures[SendMessage(chat, closing, None)])))
  {
  }

  /** If Telegram takes the closing text but refuses the result, the
      responses are already gone while the state never reaches
      `quiz_completed`: the user is left mid-quiz with nothing recorded. */
  lemma CompleteQuizHalfDone(t: Tables, env: Env, user: Int64, chat: Int64, closing: string, result: string)
    requires SendMessage(chat, closing, None) !in env.failures && SendMessage(chat, result, None) in env.failures
    ensures var s := CompleteQuizSteps(t, env, user, chat, closing, result);
      s.result == Err(TelegramRaised(env.failures[SendMessage(chat, result, None)])) &&
      ResponsesOf(s.after, user) == [] && s.after.responses == t.responses - {user} &&
      s.after.states == t.states &&
      s.after.outbox == t.outbox + [SendMessage(chat, closing, None)]
  {
  }

  lemma CompleteQuizConsistent(t: Tables, env: Env, user: Int64, chat: Int64, closing: string, result: string)
    requires Consistent(t) && user in t.users
    ensures Consistent(CompleteQuizSteps(t, env, user, chat, closing, result).after)
  {
  }

  /** The result message sent names the tier of the score counted before the
      responses were wiped, and carries that score. */
  lemma CompleteQuizReports(t: Tables, env: Env, user: Int64, chat: Int64, w: Wording)
    requires CompleteQuizSpec(t, env, user, chat, w).result.Ok?
    ensures var after := CompleteQuizSpec(t, env, user, chat, w).after;
      var score := CountCorrect(ResponsesOf(t, user));
      |after.outbox| == |t.outbox| + 2 &&
      after.outbox[|t.outbox|] == SendMessage(chat, w.closing, None) &&
      after.outbox[|t.outbox| + 1].SendMessage? &&
      Contains(after.outbox[|t.outbox| + 1].text, ResultMessageTrait.TierLabel(ResultMessageTrait.TierOf(score))) &&
      (score <= MaxInt64 ==> PhpIntCast(after.outbox[|t.outbox| + 1].text[|ResultHeader(score)|..]) == score) &&
      ResponsesOf(after, user) == []
  {
    var score := CountCorrect(ResponsesOf(t, user));
    var m := ResultMessage(score, w.scoreTail);
    CompleteQuizEnds(t, env, user, chat, w.closing, m);
  }

  /** `resetUserQuizResponses($user)`. */
  method ResetUserQuizResponses(db: World, user: Int64)
    modifies db`responses
    ensures db.Snap() == old(db.Snap()).(responses := old(db.responses) - {user})
  {
    db.responses := db.responses - {user};
  }

  /** The body of `completeQuiz` once its two texts are fixed. */
  method CloseQuiz(db: World, user: Int64, chat: Int64, closing: string, result: string) returns (r: Result<()>)
    modifies db`outbox, db`responses, db`states
    ensures db.Snap() == CompleteQuizSteps(old(db.Snap()), db.env, user, chat, closing, result).after
    ensures r == CompleteQuizSteps(old(db.Snap()), db.env, user, chat, closing, result).result
  {
    r := db.Send(SendMessage(chat, closing, None));
    if r.Err? {
      return;
    }
    ResetUserQuizResponses(db, user);
    r := db.Send(SendMessage(chat, result, None));
    if r.Err? {
      return;
    }
    db.states := db.states[user := UserState(QuizCompleted, None)];
  }

  method CompleteQuiz(db: World, user: Int64, chat: Int64) returns (r: Result<()>)
    modifies db`outbox, db`responses, db`states
    ensures db.Snap() == CompleteQuizSpec(old(db.Snap()), db.env, user, chat, db.wording).after
    ensures r == CompleteQuizSpec(old(db.Snap()), db.env, user, chat, db.wording).result
    ensures old(db.Valid()) && user in old(db.users) ==> db.Valid()
  {
    var score := CountCorrect(ResponsesOf(db.Snap(), user));
    if db.Valid() && user in db.users {
      CompleteQuizConsistent(db.Snap(), db.env, user, chat, db.wording.closing, ResultMessage(score, db.wording.scoreTail));
    }
    r := CloseQuiz(db, user, chat, db.wording.closing, ResultMessage(score, db.wording.scoreTail));
  }
}
