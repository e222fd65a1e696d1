/** The `/quiz` command: it shows a question with its answers laid out as an
    inline keyboard, two buttons per row. */
module QuizCommand {
  import opened Common
  import opened Catalog
  import opened CallbackData
  import opened Telegram
  import opened Store

  /** `getName()`: the name the command is registered under. */
  function Name(): (n: string)
    ensures "/" + n == "/quiz"
  {
    "quiz"
  }

  /** The button for one answer: its text, and data naming the question and
      the answer. */
  function AnswerButton(qid: Int64, a: Answer): Button
  {
    CallbackButton(a.text, Encode(qid, a.id))
  }

  /** The buttons of all answers, in answer order. */
  function Buttons(qid: Int64, answers: seq<Answer>): (bs: seq<Button>)
    ensures |bs| == |answers|
    ensures forall k :: 0 <= k < |answers| ==> bs[k] == AnswerButton(qid, answers[k])
  {
    seq(|answers|, k requires 0 <= k < |answers| => AnswerButton(qid, answers[k]))
  }

  /** Buttons taken two at a time, with a last row of one when their number
      is odd. */
  function Pairs(bs: seq<Button>): Keyboard
  {
    if |bs| == 0 then []
    else if |bs| == 1 then [[bs[0]]]
    else [[bs[0], bs[1]]] + Pairs(bs[2..])
  }

  /** The keyboard of a question. */
  function Rows(qid: Int64, answers: seq<Answer>): Keyboard
  {
    Pairs(Buttons(qid, answers))
  }

  function Flatten(rows: Keyboard): seq<Button>
  {
    if rows == [] then [] else rows[0] + Flatten(rows[1..])
  }

  /** `createQuestionKeyboard($question)`: a loop over the answers in steps
      of two that adds the buttons present at `i` and `i + 1` to a row and
      keeps non-empty rows. */
  method CreateQuestionKeyboard(q: Question) returns (keyboard: Keyboard)
    ensures keyboard == Rows(q.id, q.answers)
  {
    var answers := q.answers;
    var n := |answers|;
    ghost var bs := Buttons(q.id, answers);
    keyboard := [];
    var i := 0;
    while i < n
      invariant 0 <= i <= n + 1
      invariant keyboard + Pairs(bs[if i < n then i else n..]) == Pairs(bs)
    {
      var row: seq<Button> := [];
      if i < n {
        row := row + [AnswerButton(q.id, answers[i])];
      }
      if i + 1 < n {
        row := row + [AnswerButton(q.id, answers[i + 1])];
      }
      assert keyboard + [row] + Pairs(bs[if i + 2 < n then i + 2 else n..]) == Pairs(bs) by {
        assert bs[i] == AnswerButton(q.id, answers[i]);
        if i + 1 < n {
          assert bs[i + 1] == AnswerButton(q.id, answers[i + 1]);
        }
        KeyboardStep(bs, keyboard, i, row);
      }
      if row != [] {
        keyboard := keyboard + [row];
      }
      i := i + 2;
    }
  }

  /** One turn of the loop: the row at `i` and the rows after it. */
  lemma PairsStep(bs: seq<Button>, i: nat)
    requires i < |bs|
    ensures i + 1 < |bs| ==> Pairs(bs[i..]) == [[bs[i], bs[i + 1]]] + Pairs(bs[i + 2..])
    ensures i + 1 == |bs| ==> Pairs(bs[i..]) == [[bs[i]]] + Pairs(bs[|bs|..])
  {
    if i + 1 < |bs| {
      assert bs[i..][2..] == bs[i + 2..];
    }
  }

  /** One turn of the loop keeps the keyboard built so far, followed by the
      rows of the buttons not yet visited, equal to the whole keyboard. */
  lemma KeyboardStep(bs: seq<Button>, keyboard: Keyboard, i: nat, row: seq<Button>)
    requires i < |bs| && keyboard + Pairs(bs[i..]) == Pairs(bs)
    requires row == (if i + 1 < |bs| then [bs[i], bs[i + 1]] else [bs[i]])
    ensures (keyboard + [row]) + Pairs(bs[if i + 2 < |bs| then i + 2 else |bs|..]) == Pairs(bs)
  {
    PairsStep(bs, i);
    var rest := bs[if i + 2 < |bs| then i + 2 else |bs|..];
    if i + 1 < |bs| {
      assert rest == bs[i + 2..];
    } else {
      assert rest == bs[|bs|..];
    }
    assert Pairs(bs[i..]) == [row] + Pairs(rest);
    assert (keyboard + [row]) + Pairs(rest) == keyboard + ([row] + Pairs(rest));
  }

  /** n buttons make ceil(n / 2) rows; every row has one or two buttons, and
      only the last may have one. */
  lemma {:induction false} PairsShape(bs: seq<Button>)
    ensures |Pairs(bs)| == (|bs| + 1) / 2
    ensures forall r :: 0 <= r < |Pairs(bs)| ==> 1 <= |Pairs(bs)[r]| <= 2
    ensures forall r :: 0 <= r < |Pairs(bs)| - 1 ==> |Pairs(bs)[r]| == 2
  {
    if |bs| >= 2 {
      PairsShape(bs[2..]);
      assert Pairs(bs) == [[bs[0], bs[1]]] + Pairs(bs[2..]);
    }
  }

  /** Reading the rows in order gives back the buttons in order. */
  lemma {:induction false} PairsInOrder(bs: seq<Button>)
    ensures Flatten(Pairs(bs)) == bs
  {
    if |bs| == 1 {
      assert Flatten(Pairs(bs)) == [bs[0]] + Flatten([]);
    } else if |bs| >= 2 {
      var rows := Pairs(bs);
      assert rows[1..] == Pairs(bs[2..]);
      PairsInOrder(bs[2..]);
      assert bs == [bs[0], bs[1]] + bs[2..];
    }
  }

  /** A question with n answers gets ceil(n / 2) rows, none of them empty,
      all of two buttons but possibly the last; no answers, no rows. */
  lemma RowsShape(qid: Int64, answers: seq<Answer>)
    ensures |Rows(qid, answers)| == (|answers| + 1) / 2
    ensures forall r :: 0 <= r < |Rows(qid, answers)| ==> 1 <= |Rows(qid, answers)[r]| <= 2
    ensures forall r :: 0 <= r < |Rows(qid, answers)| - 1 ==> |Rows(qid, answers)[r]| == 2
  {
    PairsShape(Buttons(qid, answers));
  }

  /** Reading the keyboard row by row gives every answer's button once, in
      the original answer order, and each button carries data that the
      callback services decode to the question and that answer. */
  lemma RowsInOrder(qid: Int64, answers: seq<Answer>, k: nat)
    requires k < |answers|
    ensures |Flatten(Rows(qid, answers))| == |answers|
    ensures Flatten(Rows(qid, answers))[k] == CallbackButton(answers[k].text, Encode(qid, answers[k].id))
    ensures Decode(Flatten(Rows(qid, answers))[k].callbackData) == Some((qid, answers[k].id))
  {
    PairsInOrder(Buttons(qid, answers));
    DecodeEncode(qid, answers[k].id);
  }

  /** The question `/quiz` starts from: the id cached for the chat, or else
      the id of the first question; with neither, reading `->id` of null
      fails. */
  function StartId(catalog: Table, cached: Option<Int64>): (r: Result<Int64>)
    ensures cached.Some? ==> r == Ok(cached.value)
    ensures cached.None? && |catalog| > 0 ==> r == Ok(catalog[0].id)
    ensures cached.None? && catalog == [] ==> r.Err?
  {
    match cached
    case Some(id) => Ok(id)
    case None => if catalog == [] then Err(RuntimeError("property id of null")) else Ok(catalog[0].id)
  }

  /** `handle()`: a typing action, then the starting question with its
      keyboard. A start id that names no question fails when the keyboard is
      built. */
  function HandleSpec(t: Tables, env: Env, chat: Int64, cached: Option<Int64>): Step<()>
  {
    var typing := Deliver(t, env, SendChatAction(chat, "typing"));
    if typing.result.Err? then typing
    else match StartId(t.catalog, cached)
      case Err(f) => Step(typing.after, Err(f))
      case Ok(id) =>
        match Find(t.catalog, id)
        case None => Step(typing.after, Err(RuntimeError("answers of null")))
        case Some(q) => Deliver(typing.after, env, SendMessage(chat, q.text, Some(Rows(q.id, q.answers))))
  }

  /** `/quiz` only sends, so it keeps the tables consistent. */
  lemma HandleConsistent(t: Tables, env: Env, chat: Int64, cached: Option<Int64>)
    requires Consistent(t)
    ensures HandleSpec(t, env, chat, cached).after == t.(outbox := HandleSpec(t, env, chat, cached).after.outbox)
    ensures Consistent(HandleSpec(t, env, chat, cached).after)
  {
  }

  method Handle(db: World, chat: Int64, cached: Option<Int64>) returns (r: Result<()>)
    requires db.Valid()
    modifies db`outbox
    ensures db.Valid()
    ensures db.Snap() == HandleSpec(old(db.Snap()), db.env, chat, cached).after
    ensures r == HandleSpec(old(db.Snap()), db.env, chat, cached).result
  {
    r := db.Send(SendChatAction(chat, "typing"));
    if r.Err? {
      return;
    }
    var start := StartId(db.catalog, cached);
    if start.Err? {
      r := Err(start.failure);
      return;
    }
    var found := Find(db.catalog, start.value);
    if found.None? {
      r := Err(RuntimeError("answers of null"));
      return;
    }
    var q := found.value;
    var keyboard := CreateQuestionKeyboard(q);
    r := db.Send(SendMessage(chat, q.text, Some(keyboard)));
  }

  /** When `/quiz` goes through, the chat sees the typing action and then the
      starting question with its keyboard, and nothing else changes. */
  lemma HandleShowsStart(t: Tables, env: Env, chat: Int64, cached: Option<Int64>)
    requires HandleSpec(t, env, chat, cached).result.Ok?
    ensures StartId(t.catalog, cached).Ok?
    ensures var q := Find(t.catalog, StartId(t.catalog, cached).value);
      q.Some? &&
      HandleSpec(t, env, chat, cached).after ==
        t.(outbox := t.outbox + [SendChatAction(chat, "typing"), SendMessage(chat, q.value.text, Some(Rows(q.value.id, q.value.answers)))])
  {
    var typing := Deliver(t, env, SendChatAction(chat, "typing"));
    assert typing.after == t.(outbox := t.outbox + [SendChatAction(chat, "typing")]);
  }
}
