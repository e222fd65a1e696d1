/** The `callback_data` carried by an answer button,
    `question_{questionId}_answer_{answerId}`, and how the callback services
    read it back: split on `_`, exactly four pieces, the first `question`,
    pieces 1 and 3 cast with `(int)`. */
module CallbackData {
  import opened Common

  /** The callback_data of the button for answer `aid` of question `qid`. */
  function Encode(qid: Int64, aid: Int64): (d: string)
    ensures StartsWith(d, "question_")
  {
    var d := "question_" + IntToString(qid) + "_answer_" + IntToString(aid);
    assert d[..|"question_"|] == "question_";
    d
  }

  /** The pieces the callback services branch on. */
  predicate IsAnswerData(parts: seq<string>)
  {
    |parts| == 4 && parts[0] == "question"
  }

  /** The (question id, answer id) a callback service reads from `data`, or
      None when it ignores the data. Piece 2 is never looked at. */
  function Decode(data: string): (r: Option<(Int64, Int64)>)
    ensures r.Some? <==> StartsWith(data, "question_") && Underscores(data) == 3
  {
    ExplodeCount(data);
    ExplodeHead(data, "question");
    assert "question" + "_" == "question_";
    var parts := Explode(data);
    if IsAnswerData(parts) then Some((PhpIntCast(parts[1]), PhpIntCast(parts[3]))) else None
  }

  /** Data of the form `question_{q}_{m}_{a}` reads as the casts of `q` and
      `a`, whatever `m` is. */
  lemma DecodeReads(q: string, m: string, a: string)
    requires '_' !in q && '_' !in m && '_' !in a
    ensures Decode("question_" + q + "_" + m + "_" + a) == Some((PhpIntCast(q), PhpIntCast(a)))
  {
    var t3 := m + "_" + a;
    var t2 := q + "_" + t3;
    assert "question_" + q + "_" + m + "_" + a == "question" + "_" + t2;
    ExplodeWhole(a);
    ExplodeCons(m, a);
    ExplodeCons(q, t3);
    ExplodeCons("question", t2);
  }

  lemma NoUnderscoreInId(i: int)
    ensures '_' !in IntToString(i)
  {
  }

  /** Splitting button data on `_` gives four pieces headed by `question`. */
  lemma ExplodeEncode(qid: Int64, aid: Int64)
    ensures Explode(Encode(qid, aid)) == ["question", IntToString(qid), "answer", IntToString(aid)]
  {
    var q, a := IntToString(qid), IntToString(aid);
    NoUnderscoreInId(qid);
    NoUnderscoreInId(aid);
    var t3 := "answer" + "_" + a;
    var t2 := q + "_" + t3;
    assert Encode(qid, aid) == "question_" + q + "_answer_" + a;
    assert "question_" + q + "_answer_" + a == "question" + "_" + t2 by {
      assert "question_" == "question" + "_";
      assert "_answer_" == "_" + "answer" + "_";
    }
    ExplodeWhole(a);
    ExplodeCons("answer", a);
    ExplodeCons(q, t3);
    ExplodeCons("question", t2);
  }

  /** Round trip: the data on a keyboard button decodes to its question and
      answer ids. */
  lemma DecodeEncode(qid: Int64, aid: Int64)
    ensures Decode(Encode(qid, aid)) == Some((qid, aid))
  {
    var parts := Explode(Encode(qid, aid));
    ExplodeEncode(qid, aid);
    assert parts[0] == "question" && parts[1] == IntToString(qid) && parts[3] == IntToString(aid);
    CastOfIntToString(qid);
    CastOfIntToString(aid);
  }

  /** Decoding is all the services look at: data that decodes is, up to its
      third piece, the encoding of the ids it decodes to, so two answer
      buttons with different ids never decode alike. */
  lemma EncodeInjective(q1: Int64, a1: Int64, q2: Int64, a2: Int64)
    requires Encode(q1, a1) == Encode(q2, a2)
    ensures q1 == q2 && a1 == a2
  {
    DecodeEncode(q1, a1);
    DecodeEncode(q2, a2);
  }

  /** The third piece is not checked: `question_{q}_{anything}_{a}` is read as
      question q, answer a whatever stands between them. */
  lemma ThirdPieceIgnored(qid: Int64, middle: string, aid: Int64)
    requires '_' !in middle
    ensures Decode("question_" + IntToString(qid) + "_" + middle + "_" + IntToString(aid)) == Some((qid, aid))
  {
    NoUnderscoreInId(qid);
    NoUnderscoreInId(aid);
    DecodeReads(IntToString(qid), middle, IntToString(aid));
    CastOfIntToString(qid);
    CastOfIntToString(aid);
  }

  /** Subscription data `subscribed_{id}` splits into two pieces, so the answer
      path ignores it. */
  lemma SubscriptionDataIgnored(id: Int64)
    ensures Decode("subscribed_" + IntToString(id)).None?
  {
    var t := IntToString(id);
    NoUnderscoreInId(id);
    assert "subscribed_" + t == "subscribed" + "_" + t;
    ExplodeCons("subscribed", t);
    ExplodeWhole(t);
  }
}
