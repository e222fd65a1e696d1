/** The quiz catalog: the `questions`, `answers` and `pictures` tables and the
    queries the quiz engine runs against them. */
module Catalog {
  import opened Common

  datatype Answer = Answer(id: Int64, text: string, isCorrect: bool)

  /** A picture stored under `path`; `telegramFileId` caches the file id
      Telegram assigned on the first upload. */
  datatype Picture = Picture(path: string, telegramFileId: Option<string>)

  datatype Question = Question(
    id: Int64,
    text: string,
    explanation: Option<string>,
    answers: seq<Answer>,
    pictures: seq<Picture>)

  /** The questions table, in row order. */
  type Table = seq<Question>

  /** Question ids are a primary key. */
  predicate DistinctIds(t: Table)
  {
    forall i, j :: 0 <= i < j < |t| ==> t[i].id != t[j].id
  }

  /** Rows in increasing id order, as auto-increment inserts them. */
  predicate SortedById(t: Table)
  {
    forall i, j :: 0 <= i < j < |t| ==> t[i].id < t[j].id
  }

  /** Position of the row with id `id`. */
  function IndexOf(t: Table, id: int): (r: Option<nat>)
    ensures r.Some? ==> r.value < |t| && t[r.value].id == id
    ensures r.None? ==> forall i :: 0 <= i < |t| ==> t[i].id != id
  {
    if t == [] then None
    else if t[0].id == id then Some(0)
    else match IndexOf(t[1..], id)
      case None => None
      case Some(k) => Some(k + 1)
  }

  /** `Question::find($id)`. */
  function Find(t: Table, id: int): (r: Option<Question>)
    ensures r.Some? ==> r.value in t && r.value.id == id
    ensures r.None? ==> forall i :: 0 <= i < |t| ==> t[i].id != id
  {
    match IndexOf(t, id)
    case None => None
    case Some(k) => Some(t[k])
  }

  /** `Question::where('id', '>', $current)->min('id')`: the smallest id
      strictly greater than `current`, or none when no id is greater. */
  function NextQuestionId(t: Table, current: int): (r: Option<Int64>)
    ensures r.None? <==> forall i :: 0 <= i < |t| ==> t[i].id <= current
    ensures r.Some? ==> r.value > current
    ensures r.Some? ==> exists i :: 0 <= i < |t| && t[i].id == r.value
    ensures r.Some? ==> forall i :: 0 <= i < |t| && t[i].id > current ==> r.value <= t[i].id
  {
    if t == [] then None
    else
      var rest := NextQuestionId(t[1..], current);
      assert forall i :: 1 <= i < |t| ==> t[i] == t[1..][i - 1];
      if t[0].id <= current then rest
      else match rest
        case None => Some(t[0].id)
        case Some(m) => Some(if t[0].id < m then t[0].id else m)
  }

  /** `Question::where('id', '<=', $current)->count()`. */
  function CountAtMost(t: Table, current: int): (n: nat)
    ensures n <= |t|
  {
    if t == [] then 0
    else (if t[0].id <= current then 1 else 0) + CountAtMost(t[1..], current)
  }

  /** The number shown as "ВОПРОС #n" above the question after `current`:
      one more than the count of ids up to `current`. */
  function QuestionIndex(t: Table, current: int): nat
  {
    CountAtMost(t, current) + 1
  }

  /** In an id-ordered table the count of ids up to the k-th id is k + 1. */
  lemma {:induction false} CountAtMostSorted(t: Table, k: nat)
    requires SortedById(t) && k < |t|
    ensures CountAtMost(t, t[k].id) == k + 1
  {
    if k == 0 {
      CountAtMostNone(t[1..], t[0].id);
    } else {
      assert t[1..][k - 1] == t[k];
      CountAtMostSorted(t[1..], k - 1);
    }
  }

  lemma {:induction false} CountAtMostNone(t: Table, current: int)
    requires forall i :: 0 <= i < |t| ==> t[i].id > current
    ensures CountAtMost(t, current) == 0
  {
    if t != [] {
      CountAtMostNone(t[1..], current);
    }
  }

  /** In an id-ordered table the question after the k-th row is row k + 1,
      and it is announced with its own position, k + 2 counting from one. */
  lemma NextInSortedTable(t: Table, k: nat)
    requires SortedById(t) && k + 1 < |t|
    ensures NextQuestionId(t, t[k].id) == Some(t[k + 1].id)
    ensures QuestionIndex(t, t[k].id) == k + 2
  {
    CountAtMostSorted(t, k);
    var r := NextQuestionId(t, t[k].id);
    assert t[k + 1].id > t[k].id;
    var i :| 0 <= i < |t| && t[i].id == r.value;
    assert i > k;
  }

  /** Past the last row there is no next question. */
  lemma NoNextAfterLast(t: Table)
    requires SortedById(t) && |t| > 0
    ensures NextQuestionId(t, t[|t| - 1].id).None?
  {
  }

  /** `$question->answers()->where('id', $aid)->where('is_correct', true)->exists()`. */
  function HasCorrectAnswer(answers: seq<Answer>, aid: int): bool
  {
    answers != [] &&
    ((answers[0].id == aid && answers[0].isCorrect) || HasCorrectAnswer(answers[1..], aid))
  }

  /** An answer is correct exactly when the question has an answer with that id
      flagged correct. */
  lemma {:induction false} HasCorrectAnswerIff(answers: seq<Answer>, aid: int)
    ensures HasCorrectAnswer(answers, aid) <==>
      exists i :: 0 <= i < |answers| && answers[i].id == aid && answers[i].isCorrect
  {
    if answers != [] {
      HasCorrectAnswerIff(answers[1..], aid);
      if HasCorrectAnswer(answers[1..], aid) {
        var i :| 0 <= i < |answers[1..]| && answers[1..][i].id == aid && answers[1..][i].isCorrect;
        assert answers[i + 1] == answers[1..][i];
      }
      if exists i :: 0 <= i < |answers| && answers[i].id == aid && answers[i].isCorrect {
        var i :| 0 <= i < |answers| && answers[i].id == aid && answers[i].isCorrect;
        if i > 0 {
          assert answers[1..][i - 1] == answers[i];
        }
      }
    }
  }
}
