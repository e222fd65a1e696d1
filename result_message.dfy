/** The score tiers and the `ResultMessageTrait::getResultMessage` variant,
    which returns the title and the additional text as two entries of an
    array. */
module ResultMessageTrait {
  import opened Common

  /** The three titles a quiz score earns. */
  datatype Tier = Student | ConfidentUser | AllSeeingEye

  /** Order of the tiers, lowest first. */
  function Rank(t: Tier): nat
  {
    match t
    case Student => 0
    case ConfidentUser => 1
    case AllSeeingEye => 2
  }

  function TierLabel(t: Tier): string
  {
    match t
    case Student => "🤓 Ученик."
    case ConfidentUser => "😏 Уверенный юзер."
    case AllSeeingEye => "😎 Всевидящее око."
  }

  /** The tier of a score: up to 2, 3 to 5, 6 and above. */
  function TierOf(score: int): (t: Tier)
    ensures t == Student <==> score <= 2
    ensures t == ConfidentUser <==> 3 <= score <= 5
    ensures t == AllSeeingEye <==> score >= 6
  {
    if score <= 2 then Student else if score <= 5 then ConfidentUser else AllSeeingEye
  }

  /** A higher score never earns a lower tier. */
  lemma TierMonotone(a: int, b: int)
    requires a <= b
    ensures Rank(TierOf(a)) <= Rank(TierOf(b))
  {
  }

  /** Distinct tiers have distinct labels. */
  lemma TierLabelsDistinct(s: Tier, t: Tier)
    requires s != t
    ensures TierLabel(s) != TierLabel(t)
  {
    assert TierLabel(s)[0] != TierLabel(t)[0];
  }

  const ScorePrefix: string := "Правильные ответы: "

  const StrongOpen: string := "<strong>"

  const AdditionalTail: string :=
    StrongOpen + "\n\n😳 Неожиданные результаты, верно?</strong>" + "\n\nТеперь ты точно убедился, что нейросети - важная часть современного мира и сейчас самое время начать их изучать.\n\n🎁 А чтобы старт был легче, держи бонусные токены для <a href=\"https://neuro-texter.ru/\">НейроТекстера</a>.\n\nС ними ты сможешь создать курсовую, рекламный пост, стихотворение, картинку и много чего еще. <a href=\"https://neuro-texter.ru/\">👉Скорее переходи👈</a>"

  /** The `$result` label chosen by the trait's if/elseif chain. */
  function RankTitle(score: int): string
  {
    if score <= 2 then "🤓 Ученик."
    else if score <= 5 then "😏 Уверенный юзер."
    else "😎 Всевидящее око."
  }

  /** The trait's bucketing is the tier of the score. */
  lemma RankTitleIsTier(score: int)
    ensures RankTitle(score) == TierLabel(TierOf(score))
  {
  }

  /** The fixed text after the score opens with a tag, not a digit. */
  lemma TailOpensWithTag()
    ensures |AdditionalTail| > 0 && AdditionalTail[0] == '<'
  {
    assert StrongOpen[0] == '<';
  }

  /** Whatever follows the opening tag, the text opens with a tag. */
  lemma OpensWithTag(x: string)
    ensures |StrongOpen + x| > 0 && (StrongOpen + x)[0] == '<'
  {
    assert StrongOpen[0] == '<';
  }

  /** The title entry: the label of the score's tier in bold. */
  function Title(score: Int64): (title: string)
    ensures Contains(title, TierLabel(TierOf(score)))
  {
    ContainsMiddle("<strong>Твоё звание: ", RankTitle(score), "</strong>\n\n");
    "<strong>Твоё звание: " + RankTitle(score) + "</strong>\n\n"
  }

  /** The additional entry: the score after a fixed prefix, which `(int)`
      reads back, then the fixed closing text. */
  function Additional(score: Int64): (additional: string)
    ensures StartsWith(additional, ScorePrefix)
    ensures PhpIntCast(additional[|ScorePrefix|..]) == score
  {
    TailOpensWithTag();
    CastAfterPrefix(ScorePrefix, score, AdditionalTail);
    ScorePrefix + (IntToString(score) + AdditionalTail)
  }

  /** The array `getResultMessage` returns, whose only keys are `title` and
      `additional`. */
  datatype ResultMessage = ResultMessage(title: string, additional: string)

  /** `getResultMessage($score)`: the title names the tier of the score, and
      the additional text opens with the score, which `(int)` reads back
      after the fixed prefix. */
  function GetResultMessage(score: Int64): (r: ResultMessage)
    ensures Contains(r.title, TierLabel(TierOf(score)))
    ensures StartsWith(r.additional, ScorePrefix)
    ensures PhpIntCast(r.additional[|ScorePrefix|..]) == score
  {
    ResultMessage(Title(score), Additional(score))
  }
}
