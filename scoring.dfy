/** The final score as a rounded percentage, and the feedback tier chosen
    from it. */
module Scoring {
  import opened QuizData

  /** `Math.round((score / total) * 100)` on exact rationals: the nearest
      integer to 100 * score / total, a half rounding up. A zero total divides
      zero by zero, which is NaN in the source; `None` stands for it. */
  function Percentage(score: nat, total: nat): (p: Option<int>)
    ensures p.Some? <==> total > 0
    ensures p.Some? ==> 2 * total * p.value <= 200 * score + total < 2 * total * (p.value + 1)
    ensures p.Some? && score <= total ==> 0 <= p.value <= 100
  {
    if total == 0 then None
    else
      RoundingBounds(score, total);
      Some((200 * score + total) / (2 * total))
  }

  /** Integer division of 200 * score + total by 2 * total lands within half
      a unit of 100 * score / total, and in 0..100 when score <= total. */
  lemma RoundingBounds(score: nat, total: nat)
    requires total > 0
    ensures var p := (200 * score + total) / (2 * total);
      && 2 * total * p <= 200 * score + total < 2 * total * (p + 1)
      && (score <= total ==> 0 <= p <= 100)
  {
    var x, d := 200 * score + total, 2 * total;
    DivisionBounds(x, d);
    if score <= total {
      assert x < d * 101;
      ProductCancels(d, x / d, 101);
    }
  }

  lemma DivisionBounds(x: nat, d: nat)
    requires d > 0
    ensures 0 <= x / d && d * (x / d) <= x < d * (x / d + 1)
  {
    var p := x / d;
    assert x == d * p + x % d;
    assert d * (p + 1) == d * p + d;
  }

  lemma ProductCancels(d: nat, a: int, b: int)
    requires d > 0 && d * a < d * b
    ensures a < b
  {
    assert d * b - d * a == d * (b - a);
  }

  /** The four feedback messages, from the best to the lowest. */
  datatype Tier = Excellent | VeryGood | Good | NeedsReview

  /** Orders the tiers: a larger rank is a better message. */
  function Rank(t: Tier): nat {
    match t
    case NeedsReview => 0
    case Good => 1
    case VeryGood => 2
    case Excellent => 3
  }

  /** The thresholds 90, 75 and 60, tested in that order; NaN fails every
      comparison and so lands in the lowest tier. */
  function TierFor(p: Option<int>): (t: Tier)
    ensures Rank(t) >= 3 <==> p.Some? && p.value >= 90
    ensures Rank(t) >= 2 <==> p.Some? && p.value >= 75
    ensures Rank(t) >= 1 <==> p.Some? && p.value >= 60
  {
    if p.None? then NeedsReview
    else if p.value >= 90 then Excellent
    else if p.value >= 75 then VeryGood
    else if p.value >= 60 then Good
    else NeedsReview
  }

  /** The message text shown for each tier. */
  function Message(t: Tier): string {
    match t
    case Excellent => "ممتاز! 🎉"
    case VeryGood => "جيد جداً! 👏"
    case Good => "جيد! 👍"
    case NeedsReview => "يحتاج إلى مزيد من المراجعة 📚"
  }

  /** More correct answers never give a smaller percentage. */
  lemma PercentageMonotone(score: nat, score': nat, total: nat)
    requires score <= score' && total > 0
    ensures Percentage(score, total).value <= Percentage(score', total).value
  {
    var d := 2 * total;
    var p, p' := Percentage(score, total).value, Percentage(score', total).value;
    assert d * p <= 200 * score + total <= 200 * score' + total < d * (p' + 1);
    ProductCancels(d, p, p' + 1);
  }

  /** A higher percentage never gives a lower tier. */
  lemma TierMonotone(p: int, p': int)
    requires p <= p'
    ensures Rank(TierFor(Some(p))) <= Rank(TierFor(Some(p')))
  {
  }

  /** More correct answers never give a lower tier. */
  lemma TierMonotoneInScore(score: nat, score': nat, total: nat)
    requires score <= score' && total > 0
    ensures Rank(TierFor(Percentage(score, total))) <= Rank(TierFor(Percentage(score', total)))
  {
    PercentageMonotone(score, score', total);
    TierMonotone(Percentage(score, total).value, Percentage(score', total).value);
  }

  /** No correct answer gives 0 and the lowest tier; all correct gives 100
      and the top tier. */
  lemma PercentageEnds(total: nat)
    requires total > 0
    ensures Percentage(0, total) == Some(0) && TierFor(Percentage(0, total)) == NeedsReview
    ensures Percentage(total, total) == Some(100) && TierFor(Percentage(total, total)) == Excellent
  {
    var d := 2 * total;
    var none, all := Percentage(0, total).value, Percentage(total, total).value;
    assert d * none <= total < d * 1;
    ProductCancels(d, none, 1);
    assert d * all <= 201 * total < d * 101;
    ProductCancels(d, all, 101);
    assert d * 100 < 201 * total < d * (all + 1);
    ProductCancels(d, 100, all + 1);
  }
}
