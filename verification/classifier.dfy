/**
 * `get_sentiment_statement`: the threshold chain from an overall score to a
 * label. The chain leaves the open intervals (2, 3) and (-3, -2) without a
 * label; there the source returns `None`, modelled here as `None`.
 */
module Classifier {
  import opened Wrappers

  datatype Label =
    | VeryPositive | Positive | SlightlyPositive | Neutral
    | SlightlyNegative | Negative | VeryNegative
  {
    /** The statement string the source returns for this label. */
    function Statement(): string {
      match this
      case VeryPositive => "Very Positive"
      case Positive => "Positive"
      case SlightlyPositive => "Slightly Positive"
      case Neutral => "Neutral"
      case SlightlyNegative => "Slightly Negative"
      case Negative => "Negative"
      case VeryNegative => "Very Negative"
    }

    /** Position on the scale from most negative (0) to most positive (6). */
    function Rank(): nat {
      match this
      case VeryNegative => 0
      case Negative => 1
      case SlightlyNegative => 2
      case Neutral => 3
      case SlightlyPositive => 4
      case Positive => 5
      case VeryPositive => 6
    }
  }

  /** The score interval of each label, as a table. */
  ghost predicate InBand(l: Label, s: real) {
    match l
    case VeryPositive => 3.0 <= s
    case Positive => 1.0 < s <= 2.0
    case SlightlyPositive => 0.0 < s <= 1.0
    case Neutral => s == 0.0
    case SlightlyNegative => -1.0 <= s < 0.0
    case Negative => -2.0 <= s < -1.0
    case VeryNegative => s <= -3.0
  }

  /** The scores no label covers. */
  ghost predicate InGap(s: real) {
    (2.0 < s < 3.0) || (-3.0 < s < -2.0)
  }

  /** The ordered threshold chain. It agrees with the table: the bands are
      disjoint, so the order of the tests does not matter, and a score gets
      exactly the label of the band that holds it. */
  function Classify(score: real): (r: Option<Label>)
    ensures r.None? <==> InGap(score)
    ensures forall l: Label :: r == Some(l) <==> InBand(l, score)
  {
    if score >= 3.0 then Some(VeryPositive)
    else if 1.0 < score <= 2.0 then Some(Positive)
    else if 0.0 < score <= 1.0 then Some(SlightlyPositive)
    else if score == 0.0 then Some(Neutral)
    else if -1.0 <= score < 0.0 then Some(SlightlyNegative)
    else if -2.0 <= score < -1.0 then Some(Negative)
    else if score <= -3.0 then Some(VeryNegative)
    else None
  }

  /** A higher score never gets a lower label. */
  lemma ClassifyIsMonotone(s: real, t: real)
    requires s <= t && Classify(s).Some? && Classify(t).Some?
    ensures Classify(s).value.Rank() <= Classify(t).value.Rank()
  {}

  /** Different labels have different statements. */
  lemma StatementsAreDistinct(l: Label, l': Label)
    ensures l.Statement() == l'.Statement() ==> l == l'
  {}
}
