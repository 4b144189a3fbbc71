/** Three-way threshold classification, shared by disk-bar's `get_usage_color`
    and disk-usage's `get_disk_color`: at or above the high threshold, else at
    or above the middle one, else below both.
 */
module Levels {

  datatype Level = Low | Medium | High

  function Rank(l: Level): nat {
    match l
    case Low => 0
    case Medium => 1
    case High => 2
  }

  /** `if x >= high … elif x >= medium … else …` */
  function Classify(x: real, medium: real, high: real): (l: Level)
    ensures l == High <==> x >= high
    ensures l == Medium <==> medium <= x < high
    ensures l == Low <==> x < medium && x < high
  {
    if x >= high then High else if x >= medium then Medium else Low
  }

  /** More usage never gives a lower level, whatever the two thresholds are. */
  lemma {:induction false} ClassifyMonotone(x: real, y: real, medium: real, high: real)
    requires x <= y
    ensures Rank(Classify(x, medium, high)) <= Rank(Classify(y, medium, high))
  {
  }

  /** The high test comes first: a middle threshold above the high one is never
      reached. */
  lemma {:induction false} HighShadowsMedium(x: real, medium: real, high: real)
    requires high <= medium
    ensures Classify(x, medium, high) != Medium
  {
  }
}
