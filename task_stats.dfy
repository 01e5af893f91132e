/** The completion percentage both Flask back-ends report from `/stats`. */
module TaskStats {

  /** `completed / total * 100` when there is at least one task, else 0;
      computed exactly rather than in floating point. */
  function CompletionRate(completed: nat, total: nat): (r: real)
    ensures total == 0 ==> r == 0.0
    ensures total > 0 ==> r * (total as real) == (completed as real) * 100.0
    ensures completed <= total ==> 0.0 <= r <= 100.0
    ensures completed == total && total > 0 ==> r == 100.0
  {
    if total > 0 then (completed as real) / (total as real) * 100.0 else 0.0
  }

  /** The completion-rate text of a statistics panel: `'0%'`, or the rate
      rounded to a whole percent (the rounding is the page's). */
  datatype RateLabel = ZeroPercent | Percent(rate: real)
}
