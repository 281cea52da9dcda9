/**
 * `check_error_rate`: no verdict below a minimum sample size; otherwise an
 * alert when the percentage of statuses >= 500 in the window is strictly above
 * the threshold. Arithmetic is exact (reals), where the source uses floats.
 */
module ErrorRate {
  import opened Wrappers
  import opened Alerts

  /** Fewer samples than this never produce a verdict. */
  const MinSamples: nat := 50

  /** Statuses at or above this count as errors. */
  const ServerErrorFloor: int := 500

  predicate IsError(status: int) {
    status >= ServerErrorFloor
  }

  /** `sum(1 for status in window if status >= 500)`. */
  function ErrorCount(w: seq<int>): (n: nat)
    ensures n <= |w|
  {
    if w == [] then 0
    else ErrorCount(w[..|w| - 1]) + (if IsError(w[|w| - 1]) then 1 else 0)
  }

  /** The positions of the window that hold an error status. */
  ghost function ErrorPositions(w: seq<int>): set<nat> {
    set i: nat | i < |w| && IsError(w[i])
  }

  /** The running count equals the number of error positions. */
  lemma {:induction false} ErrorCountIsCardinality(w: seq<int>)
    ensures ErrorCount(w) == |ErrorPositions(w)|
  {
    if w != [] {
      var init := w[..|w| - 1];
      ErrorCountIsCardinality(init);
      var last := |w| - 1;
      if IsError(w[last]) {
        assert ErrorPositions(w) == ErrorPositions(init) + {last};
      } else {
        assert ErrorPositions(w) == ErrorPositions(init);
      }
    }
  }

  /** The window's error percentage, `errors / len * 100`. */
  function Percentage(errors: nat, total: nat): real
    requires total > 0
  {
    (errors as real / total as real) * 100.0
  }

  /** For a non-empty window, "percentage above threshold" is the exact comparison `100 * errors > threshold * total`. */
  lemma PercentageAbove(errors: nat, total: nat, threshold: real)
    requires total > 0
    ensures Percentage(errors, total) > threshold <==> 100.0 * errors as real > threshold * total as real
  {
    var e, n := errors as real, total as real;
    assert Percentage(errors, total) * n == 100.0 * e;
  }

  predicate Exceeds(errors: nat, total: nat, threshold: real) {
    100.0 * errors as real > threshold * total as real
  }

  /** `check_error_rate` without the dispatch: the alert it would request, if any. */
  function Evaluate(w: seq<int>, threshold: real): (r: Option<Alert>)
    ensures |w| < MinSamples ==> r.None?
    ensures r.Some? <==> |w| >= MinSamples && Exceeds(ErrorCount(w), |w|, threshold)
    ensures r.Some? ==> r.value == HighErrorRate(ErrorCount(w), |w|)
  {
    if |w| < MinSamples then None
    else
      var errors := ErrorCount(w);
      PercentageAbove(errors, |w|, threshold);
      if Percentage(errors, |w|) > threshold then Some(HighErrorRate(errors, |w|)) else None
  }

  /** A percentage exactly at the threshold does not alert. */
  lemma AtThresholdIsQuiet(w: seq<int>, threshold: real)
    requires 100.0 * ErrorCount(w) as real == threshold * |w| as real
    ensures Evaluate(w, threshold) == None
  {
  }

  /** 2 errors in 60 requests is 3.33%, above the default 2%. */
  lemma TwoInSixtyAlerts(w: seq<int>)
    requires |w| == 60 && ErrorCount(w) == 2
    ensures Evaluate(w, 2.0) == Some(HighErrorRate(2, 60))
  {
  }

  /** 1 error in 60 requests is 1.67%, below the default 2%. */
  lemma OneInSixtyIsQuiet(w: seq<int>)
    requires |w| == 60 && ErrorCount(w) == 1
    ensures Evaluate(w, 2.0) == None
  {
  }
}
