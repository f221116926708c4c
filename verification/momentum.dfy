/** The momentum indicator of `DataSaham.__momentum`: a rolling window of `window + 1` closes,
    each reduced to its last close minus its first. */
module Momentum {
  import opened Common

  /** The closes a rolling window of `window + 1` rows sees when it ends at row `i`, oldest
      first. */
  function WindowEndingAt(close: seq<real>, window: nat, i: nat): (x: seq<real>)
    requires window <= i < |close|
    ensures |x| == window + 1
    ensures x[0] == close[i - window] && x[window] == close[i]
  {
    close[i - window..i + 1]
  }

  /** The reducer applied to each full window: its last element minus its first. */
  function Calculate(x: seq<real>, window: nat): real
    requires |x| == window + 1
  {
    x[window] - x[0]
  }

  /** The momentum column: a window that is not yet full (fewer than `window + 1` rows so far)
      yields no value (NaN in the source). */
  function MomentumColumn(close: seq<real>, window: nat): (r: seq<Option<real>>)
    ensures |r| == |close|
  {
    seq(|close|, i requires 0 <= i < |close| =>
      if i < window then None else Some(Calculate(WindowEndingAt(close, window, i), window)))
  }

  /** Row `i` holds `close[i] - close[i - window]` once `window` earlier rows exist, and nothing
      before that: the window is right-aligned on the row. */
  lemma MomentumAt(close: seq<real>, window: nat, i: nat)
    requires i < |close|
    ensures i >= window ==> MomentumColumn(close, window)[i] == Some(close[i] - close[i - window])
    ensures i < window <==> MomentumColumn(close, window)[i].None?
  {
  }

  /** The sum of the day-to-day changes `close[j] - close[j - 1]` for `lo < j <= hi`. */
  function DailyChanges(close: seq<real>, lo: nat, hi: nat): real
    requires lo <= hi < |close|
    decreases hi - lo
  {
    if lo == hi then 0.0 else DailyChanges(close, lo, hi - 1) + (close[hi] - close[hi - 1])
  }

  /** Momentum is the accumulated daily change over the last `window` trading days. */
  lemma {:induction false} MomentumIsAccumulatedChange(close: seq<real>, window: nat, i: nat)
    requires window <= i < |close|
    ensures MomentumColumn(close, window)[i] == Some(DailyChanges(close, i - window, i))
  {
    Telescopes(close, i - window, i);
  }

  lemma {:induction false} Telescopes(close: seq<real>, lo: nat, hi: nat)
    requires lo <= hi < |close|
    ensures DailyChanges(close, lo, hi) == close[hi] - close[lo]
    decreases hi - lo
  {
    if lo < hi {
      Telescopes(close, lo, hi - 1);
    }
  }

  /** Momentum only sees differences: shifting every close by the same amount leaves it
      unchanged. */
  lemma MomentumShiftInvariant(close: seq<real>, shifted: seq<real>, delta: real, window: nat)
    requires |shifted| == |close|
    requires forall i :: 0 <= i < |close| ==> shifted[i] == close[i] + delta
    ensures MomentumColumn(shifted, window) == MomentumColumn(close, window)
  {
    forall i | 0 <= i < |close|
      ensures MomentumColumn(shifted, window)[i] == MomentumColumn(close, window)[i]
    {
      MomentumAt(close, window, i);
      MomentumAt(shifted, window, i);
    }
  }
}
