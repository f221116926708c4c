/** The forward fold of `__get_sentiment_score` and `__get_sentiment_category`: the merged rows
    (sorted union of trading dates and article dates) are scanned for maximal runs of rows with a
    null close, and each run is pushed onto the first row after it, which is a trading row.  A run
    with no row after it is discarded.

    The fold is specified pointwise: `RunStart(t, i)` is the first row of the maximal run of
    non-trading rows that ends just before row `i`, so row `i` is the target of a run exactly when
    it is a trading row and `RunStart(t, i) < i`. */
module ForwardFold {
  import opened Common

  // ---------------------------------------------------------------------------------------------
  // Runs of non-trading rows

  /** `close_null`: the positions of the rows with a null close, ascending. */
  function NullIndices(trading: seq<bool>): (r: seq<nat>)
    ensures ListsNullRows(r, trading)
  {
    if trading == [] then []
    else
      var last := |trading| - 1;
      var prefix := NullIndices(trading[..last]);
      if trading[last] then prefix else prefix + [last]
  }

  /** `closeNull` lists exactly the non-trading positions, ascending. */
  ghost predicate ListsNullRows(closeNull: seq<nat>, trading: seq<bool>) {
    && (forall k :: 0 <= k < |closeNull| ==> closeNull[k] < |trading| && !trading[closeNull[k]])
    && (forall i {:trigger i in closeNull} :: 0 <= i < |trading| && !trading[i] ==> i in closeNull)
    && (forall a, b :: 0 <= a < b < |closeNull| ==> closeNull[a] < closeNull[b])
  }

  /** The first row of the maximal run of non-trading rows ending just before row `i`
      (`i` itself when row `i - 1` trades or `i == 0`). */
  function RunStart(trading: seq<bool>, i: nat): (p: nat)
    requires i <= |trading|
    ensures p <= i
    ensures p == 0 || trading[p - 1]
    decreases i
  {
    if i == 0 || trading[i - 1] then i else RunStart(trading, i - 1)
  }

  /** Every row of the run before `i` is a non-trading row. */
  lemma {:induction false} RunIsNonTrading(trading: seq<bool>, i: nat)
    requires i <= |trading|
    ensures forall j :: RunStart(trading, i) <= j < i ==> !trading[j]
    decreases i
  {
    if i > 0 && !trading[i - 1] {
      RunIsNonTrading(trading, i - 1);
    }
  }

  /** Row `i` receives a run: it trades and at least one non-trading row comes right before it. */
  predicate IsRunTarget(trading: seq<bool>, i: nat)
    requires i < |trading|
  {
    trading[i] && RunStart(trading, i) < i
  }

  /** Where the scan stands when the outer loop is about to handle `close_null[k]`. */
  ghost function Frontier(closeNull: seq<nat>, k: nat, n: nat): nat
  {
    if k < |closeNull| then closeNull[k] else n
  }

  /** The only shape of run start the loop ever meets is a row `p` whose predecessor trades; the
      run starting there reaches every later row up to the first trading one. */
  lemma {:induction false} RunStartOfRun(trading: seq<bool>, start: nat, i: nat)
    requires start <= i <= |trading|
    requires start == 0 || trading[start - 1]
    requires forall j :: start <= j < i ==> !trading[j]
    ensures RunStart(trading, i) == start
    decreases i
  {
    if i > start {
      RunStartOfRun(trading, start, i - 1);
    }
  }

  /** The inner `while index_curr in close_null` step: the next null position is the next entry. */
  lemma NextNull(cn: seq<nat>, trading: seq<bool>, k: nat, cur: nat)
    requires ListsNullRows(cn, trading)
    requires k < |cn| && cn[k] + 1 == cur && cur in cn
    ensures k + 1 < |cn| && cn[k + 1] == cur
  {
    var j :| 0 <= j < |cn| && cn[j] == cur;
    assert forall a :: 0 <= a <= k ==> cn[a] <= cn[k];
    assert k < j;
    assert forall a :: k + 1 <= a < |cn| ==> cn[k + 1] <= cn[a];
  }

  /** Every row before the first null position trades and receives nothing. */
  lemma BeforeFirstNull(cn: seq<nat>, trading: seq<bool>)
    requires ListsNullRows(cn, trading)
    ensures cn != [] ==> cn[0] == 0 || trading[cn[0] - 1]
    ensures forall i :: 0 <= i < Frontier(cn, 0, |trading|) ==> trading[i] && !IsRunTarget(trading, i)
  {
    var frontier := Frontier(cn, 0, |trading|);
    forall i | 0 <= i < frontier
      ensures trading[i]
    {
      forall j | 0 <= j < |cn|
        ensures cn[j] != i
      {
        if j > 0 {
          assert cn[0] < cn[j];
        }
      }
      assert i !in cn;
    }
    forall i | 0 <= i < frontier
      ensures !IsRunTarget(trading, i)
    {
      assert RunStart(trading, i) == i;
    }
  }

  /** When the inner loop stops at `cur`, every row from `cur` up to the next null position
      trades, and the next null position begins a fresh run. */
  lemma AfterRun(cn: seq<nat>, trading: seq<bool>, k: nat, cur: nat)
    requires ListsNullRows(cn, trading)
    requires k < |cn| && cn[k] + 1 == cur && cur !in cn
    ensures cur < |trading| ==> trading[cur]
    ensures forall i :: cur <= i < Frontier(cn, k + 1, |trading|) ==> trading[i]
    ensures k + 1 < |cn| ==> cn[k + 1] > cur && trading[cn[k + 1] - 1]
  {
    var n := |trading|;
    forall i | cur <= i < Frontier(cn, k + 1, n)
      ensures trading[i]
    {
      forall j | 0 <= j < |cn|
        ensures cn[j] != i
      {
        if j < k {
          assert cn[j] < cn[k];
        } else if j > k + 1 {
          assert cn[k + 1] < cn[j];
        }
      }
      assert i !in cn;
    }
    if k + 1 < |cn| {
      assert cn[k] < cn[k + 1];
      assert cn[k + 1] != cur;
    }
  }

  // ---------------------------------------------------------------------------------------------
  // Sentiment variant: the target's value is replaced by an average

  /** The sum of `s[lo..hi]`. */
  function SumReal(s: seq<real>, lo: nat, hi: nat): real
    requires lo <= hi <= |s|
    decreases hi
  {
    if lo == hi then 0.0 else SumReal(s, lo, hi - 1) + s[hi - 1]
  }

  /** The value row `i` holds after the sentiment fold.  A run target receives the run's sum plus
      its own value when that is non-zero, divided by the number of values taken. */
  function SentimentAt(trading: seq<bool>, s: seq<real>, i: nat): real
    requires |trading| == |s| && i < |s|
  {
    if IsRunTarget(trading, i) then
      var p := RunStart(trading, i);
      RunAverage(SumReal(s, p, i), i - p, s[i])
    else
      s[i]
  }

  /** The average a run target receives: the run's sum over its length, with the target's own
      value taken in as one more day only when it is non-zero. */
  function RunAverage(runSum: real, runLength: nat, own: real): real
    requires runLength > 0
  {
    if own != 0.0 then (runSum + own) / (runLength + 1) as real else runSum / runLength as real
  }

  /** The whole sentiment column after the fold (non-trading rows keep their values; they are
      dropped afterwards). */
  function FoldedSentiment(trading: seq<bool>, s: seq<real>): (r: seq<real>)
    requires |trading| == |s|
    ensures |r| == |s|
  {
    seq(|s|, i requires 0 <= i < |s| => SentimentAt(trading, s, i))
  }

  lemma SentimentTarget(trading: seq<bool>, s: seq<real>, start: nat, i: nat)
    requires |trading| == |s| && i < |s| && trading[i] && RunStart(trading, i) == start < i
    ensures SentimentAt(trading, s, i) == RunAverage(SumReal(s, start, i), i - start, s[i])
  {
  }

  /** The sum only depends on the entries it covers. */
  lemma {:induction false} SumRealFrame(s: seq<real>, s': seq<real>, lo: nat, hi: nat)
    requires lo <= hi <= |s| && hi <= |s'|
    requires forall i :: lo <= i < hi ==> s[i] == s'[i]
    ensures SumReal(s, lo, hi) == SumReal(s', lo, hi)
    decreases hi
  {
    if lo < hi {
      SumRealFrame(s, s', lo, hi - 1);
    }
  }

  /** The inner loop of `__get_sentiment_score`: starting at the null position `closeNull[k]`,
      walk over the consecutive null positions, summing and counting their sentiment.  On return
      `next` is the first row after the run and `k'` indexes the run's last null position. */
  method ScanSentimentRun(trading: array<bool>, sentiment: array<real>, closeNull: seq<nat>, k: nat)
    returns (next: nat, k': nat, sum: real, count: nat)
    requires trading.Length == sentiment.Length
    requires ListsNullRows(closeNull, trading[..]) && k < |closeNull|
    ensures closeNull[k] < next <= sentiment.Length
    ensures k <= k' < |closeNull| && closeNull[k'] == next - 1
    ensures forall j :: closeNull[k] <= j < next ==> !trading[j]
    ensures next !in closeNull
    ensures sum == SumReal(sentiment[..], closeNull[k], next) && count == next - closeNull[k]
  {
    ghost var s := sentiment[..];
    ghost var start := closeNull[k];
    // first day without trading
    var indexCurr := closeNull[k];
    var indexCloseNull := k;
    sum := sentiment[indexCurr];
    count := 1;
    indexCurr := indexCurr + 1;
    // while the next row is also a null position, there is still no trading
    while indexCurr in closeNull
      invariant start < indexCurr <= sentiment.Length
      invariant k <= indexCloseNull < |closeNull| && closeNull[indexCloseNull] == indexCurr - 1
      invariant forall j :: start <= j < indexCurr ==> !trading[j]
      invariant sum == SumReal(s, start, indexCurr)
      invariant count == indexCurr - start
      decreases sentiment.Length - indexCurr
    {
      NextNull(closeNull, trading[..], indexCloseNull, indexCurr);
      sum := sum + sentiment[indexCurr];
      count := count + 1;
      indexCurr := indexCurr + 1;
      indexCloseNull := indexCloseNull + 1;
    }
    next, k' := indexCurr, indexCloseNull;
  }

  /** One pass of the outer loop of `__get_sentiment_score`: scan the run starting at
      `closeNull[k]` and, when a row follows it, overwrite that row with the run's average.
      Returns the index of the next run's first null position. */
  method PushSentimentRun(trading: array<bool>, sentiment: array<real>, closeNull: seq<nat>, k: nat,
                          ghost s0: seq<real>, ghost folded: seq<real>)
    returns (k': nat)
    requires trading.Length == sentiment.Length == |s0|
    requires ListsNullRows(closeNull, trading[..]) && k < |closeNull|
    requires closeNull[k] == 0 || trading[closeNull[k] - 1]
    requires folded == FoldedSentiment(trading[..], s0)
    requires Agrees(folded, s0, sentiment[..], closeNull[k])
    modifies sentiment
    ensures k < k' <= |closeNull|
    ensures k' < |closeNull| ==> closeNull[k'] == 0 || trading[closeNull[k'] - 1]
    ensures Agrees(folded, s0, sentiment[..], Frontier(closeNull, k', sentiment.Length))
  {
    ghost var t := trading[..];
    ghost var start := closeNull[k];
    ghost var before := sentiment[..];
    FoldedSentimentKeeps(t, s0);
    var indexCurr, sum, count, last;
    indexCurr, last, sum, count := ScanSentimentRun(trading, sentiment, closeNull, k);
    SumRealFrame(before, s0, start, indexCurr);
    // the source reads row index_curr inside `try`; past the last row the lookup raises and the
    // run is dropped
    if indexCurr < sentiment.Length {
      RunStartOfRun(t, start, indexCurr);
      SentimentTarget(t, s0, start, indexCurr);
      if sentiment[indexCurr] != 0.0 {
        sum := sum + sentiment[indexCurr];
        count := count + 1;
      }
      sentiment[indexCurr] := sum / count as real;
    }
    CommitRun(t, s0, folded, closeNull, last, start, indexCurr, before, sentiment[..]);
    k' := last + 1;
  }

  /** The sentiment loop of `__get_sentiment_score`, in place on the merged `sentiment` column.
      `trading[i]` is false exactly where the merged row has a null close. */
  method FoldSentiment(trading: array<bool>, sentiment: array<real>)
    requires trading.Length == sentiment.Length
    modifies sentiment
    ensures sentiment[..] == FoldedSentiment(trading[..], old(sentiment[..]))
    ensures forall i :: 0 <= i < sentiment.Length && !IsRunTarget(trading[..], i) ==>
              sentiment[i] == old(sentiment[i])
  {
    ghost var s0 := sentiment[..];
    ghost var folded := FoldedSentiment(trading[..], s0);
    FoldedSentimentKeeps(trading[..], s0);
    var closeNull := NullIndices(trading[..]);
    BeforeFirstNull(closeNull, trading[..]);
    var indexCloseNull := 0;
    while indexCloseNull <= |closeNull| - 1
      invariant 0 <= indexCloseNull <= |closeNull|
      invariant indexCloseNull < |closeNull| ==>
                  closeNull[indexCloseNull] == 0 || trading[closeNull[indexCloseNull] - 1]
      invariant Agrees(folded, s0, sentiment[..], Frontier(closeNull, indexCloseNull, sentiment.Length))
      decreases |closeNull| - indexCloseNull
    {
      indexCloseNull := PushSentimentRun(trading, sentiment, closeNull, indexCloseNull, s0, folded);
    }
  }

  lemma FoldedSentimentKeeps(trading: seq<bool>, s: seq<real>)
    requires |trading| == |s|
    ensures forall i {:trigger FoldedSentiment(trading, s)[i]} ::
              0 <= i < |s| && !IsRunTarget(trading, i) ==> FoldedSentiment(trading, s)[i] == s[i]
  {
  }

  // ---------------------------------------------------------------------------------------------
  // What the scan has done so far, shared by both variants

  /** Rows before `frontier` already hold their folded value; the others still hold the input. */
  ghost predicate Agrees<V>(folded: seq<V>, input: seq<V>, current: seq<V>, frontier: nat) {
    && |folded| == |input| == |current|
    && frontier <= |current|
    && (forall i {:trigger current[i]} :: 0 <= i < frontier ==> current[i] == folded[i])
    && (forall i {:trigger current[i]} :: frontier <= i < |current| ==> current[i] == input[i])
  }

  /** Writing the target of the run `start..cur-1` (when there is one) moves the frontier to the
      next null position, and that position starts a fresh run. */
  lemma CommitRun<V>(trading: seq<bool>, input: seq<V>, folded: seq<V>, closeNull: seq<nat>,
                     k: nat, start: nat, cur: nat, before: seq<V>, after: seq<V>)
    requires |trading| == |input| == |folded|
    requires forall i {:trigger folded[i]} ::
               0 <= i < |input| && !IsRunTarget(trading, i) ==> folded[i] == input[i]
    requires ListsNullRows(closeNull, trading)
    requires k < |closeNull| && closeNull[k] + 1 == cur && cur !in closeNull
    requires start < cur && (start == 0 || trading[start - 1])
    requires forall j :: start <= j < cur ==> !trading[j]
    requires Agrees(folded, input, before, start)
    requires |after| == |before|
    requires forall i :: 0 <= i < |after| && i != cur ==> after[i] == before[i]
    requires cur < |after| ==> after[cur] == folded[cur]
    ensures Agrees(folded, input, after, Frontier(closeNull, k + 1, |trading|))
    ensures k + 1 < |closeNull| ==> trading[closeNull[k + 1] - 1]
  {
    var n := |trading|;
    AfterRun(closeNull, trading, k, cur);
    var frontier := Frontier(closeNull, k + 1, n);
    forall i | start <= i < frontier && i != cur
      ensures folded[i] == input[i]
    {
      if cur < i {
        assert RunStart(trading, i) == i;
      }
    }
  }

  // ---------------------------------------------------------------------------------------------
  // Category variant: the run's counts are added onto the target

  /** The total of one category's counts over `c[lo..hi]`. */
  function SumOf(c: seq<Counts>, cat: Category, lo: nat, hi: nat): int
    requires lo <= hi <= |c|
    decreases hi
  {
    if lo == hi then 0 else SumOf(c, cat, lo, hi - 1) + c[hi - 1].Of(cat)
  }

  /** The totals of `c[lo..hi]`, category by category. */
  function SumCounts(c: seq<Counts>, lo: nat, hi: nat): Counts
    requires lo <= hi <= |c|
  {
    Counts(SumOf(c, Positive, lo, hi), SumOf(c, Negative, lo, hi), SumOf(c, Netral, lo, hi))
  }

  /** The counts row `i` holds after the category fold: a trading row gains the totals of the run
      before it (nothing when there is none). */
  function CountsAt(trading: seq<bool>, c: seq<Counts>, i: nat): Counts
    requires |trading| == |c| && i < |c|
  {
    if trading[i] then c[i].Plus(SumCounts(c, RunStart(trading, i), i)) else c[i]
  }

  function FoldedCounts(trading: seq<bool>, c: seq<Counts>): (r: seq<Counts>)
    requires |trading| == |c|
    ensures |r| == |c|
  {
    seq(|c|, i requires 0 <= i < |c| => CountsAt(trading, c, i))
  }

  lemma FoldedCountsKeeps(trading: seq<bool>, c: seq<Counts>)
    requires |trading| == |c|
    ensures forall i {:trigger FoldedCounts(trading, c)[i]} ::
              0 <= i < |c| && !IsRunTarget(trading, i) ==> FoldedCounts(trading, c)[i] == c[i]
  {
  }

  lemma {:induction false} SumOfFrame(c: seq<Counts>, c': seq<Counts>, cat: Category, lo: nat, hi: nat)
    requires lo <= hi <= |c| && hi <= |c'|
    requires forall i :: lo <= i < hi ==> c[i] == c'[i]
    ensures SumOf(c, cat, lo, hi) == SumOf(c', cat, lo, hi)
    decreases hi
  {
    if lo < hi {
      SumOfFrame(c, c', cat, lo, hi - 1);
    }
  }

  lemma SumCountsFrame(c: seq<Counts>, c': seq<Counts>, lo: nat, hi: nat)
    requires lo <= hi <= |c| && hi <= |c'|
    requires forall i :: lo <= i < hi ==> c[i] == c'[i]
    ensures SumCounts(c, lo, hi) == SumCounts(c', lo, hi)
  {
    SumOfFrame(c, c', Positive, lo, hi);
    SumOfFrame(c, c', Negative, lo, hi);
    SumOfFrame(c, c', Netral, lo, hi);
  }

  /** The value the category fold writes after the run `start..cur-1`: the row's own counts plus
      the run totals, computed on the current array (still the input over that stretch). */
  lemma CountsTarget(trading: seq<bool>, c0: seq<Counts>, folded: seq<Counts>, closeNull: seq<nat>,
                     current: seq<Counts>, start: nat, cur: nat, run: Counts)
    requires |trading| == |c0| && folded == FoldedCounts(trading, c0)
    requires ListsNullRows(closeNull, trading) && cur !in closeNull
    requires Agrees(folded, c0, current, start)
    requires start < cur < |trading| && (start == 0 || trading[start - 1])
    requires forall j :: start <= j < cur ==> !trading[j]
    requires run == SumCounts(current, start, cur)
    ensures folded[cur] == current[cur].Plus(run)
  {
    RunStartOfRun(trading, start, cur);
    SumCountsFrame(current, c0, start, cur);
  }

  /** The inner loop of `__get_sentiment_category`: the run's `pos`, `neg` and `net` totals. */
  method ScanCountsRun(trading: array<bool>, counts: array<Counts>, closeNull: seq<nat>, k: nat)
    returns (next: nat, k': nat, pos: int, neg: int, net: int)
    requires trading.Length == counts.Length
    requires ListsNullRows(closeNull, trading[..]) && k < |closeNull|
    ensures closeNull[k] < next <= counts.Length
    ensures k <= k' < |closeNull| && closeNull[k'] == next - 1
    ensures forall j :: closeNull[k] <= j < next ==> !trading[j]
    ensures next !in closeNull
    ensures Counts(pos, neg, net) == SumCounts(counts[..], closeNull[k], next)
  {
    ghost var c := counts[..];
    ghost var start := closeNull[k];
    // first day without trading
    var indexCurr := closeNull[k];
    var indexCloseNull := k;
    pos := counts[indexCurr].positive;
    neg := counts[indexCurr].negative;
    net := counts[indexCurr].netral;
    indexCurr := indexCurr + 1;
    // while the next row is also a null position, there is still no trading
    while indexCurr in closeNull
      invariant start < indexCurr <= counts.Length
      invariant k <= indexCloseNull < |closeNull| && closeNull[indexCloseNull] == indexCurr - 1
      invariant forall j :: start <= j < indexCurr ==> !trading[j]
      invariant pos == SumOf(c, Positive, start, indexCurr)
      invariant neg == SumOf(c, Negative, start, indexCurr)
      invariant net == SumOf(c, Netral, start, indexCurr)
      decreases counts.Length - indexCurr
    {
      NextNull(closeNull, trading[..], indexCloseNull, indexCurr);
      pos := pos + counts[indexCurr].positive;
      neg := neg + counts[indexCurr].negative;
      net := net + counts[indexCurr].netral;
      indexCurr := indexCurr + 1;
      indexCloseNull := indexCloseNull + 1;
    }
    next, k' := indexCurr, indexCloseNull;
  }

  /** One pass of the outer loop of `__get_sentiment_category`: scan the run starting at
      `closeNull[k]` and add its totals onto the row after it, when there is one. */
  method PushCountsRun(trading: array<bool>, counts: array<Counts>, closeNull: seq<nat>, k: nat,
                       ghost c0: seq<Counts>, ghost folded: seq<Counts>)
    returns (k': nat)
    requires trading.Length == counts.Length == |c0|
    requires ListsNullRows(closeNull, trading[..]) && k < |closeNull|
    requires closeNull[k] == 0 || trading[closeNull[k] - 1]
    requires folded == FoldedCounts(trading[..], c0)
    requires Agrees(folded, c0, counts[..], closeNull[k])
    modifies counts
    ensures k < k' <= |closeNull|
    ensures k' < |closeNull| ==> closeNull[k'] == 0 || trading[closeNull[k'] - 1]
    ensures Agrees(folded, c0, counts[..], Frontier(closeNull, k', counts.Length))
  {
    ghost var t := trading[..];
    ghost var start := closeNull[k];
    ghost var before := counts[..];
    FoldedCountsKeeps(t, c0);
    var indexCurr, pos, neg, net, last;
    indexCurr, last, pos, neg, net := ScanCountsRun(trading, counts, closeNull, k);
    // past the last row the `+=` lookup raises inside `try` and the run is dropped
    if indexCurr < counts.Length {
      CountsTarget(t, c0, folded, closeNull, before, start, indexCurr, Counts(pos, neg, net));
      // the three `+=` on positive, negative and netral
      counts[indexCurr] := counts[indexCurr].Plus(Counts(pos, neg, net));
    }
    CommitRun(t, c0, folded, closeNull, last, start, indexCurr, before, counts[..]);
    k' := last + 1;
  }

  /** The category loop of `__get_sentiment_category`, in place on the merged count rows. */
  method FoldCategories(trading: array<bool>, counts: array<Counts>)
    requires trading.Length == counts.Length
    modifies counts
    ensures counts[..] == FoldedCounts(trading[..], old(counts[..]))
    ensures forall i :: 0 <= i < counts.Length && !IsRunTarget(trading[..], i) ==>
              counts[i] == old(counts[i])
  {
    ghost var c0 := counts[..];
    ghost var folded := FoldedCounts(trading[..], c0);
    FoldedCountsKeeps(trading[..], c0);
    var closeNull := NullIndices(trading[..]);
    BeforeFirstNull(closeNull, trading[..]);
    var indexCloseNull := 0;
    while indexCloseNull <= |closeNull| - 1
      invariant 0 <= indexCloseNull <= |closeNull|
      invariant indexCloseNull < |closeNull| ==>
                  closeNull[indexCloseNull] == 0 || trading[closeNull[indexCloseNull] - 1]
      invariant Agrees(folded, c0, counts[..], Frontier(closeNull, indexCloseNull, counts.Length))
      decreases |closeNull| - indexCloseNull
    {
      indexCloseNull := PushCountsRun(trading, counts, closeNull, indexCloseNull, c0, folded);
    }
  }
}
