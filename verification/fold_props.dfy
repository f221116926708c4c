/** What the two forward folds promise, stated on the pointwise specifications `FoldedSentiment`
    and `FoldedCounts` that the in-place loops are proved to compute. */
module FoldProperties {
  import opened Common
  import opened ForwardFold

  /** A maximal run of non-trading rows `p..q-1` followed by the trading row `q`. */
  ghost predicate RunBefore(trading: seq<bool>, p: nat, q: nat) {
    && p < q < |trading|
    && (p == 0 || trading[p - 1])
    && (forall j :: p <= j < q ==> !trading[j])
    && trading[q]
  }

  // ---------------------------------------------------------------------------------------------
  // What each fold writes

  /** The sentiment fold replaces the row after a run by the run's sum plus its own value, over
      the run's length plus one when its own value is non-zero. */
  lemma SentimentRunValue(trading: seq<bool>, s: seq<real>, p: nat, q: nat)
    requires |trading| == |s| && RunBefore(trading, p, q)
    ensures IsRunTarget(trading, q)
    ensures FoldedSentiment(trading, s)[q]
            == (SumReal(s, p, q) + s[q]) / ((q - p) + (if s[q] != 0.0 then 1 else 0)) as real
  {
    RunStartOfRun(trading, p, q);
  }

  /** The category fold raises each count of the row after a run by exactly the run's total. */
  lemma CountsRunValue(trading: seq<bool>, c: seq<Counts>, p: nat, q: nat, cat: Category)
    requires |trading| == |c| && RunBefore(trading, p, q)
    ensures FoldedCounts(trading, c)[q].Of(cat) == c[q].Of(cat) + SumOf(c, cat, p, q)
  {
    RunStartOfRun(trading, p, q);
    var r := FoldedCounts(trading, c)[q];
    assert r == c[q].Plus(SumCounts(c, p, q));
    match cat
    case Positive =>
    case Negative =>
    case Netral =>
  }

  /** A trading row that does not follow a non-trading row keeps its values in both folds, and
      so does every non-trading row (those are dropped afterwards). */
  lemma UntargetedRowsKept(trading: seq<bool>, s: seq<real>, c: seq<Counts>, i: nat)
    requires |trading| == |s| == |c| && i < |s|
    requires !trading[i] || i == 0 || trading[i - 1]
    ensures FoldedSentiment(trading, s)[i] == s[i]
    ensures FoldedCounts(trading, c)[i] == c[i]
  {
    if trading[i] && i > 0 {
      assert RunStart(trading, i) == i;
    }
  }

  // ---------------------------------------------------------------------------------------------
  // Conservation of the category counts

  /** The total of one category over the trading rows among the first `hi` rows. */
  function TradingSumOf(trading: seq<bool>, c: seq<Counts>, cat: Category, hi: nat): int
    requires |trading| == |c| && hi <= |c|
    decreases hi
  {
    if hi == 0 then 0
    else TradingSumOf(trading, c, cat, hi - 1) + (if trading[hi - 1] then c[hi - 1].Of(cat) else 0)
  }

  lemma PlusOf(a: Counts, b: Counts, cat: Category)
    ensures a.Plus(b).Of(cat) == a.Of(cat) + b.Of(cat)
  {
    match cat
    case Positive =>
    case Negative =>
    case Netral =>
  }

  /** Over every prefix, the trading rows of the folded column plus the still-open run hold
      what the input held. */
  lemma {:induction false} ConservedOnPrefix(trading: seq<bool>, c: seq<Counts>, cat: Category, hi: nat)
    requires |trading| == |c| && hi <= |c|
    ensures TradingSumOf(trading, FoldedCounts(trading, c), cat, hi)
            + SumOf(c, cat, RunStart(trading, hi), hi)
            == SumOf(c, cat, 0, hi)
    decreases hi
  {
    if hi > 0 {
      var i := hi - 1;
      ConservedOnPrefix(trading, c, cat, i);
      if trading[i] {
        var p := RunStart(trading, i);
        assert FoldedCounts(trading, c)[i] == c[i].Plus(SumCounts(c, p, i));
        PlusOf(c[i], SumCounts(c, p, i), cat);
        assert SumCounts(c, p, i).Of(cat) == SumOf(c, cat, p, i) by {
          match cat
          case Positive =>
          case Negative =>
          case Netral =>
        }
      }
    }
  }

  /** The category fold conserves each category's total over the trading rows, except for the
      trailing run of non-trading rows (rows `RunStart(trading, |trading|)` to the end), whose
      counts have no row to go to and are dropped. */
  lemma CategoryConservation(trading: seq<bool>, c: seq<Counts>, cat: Category)
    requires |trading| == |c|
    ensures var t := RunStart(trading, |trading|);
            && (t == 0 || trading[t - 1])
            && (forall j :: t <= j < |trading| ==> !trading[j])
            && TradingSumOf(trading, FoldedCounts(trading, c), cat, |c|)
               == SumOf(c, cat, 0, |c|) - SumOf(c, cat, t, |c|)
  {
    RunIsNonTrading(trading, |trading|);
    ConservedOnPrefix(trading, c, cat, |c|);
  }

  /** When the last merged row is a trading day, nothing is dropped and each total is kept. */
  lemma CategoryConservationExact(trading: seq<bool>, c: seq<Counts>, cat: Category)
    requires |trading| == |c| && (|c| == 0 || trading[|c| - 1])
    ensures TradingSumOf(trading, FoldedCounts(trading, c), cat, |c|) == SumOf(c, cat, 0, |c|)
  {
    CategoryConservation(trading, c, cat);
  }

  /** Counts stay non-negative through the fold. */
  lemma {:induction false} SumOfNonNegative(c: seq<Counts>, cat: Category, lo: nat, hi: nat)
    requires lo <= hi <= |c|
    requires forall i :: 0 <= i < |c| ==> c[i].Of(cat) >= 0
    ensures SumOf(c, cat, lo, hi) >= 0
    decreases hi
  {
    if lo < hi {
      SumOfNonNegative(c, cat, lo, hi - 1);
    }
  }

  lemma FoldedCountsNonNegative(trading: seq<bool>, c: seq<Counts>, cat: Category)
    requires |trading| == |c|
    requires forall i :: 0 <= i < |c| ==> c[i].Of(cat) >= 0
    ensures forall i :: 0 <= i < |c| ==> FoldedCounts(trading, c)[i].Of(cat) >= 0
  {
    forall i | 0 <= i < |c|
      ensures FoldedCounts(trading, c)[i].Of(cat) >= 0
    {
      if trading[i] {
        var p := RunStart(trading, i);
        SumOfNonNegative(c, cat, p, i);
        PlusOf(c[i], SumCounts(c, p, i), cat);
        assert SumCounts(c, p, i).Of(cat) == SumOf(c, cat, p, i) by {
          match cat
          case Positive =>
          case Negative =>
          case Netral =>
        }
      }
    }
  }

  // ---------------------------------------------------------------------------------------------
  // The sentiment fold averages instead: bounded, but not conserved

  /** Sentiment scores in [-1, 1], assuming the articles' compound scores lie in that range. */
  ghost predicate InUnitRange(s: seq<real>) {
    forall i :: 0 <= i < |s| ==> -1.0 <= s[i] <= 1.0
  }

  lemma {:induction false} SumRealBounded(s: seq<real>, lo: nat, hi: nat)
    requires lo <= hi <= |s| && InUnitRange(s)
    ensures -((hi - lo) as real) <= SumReal(s, lo, hi) <= (hi - lo) as real
    decreases hi
  {
    if lo < hi {
      SumRealBounded(s, lo, hi - 1);
    }
  }

  /** Averaging keeps every folded sentiment inside the range of its inputs' bound. */
  lemma FoldedSentimentBounded(trading: seq<bool>, s: seq<real>)
    requires |trading| == |s| && InUnitRange(s)
    ensures InUnitRange(FoldedSentiment(trading, s))
  {
    forall i | 0 <= i < |s|
      ensures -1.0 <= FoldedSentiment(trading, s)[i] <= 1.0
    {
      if IsRunTarget(trading, i) {
        var p := RunStart(trading, i);
        SumRealBounded(s, p, i);
        if s[i] != 0.0 {
          QuotientBounded(SumReal(s, p, i) + s[i], (i - p + 1) as real);
        } else {
          QuotientBounded(SumReal(s, p, i), (i - p) as real);
        }
      }
    }
  }

  /** Sentiments 0.2, 0.4 and 0.1 on three consecutive dates, the middle one without trading:
      the third date receives (0.4 + 0.1) / 2 = 0.25, so the trading rows end up holding 0.45
      where the input held 0.7 in total. */
  lemma SentimentNotConserved()
    ensures FoldedSentiment([true, false, true], [0.2, 0.4, 0.1]) == [0.2, 0.4, 0.25]
    ensures 0.2 + 0.25 != 0.2 + 0.4 + 0.1
  {
    var t, s := [true, false, true], [0.2, 0.4, 0.1];
    assert RunStart(t, 0) == 0;
    assert RunStart(t, 1) == 1;
    assert RunStart(t, 2) == 1;
    assert SumReal(s, 1, 2) == 0.4;
  }
}
