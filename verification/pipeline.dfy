/** The sentiment half of the `DataSaham` constructor: the price rows, the selected articles and
    the momentum column are joined into one feature row per trading date.  The merged table of
    price dates and article dates is built, the two forward folds move the values of non-trading
    dates onto the next trading date, the non-trading rows are dropped, and what is left is
    joined onto the price rows by date with missing cells filled with 0. */
module Pipeline {
  import opened Common
  import opened ForwardFold
  import opened FoldProperties
  import opened Aggregation
  import opened Momentum
  import opened ArticleSelection

  /** One row of the price table: its date key and its closing price. */
  datatype PriceRow = PriceRow(date: Date, close: real)

  /** The columns of one output row that this model covers. */
  datatype FeatureRow = FeatureRow(date: Date, close: real, momentum: real, sentimentScore: real,
                                   counts: Counts, categoryScore: real)

  // ---------------------------------------------------------------------------------------------
  // The merged table

  function PriceDates(prices: seq<PriceRow>): (ds: seq<Date>)
    ensures |ds| == |prices|
    ensures forall k :: 0 <= k < |prices| ==> ds[k] == prices[k].date
  {
    seq(|prices|, k requires 0 <= k < |prices| => prices[k].date)
  }

  function Closes(prices: seq<PriceRow>): (cs: seq<real>)
    ensures |cs| == |prices|
    ensures forall k :: 0 <= k < |prices| ==> cs[k] == prices[k].close
  {
    seq(|prices|, k requires 0 <= k < |prices| => prices[k].close)
  }

  /** `close.notnull()` on the merged table: a merged row has a close exactly when its date is a
      price date. */
  function TradingMask(merged: seq<Date>, priceDates: seq<Date>): (t: seq<bool>)
    ensures |t| == |merged|
    ensures forall j :: 0 <= j < |merged| ==> (t[j] <==> merged[j] in priceDates)
  {
    seq(|merged|, j requires 0 <= j < |merged| => merged[j] in priceDates)
  }

  /** The `sentiment` column of the merged table, after `fillna(0)`. */
  function SentimentColumn(merged: seq<Date>, articles: seq<Article>): (s: seq<real>)
    ensures |s| == |merged|
    ensures forall j :: 0 <= j < |merged| ==> s[j] == SentimentOn(articles, merged[j])
  {
    seq(|merged|, j requires 0 <= j < |merged| => SentimentOn(articles, merged[j]))
  }

  /** The `positive`, `negative` and `netral` columns of the merged table, after `fillna(0)`. */
  function CountsColumn(merged: seq<Date>, articles: seq<Article>): (c: seq<Counts>)
    ensures |c| == |merged|
    ensures forall j :: 0 <= j < |merged| ==> c[j] == CountsOn(articles, merged[j])
    ensures forall j :: 0 <= j < |merged| ==> c[j].positive >= 0 && c[j].negative >= 0
  {
    seq(|merged|, j requires 0 <= j < |merged| => CountsOn(articles, merged[j]))
  }

  /** The number of trading rows. */
  function TradingRows(t: seq<bool>): (n: nat)
    ensures n <= |t|
  {
    if |t| == 0 then 0 else (if t[0] then 1 else 0) + TradingRows(t[1..])
  }

  /** `df[df.close.notnull()]`: the rows whose mask entry is set, in order. */
  function KeepTrading<T>(t: seq<bool>, xs: seq<T>): (r: seq<T>)
    requires |t| == |xs|
    ensures |r| == TradingRows(t)
    ensures forall x :: x in r ==> x in xs
  {
    if |xs| == 0 then []
    else (if t[0] then [xs[0]] else []) + KeepTrading(t[1..], xs[1..])
  }

  /** `full_data.join(...)` on the date key followed by `fillna(fill)`: the value of the first row
      keyed `d`, or `fill` when there is none. */
  function JoinOn<V>(keys: seq<Date>, vals: seq<V>, d: Date, fill: V): (v: V)
    requires |keys| == |vals|
    ensures v == fill || v in vals
    ensures (forall j :: 0 <= j < |keys| ==> keys[j] != d) ==> v == fill
  {
    if |keys| == 0 then fill
    else if keys[0] == d then vals[0]
    else JoinOn(keys[1..], vals[1..], d, fill)
  }

  /** The position of date `d` in `s`. */
  function PositionOf(s: seq<Date>, d: Date): (i: nat)
    requires d in s
    ensures i < |s| && s[i] == d
  {
    if s[0] == d then 0 else 1 + PositionOf(s[1..], d)
  }

  // ---------------------------------------------------------------------------------------------
  // The two feature steps as the source runs them

  /** `__get_sentiment_score`: merge, fold the sentiment column in place, keep the trading rows. */
  method SentimentScores(priceDates: seq<Date>, articles: seq<Article>)
    returns (dates: seq<Date>, scores: seq<real>)
    ensures var merged := MergedDates(priceDates, articles);
            var t := TradingMask(merged, priceDates);
            && dates == KeepTrading(t, merged)
            && scores == KeepTrading(t, FoldedSentiment(t, SentimentColumn(merged, articles)))
  {
    var merged := MergedDates(priceDates, articles);
    var t := TradingMask(merged, priceDates);
    var s := SentimentColumn(merged, articles);
    var trading := new bool[|t|](j requires 0 <= j < |t| => t[j]);
    var sentiment := new real[|s|](j requires 0 <= j < |s| => s[j]);
    assert trading[..] == t;
    assert sentiment[..] == s;
    FoldSentiment(trading, sentiment);
    dates := KeepTrading(t, merged);
    scores := KeepTrading(t, sentiment[..]);
  }

  /** `__get_sentiment_category`, up to the join: merge, fold the count rows in place, keep the
      trading rows. */
  method CategoryCounts(priceDates: seq<Date>, articles: seq<Article>)
    returns (dates: seq<Date>, counts: seq<Counts>)
    ensures var merged := MergedDates(priceDates, articles);
            var t := TradingMask(merged, priceDates);
            && dates == KeepTrading(t, merged)
            && counts == KeepTrading(t, FoldedCounts(t, CountsColumn(merged, articles)))
  {
    var merged := MergedDates(priceDates, articles);
    var t := TradingMask(merged, priceDates);
    var c := CountsColumn(merged, articles);
    var trading := new bool[|t|](j requires 0 <= j < |t| => t[j]);
    var rows := new Counts[|c|](j requires 0 <= j < |c| => c[j]);
    assert trading[..] == t;
    assert rows[..] == c;
    FoldCategories(trading, rows);
    dates := KeepTrading(t, merged);
    counts := KeepTrading(t, rows[..]);
  }

  /** The sentiment features of the constructor: select the articles, fail where the source
      raises, otherwise run both steps and join them onto the price rows. */
  method BuildFeatures(prices: seq<PriceRow>, allArticles: seq<Article>, saham: seq<StockRef>,
                       links: seq<ArticleLink>, code: string, window: nat)
    returns (r: Result<seq<FeatureRow>, Error>)
    ensures r == Features(prices, allArticles, saham, links, code, window)
  {
    var selected := GetArticles(allArticles, saham, links, code);
    if selected.Failure? {
      return Failure(selected.error);
    }
    var articles := selected.value;
    var pd := PriceDates(prices);
    var dates, scores := SentimentScores(pd, articles);
    var missing := MissingColumn(articles);
    if missing.Some? {
      return Failure(MissingCategory(missing.value));
    }
    var dates', counts := CategoryCounts(pd, articles);
    KeptCountsNonNegative(TradingMask(MergedDates(pd, articles), pd),
                          CountsColumn(MergedDates(pd, articles), articles));
    r := Success(AssembleRows(prices, dates, scores, counts, window));
  }

  // ---------------------------------------------------------------------------------------------
  // What the constructor computes

  /** The output rows: one per price row, with the momentum, sentiment and category cells joined
      on the date and filled with 0 where missing. */
  function AssembleRows(prices: seq<PriceRow>, keptDates: seq<Date>, scores: seq<real>,
                        counts: seq<Counts>, window: nat): (rows: seq<FeatureRow>)
    requires |keptDates| == |scores| == |counts|
    requires forall x :: x in counts ==> x.positive >= 0 && x.negative >= 0
    ensures |rows| == |prices|
  {
    var momentum := MomentumColumn(Closes(prices), window);
    seq(|prices|, k requires 0 <= k < |prices| =>
      var c := JoinOn(keptDates, counts, prices[k].date, ZERO_COUNTS);
      FeatureRow(prices[k].date, prices[k].close,
                 match momentum[k] case None => 0.0 case Some(m) => m,
                 JoinOn(keptDates, scores, prices[k].date, 0.0),
                 c, CategoryScore(c.positive, c.negative)))
  }

  /** The rows built from the selected `articles`. */
  function FeatureRows(prices: seq<PriceRow>, articles: seq<Article>, window: nat): (rows: seq<FeatureRow>)
    ensures |rows| == |prices|
  {
    var pd := PriceDates(prices);
    var merged := MergedDates(pd, articles);
    var t := TradingMask(merged, pd);
    var c := CountsColumn(merged, articles);
    KeptCountsNonNegative(t, c);
    AssembleRows(prices, KeepTrading(t, merged),
                 KeepTrading(t, FoldedSentiment(t, SentimentColumn(merged, articles))),
                 KeepTrading(t, FoldedCounts(t, c)), window)
  }

  /** The whole computation, with the two failures the source can raise. */
  function Features(prices: seq<PriceRow>, allArticles: seq<Article>, saham: seq<StockRef>,
                    links: seq<ArticleLink>, code: string, window: nat): (r: Result<seq<FeatureRow>, Error>)
    ensures r.Success? ==> |r.value| == |prices|
  {
    match GetArticles(allArticles, saham, links, code)
    case Failure(e) => Failure(e)
    case Success(articles) =>
      match MissingColumn(articles)
      case Some(cat) => Failure(MissingCategory(cat))
      case None => Success(FeatureRows(prices, articles, window))
  }

  /** Counts of articles are never negative, and the fold and the filter keep them so. */
  lemma KeptCountsNonNegative(t: seq<bool>, c: seq<Counts>)
    requires |t| == |c|
    requires forall i :: 0 <= i < |c| ==> c[i].positive >= 0 && c[i].negative >= 0
    ensures forall x :: x in KeepTrading(t, FoldedCounts(t, c)) ==> x.positive >= 0 && x.negative >= 0
  {
    FoldedCountsNonNegative(t, c, Positive);
    FoldedCountsNonNegative(t, c, Negative);
    var f := FoldedCounts(t, c);
    forall x | x in KeepTrading(t, f) ensures x.positive >= 0 && x.negative >= 0 {
      var i :| 0 <= i < |f| && f[i] == x;
      assert f[i].Of(Positive) >= 0 && f[i].Of(Negative) >= 0;
    }
  }

  // ---------------------------------------------------------------------------------------------
  // The error paths

  /** An unknown stock code fails before anything else; otherwise the pivot needs all three
      category columns, so a selection that lacks a label (in particular an empty selection) fails
      on it; every other input yields one row per price row. */
  lemma FeaturesOutcome(prices: seq<PriceRow>, allArticles: seq<Article>, saham: seq<StockRef>,
                        links: seq<ArticleLink>, code: string, window: nat)
    ensures var r := Features(prices, allArticles, saham, links, code, window);
            var selected := GetArticles(allArticles, saham, links, code);
            && ((forall j :: 0 <= j < |saham| ==> saham[j].code != code) ==> r == Failure(UnknownCode(code)))
            && (r.Success? <==> selected.Success? && forall cat :: Occurs(selected.value, cat))
            && (r.Success? ==> |r.value| == |prices|)
            && (r.Failure? && r.error.MissingCategory? ==>
                  selected.Success? && forall a :: a in selected.value ==> a.category != r.error.category)
            && (selected == Success([]) ==> r == Failure(MissingCategory(Negative)))
  {
  }

  // ---------------------------------------------------------------------------------------------
  // The kept rows are the price rows

  lemma {:induction false} KeptMembers(t: seq<bool>, xs: seq<Date>, pd: seq<Date>)
    requires |t| == |xs|
    requires forall j :: 0 <= j < |xs| ==> (t[j] <==> xs[j] in pd)
    ensures forall x :: x in KeepTrading(t, xs) <==> x in xs && x in pd
  {
    if |xs| > 0 {
      KeptMembers(t[1..], xs[1..], pd);
      assert xs == [xs[0]] + xs[1..];
    }
  }

  lemma {:induction false} KeptIncreasing(t: seq<bool>, xs: seq<Date>)
    requires |t| == |xs| && Increasing(xs)
    ensures Increasing(KeepTrading(t, xs))
  {
    if |xs| > 0 {
      var rest := KeepTrading(t[1..], xs[1..]);
      KeptIncreasing(t[1..], xs[1..]);
      if t[0] {
        var r := [xs[0]] + rest;
        forall i, j | 0 <= i < j < |r| ensures r[i] < r[j] {
          if i == 0 {
            assert r[j] in rest;
            var m :| 0 <= m < |xs[1..]| && xs[1..][m] == r[j];
            assert xs[m + 1] == r[j];
          } else {
            assert r[i] == rest[i - 1] && r[j] == rest[j - 1];
          }
        }
      }
    }
  }

  /** Two strictly increasing sequences with the same elements are equal. */
  lemma {:induction false} SameElementsEqual(a: seq<Date>, b: seq<Date>)
    requires Increasing(a) && Increasing(b)
    requires forall x :: x in a <==> x in b
    ensures a == b
  {
    if |a| == 0 {
      if |b| > 0 {
        HeadIsMember(b);
        assert false;
      }
    } else {
      assert a[0] in a && b[0] in b;
      assert a[0] in b && b[0] in a;
      var k :| 0 <= k < |b| && b[k] == a[0];
      var m :| 0 <= m < |a| && a[m] == b[0];
      assert a[0] == b[0];
      forall x ensures x in a[1..] <==> x in b[1..] {
        assert x in a[1..] <==> x in a && x != a[0];
        assert x in b[1..] <==> x in b && x != b[0];
      }
      SameElementsEqual(a[1..], b[1..]);
      assert a == [a[0]] + a[1..] && b == [b[0]] + b[1..];
    }
  }

  lemma HeadIsMember(b: seq<Date>)
    requires |b| > 0
    ensures b[0] in b
  {
  }

  /** Every price date is a merged row with a close, and the merged rows with a close are exactly
      the price rows: when the price table holds each date once, in order, dropping the
      non-trading rows leaves one row per trading date, in the price table's order. */
  lemma KeptRowsArePriceDates(prices: seq<PriceRow>, articles: seq<Article>)
    requires Increasing(PriceDates(prices))
    ensures var pd := PriceDates(prices);
            var merged := MergedDates(pd, articles);
            KeepTrading(TradingMask(merged, pd), merged) == pd
  {
    var pd := PriceDates(prices);
    var merged := MergedDates(pd, articles);
    var t := TradingMask(merged, pd);
    KeptMembers(t, merged, pd);
    KeptIncreasing(t, merged);
    SameElementsEqual(KeepTrading(t, merged), pd);
  }

  /** With one price row per date, in order, exactly `|prices|` merged rows have a close. */
  lemma TradingMaskCount(prices: seq<PriceRow>, articles: seq<Article>)
    requires Increasing(PriceDates(prices))
    ensures var pd := PriceDates(prices);
            TradingRows(TradingMask(MergedDates(pd, articles), pd)) == |prices|
  {
    KeptRowsArePriceDates(prices, articles);
  }

  /** Assuming compound scores in [-1, 1], every cell of the zero-filled merged sentiment column
      lies in [-1, 1]; a merged row with no article on its date holds 0. */
  lemma SentimentColumnCells(merged: seq<Date>, articles: seq<Article>)
    ensures var s := SentimentColumn(merged, articles);
            && (CompoundsInRange(articles) ==> InUnitRange(s))
            && (forall j :: 0 <= j < |merged| && (forall a :: a in articles ==> a.date != merged[j]) ==>
                  s[j] == 0.0)
  {
    var s := SentimentColumn(merged, articles);
    if CompoundsInRange(articles) {
      forall j | 0 <= j < |s| ensures -1.0 <= s[j] <= 1.0 {
        SentimentOnBounded(articles, merged[j]);
      }
    }
  }

  // ---------------------------------------------------------------------------------------------
  // What each output row holds

  /** Joining the kept rows on the date of a kept row finds that row's value: merged dates are
      distinct, so no other kept row carries the key. */
  lemma {:induction false} KeptJoin<V>(t: seq<bool>, keys: seq<Date>, vals: seq<V>, i: nat, fill: V)
    requires |t| == |keys| == |vals| && Increasing(keys)
    requires i < |keys| && t[i]
    ensures JoinOn(KeepTrading(t, keys), KeepTrading(t, vals), keys[i], fill) == vals[i]
  {
    var kk, vv := KeepTrading(t[1..], keys[1..]), KeepTrading(t[1..], vals[1..]);
    if i == 0 {
      assert KeepTrading(t, keys) == [keys[0]] + kk;
      assert KeepTrading(t, vals) == [vals[0]] + vv;
    } else {
      assert keys[1..][i - 1] == keys[i] && vals[1..][i - 1] == vals[i];
      KeptJoin(t[1..], keys[1..], vals[1..], i - 1, fill);
      assert keys[0] < keys[i];
      if t[0] {
        assert KeepTrading(t, keys) == [keys[0]] + kk && ([keys[0]] + kk)[1..] == kk;
        assert KeepTrading(t, vals) == [vals[0]] + vv && ([vals[0]] + vv)[1..] == vv;
      } else {
        assert KeepTrading(t, keys) == kk && KeepTrading(t, vals) == vv;
      }
    }
  }

  /** Row `k` of the assembled table: the price row's own cells, the momentum with its leading
      gap filled with 0, and the joined sentiment and count cells. */
  lemma AssembledRow(prices: seq<PriceRow>, keptDates: seq<Date>, scores: seq<real>,
                     counts: seq<Counts>, window: nat, k: nat)
    requires |keptDates| == |scores| == |counts|
    requires forall x :: x in counts ==> x.positive >= 0 && x.negative >= 0
    requires k < |prices|
    ensures var row := AssembleRows(prices, keptDates, scores, counts, window)[k];
            && row.date == prices[k].date
            && row.close == prices[k].close
            && row.momentum
               == (if k >= window then prices[k].close - prices[k - window].close else 0.0)
            && row.sentimentScore == JoinOn(keptDates, scores, prices[k].date, 0.0)
            && row.counts == JoinOn(keptDates, counts, prices[k].date, ZERO_COUNTS)
            && row.categoryScore == CategoryScore(row.counts.positive, row.counts.negative)
  {
    MomentumAt(Closes(prices), window, k);
  }

  /** Row `k` carries price row `k`'s date and close, the momentum over the last `window` rows
      (0 while the window is not yet full), and the folded sentiment and counts of the merged
      row with the same date, which is a trading row; the category score is computed from those
      counts. */
  lemma FeatureRowValue(prices: seq<PriceRow>, articles: seq<Article>, window: nat, k: nat)
    requires k < |prices|
    ensures var rows := FeatureRows(prices, articles, window);
            var pd := PriceDates(prices);
            var merged := MergedDates(pd, articles);
            var t := TradingMask(merged, pd);
            var i := PositionOf(merged, prices[k].date);
            && t[i]
            && rows[k].date == prices[k].date
            && rows[k].close == prices[k].close
            && rows[k].momentum
               == (if k >= window then prices[k].close - prices[k - window].close else 0.0)
            && rows[k].sentimentScore == FoldedSentiment(t, SentimentColumn(merged, articles))[i]
            && rows[k].counts == FoldedCounts(t, CountsColumn(merged, articles))[i]
            && rows[k].counts.positive >= 0 && rows[k].counts.negative >= 0
            && rows[k].categoryScore == CategoryScore(rows[k].counts.positive, rows[k].counts.negative)
  {
    var pd := PriceDates(prices);
    var merged := MergedDates(pd, articles);
    var t := TradingMask(merged, pd);
    var f := FoldedSentiment(t, SentimentColumn(merged, articles));
    var c := CountsColumn(merged, articles);
    var g := FoldedCounts(t, c);
    KeptCountsNonNegative(t, c);
    AssembledRow(prices, KeepTrading(t, merged), KeepTrading(t, f), KeepTrading(t, g), window, k);
    assert pd[k] in pd;
    var i := PositionOf(merged, prices[k].date);
    KeptJoin(t, merged, f, i, 0.0);
    KeptJoin(t, merged, g, i, ZERO_COUNTS);
  }

  /** Assuming compound scores in [-1, 1], every output row's sentiment score lies in [-1, 1]. */
  lemma FeatureSentimentBounded(prices: seq<PriceRow>, articles: seq<Article>, window: nat, k: nat)
    requires CompoundsInRange(articles) && k < |prices|
    ensures -1.0 <= FeatureRows(prices, articles, window)[k].sentimentScore <= 1.0
  {
    FeatureRowValue(prices, articles, window, k);
    var pd := PriceDates(prices);
    var merged := MergedDates(pd, articles);
    var t := TradingMask(merged, pd);
    SentimentColumnCells(merged, articles);
    FoldedSentimentBounded(t, SentimentColumn(merged, articles));
    assert pd[k] in pd;
    var i := PositionOf(merged, prices[k].date);
    assert -1.0 <= FoldedSentiment(t, SentimentColumn(merged, articles))[i] <= 1.0;
  }

  /** A price date is quiet when every article published up to it is dated on or before an
      earlier price date: it has no article of its own and no run of non-trading dates before
      it. */
  ghost predicate Quiet(prices: seq<PriceRow>, articles: seq<Article>, d: Date) {
    forall a :: a in articles && a.date <= d ==>
      exists j :: 0 <= j < |prices| && a.date <= prices[j].date < d
  }

  /** The merged row just before a quiet price date is a trading row. */
  lemma QuietPredecessor(prices: seq<PriceRow>, articles: seq<Article>, i: nat)
    requires var merged := MergedDates(PriceDates(prices), articles);
             0 < i < |merged| && merged[i] in PriceDates(prices) && Quiet(prices, articles, merged[i])
    ensures var merged := MergedDates(PriceDates(prices), articles);
            merged[i - 1] in PriceDates(prices)
  {
    var pd := PriceDates(prices);
    var merged := MergedDates(pd, articles);
    var x := merged[i - 1];
    assert x in merged;
    if exists a :: a in articles && a.date == x {
      var a :| a in articles && a.date == x;
      var j :| 0 <= j < |prices| && a.date <= prices[j].date < merged[i];
      assert pd[j] in pd;
      IncreasingGap(merged, i, prices[j].date);
      assert pd[j] == x;
    }
  }

  /** No element of a strictly increasing sequence lies strictly between two neighbours. */
  lemma IncreasingGap(s: seq<Date>, i: nat, x: Date)
    requires Increasing(s) && 0 < i < |s| && x in s
    ensures x <= s[i - 1] || s[i] <= x
  {
    var m :| 0 <= m < |s| && s[m] == x;
    if m < i {
      assert s[m] <= s[i - 1];
    }
  }

  /** A quiet price date gets sentiment score 0, no counts and category score 0. */
  lemma QuietDateIsZero(prices: seq<PriceRow>, articles: seq<Article>, window: nat, k: nat)
    requires k < |prices| && Quiet(prices, articles, prices[k].date)
    ensures var row := FeatureRows(prices, articles, window)[k];
            row.sentimentScore == 0.0 && row.counts == ZERO_COUNTS && row.categoryScore == 0.0
  {
    FeatureRowValue(prices, articles, window, k);
    var pd := PriceDates(prices);
    var merged := MergedDates(pd, articles);
    var t := TradingMask(merged, pd);
    var d := prices[k].date;
    assert pd[k] in pd;
    var i := PositionOf(merged, d);
    if i > 0 {
      QuietPredecessor(prices, articles, i);
    }
    var s := SentimentColumn(merged, articles);
    var c := CountsColumn(merged, articles);
    UntargetedRowsKept(t, s, c, i);
    assert forall a :: a in articles ==> a.date != d;
    NoArticlesNoCounts(articles, d);
  }
}
