/** Per-date aggregation of the selected articles (`groupby('date')` in
    `__get_sentiment_score` and `__get_sentiment_category`), the sorted union of price and
    article dates that the outer merges produce, and the category score formula. */
module Aggregation {
  import opened Common

  // ---------------------------------------------------------------------------------------------
  // Dates

  /** `s` with `x` added, kept strictly increasing (so each date appears once). */
  function Insert(x: Date, s: seq<Date>): (r: seq<Date>)
    requires Increasing(s)
    ensures Increasing(r)
    ensures forall d :: d in r <==> d == x || d in s
  {
    if |s| == 0 then [x]
    else if x < s[0] then [x] + s
    else if x == s[0] then s
    else
      var rest := Insert(x, s[1..]);
      assert forall d :: d in s[1..] ==> s[0] < d;
      ConsIncreasing(s[0], rest);
      [s[0]] + rest
  }

  lemma ConsIncreasing(x: Date, s: seq<Date>)
    requires Increasing(s) && forall d :: d in s ==> x < d
    ensures Increasing([x] + s)
  {
    var r := [x] + s;
    forall i, j | 0 <= i < j < |r| ensures r[i] < r[j] {
      assert r[j] == s[j - 1] && r[j] in s;
      if i > 0 {
        assert r[i] == s[i - 1];
      }
    }
  }

  /** The distinct dates of `ds`, in increasing order: what `groupby`, the outer merge on
      `date` and `sort_values("date")` leave as the row keys. */
  function SortedDates(ds: seq<Date>): (r: seq<Date>)
    ensures Increasing(r)
    ensures forall d :: d in r <==> d in ds
  {
    if |ds| == 0 then []
    else
      var r := Insert(ds[|ds| - 1], SortedDates(ds[..|ds| - 1]));
      assert forall d :: d in ds <==> d in ds[..|ds| - 1] || d == ds[|ds| - 1] by {
        assert ds == ds[..|ds| - 1] + [ds[|ds| - 1]];
      }
      r
  }

  /** The dates articles were published on, with repetitions. */
  function DatesOf(articles: seq<Article>): (ds: seq<Date>)
    ensures forall d :: d in ds <==> exists a :: a in articles && a.date == d
  {
    if |articles| == 0 then []
    else [articles[0].date] + DatesOf(articles[1..])
  }

  /** The row keys of the merged table: the sorted union of the trading dates and the dates
      with at least one article. */
  function MergedDates(priceDates: seq<Date>, articles: seq<Article>): (r: seq<Date>)
    ensures Increasing(r)
    ensures forall d :: d in r <==> d in priceDates || exists a :: a in articles && a.date == d
  {
    SortedDates(priceDates + DatesOf(articles))
  }

  // ---------------------------------------------------------------------------------------------
  // Mean compound score per date

  /** The articles published on `d`, in order. */
  function ArticlesOn(articles: seq<Article>, d: Date): (r: seq<Article>)
    ensures forall a :: a in r <==> a in articles && a.date == d
  {
    if |articles| == 0 then []
    else
      var rest := ArticlesOn(articles[1..], d);
      if articles[0].date == d then [articles[0]] + rest else rest
  }

  function SumCompound(articles: seq<Article>): real {
    if |articles| == 0 then 0.0 else articles[0].meanCompound + SumCompound(articles[1..])
  }

  /** `groupby('date')['mean_compound'].mean()`: the mean over that date's articles; a date with
      no article has no row. */
  function DailySentiment(articles: seq<Article>, d: Date): (r: Option<real>)
    ensures r.None? <==> forall a :: a in articles ==> a.date != d
  {
    var on := ArticlesOn(articles, d);
    if |on| == 0 then None
    else
      assert on[0] in on;
      Some(SumCompound(on) / |on| as real)
  }

  /** The merged sentiment cell after `fillna(0)`: dates without articles get 0. */
  function SentimentOn(articles: seq<Article>, d: Date): (r: real)
    ensures (forall a :: a in articles ==> a.date != d) ==> r == 0.0
  {
    match DailySentiment(articles, d)
    case None => 0.0
    case Some(m) => m
  }

  /** The articles' compound scores lie in [-1, 1]; the model assumes this where it is used, the
      source never checks it. */
  ghost predicate CompoundsInRange(articles: seq<Article>) {
    forall a :: a in articles ==> -1.0 <= a.meanCompound <= 1.0
  }

  lemma {:induction false} SumCompoundBounded(articles: seq<Article>)
    requires CompoundsInRange(articles)
    ensures -(|articles| as real) <= SumCompound(articles) <= |articles| as real
  {
    if |articles| > 0 {
      assert articles[0] in articles;
      assert CompoundsInRange(articles[1..]) by {
        forall a | a in articles[1..] ensures a in articles { }
      }
      SumCompoundBounded(articles[1..]);
    }
  }

  /** A daily mean of scores in [-1, 1] is again in [-1, 1], and so is its zero fill. */
  lemma SentimentOnBounded(articles: seq<Article>, d: Date)
    requires CompoundsInRange(articles)
    ensures -1.0 <= SentimentOn(articles, d) <= 1.0
  {
    var on := ArticlesOn(articles, d);
    if |on| > 0 {
      assert on[0] in on;
      assert CompoundsInRange(on) by {
        forall a | a in on ensures -1.0 <= a.meanCompound <= 1.0 {
          assert a in articles;
        }
      }
      SumCompoundBounded(on);
      assert SentimentOn(articles, d) == SumCompound(on) / |on| as real;
      QuotientBounded(SumCompound(on), |on| as real);
    }
  }

  // ---------------------------------------------------------------------------------------------
  // Category counts per date

  /** The number of articles published on `d` with category `cat`. */
  function CountOn(articles: seq<Article>, d: Date, cat: Category): (n: nat)
    ensures n <= |articles|
    ensures n > 0 <==> exists a :: a in articles && a.date == d && a.category == cat
  {
    if |articles| == 0 then 0
    else
      var rest := CountOn(articles[1..], d, cat);
      assert forall a :: a in articles <==> a == articles[0] || a in articles[1..];
      if articles[0].date == d && articles[0].category == cat then rest + 1 else rest
  }

  /** The pivot row of date `d` after `fillna(0)`: a category with no article that day is 0. */
  function CountsOn(articles: seq<Article>, d: Date): (c: Counts)
    ensures forall cat :: c.Of(cat) == CountOn(articles, d, cat)
  {
    var c := Counts(CountOn(articles, d, Positive), CountOn(articles, d, Negative),
                    CountOn(articles, d, Netral));
    CountsOfEach(c, articles, d);
    c
  }

  lemma CountsOfEach(c: Counts, articles: seq<Article>, d: Date)
    requires c == Counts(CountOn(articles, d, Positive), CountOn(articles, d, Negative),
                         CountOn(articles, d, Netral))
    ensures forall cat :: c.Of(cat) == CountOn(articles, d, cat)
  {
    forall cat ensures c.Of(cat) == CountOn(articles, d, cat) {
      match cat
      case Positive =>
      case Negative =>
      case Netral =>
    }
  }

  /** Every article of a date is counted under exactly one category. */
  lemma {:induction false} CountsOnTotal(articles: seq<Article>, d: Date)
    ensures CountOn(articles, d, Positive) + CountOn(articles, d, Negative)
            + CountOn(articles, d, Netral) == |ArticlesOn(articles, d)|
  {
    if |articles| > 0 {
      CountsOnTotal(articles[1..], d);
    }
  }

  /** A date without any article gets 0 in every category (the `fillna(0)` of the merged
      table). */
  lemma NoArticlesNoCounts(articles: seq<Article>, d: Date)
    requires forall a :: a in articles ==> a.date != d
    ensures CountsOn(articles, d) == ZERO_COUNTS
  {
  }

  /** The pivot only has a column for a category that occurs among the articles; the source
      reads `negative`, then `positive`, then `netral`, and the first absent one raises. */
  function MissingColumn(articles: seq<Article>): (r: Option<Category>)
    ensures r.None? <==> forall cat :: Occurs(articles, cat)
    ensures r.Some? ==> forall a :: a in articles ==> a.category != r.value
  {
    if !Occurs(articles, Negative) then Some(Negative)
    else if !Occurs(articles, Positive) then Some(Positive)
    else if !Occurs(articles, Netral) then Some(Netral)
    else
      AllOccur(articles);
      None
  }

  lemma AllOccur(articles: seq<Article>)
    requires Occurs(articles, Negative) && Occurs(articles, Positive) && Occurs(articles, Netral)
    ensures forall cat :: Occurs(articles, cat)
  {
    forall cat ensures Occurs(articles, cat) {
      match cat
      case Positive =>
      case Negative =>
      case Netral =>
    }
  }

  predicate Occurs(articles: seq<Article>, cat: Category)
    ensures Occurs(articles, cat) <==> exists a :: a in articles && a.category == cat
  {
    exists i :: 0 <= i < |articles| && articles[i].category == cat
  }

  // ---------------------------------------------------------------------------------------------
  // Category score

  /** `sentiment_category_score = (positive - negative) / (positive + negative + 1)`. */
  function CategoryScore(positive: int, negative: int): real
    requires positive >= 0 && negative >= 0
  {
    (positive - negative) as real / (positive + negative + 1) as real
  }

  /** The score lies strictly between -1 and 1, is 0 exactly when the two counts agree, and
      has the sign of `positive - negative`. */
  lemma CategoryScoreProperties(positive: int, negative: int)
    requires positive >= 0 && negative >= 0
    ensures -1.0 < CategoryScore(positive, negative) < 1.0
    ensures CategoryScore(positive, negative) == 0.0 <==> positive == negative
    ensures CategoryScore(positive, negative) > 0.0 <==> positive > negative
    ensures CategoryScore(positive, negative) < 0.0 <==> positive < negative
  {
    var x, n := (positive - negative) as real, (positive + negative + 1) as real;
    var q := x / n;
    assert q * n == x;
    assert (1.0 - q) * n == n - x;
    assert (q + 1.0) * n == x + n;
    PositiveFactor(1.0 - q, n);
    PositiveFactor(q + 1.0, n);
  }
}
