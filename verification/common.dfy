/** Shared records of the feature builder: dates, articles, the stock reference and link tables,
    per-date category counts, the Option/Result wrappers used for the error paths, and facts
    about dividing by a positive count. */
module Common {

  /** A calendar date. The source keys rows by "YYYY-MM-DD" strings, whose lexicographic order is
      the chronological order; the model keeps only that order. */
  type Date = int

  datatype Option<+T> = None | Some(value: T)

  datatype Result<+R, +E> = Success(value: R) | Failure(error: E)

  /** The three sentiment labels the category pivot turns into columns. */
  datatype Category = Positive | Negative | Netral

  /** One row of the article table, with its publication date already reduced to a date key. */
  datatype Article = Article(id: int, date: Date, meanCompound: real, category: Category)

  /** One row of the stock reference table. */
  datatype StockRef = StockRef(code: string, id: int)

  /** One row of the stock-article link table. */
  datatype ArticleLink = ArticleLink(sahamId: int, articleId: int)

  /** The failures the builder can raise while assembling sentiment features. */
  datatype Error =
    | UnknownCode(code: string)          // no reference row carries the stock code
    | MissingCategory(category: Category) // the pivot has no column for this label

  /** The `positive`, `negative` and `netral` counts of one row. */
  datatype Counts = Counts(positive: int, negative: int, netral: int) {
    /** The count of one category. */
    function Of(cat: Category): int {
      match cat
      case Positive => positive
      case Negative => negative
      case Netral => netral
    }

    function Plus(other: Counts): Counts {
      Counts(positive + other.positive, negative + other.negative, netral + other.netral)
    }
  }

  const ZERO_COUNTS := Counts(0, 0, 0)

  /** Strictly increasing, hence duplicate-free. */
  ghost predicate Increasing(s: seq<int>) {
    forall i, j :: 0 <= i < j < |s| ==> s[i] < s[j]
  }

  // ---------------------------------------------------------------------------------------------
  // Dividing by a positive number

  lemma PositiveFactor(a: real, n: real)
    requires n > 0.0 && a * n > 0.0
    ensures a > 0.0
  {
  }

  lemma NonNegativeFactor(a: real, n: real)
    requires n > 0.0 && a * n >= 0.0
    ensures a >= 0.0
  {
  }

  /** A value within `n` of zero, divided by `n`, lies in [-1, 1]. */
  lemma QuotientBounded(x: real, n: real)
    requires n > 0.0 && -n <= x <= n
    ensures -1.0 <= x / n <= 1.0
  {
    var q := x / n;
    assert q * n == x;
    assert (1.0 - q) * n == n - x;
    assert (q + 1.0) * n == x + n;
    NonNegativeFactor(1.0 - q, n);
    NonNegativeFactor(q + 1.0, n);
  }
}
