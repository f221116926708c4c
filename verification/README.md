# DataSaham sentiment features, modelled in Dafny

`DataSaham` (helpers/DataSaham.py) builds a per-stock feature table. It starts from one stock's
daily price rows and adds a set of indicator columns. It then selects the news articles linked to
the stock and turns them into two daily signals:

- `sentiment_score`: the mean `mean_compound` score of the day's articles;
- `sentiment_category_score`: `(positive - negative) / (positive + negative + 1)`, computed from the
  day's counts of positive, negative and neutral ("netral") articles.

Articles are also published on days without trading. For each signal, the price dates and the
article dates are merged into one table sorted by date. A loop then walks the runs of rows that
have no close price and pushes each run onto the first trading row after it:

- the sentiment loop replaces that row by an average;
- the category loop adds the run's counts to it.

The non-trading rows are then dropped. What is left is joined onto the price rows by date, and
missing cells are filled with 0.

This project models:

- the momentum indicator;
- the article selection;
- the per-date aggregation and the merged date order;
- both forward-fold loops, as in-place array methods;
- the category score;
- the assembly of these columns onto the price rows.

It proves what these operations promise.

Modules:

- `Common` (common.dfy): records, `Option`/`Result`, and per-row category `Counts`.
- `Momentum` (momentum.dfy): `__momentum`.
- `ArticleSelection` (articles.dfy): `__get_articles`.
- `Aggregation` (aggregate.dfy): what the `groupby` steps compute:
  - the daily mean;
  - the category counts;
  - the pivot's columns;
  - the sorted union of dates left by the outer merge;
  - the category score.
- `ForwardFold` (fold.dfy): the two `while` loops, as methods over arrays. They keep the source's
  `close_null` list and its `index_close_null`/`index_curr` pointers. The fold is specified
  pointwise:
  - `FoldedSentiment` and `FoldedCounts` say what each row holds afterwards, using
    `RunStart(t, i)`, the first row of the run of non-trading rows just before row `i`;
  - `FoldSentiment` and `FoldCategories` are proved to compute exactly those columns.
- `FoldProperties` (fold_props.dfy): what the folds promise:
  - the value a run's target receives;
  - rows that are not a target are left unchanged;
  - per-category conservation of the counts, less the dropped trailing run;
  - non-negativity and the [-1, 1] bound;
  - a worked example showing that the sentiment fold does not conserve the total.
- `Pipeline` (pipeline.dfy): the constructor's sentiment half, covering:
  - the merged columns and the trading mask;
  - the filter on `close.notnull()`;
  - the join on the date;
  - the two error paths;
  - one output row per price row.

The momentum window ends at row `i`: row `i` holds `close[i] - close[i - window]`, a difference
that looks back `window` rows.

Dates are abstract ordered keys (`int`). The source's `"YYYY-MM-DD"` strings sort in date order,
and the model keeps only that order.

## Model

| member | source | states |
|---|---|---|
| Momentum.Calculate | helpers/DataSaham.py:57-59 | the reducer applied to each full window: its last close minus its first |
| Momentum.MomentumColumn | helpers/DataSaham.py:56-61 | the rolling column, one cell per close, null while the window of `window + 1` rows is not yet full |
| Momentum.WindowEndingAt | helpers/DataSaham.py:57-61 | the rolling window of `window + 1` rows ending at row `i` starts at `close[i - window]` and ends at `close[i]` |
| Momentum.MomentumAt | helpers/DataSaham.py:56-61 | row `i` holds `close[i] - close[i - window]` once `i >= window`, and it is null exactly for the first `window` rows |
| Momentum.MomentumIsAccumulatedChange | helpers/DataSaham.py:56-61 | momentum equals the sum of the last `window` day-to-day changes |
| Momentum.MomentumShiftInvariant | helpers/DataSaham.py:56-61 | adding a constant to every close leaves the whole momentum column unchanged |
| ArticleSelection.FirstWithCode | helpers/DataSaham.py:33 | none exactly when no reference row carries the code; otherwise the earliest matching row |
| ArticleSelection.LinkedArticleIds | helpers/DataSaham.py:34 | an id is listed iff some link row ties it to the stock id |
| ArticleSelection.SelectArticles | helpers/DataSaham.py:36-37 | an article is kept iff its id is listed; the result is never longer than the input |
| ArticleSelection.SelectArticlesCount | helpers/DataSaham.py:36-37 | a listed article keeps its multiplicity and an unlisted one disappears, so `isin` neither duplicates nor invents rows |
| ArticleSelection.SelectArticlesAppend | helpers/DataSaham.py:36-37 | selection distributes over concatenation, so the original article order is kept |
| ArticleSelection.GetArticles | helpers/DataSaham.py:32-40 | fails with `UnknownCode` iff no reference row carries the code (the `[0]` on an empty list); otherwise selects by the first matching stock id |
| ArticleSelection.SelectedIffLinked | helpers/DataSaham.py:32-37 | an article is selected iff a link row ties its id to the stock's id |
| Aggregation.SortedDates | helpers/DataSaham.py:98-100 | the result is strictly increasing and holds exactly the input's dates |
| Aggregation.MergedDates | helpers/DataSaham.py:98-100 | the merged rows are strictly increasing and hold exactly the price dates and the article dates |
| Aggregation.ArticlesOn | helpers/DataSaham.py:89-90 | holds exactly the articles published on the date |
| Aggregation.DailySentiment | helpers/DataSaham.py:89-94 | a date has a mean iff at least one article was published on it |
| Aggregation.SentimentOn | helpers/DataSaham.py:101 | the merged sentiment cell after `fillna(0)`: 0 for a date with no article |
| Aggregation.SentimentOnBounded | helpers/DataSaham.py:89-101 | the zero-filled daily mean of scores in [-1, 1] stays in [-1, 1] |
| Aggregation.CountOn | helpers/DataSaham.py:147-149 | the count is positive iff an article of that category was published on the date, and is at most the number of articles |
| Aggregation.CountsOn | helpers/DataSaham.py:147-154 | each pivot cell is that category's count for the date, 0 where the pivot had no entry |
| Aggregation.CountsOnTotal | helpers/DataSaham.py:147-154 | the three counts of a date add up to the number of articles published on it |
| Aggregation.NoArticlesNoCounts | helpers/DataSaham.py:164-166 | a date with no article gets zero in every category |
| Aggregation.MissingColumn | helpers/DataSaham.py:153-166 | names a missing category iff some category never occurs, checking `negative`, then `positive`, then `netral`; no selected article has the category it names |
| Aggregation.CategoryScore | helpers/DataSaham.py:203-204 | `(positive - negative) / (positive + negative + 1)` for non-negative counts |
| Aggregation.CategoryScoreProperties | helpers/DataSaham.py:203-204 | the score lies strictly between -1 and 1; it is 0 iff positive == negative; it is positive iff positive > negative; it is negative iff positive < negative |
| ForwardFold.NullIndices | helpers/DataSaham.py:105-106 | lists exactly the rows without a close, ascending |
| ForwardFold.RunStart | helpers/DataSaham.py:112-126 | the start of the run before row `i` is at or before `i`, and is preceded by a trading row or the table start |
| ForwardFold.RunIsNonTrading | helpers/DataSaham.py:122-126 | every row of the run before `i` lacks a close |
| ForwardFold.RunAverage | helpers/DataSaham.py:128-134 | the average a run's target receives: the run's sum over its length, with the target's own value counted as one more day only when it is non-zero |
| ForwardFold.SentimentAt | helpers/DataSaham.py:112-138 | the value one merged row holds after the sentiment fold: the run average on a run's target, its own value elsewhere |
| ForwardFold.FoldedSentiment | helpers/DataSaham.py:112-138 | the whole sentiment column after the fold, one cell per merged row |
| ForwardFold.ScanSentimentRun | helpers/DataSaham.py:114-126 | returns the first row after the run, the run's sentiment sum and its length; every row it passes is non-trading |
| ForwardFold.PushSentimentRun | helpers/DataSaham.py:112-138 | one outer pass: rows up to the next run's start now hold their folded values, and later rows are untouched |
| ForwardFold.FoldSentiment | helpers/DataSaham.py:105-138 | the column afterwards is exactly `FoldedSentiment` of the input; rows that receive no run keep their value |
| ForwardFold.FoldedSentimentKeeps | helpers/DataSaham.py:128-134 | only a trading row right after a run changes in the sentiment fold |
| ForwardFold.CountsAt | helpers/DataSaham.py:175-199 | the counts one merged row holds after the category fold: its own counts plus the run's totals on a run's target, its own counts elsewhere |
| ForwardFold.FoldedCounts | helpers/DataSaham.py:175-199 | the whole count column after the fold, one row per merged row |
| ForwardFold.ScanCountsRun | helpers/DataSaham.py:177-190 | returns the first row after the run and the run's per-category totals |
| ForwardFold.PushCountsRun | helpers/DataSaham.py:175-199 | one outer pass: rows up to the next run's start hold their folded counts, and later rows are untouched |
| ForwardFold.FoldCategories | helpers/DataSaham.py:170-199 | the count rows afterwards are exactly `FoldedCounts` of the input; rows that receive no run keep their counts |
| ForwardFold.FoldedCountsKeeps | helpers/DataSaham.py:192-195 | only a trading row right after a run changes in the category fold |
| FoldProperties.SentimentRunValue | helpers/DataSaham.py:114-134 | the row after a maximal run gets (run sum + own value) / (run length + 1) when its own value is non-zero; otherwise it gets run sum / run length |
| FoldProperties.CountsRunValue | helpers/DataSaham.py:177-195 | the row after a maximal run has each count raised by exactly the run's total for that category |
| FoldProperties.UntargetedRowsKept | helpers/DataSaham.py:112-199 | a non-trading row, and a trading row not preceded by one, keep their values in both folds |
| FoldProperties.ConservedOnPrefix | helpers/DataSaham.py:175-199 | over every prefix, the trading rows' folded counts plus the still-open run equal the input total |
| FoldProperties.CategoryConservation | helpers/DataSaham.py:175-201 | each category's total over the trading rows equals the input total minus the trailing non-trading run, which has no row to go to |
| FoldProperties.CategoryConservationExact | helpers/DataSaham.py:175-201 | when the last merged row trades, every category total is conserved |
| FoldProperties.FoldedCountsNonNegative | helpers/DataSaham.py:175-199 | non-negative counts stay non-negative through the fold |
| FoldProperties.FoldedSentimentBounded | helpers/DataSaham.py:128-134 | scores in [-1, 1] stay in [-1, 1] after averaging |
| FoldProperties.SentimentNotConserved | helpers/DataSaham.py:128-134 | 0.2, 0.4 (no trading), 0.1 folds to 0.2, 0.4, 0.25: the trading rows hold 0.45 instead of 0.7, so the sentiment total is not conserved |
| Pipeline.TradingMaskCount | helpers/DataSaham.py:105-106 | with one price row per date, in order, exactly as many merged rows have a close as there are price rows |
| Pipeline.SentimentColumnCells | helpers/DataSaham.py:98-101 | assuming compound scores in [-1, 1], every merged sentiment cell lies in [-1, 1]; a merged row with no article on its date holds 0 |
| Pipeline.CountsColumn | helpers/DataSaham.py:160-166 | each merged row holds its date's zero-filled counts, which are never negative |
| Pipeline.KeepTrading | helpers/DataSaham.py:140 | keeps one row per trading row, and only rows of the input |
| Pipeline.JoinOn | helpers/DataSaham.py:144 | the joined cell is a value of the right-hand column, or the fill value 0 when no row carries the date |
| Pipeline.SentimentScores | helpers/DataSaham.py:88-142 | the kept dates and scores are the trading rows of the merged table after `FoldedSentiment` |
| Pipeline.CategoryCounts | helpers/DataSaham.py:146-201 | the kept dates and counts are the trading rows of the merged table after `FoldedCounts` |
| Pipeline.AssembleRows | helpers/DataSaham.py:144 | one output row per price row, built from the kept columns joined on the date |
| Pipeline.FeatureRows | helpers/DataSaham.py:140-144 | the output rows of a selection: merge, fold, keep the trading rows, join; one row per price row |
| Pipeline.Features | helpers/DataSaham.py:13-23 | the whole sentiment half of the constructor, with its two failures; a success has one row per price row |
| Pipeline.BuildFeatures | helpers/DataSaham.py:20-22 | the in-place computation returns exactly `Features` of its inputs |
| Pipeline.FeaturesOutcome | helpers/DataSaham.py:20-22 | an unknown code fails with `UnknownCode`; success iff the code is known and every category occurs among the selected articles; an empty selection fails on `negative`; a success has one row per price row |
| Pipeline.KeptRowsArePriceDates | helpers/DataSaham.py:140-144 | with one price row per date in order, the kept merged rows are exactly the price dates in the same order |
| Pipeline.KeptJoin | helpers/DataSaham.py:144 | joining the kept rows on the date of a trading merged row finds that row's value |
| Pipeline.AssembledRow | helpers/DataSaham.py:202-204 | an output row carries its price row's date and close, the momentum with 0 in place of the leading nulls, the joined cells, and the category score of its joined counts |
| Pipeline.FeatureRowValue | helpers/DataSaham.py:140-144 | output row `k` holds the folded sentiment and counts of the merged row with its date, which is a trading row, next to its own momentum |
| Pipeline.FeatureSentimentBounded | helpers/DataSaham.py:128-144 | assuming compound scores in [-1, 1], every output row's sentiment score lies in [-1, 1] |
| Pipeline.QuietDateIsZero | helpers/DataSaham.py:128-144 | a price date with no article of its own and no non-trading article date since the previous price date gets sentiment 0, counts 0 and category score 0 |
| Pipeline.KeptCountsNonNegative | helpers/DataSaham.py:201-204 | the kept counts are never negative, so the score's denominator is at least 1 |

## Left out

- Fetching prices from Yahoo Finance (lines 42-54): the price rows are a parameter. A null close in the fetched data itself is not modelled; every price row trades.
- The `ta` indicators (lines 67-82): they come from an external library. So does `dropna` (lines 17-18), which depends on them.
- The accumulation/distribution column (lines 63-64): it is floating-point division, which gives ±inf or NaN when `high == low`. It is not in the `data` projection (lines 27-30).
- The exchange-rate CSV (lines 206-214) and the 14-column projection of `data` (lines 25-30): file input and column selection only.
- Date parsing and formatting (`strftime`, `astype(str)`): dates are abstract ordered keys.
- Floating point: scores are exact reals. NaN, rounding and IEEE division are not modelled.
- Pandas mechanics (index resets, column renames, dtype changes). The count columns are integers, where pandas holds them as floats after `fillna`.
- `fillna(0)` at lines 144 and 202 also zero-fills the indicator columns. Only the effect on momentum and the sentiment columns is modelled.
- Pipeline.JoinOn: takes the first right-hand row with the key. Pandas would emit one row per match. Merged dates are distinct, so no key matches twice.
- Pipeline.KeptRowsArePriceDates: assumes the price table has one row per date in increasing order, as the price source returns it. Duplicate or unsorted price dates are not modelled.
- Momentum.MomentumColumn: the window is a `nat`. The source accepts any integer, and pandas `rolling` rejects a negative window with `ValueError`. Negative windows are not modelled.
- Aggregation.CompoundsInRange: the [-1, 1] bounds on sentiment are proved assuming compound scores lie in [-1, 1]. The source never checks this.
- Aggregation.MissingColumn: the source raises `AttributeError` when a category column is missing. The model returns `Failure(MissingCategory(...))`.
