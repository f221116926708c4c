/** Article selection of `DataSaham.__get_articles`: the stock id is the first reference row
    carrying the stock code; the articles kept are those linked to that id, in their original
    order. */
module ArticleSelection {
  import opened Common

  /** The position of the first reference row whose code is `code`, if any. */
  function FirstWithCode(saham: seq<StockRef>, code: string): (r: Option<nat>)
    ensures r.None? <==> forall j :: 0 <= j < |saham| ==> saham[j].code != code
    ensures r.Some? ==> r.value < |saham| && saham[r.value].code == code
    ensures r.Some? ==> forall j :: 0 <= j < r.value ==> saham[j].code != code
  {
    if |saham| == 0 then None
    else if saham[0].code == code then Some(0)
    else
      match FirstWithCode(saham[1..], code)
      case None => None
      case Some(j) => Some(j + 1)
  }

  /** The article ids of the link rows for stock `sahamId`, in link-table order. */
  function LinkedArticleIds(links: seq<ArticleLink>, sahamId: int): (ids: seq<int>)
    ensures forall a :: a in ids <==> exists l :: l in links && l.sahamId == sahamId && l.articleId == a
  {
    if |links| == 0 then []
    else
      var rest := LinkedArticleIds(links[1..], sahamId);
      if links[0].sahamId == sahamId then [links[0].articleId] + rest else rest
  }

  /** The articles whose id is among `ids`, in their original order (`isin` keeps each article
      row once, however often its id is listed). */
  function SelectArticles(articles: seq<Article>, ids: seq<int>): (r: seq<Article>)
    ensures |r| <= |articles|
    ensures forall x :: x in r <==> x in articles && x.id in ids
  {
    if |articles| == 0 then []
    else
      var rest := SelectArticles(articles[1..], ids);
      if articles[0].id in ids then [articles[0]] + rest else rest
  }

  /** Selection keeps each kept article exactly as often as it occurs in the input. */
  lemma {:induction false} SelectArticlesCount(articles: seq<Article>, ids: seq<int>, x: Article)
    ensures multiset(SelectArticles(articles, ids))[x]
            == if x.id in ids then multiset(articles)[x] else 0
  {
    if |articles| > 0 {
      SelectArticlesCount(articles[1..], ids, x);
      assert articles == [articles[0]] + articles[1..];
    }
  }

  /** Selection distributes over concatenation, so it never reorders articles. */
  lemma {:induction false} SelectArticlesAppend(a: seq<Article>, b: seq<Article>, ids: seq<int>)
    ensures SelectArticles(a + b, ids) == SelectArticles(a, ids) + SelectArticles(b, ids)
  {
    if |a| > 0 {
      assert (a + b)[1..] == a[1..] + b;
      SelectArticlesAppend(a[1..], b, ids);
    } else {
      assert a + b == b;
    }
  }

  /** `__get_articles`: fails when no reference row has the code (`to_list()[0]` on an empty
      list), and otherwise selects the articles linked to the first matching stock id. */
  function GetArticles(articles: seq<Article>, saham: seq<StockRef>, links: seq<ArticleLink>,
                       code: string): (r: Result<seq<Article>, Error>)
    ensures r.Failure? <==> forall j :: 0 <= j < |saham| ==> saham[j].code != code
    ensures r.Failure? ==> r.error == UnknownCode(code)
    ensures r.Success? ==>
              exists j :: 0 <= j < |saham| && saham[j].code == code
                && (forall i :: 0 <= i < j ==> saham[i].code != code)
                && r.value == SelectArticles(articles, LinkedArticleIds(links, saham[j].id))
  {
    match FirstWithCode(saham, code)
    case None => Failure(UnknownCode(code))
    case Some(j) => Success(SelectArticles(articles, LinkedArticleIds(links, saham[j].id)))
  }

  /** An article is selected exactly when some link row ties it to the stock's id. */
  lemma SelectedIffLinked(articles: seq<Article>, saham: seq<StockRef>, links: seq<ArticleLink>,
                          code: string, j: nat, x: Article)
    requires FirstWithCode(saham, code) == Some(j)
    ensures GetArticles(articles, saham, links, code).Success?
    ensures x in GetArticles(articles, saham, links, code).value
            <==> x in articles
                 && exists l :: l in links && l.sahamId == saham[j].id && l.articleId == x.id
  {
  }
}
