/** The older arXiv scraper (lambda/scraper.py): every result is visited,
    with no skip and no limit, and the link is always taken as a path on
    the arXiv host. The parsed page is the same oracle as for the layer
    scraper. */
module LegacyScraper {
  import opened Base
  import opened Text
  import opened Scraper

  /** The record for a kept result; `link_tag["href"]` raises when the link
      has no `href`. */
  function LegacyArticleOf(item: ResultItem): (a: Option<Record>)
    requires Keeps(item)
    ensures a.Some? <==> item.listTitle.value.value.href.Some?
    ensures a.Some? ==>
      a.value.Keys == {"title", "url", "authors", "snippet"} && a.value["url"] == JStr(BaseUrl + item.listTitle.value.value.href.value)
  {
    match item.listTitle.value.value.href
    case None => None
    case Some(href) =>
      Some(map["title" := JStr(item.title.value),
               "url" := JStr(BaseUrl + href),
               "authors" := JList(if item.authors.Some? then Texts(item.authors.value) else []),
               "snippet" := JStr(if item.summary.Some? then RemoveAll(item.summary.value, "Abstract: ") else "")])
  }

  /** The scan of `items`; `None` once a result raises. */
  function LegacyScan(items: seq<ResultItem>): Option<seq<Record>>
    decreases |items|
  {
    if items == [] then Some([])
    else
      match LegacyScan(items[..|items| - 1])
      case None => None
      case Some(out) =>
        var item := items[|items| - 1];
        if item.listTitle.None? then None
        else if !Keeps(item) then Some(out)
        else
          match LegacyArticleOf(item)
          case None => None
          case Some(a) => Some(out + [a])
  }

  lemma {:induction false} LegacyScanNoneSticks(items: seq<ResultItem>, n: nat)
    requires n <= |items| && LegacyScan(items[..n]).None?
    ensures LegacyScan(items).None?
    decreases |items| - n
  {
    if n < |items| {
      assert items[..n + 1][..n] == items[..n];
      LegacyScanNoneSticks(items, n + 1);
    } else {
      assert items[..n] == items;
    }
  }

  /** With every result well formed and no absolute link, the old scraper
      returns the layer scraper's records (from position 0, without a
      limit) less their `published` field. */
  lemma {:induction false} LegacyMatchesLayer(items: seq<ResultItem>)
    requires forall k :: 0 <= k < |items| ==> items[k].listTitle.Some?
    requires forall k :: 0 <= k < |items| && Keeps(items[k]) ==>
      items[k].listTitle.value.value.href.Some? && !StartsWith(items[k].listTitle.value.value.href.value, "http")
    ensures LegacyScan(items).Some?
    ensures var legacy := LegacyScan(items).value;
      var layer := Kept(items, 0, 0);
      |legacy| == |layer| && forall k :: 0 <= k < |legacy| ==> legacy[k] == layer[k] - {"published"}
    decreases |items|
  {
    if items != [] {
      var n := |items| - 1;
      LegacyMatchesLayer(items[..n]);
      KeptSnoc(items, n);
      assert items[..n + 1] == items;
      var prev := LegacyScan(items[..n]).value;
      var item := items[n];
      if Keeps(item) {
        LegacyRecordMatches(item);
        assert LegacyScan(items).value == prev + [LegacyArticleOf(item).value];
      } else {
        assert LegacyScan(items).value == prev;
      }
    }
  }

  /** For a relative link, the old record is the layer record without its
      `published` field. */
  lemma LegacyRecordMatches(item: ResultItem)
    requires Keeps(item) && item.listTitle.value.value.href.Some?
    requires !StartsWith(item.listTitle.value.value.href.value, "http")
    ensures LegacyArticleOf(item) == Some(ArticleOf(item) - {"published"})
  {
    var a := LegacyArticleOf(item).value;
    var b := ArticleOf(item);
    ArticleOfKeys(item);
    assert a.Keys == (b - {"published"}).Keys;
    assert a == b - {"published"};
  }

  /** `Kept` from 0 grows by the last result's record. */
  lemma {:induction false} KeptSnoc(items: seq<ResultItem>, n: nat)
    requires n < |items|
    ensures Kept(items[..n + 1], 0, 0) ==
      Kept(items[..n], 0, 0) + (if Keeps(items[n]) then [ArticleOf(items[n])] else [])
  {
    KeptSplit(items[..n + 1], n, 0);
    assert items[..n + 1][..n] == items[..n];
  }

  lemma {:induction false} KeptSplit(items: seq<ResultItem>, n: nat, j: nat)
    requires j <= n < |items| && n == |items| - 1
    ensures Kept(items, 0, j) == Kept(items[..n], 0, j) + (if Keeps(items[n]) then [ArticleOf(items[n])] else [])
    decreases n - j
  {
    if j < n {
      KeptSplit(items, n, j + 1);
    }
  }

  /** An absolute link is not recognised: for every kept result whose link
      starts with `http`, the old scraper puts the host in front of it,
      where the layer scraper keeps it as it is, so the two urls differ. */
  lemma AbsoluteLinkDoubled(item: ResultItem)
    requires Keeps(item) && item.listTitle.value.value.href.Some?
    requires StartsWith(item.listTitle.value.value.href.value, "http")
    ensures var href := item.listTitle.value.value.href.value;
      LegacyArticleOf(item).Some? &&
      LegacyArticleOf(item).value["url"] == JStr(BaseUrl + href) &&
      ArticleOf(item)["url"] == JStr(href) &&
      LegacyArticleOf(item).value["url"] != ArticleOf(item)["url"]
  {
    var href := item.listTitle.value.value.href.value;
    assert |BaseUrl + href| > |href|;
  }

  /** `ScraperClient` of lambda/scraper.py. */
  class LegacyScraperClient {
    var targetUrl: string

    constructor(targetUrl: string)
      ensures this.targetUrl == targetUrl
    {
      this.targetUrl := targetUrl;
    }

    /** `scrape()`: `page` is the parsed search page, `None` when fetching
        it failed; any exception makes the result `[]`. */
    method Scrape(page: Option<seq<ResultItem>>) returns (articles: seq<Record>)
      ensures page.None? ==> articles == []
      ensures page.Some? ==> articles == LegacyScan(page.value).GetOr([])
      ensures forall a: Record :: a in articles ==> "url" in a && a["url"].JStr? && StartsWith(a["url"].s, BaseUrl)
    {
      if page.None? {
        return [];
      }
      var items := page.value;
      articles := [];
      for i := 0 to |items|
        invariant LegacyScan(items[..i]) == Some(articles)
        invariant forall a: Record :: a in articles ==> "url" in a && a["url"].JStr? && StartsWith(a["url"].s, BaseUrl)
      {
        assert items[..i + 1][..i] == items[..i];
        var item := items[i];
        if item.listTitle.None? {
          LegacyScanNoneSticks(items, i + 1);
          return [];
        }
        if item.title.Some? && item.listTitle.value.Some? {
          var article := LegacyArticleOf(item);
          if article.None? {
            LegacyScanNoneSticks(items, i + 1);
            return [];
          }
          assert article.value["url"].s[..|BaseUrl|] == BaseUrl;
          articles := articles + [article.value];
        }
      }
      assert items[..|items|] == items;
    }
  }
}
