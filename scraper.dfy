/** The arXiv search-page scraper (lambda/layers/common/python/utils/scraper.py).
    The page fetch and the HTML parser are oracles: a page is the sequence
    of its `li.arxiv-result` entries, each given by what the parser finds
    in it. */
module Scraper {
  import opened Base
  import opened Text
  import Memcon

  const BaseUrl: string := "https://arxiv.org"

  /** The `<a>` inside the `list-title` paragraph. */
  datatype LinkTag = LinkTag(href: Option<string>)

  /** One search result as the parser sees it. `listTitle` is `None` when
      the result has no `list-title` paragraph (looking for its link then
      raises), `Some(None)` when the paragraph holds no link. The other
      fields are the stripped texts of the tags, when present. */
  datatype ResultItem = ResultItem(
    listTitle: Option<Option<LinkTag>>,
    title: Option<string>,
    authors: Option<seq<string>>,
    summary: Option<string>,
    date: Option<string>)

  /** `title_tag and link_tag` */
  predicate Keeps(item: ResultItem) {
    item.title.Some? && item.listTitle.Some? && item.listTitle.value.Some?
  }

  /** `href if href.startswith("http") else base_url + href` */
  function Normalise(href: string): (url: string)
    ensures StartsWith(url, "http")
    ensures StartsWith(href, "http") ==> url == href
    ensures !StartsWith(href, "http") ==> url == BaseUrl + href
  {
    if StartsWith(href, "http") then href
    else
      assert (BaseUrl + href)[..4] == BaseUrl[..4];
      BaseUrl + href
  }

  function Texts(xs: seq<string>): (r: seq<Json>)
    ensures |r| == |xs| && forall i :: 0 <= i < |xs| ==> r[i] == JStr(xs[i])
  {
    if xs == [] then [] else [JStr(xs[0])] + Texts(xs[1..])
  }

  /** The record for a kept result. */
  function ArticleOf(item: ResultItem): (a: Record)
    requires Keeps(item)
    ensures "url" in a && a["url"].JStr? && StartsWith(a["url"].s, "http")
  {
    map["title" := JStr(item.title.value),
        "url" := JStr(Normalise(item.listTitle.value.value.href.GetOr(""))),
        "authors" := JList(if item.authors.Some? then Texts(item.authors.value) else []),
        "snippet" := JStr(if item.summary.Some? then RemoveAll(item.summary.value, "Abstract: ") else ""),
        "published" := JStr(if item.date.Some? then LastPiece(item.date.value, ": ") else "")]
  }

  /** A record has exactly the five fields the scraper writes. */
  lemma ArticleOfKeys(item: ResultItem)
    requires Keeps(item)
    ensures ArticleOf(item).Keys == {"title", "url", "authors", "snippet", "published"}
  {
  }

  /** `self.limit` is truthy. */
  predicate LimitOn(limit: Option<int>) {
    limit.Some? && limit.value != 0
  }

  /** The scan loop from result `i` on, with `acc` collected so far; `None`
      when it raises, which makes the whole scrape return `[]`. */
  function ScanFrom(items: seq<ResultItem>, limit: Option<int>, start: int, i: nat, acc: seq<Record>): Option<seq<Record>>
    requires i <= |items|
    decreases |items| - i
  {
    if i == |items| then Some(acc)
    else if i < start then ScanFrom(items, limit, start, i + 1, acc)
    else if items[i].listTitle.None? then None
    else
      var acc' := if Keeps(items[i]) then acc + [ArticleOf(items[i])] else acc;
      if LimitOn(limit) && |acc'| >= limit.value then Some(acc')
      else ScanFrom(items, limit, start, i + 1, acc')
  }

  /** What `scrape()` returns for the parsed page. */
  function ScrapePage(items: seq<ResultItem>, limit: Option<int>, start: int): seq<Record> {
    ScanFrom(items, limit, start, 0, []).GetOr([])
  }

  /** The records of the kept results from position `j` on that are not
      skipped, in page order: what an unlimited scan collects. */
  function Kept(items: seq<ResultItem>, start: int, j: nat): seq<Record>
    requires j <= |items|
    decreases |items| - j
  {
    if j == |items| then []
    else if j >= start && Keeps(items[j]) then [ArticleOf(items[j])] + Kept(items, start, j + 1)
    else Kept(items, start, j + 1)
  }

  /** A scan that finishes returns, after what it had, a prefix of the kept
      records in page order: all of them when it ran to the end of the
      page, and otherwise at least `limit` records. */
  lemma {:induction false} ScanFromMeaning(items: seq<ResultItem>, limit: Option<int>, start: int, i: nat, acc: seq<Record>)
    requires i <= |items|
    requires ScanFrom(items, limit, start, i, acc).Some?
    ensures var out := ScanFrom(items, limit, start, i, acc).value;
      out <= acc + Kept(items, start, i) &&
      (out == acc + Kept(items, start, i) || (LimitOn(limit) && |out| >= limit.value))
    decreases |items| - i
  {
    if i < |items| {
      if i < start {
        ScanFromMeaning(items, limit, start, i + 1, acc);
      } else {
        var acc' := if Keeps(items[i]) then acc + [ArticleOf(items[i])] else acc;
        assert acc + Kept(items, start, i) == acc' + Kept(items, start, i + 1);
        if !(LimitOn(limit) && |acc'| >= limit.value) {
          ScanFromMeaning(items, limit, start, i + 1, acc');
        }
      }
    }
  }

  /** With a positive limit the scan stops as soon as it holds `limit`
      records, so it never returns more. */
  lemma {:induction false} ScanFromWithinLimit(items: seq<ResultItem>, limit: Option<int>, start: int, i: nat, acc: seq<Record>)
    requires i <= |items| && limit.Some? && limit.value > 0 && |acc| < limit.value
    requires ScanFrom(items, limit, start, i, acc).Some?
    ensures |ScanFrom(items, limit, start, i, acc).value| <= limit.value
    decreases |items| - i
  {
    if i < |items| {
      if i < start {
        ScanFromWithinLimit(items, limit, start, i + 1, acc);
      } else {
        var acc' := if Keeps(items[i]) then acc + [ArticleOf(items[i])] else acc;
        if |acc'| < limit.value {
          ScanFromWithinLimit(items, limit, start, i + 1, acc');
        }
      }
    }
  }

  /** Some result from position `i` on is not skipped and has no
      `list-title` paragraph. */
  predicate RaisesFrom(items: seq<ResultItem>, start: int, i: nat) {
    exists k :: i <= k < |items| && k >= start && items[k].listTitle.None?
  }

  lemma RaisesFromStep(items: seq<ResultItem>, start: int, i: nat)
    requires i < |items|
    ensures RaisesFrom(items, start, i) <==>
      (i >= start && items[i].listTitle.None?) || RaisesFrom(items, start, i + 1)
  {
    if RaisesFrom(items, start, i) {
      var k :| i <= k < |items| && k >= start && items[k].listTitle.None?;
      if k != i {
        assert RaisesFrom(items, start, i + 1);
      }
    }
    if i >= start && items[i].listTitle.None? {
      assert RaisesFrom(items, start, i);
    }
    if RaisesFrom(items, start, i + 1) {
      var k :| i + 1 <= k < |items| && k >= start && items[k].listTitle.None?;
      assert RaisesFrom(items, start, i);
    }
  }

  /** Without a limit the scan raises only on a result it does not skip and
      that has no `list-title` paragraph. */
  lemma {:induction false} ScanFromRaises(items: seq<ResultItem>, limit: Option<int>, start: int, i: nat, acc: seq<Record>)
    requires i <= |items| && !LimitOn(limit)
    ensures ScanFrom(items, limit, start, i, acc).None? <==> RaisesFrom(items, start, i)
    decreases |items| - i
  {
    if i < |items| {
      RaisesFromStep(items, start, i);
      if !(i >= start && items[i].listTitle.None?) {
        var acc' := if i >= start && Keeps(items[i]) then acc + [ArticleOf(items[i])] else acc;
        assert ScanFrom(items, limit, start, i, acc) == ScanFrom(items, limit, start, i + 1, acc');
        ScanFromRaises(items, limit, start, i + 1, acc');
      }
    }
  }

  /** `scrape()` of the layer scraper: page order, results before
      `start_scrape` skipped, at most `limit` records when the limit is
      positive, every url absolute. */
  lemma ScrapeMeaning(items: seq<ResultItem>, limit: Option<int>, start: int)
    ensures ScrapePage(items, limit, start) <= Kept(items, start, 0)
    ensures !LimitOn(limit) ==>
      ScrapePage(items, limit, start) ==
        if exists k :: 0 <= k < |items| && k >= start && items[k].listTitle.None? then []
        else Kept(items, start, 0)
    ensures limit.Some? && limit.value > 0 ==> |ScrapePage(items, limit, start)| <= limit.value
  {
    if ScanFrom(items, limit, start, 0, []).Some? {
      ScanFromMeaning(items, limit, start, 0, []);
      if limit.Some? && limit.value > 0 {
        ScanFromWithinLimit(items, limit, start, 0, []);
      }
    }
    if !LimitOn(limit) {
      ScanFromRaises(items, limit, start, 0, []);
      assert RaisesFrom(items, start, 0) <==> exists k :: 0 <= k < |items| && k >= start && items[k].listTitle.None?;
    }
  }

  /** Every kept record has a url that starts with `http`, so none of them
      lacks the key the article memory looks up. */
  lemma {:induction false} KeptUrls(items: seq<ResultItem>, start: int, j: nat)
    requires j <= |items|
    ensures forall a: Record :: a in Kept(items, start, j) ==> "url" in a && a["url"].JStr? && StartsWith(a["url"].s, "http")
    decreases |items| - j
  {
    if j < |items| {
      KeptUrls(items, start, j + 1);
    }
  }

  lemma ScrapeUrls(items: seq<ResultItem>, limit: Option<int>, start: int)
    ensures forall a: Record :: a in ScrapePage(items, limit, start) ==> "url" in a && a["url"].JStr? && StartsWith(a["url"].s, "http")
  {
    ScrapeMeaning(items, limit, start);
    KeptUrls(items, start, 0);
    var out := ScrapePage(items, limit, start);
    forall a | a in out
      ensures a in Kept(items, start, 0)
    {
      var k :| 0 <= k < |out| && out[k] == a;
      assert Kept(items, start, 0)[k] == a;
    }
  }

  /** A scraped batch can be filtered by the article memory without the
      KeyError a record lacking `url` would raise. */
  lemma ScrapedBatchFilters(items: seq<ResultItem>, limit: Option<int>, start: int, lib: Memcon.Library)
    ensures Memcon.NewArticles(ScrapePage(items, limit, start), lib).Ok?
  {
    var batch := ScrapePage(items, limit, start);
    ScrapeUrls(items, limit, start);
    Memcon.NewArticlesFails(batch, lib);
    forall i | 0 <= i < |batch|
      ensures Memcon.HasUrl(batch[i])
    {
      assert batch[i] in batch;
    }
  }

  /** `ScraperClient`: the search url and the selection settings. */
  class ScraperClient {
    var targetUrl: string
    var limit: Option<int>
    var startScrape: int

    constructor(targetUrl: string, limit: Option<int>, startScrape: int)
      ensures this.targetUrl == targetUrl && this.limit == limit && this.startScrape == startScrape
    {
      this.targetUrl := targetUrl;
      this.limit := limit;
      this.startScrape := startScrape;
    }

    /** `scrape()`: `page` is the parsed search page, `None` when fetching
        it failed. */
    method Scrape(page: Option<seq<ResultItem>>) returns (articles: seq<Record>)
      ensures page.None? ==> articles == []
      ensures page.Some? ==> articles == ScrapePage(page.value, limit, startScrape)
    {
      if page.None? {
        return [];
      }
      var items := page.value;
      articles := [];
      var i := 0;
      while i < |items|
        invariant i <= |items|
        invariant ScanFrom(items, limit, startScrape, i, articles) == ScanFrom(items, limit, startScrape, 0, [])
      {
        if i < startScrape {
          i := i + 1;
          continue;
        }
        var item := items[i];
        if item.listTitle.None? {
          return [];
        }
        if item.title.Some? && item.listTitle.value.Some? {
          articles := articles + [ArticleOf(item)];
        }
        if limit.Some? && limit.value != 0 && |articles| >= limit.value {
          return;
        }
        i := i + 1;
      }
    }
  }
}
