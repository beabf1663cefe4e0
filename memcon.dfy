/** The article memory (lambda/layers/common/python/utils/memcon.py): a
    library object in the bucket maps each seen url to its article; a batch
    of scraped articles is filtered against it, and the new ones are added
    and written back. */
module Memcon {
  import opened Base

  /** The error code of a read of an object that does not exist. */
  const NoSuchKey := "NoSuchKey"

  /** The library: url to article. */
  type Library = map<string, Record>

  /** `article["url"]`: a missing key raises KeyError. Urls are strings. */
  function UrlOf(a: Record): Result<string> {
    if "url" !in a then Err(KeyError("url"))
    else if a["url"].JStr? then Ok(a["url"].s)
    else Err(TypeError)
  }

  predicate HasUrl(a: Record) {
    UrlOf(a).Ok?
  }

  /** The first loop over `articles[..n]`: the articles whose url is not in
      the library as loaded, in order, or the first article's error. */
  function NewArticles(scraped: seq<Record>, lib: Library): Result<seq<Record>>
    decreases |scraped|
  {
    if scraped == [] then Ok([])
    else
      match NewArticles(scraped[..|scraped| - 1], lib)
      case Err(e) => Err(e)
      case Ok(out) =>
        var a := scraped[|scraped| - 1];
        match UrlOf(a)
        case Err(e) => Err(e)
        case Ok(url) => if url in lib then Ok(out) else Ok(out + [a])
  }

  /** The second loop: each new article stored under its url, later ones
      overwriting earlier ones (the articles it is given all have urls). */
  function AddAll(lib: Library, arts: seq<Record>): Library
    decreases |arts|
  {
    if arts == [] then lib
    else
      var last := arts[|arts| - 1];
      match UrlOf(last)
      case Ok(url) => AddAll(lib, arts[..|arts| - 1])[url := last]
      case Err(_) => AddAll(lib, arts[..|arts| - 1])
  }

  /** The library object of the bucket. */
  class Memory {
    /** The stored library, `None` while the object does not exist. */
    var stored: Option<Library>

    constructor(initial: Option<Library>)
      ensures stored == initial
    {
      stored := initial;
    }

    /** `download_seen_articles()`: `readError` is the code of a failed
        read, if any. A read failing with `NoSuchKey`, like an object that
        is not there, gives the empty library; any other code propagates. */
    method Download(readError: Option<string>) returns (r: Result<Library>)
      ensures readError.Some? && readError.value != NoSuchKey ==> r == Err(ClientError(readError.value))
      ensures readError == Some(NoSuchKey) ==> r == Ok(map[])
      ensures readError.None? ==> r == Ok(stored.GetOr(map[]))
    {
      if readError.Some? {
        if readError.value == NoSuchKey {
          return Ok(map[]);
        }
        return Err(ClientError(readError.value));
      }
      match stored {
        case None => r := Ok(map[]);
        case Some(lib) => r := Ok(lib);
      }
    }

    /** `upload_seen_articles(lib)` */
    method Upload(lib: Library)
      modifies this
      ensures stored == Some(lib)
    {
      stored := Some(lib);
    }

    /** `filter_new_articles(scraped)`: returns the new articles and whether
        the library was written back. */
    method FilterNewArticles(scraped: seq<Record>, readError: Option<string>)
      returns (r: Result<seq<Record>>, uploaded: bool)
      modifies this
      ensures readError.Some? && readError.value != NoSuchKey ==>
        r == Err(ClientError(readError.value)) && !uploaded && stored == old(stored)
      ensures readError == Some(NoSuchKey) ==> r == NewArticles(scraped, map[])
      ensures readError.None? ==> r == NewArticles(scraped, old(stored).GetOr(map[]))
      ensures uploaded <==> r.Ok? && r.value != []
      ensures uploaded ==> stored == Some(AddAll(if readError.None? then old(stored).GetOr(map[]) else map[], r.value))
      ensures !uploaded ==> stored == old(stored)
    {
      uploaded := false;
      var downloaded := Download(readError);
      if downloaded.Err? {
        return Err(downloaded.error), false;
      }
      var seen := downloaded.value;
      r := CollectNew(scraped, seen);
      if r.Ok? && r.value != [] {
        NewArticlesHaveUrls(scraped, seen);
        var updated := AddEach(seen, r.value);
        Upload(updated);
        uploaded := true;
      }
    }
  }

  /** The first loop of `filter_new_articles`: the articles whose url the
      loaded library `seen` lacks, in order, or the first article's error. */
  method CollectNew(scraped: seq<Record>, seen: Library) returns (r: Result<seq<Record>>)
    ensures r == NewArticles(scraped, seen)
  {
    var newArticles: seq<Record> := [];
    var i := 0;
    while i < |scraped|
      invariant i <= |scraped|
      invariant NewArticles(scraped[..i], seen) == Ok(newArticles)
    {
      var article := scraped[i];
      assert scraped[..i + 1][..i] == scraped[..i];
      var url := UrlOf(article);
      if url.Err? {
        NewArticlesErrSticks(scraped, i + 1, seen);
        return Err(url.error);
      }
      if url.value !in seen {
        newArticles := newArticles + [article];
      }
      i := i + 1;
    }
    assert scraped[..i] == scraped;
    r := Ok(newArticles);
  }

  /** The second loop: each new article stored under its url, in order. */
  method AddEach(lib: Library, arts: seq<Record>) returns (updated: Library)
    requires forall i :: 0 <= i < |arts| ==> HasUrl(arts[i])
    ensures updated == AddAll(lib, arts)
  {
    updated := lib;
    var j := 0;
    while j < |arts|
      invariant j <= |arts|
      invariant updated == AddAll(lib, arts[..j])
    {
      assert arts[..j + 1][..j] == arts[..j];
      updated := updated[UrlOf(arts[j]).value := arts[j]];
      j := j + 1;
    }
    assert arts[..j] == arts;
  }

  lemma {:induction false} NewArticlesErrSticks(scraped: seq<Record>, n: nat, lib: Library)
    requires n <= |scraped| && NewArticles(scraped[..n], lib).Err?
    ensures NewArticles(scraped, lib) == NewArticles(scraped[..n], lib)
    decreases |scraped| - n
  {
    if n < |scraped| {
      assert scraped[..n + 1][..n] == scraped[..n];
      NewArticlesErrSticks(scraped, n + 1, lib);
    } else {
      assert scraped[..n] == scraped;
    }
  }

  /** Every new article has a url, which the loaded library lacks. */
  lemma {:induction false} NewArticlesHaveUrls(scraped: seq<Record>, lib: Library)
    ensures NewArticles(scraped, lib).Ok? ==>
      forall i :: 0 <= i < |NewArticles(scraped, lib).value| ==>
        HasUrl(NewArticles(scraped, lib).value[i]) && UrlOf(NewArticles(scraped, lib).value[i]).value !in lib
    decreases |scraped|
  {
    if scraped != [] {
      NewArticlesHaveUrls(scraped[..|scraped| - 1], lib);
    }
  }

  /** The batch fails exactly when some article has no usable url. */
  lemma {:induction false} NewArticlesFails(scraped: seq<Record>, lib: Library)
    ensures NewArticles(scraped, lib).Err? <==> exists i :: 0 <= i < |scraped| && !HasUrl(scraped[i])
    decreases |scraped|
  {
    if scraped != [] {
      var front := scraped[..|scraped| - 1];
      NewArticlesFails(front, lib);
      if exists i :: 0 <= i < |front| && !HasUrl(front[i]) {
        var i :| 0 <= i < |front| && !HasUrl(front[i]);
        assert scraped[i] == front[i];
      }
      if exists i :: 0 <= i < |scraped| && !HasUrl(scraped[i]) {
        var i :| 0 <= i < |scraped| && !HasUrl(scraped[i]);
        if i < |front| {
          assert front[i] == scraped[i];
        }
      }
    }
  }

  /** Novelty is judged against the loaded library only: each article whose
      url the library lacks is kept as often as it occurs in the batch, and
      no other article is kept. */
  lemma {:induction false} NewArticlesCounts(scraped: seq<Record>, lib: Library, a: Record)
    requires NewArticles(scraped, lib).Ok? && HasUrl(a)
    ensures multiset(NewArticles(scraped, lib).value)[a] ==
      if UrlOf(a).value in lib then 0 else multiset(scraped)[a]
    decreases |scraped|
  {
    if scraped != [] {
      var front := scraped[..|scraped| - 1];
      NewArticlesCounts(front, lib, a);
      assert scraped == front + [scraped[|scraped| - 1]];
    }
  }

  /** The batch is filtered article by article, in order: filtering two
      runs of articles one after the other gives the new articles of the
      first followed by those of the second, and fails if either does. */
  lemma {:induction false} NewArticlesAppend(front: seq<Record>, back: seq<Record>, lib: Library)
    ensures NewArticles(front + back, lib).Ok? <==> NewArticles(front, lib).Ok? && NewArticles(back, lib).Ok?
    ensures NewArticles(front + back, lib).Ok? ==>
      NewArticles(front + back, lib).value == NewArticles(front, lib).value + NewArticles(back, lib).value
    decreases |back|
  {
    if back == [] {
      assert front + back == front;
    } else {
      var n := |back| - 1;
      NewArticlesAppend(front, back[..n], lib);
      assert (front + back)[..|front + back| - 1] == front + back[..n];
      assert (front + back)[|front + back| - 1] == back[n];
    }
  }

  /** The urls of the articles that have one. */
  function Urls(arts: seq<Record>): set<string>
    decreases |arts|
  {
    if arts == [] then {}
    else
      var last := arts[|arts| - 1];
      Urls(arts[..|arts| - 1]) + (if HasUrl(last) then {UrlOf(last).value} else {})
  }

  lemma {:induction false} UrlsMeaning(arts: seq<Record>, u: string)
    ensures u in Urls(arts) <==> exists i :: 0 <= i < |arts| && UrlOf(arts[i]) == Ok(u)
    decreases |arts|
  {
    if arts != [] {
      var n := |arts| - 1;
      UrlsMeaning(arts[..n], u);
      if exists i :: 0 <= i < n && UrlOf(arts[..n][i]) == Ok(u) {
        var i :| 0 <= i < n && UrlOf(arts[..n][i]) == Ok(u);
        assert arts[i] == arts[..n][i];
      }
      if exists i :: 0 <= i < |arts| && UrlOf(arts[i]) == Ok(u) {
        var i :| 0 <= i < |arts| && UrlOf(arts[i]) == Ok(u);
        if i < n {
          assert arts[..n][i] == arts[i];
        }
      }
    }
  }

  /** Adding articles the library lacks only adds their urls: every old
      entry keeps its article. */
  lemma {:induction false} AddAllKeeps(lib: Library, arts: seq<Record>)
    requires forall i :: 0 <= i < |arts| ==> HasUrl(arts[i]) && UrlOf(arts[i]).value !in lib
    ensures AddAll(lib, arts).Keys == lib.Keys + Urls(arts)
    ensures forall k :: k in lib ==> AddAll(lib, arts)[k] == lib[k]
    decreases |arts|
  {
    if arts != [] {
      AddAllKeeps(lib, arts[..|arts| - 1]);
    }
  }

  /** Each added url holds the last article carrying it. */
  lemma {:induction false} AddAllLastWins(lib: Library, arts: seq<Record>, i: nat)
    requires i < |arts| && HasUrl(arts[i])
    requires forall j :: i < j < |arts| ==> UrlOf(arts[j]) != UrlOf(arts[i])
    ensures UrlOf(arts[i]).value in AddAll(lib, arts)
    ensures AddAll(lib, arts)[UrlOf(arts[i]).value] == arts[i]
    decreases |arts|
  {
    if i < |arts| - 1 {
      var n := |arts| - 1;
      AddAllLastWins(lib, arts[..n], i);
    }
  }

  /** The library after a run: the old entries unchanged, the urls of the
      new articles added, and nothing removed. */
  lemma FilterNeverRemoves(scraped: seq<Record>, lib: Library)
    requires NewArticles(scraped, lib).Ok?
    ensures var out := NewArticles(scraped, lib).value;
      (forall k :: k in lib ==> k in AddAll(lib, out) && AddAll(lib, out)[k] == lib[k]) &&
      AddAll(lib, out).Keys == lib.Keys + Urls(out)
  {
    NewArticlesHaveUrls(scraped, lib);
    AddAllKeeps(lib, NewArticles(scraped, lib).value);
  }

  /** Every article of a batch that went through has its url in the
      library written back. */
  lemma {:induction false} UrlsCovered(scraped: seq<Record>, lib: Library)
    requires NewArticles(scraped, lib).Ok?
    ensures forall i :: 0 <= i < |scraped| ==>
        HasUrl(scraped[i]) && UrlOf(scraped[i]).value in AddAll(lib, NewArticles(scraped, lib).value)
  {
    NewArticlesHaveUrls(scraped, lib);
    var out := NewArticles(scraped, lib).value;
    AddAllKeeps(lib, out);
    NewArticlesFails(scraped, lib);
    forall i | 0 <= i < |scraped|
      ensures UrlOf(scraped[i]).value in AddAll(lib, out)
    {
      if UrlOf(scraped[i]).value !in lib {
        NewArticlesCounts(scraped, lib, scraped[i]);
        assert scraped[i] in multiset(scraped);
        assert scraped[i] in multiset(out);
        var j :| 0 <= j < |out| && out[j] == scraped[i];
        UrlsMeaning(out, UrlOf(scraped[i]).value);
      }
    }
  }

  /** Running the same batch against the library it produced finds nothing
      new, so nothing is uploaded the second time. */
  lemma RerunFindsNothing(scraped: seq<Record>, lib: Library)
    requires NewArticles(scraped, lib).Ok?
    ensures NewArticles(scraped, AddAll(lib, NewArticles(scraped, lib).value)) == Ok([])
  {
    NewArticlesHaveUrls(scraped, lib);
    UrlsCovered(scraped, lib);
    AllSeen(scraped, AddAll(lib, NewArticles(scraped, lib).value));
  }

  lemma {:induction false} AllSeen(scraped: seq<Record>, lib: Library)
    requires forall i :: 0 <= i < |scraped| ==> HasUrl(scraped[i]) && UrlOf(scraped[i]).value in lib
    ensures NewArticles(scraped, lib) == Ok([])
    decreases |scraped|
  {
    if scraped != [] {
      AllSeen(scraped[..|scraped| - 1], lib);
    }
  }
}
