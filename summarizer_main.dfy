/** The summarizer entry Lambda (lambda/summarizer/summarizer_main_lambda.py):
    fan the newest scraper output out to the workers, wait for their result
    objects inside one paginated listing, publish the final file (a copy
    for a single chunk, a reassembly otherwise) and report on what the
    final file holds.

    Line 51 of the handler logs `obj['Key']` for every collected key, but
    the collected keys are strings, so the expression raises TypeError as
    soon as one key has been collected. The flag `asWritten` selects that
    behaviour; with it off the log line is harmless, which is what the
    authors evidently meant. */
module SummarizerMain {
  import opened Base
  import opened Text
  import opened Listing
  import opened Chunker

  const MaxWait: nat := 600
  const Interval: nat := 15

  /** The prefix the handler polls: the workers' result prefix for the run. */
  function PolledPrefix(runId: string): string {
    ResultPrefix(DefaultSummarizerOutputPrefix, runId)
  }

  /** Where the handler publishes and then reads the final file; the
      `FINAL_SUMMARIZED_FILE` variable overrides the file name. */
  function FinalSummaryKey(runId: string, finalFileEnv: Option<string>): string {
    DefaultSummarizerOutputPrefix + finalFileEnv.GetOr("final_summarized_" + runId + ".json")
  }

  // ---------------------------------------------------------------------
  // The page loop

  /** How the page loop ends: with the collected keys and the seconds
      waited, or with an exception. */
  datatype PollOutcome = Collected(keys: seq<string>, waited: nat) | Raised(error: Exc)

  /** The page loop from page `i` on, with `keys` collected and `waited`
      seconds slept so far. Each page adds its `.json` keys; then the loop
      stops when enough keys are there, raises when another sleep would pass
      the limit, and otherwise sleeps and reads the next page. Running out
      of pages ends the loop without an error. */
  function PollFrom(pages: seq<seq<string>>, i: nat, expected: nat, asWritten: bool,
                    keys: seq<string>, waited: nat): PollOutcome
    requires i <= |pages|
    decreases |pages| - i
  {
    if i == |pages| then Collected(keys, waited)
    else
      var keys' := keys + JsonKeys(pages[i]);
      if asWritten && keys' != [] then Raised(TypeError)
      else if |keys'| >= expected then Collected(keys', waited)
      else if waited + Interval > MaxWait then Raised(TimeoutError)
      else PollFrom(pages, i + 1, expected, asWritten, keys', waited + Interval)
  }

  function Poll(pages: seq<seq<string>>, expected: nat, asWritten: bool): PollOutcome {
    PollFrom(pages, 0, expected, asWritten, [], 0)
  }

  /** The inner loop over one page's objects: its `.json` keys, in order. */
  method PageJsonKeys(page: seq<string>) returns (found: seq<string>)
    ensures found == JsonKeys(page)
  {
    found := [];
    var j := 0;
    while j < |page|
      invariant j <= |page|
      invariant found == JsonKeys(page[..j])
    {
      JsonKeysAppend(page[..j], [page[j]]);
      assert page[..j + 1] == page[..j] + [page[j]];
      if IsJsonKey(page[j]) {
        found := found + [page[j]];
      }
      j := j + 1;
    }
    assert page[..j] == page;
  }

  /** The loop of lines 44-62 over the pages of one listing; `checks`
      counts the pages whose keys were examined. */
  method PollPages(pages: seq<seq<string>>, expected: nat, asWritten: bool)
    returns (r: PollOutcome, checks: nat)
    ensures r == Poll(pages, expected, asWritten)
    ensures checks <= |pages|
  {
    var keys: seq<string> := [];
    var waited: nat := 0;
    var i := 0;
    while i < |pages|
      invariant i <= |pages|
      invariant PollFrom(pages, i, expected, asWritten, keys, waited) == Poll(pages, expected, asWritten)
    {
      var found := PageJsonKeys(pages[i]);
      keys := keys + found;
      if asWritten && keys != [] {
        return Raised(TypeError), i + 1;
      }
      if |keys| >= expected {
        return Collected(keys, waited), i + 1;
      }
      if waited + Interval > MaxWait {
        return Raised(TimeoutError), i + 1;
      }
      waited := waited + Interval;
      i := i + 1;
    }
    return Collected(keys, waited), i;
  }

  /** The loop never sleeps past the limit: the seconds waited are a
      multiple of the interval, and a timeout needs more than 40 pages,
      since the loop never lists again after sleeping. */
  lemma {:induction false} PollFromBounds(pages: seq<seq<string>>, i: nat, expected: nat, asWritten: bool,
                                          keys: seq<string>, waited: nat)
    requires i <= |pages| && waited == Interval * i && waited <= MaxWait
    ensures PollFrom(pages, i, expected, asWritten, keys, waited).Collected? ==>
      PollFrom(pages, i, expected, asWritten, keys, waited).waited % Interval == 0 &&
      PollFrom(pages, i, expected, asWritten, keys, waited).waited <= MaxWait
    ensures PollFrom(pages, i, expected, asWritten, keys, waited) == Raised(TimeoutError) ==> |pages| > 40
    decreases |pages| - i
  {
    if i < |pages| {
      var keys' := keys + JsonKeys(pages[i]);
      if !(asWritten && keys' != []) && |keys'| < expected && waited + Interval <= MaxWait {
        PollFromBounds(pages, i + 1, expected, asWritten, keys', waited + Interval);
      }
    }
  }

  lemma PollBounds(pages: seq<seq<string>>, expected: nat, asWritten: bool)
    ensures Poll(pages, expected, asWritten).Collected? ==>
      Poll(pages, expected, asWritten).waited % Interval == 0 && Poll(pages, expected, asWritten).waited <= MaxWait
    ensures Poll(pages, expected, asWritten) == Raised(TimeoutError) ==> |pages| > 40
  {
    PollFromBounds(pages, 0, expected, asWritten, [], 0);
  }

  /** The `.json` keys of the first `j` pages, in listing order. */
  function KeysUpTo(pages: seq<seq<string>>, j: nat): seq<string>
    requires j <= |pages|
  {
    JsonKeys(Flatten(pages[..j]))
  }

  lemma KeysUpToStep(pages: seq<seq<string>>, j: nat)
    requires j < |pages|
    ensures KeysUpTo(pages, j + 1) == KeysUpTo(pages, j) + JsonKeys(pages[j])
  {
    assert pages[..j + 1] == pages[..j] + [pages[j]];
    FlattenAppend(pages[..j], [pages[j]]);
    assert Flatten([pages[j]]) == pages[j];
    JsonKeysAppend(Flatten(pages[..j]), pages[j]);
  }

  lemma {:induction false} PollFromKeys(pages: seq<seq<string>>, i: nat, expected: nat, asWritten: bool,
                                        waited: nat)
    requires i <= |pages|
    ensures var r := PollFrom(pages, i, expected, asWritten, KeysUpTo(pages, i), waited);
      r.Collected? ==> exists j :: i <= j <= |pages| && r.keys == KeysUpTo(pages, j) &&
                                   (j == |pages| || |r.keys| >= expected)
    decreases |pages| - i
  {
    if i < |pages| {
      KeysUpToStep(pages, i);
      PollFromKeys(pages, i + 1, expected, asWritten, waited + Interval);
    }
  }

  /** The loop collects the `.json` keys of the pages in order, across
      pages, and stops early only once it holds the expected number. */
  lemma PollKeys(pages: seq<seq<string>>, expected: nat, asWritten: bool)
    ensures var r := Poll(pages, expected, asWritten);
      r.Collected? ==> exists j :: 0 <= j <= |pages| && r.keys == KeysUpTo(pages, j) &&
                                   (j == |pages| || |r.keys| >= expected)
  {
    assert pages[..0] == [];
    assert KeysUpTo(pages, 0) == [];
    PollFromKeys(pages, 0, expected, asWritten, 0);
  }

  lemma KeysUpToPrefix(pages: seq<seq<string>>, j: nat)
    requires j <= |pages|
    ensures KeysUpTo(pages, j) <= KeysUpTo(pages, |pages|)
  {
    assert pages == pages[..j] + pages[j..];
    FlattenAppend(pages[..j], pages[j..]);
    JsonKeysAppend(Flatten(pages[..j]), Flatten(pages[j..]));
    assert pages[..|pages|] == pages;
  }

  /** As written, the loop can only end normally with no key at all: the
      log line raises as soon as one key has been collected. */
  lemma {:induction false} AsWrittenFromCollectsNothing(pages: seq<seq<string>>, i: nat, expected: nat,
                                                        keys: seq<string>, waited: nat)
    requires i <= |pages|
    requires PollFrom(pages, i, expected, true, keys, waited).Collected?
    ensures i < |pages| || PollFrom(pages, i, expected, true, keys, waited).keys == keys
    ensures keys == [] ==> PollFrom(pages, i, expected, true, keys, waited).keys == []
    decreases |pages| - i
  {
    if i < |pages| {
      var keys' := keys + JsonKeys(pages[i]);
      if keys' == [] && |keys'| < expected && waited + Interval <= MaxWait {
        AsWrittenFromCollectsNothing(pages, i + 1, expected, keys', waited + Interval);
      }
    }
  }

  lemma AsWrittenCollectsNothing(pages: seq<seq<string>>, expected: nat)
    ensures Poll(pages, expected, true).Collected? ==> Poll(pages, expected, true).keys == []
  {
    if Poll(pages, expected, true).Collected? {
      AsWrittenFromCollectsNothing(pages, 0, expected, [], 0);
    }
  }

  /** One page holding one result: as written the handler raises, with the
      log line corrected it collects the key without waiting. */
  lemma LogLineCounterexample()
    ensures Poll([["r.json"]], 1, true) == Raised(TypeError)
    ensures Poll([["r.json"]], 1, false) == Collected(["r.json"], 0)
  {
    assert IsJsonKey("r.json") by {
      assert "r.json"[|"r.json"| - 5..] == ".json";
    }
    assert JsonKeys(["r.json"]) == ["r.json"] by {
      assert JsonKeys(["r.json"][1..]) == [];
    }
  }

  /** With the log line corrected, a run whose listing holds exactly one
      result key, on at most 40 pages, collects exactly that key. */
  lemma CorrectedSingleKeyCollected(pages: seq<seq<string>>, k: string)
    requires JsonKeys(Flatten(pages)) == [k] && |pages| <= 40
    ensures Poll(pages, 1, false).Collected? && Poll(pages, 1, false).keys == [k]
  {
    var r := Poll(pages, 1, false);
    PollBounds(pages, 1, false);
    CorrectedOnlyTimesOut(pages, 0, 1, [], 0);
    assert r.Collected?;
    PollKeys(pages, 1, false);
    var j :| 0 <= j <= |pages| && r.keys == KeysUpTo(pages, j) && (j == |pages| || |r.keys| >= 1);
    assert KeysUpTo(pages, |pages|) == [k] by {
      assert pages[..|pages|] == pages;
    }
    KeysUpToPrefix(pages, j);
    assert r.keys <= [k];
  }

  /** With the log line corrected, the loop can only fail by timing out. */
  lemma {:induction false} CorrectedOnlyTimesOut(pages: seq<seq<string>>, i: nat, expected: nat, keys: seq<string>, waited: nat)
    requires i <= |pages|
    ensures PollFrom(pages, i, expected, false, keys, waited).Raised? ==>
      PollFrom(pages, i, expected, false, keys, waited).error == TimeoutError
    decreases |pages| - i
  {
    if i < |pages| {
      var keys' := keys + JsonKeys(pages[i]);
      if |keys'| < expected && waited + Interval <= MaxWait {
        CorrectedOnlyTimesOut(pages, i + 1, expected, keys', waited + Interval);
      }
    }
  }

  // ---------------------------------------------------------------------
  // Publishing and reporting

  /** The handler's response: the 200 body's fields, or the 500 error. */
  datatype MainResponse =
    | Completed(chunks: seq<string>, chunkSize: Json, articleTitles: seq<Json>, articleCount: nat,
                articleKeys: set<string>, hasSummaries: bool, hashtags: seq<Json>)
    | Failed(error: Exc)
  {
    function StatusCode(): int {
      if Completed? then 200 else 500
    }
  }

  /** Lines 66-77: a single collected key is copied to the final key;
      any other number of keys is reassembled by the chunker, which writes
      its own final key. */
  function Publish(keys: seq<string>, runId: string, finalKey: string, bucketSet: bool,
                   resultListing: seq<ObjectInfo>, store: map<string, seq<Json>>): Result<map<string, seq<Json>>>
  {
    if |keys| == 1 then
      if keys[0] in store then Ok(store[finalKey := store[keys[0]]]) else Err(ClientError("NoSuchKey"))
    else
      match ReassembleSpec(bucketSet, runId, resultListing, store)
      case Err(e) => Err(e)
      case Ok(c) => Ok(store[c.finalKey := c.items])
  }

  predicate AllObjects(items: seq<Json>) {
    forall i :: 0 <= i < |items| ==> items[i].JObj?
  }

  /** Lines 79-134. `content` is `None` when the final file could not be
      read; the name `content` is then never bound and line 132 raises. A
      non-empty list holding a non-object makes `a.get` raise. */
  function Report(keys: seq<string>, chunkSize: Json, content: Option<seq<Json>>): (resp: MainResponse)
    ensures content.None? ==> resp == Failed(UnboundLocalError)
    ensures resp.Completed? <==> content.Some? && AllObjects(content.value)
    ensures resp.Completed? ==>
      resp.chunkSize == chunkSize && |resp.chunks| == |keys| && resp.articleCount == |content.value| &&
      |resp.articleTitles| == |content.value| && |resp.hashtags| == |content.value| &&
      (forall i :: 0 <= i < |keys| ==> resp.chunks[i] == Basename(keys[i])) &&
      (forall i :: 0 <= i < |content.value| ==>
         resp.articleTitles[i] == Get(content.value[i].fields, "title", JStr("Untitled")) &&
         resp.hashtags[i] == Get(content.value[i].fields, "hashtags", JList([]))) &&
      (resp.hasSummaries <==> content.value != [] && "summary" in content.value[0].fields) &&
      resp.articleKeys == (if content.value == [] then {} else content.value[0].fields.Keys)
  {
    match content
    case None => Failed(UnboundLocalError)
    case Some(items) =>
      if !AllObjects(items) then Failed(AttributeError)
      else
        var chunks := seq(|keys|, i requires 0 <= i < |keys| => Basename(keys[i]));
        var titles := seq(|items|, i requires 0 <= i < |items| && items[i].JObj? =>
                            Get(items[i].fields, "title", JStr("Untitled")));
        var tags := seq(|items|, i requires 0 <= i < |items| && items[i].JObj? =>
                          Get(items[i].fields, "hashtags", JList([])));
        if items == [] then Completed(chunks, chunkSize, [], 0, {}, false, [])
        else Completed(chunks, chunkSize, titles, |items|, items[0].fields.Keys,
                       "summary" in items[0].fields, tags)
  }

  /** Everything the handler does after `orchestrate_chunks` returned
      `(runId, expected)`: the response and the store it leaves. */
  function AfterOrchestration(runId: string, chunkSize: Json, expected: nat, finalFileEnv: Option<string>,
                              pages: seq<seq<string>>, bucketSet: bool, resultListing: seq<ObjectInfo>,
                              store: map<string, seq<Json>>, asWritten: bool): (MainResponse, map<string, seq<Json>>)
  {
    if runId == "" then (Failed(ValueError("Failed to initialize chunking: invalid run_id or chunk count.")), store)
    else
      match Poll(pages, expected, asWritten)
      case Raised(e) => (Failed(e), store)
      case Collected(keys, _) =>
        var finalKey := FinalSummaryKey(runId, finalFileEnv);
        match Publish(keys, runId, finalKey, bucketSet, resultListing, store)
        case Err(e) => (Failed(e), store)
        case Ok(published) =>
          (Report(keys, chunkSize, if finalKey in published then Some(published[finalKey]) else None), published)
  }

  /** `handler(event, context)`. The scraper listing, the pages of the
      result listing, the listing the reassembler reads and the store stand
      for the object store at the moments the handler calls it;
      `invokeError(i)` is what invoking the worker for chunk `i` raises. */
  method Handler(event: Record, runId: string, uuid: nat -> string, scraperListing: seq<ObjectInfo>,
                 invokeError: nat -> Option<Exc>,
                 finalFileEnv: Option<string>, pages: seq<seq<string>>, bucketSet: bool,
                 resultListing: seq<ObjectInfo>, store: map<string, seq<Json>>, asWritten: bool)
    returns (resp: MainResponse, store': map<string, seq<Json>>, invoked: seq<Invocation<Json>>)
    ensures var chunkSize := Get(event, "chunk_size", JInt(2));
            var key := GetLatestScraperKey(scraperListing);
      if key.Ok? && key.value in store && IntArg(chunkSize).Some? && IntArg(chunkSize).value != 0 then
        var expected := |SplitIntoChunks(store[key.value], IntArg(chunkSize).value).value|;
        var d := Dispatched(invokeError, 0, expected);
        |invoked| == d &&
        if d < expected then
          resp == Failed(invokeError(d).value) && store' == store
        else
          (resp, store') == AfterOrchestration(runId, chunkSize, expected, finalFileEnv, pages, bucketSet,
                                               resultListing, store, asWritten)
      else
        resp.Failed? && store' == store && invoked == []
  {
    var chunkSize := Get(event, "chunk_size", JInt(2));
    var orchestrated;
    orchestrated, invoked := OrchestrateChunks(chunkSize, runId, uuid, scraperListing, store, invokeError);
    store' := store;
    if orchestrated.Err? {
      return Failed(orchestrated.error), store', invoked;
    }
    resp, store' := AfterOrchestrating(runId, chunkSize, orchestrated.value.1, finalFileEnv, pages, bucketSet,
                                       resultListing, store, asWritten);
  }

  /** The handler from the check of the run id on: poll, publish, report. */
  method AfterOrchestrating(runId: string, chunkSize: Json, expected: nat, finalFileEnv: Option<string>,
                            pages: seq<seq<string>>, bucketSet: bool, resultListing: seq<ObjectInfo>,
                            store: map<string, seq<Json>>, asWritten: bool)
    returns (resp: MainResponse, store': map<string, seq<Json>>)
    ensures (resp, store') == AfterOrchestration(runId, chunkSize, expected, finalFileEnv, pages, bucketSet,
                                                 resultListing, store, asWritten)
  {
    store' := store;
    if runId == "" {
      return Failed(ValueError("Failed to initialize chunking: invalid run_id or chunk count.")), store';
    }
    var polled, _ := PollPages(pages, expected, asWritten);
    if polled.Raised? {
      return Failed(polled.error), store';
    }
    var keys := polled.keys;
    var finalKey := FinalSummaryKey(runId, finalFileEnv);
    var published := PublishFinal(keys, runId, finalKey, bucketSet, resultListing, store);
    if published.Err? {
      return Failed(published.error), store';
    }
    store' := published.value;
    var content := if finalKey in store' then Some(store'[finalKey]) else None;
    resp := Report(keys, chunkSize, content);
  }

  /** Lines 65-77: copy the single result to the final key, or reassemble. */
  method PublishFinal(keys: seq<string>, runId: string, finalKey: string, bucketSet: bool,
                      resultListing: seq<ObjectInfo>, store: map<string, seq<Json>>)
    returns (r: Result<map<string, seq<Json>>>)
    ensures r == Publish(keys, runId, finalKey, bucketSet, resultListing, store)
  {
    if |keys| == 1 {
      if keys[0] !in store {
        return Err(ClientError("NoSuchKey"));
      }
      return Ok(store[finalKey := store[keys[0]]]);
    }
    var consolidated := Reassemble(bucketSet, runId, resultListing, store);
    if consolidated.Err? {
      return Err(consolidated.error);
    }
    return Ok(store[consolidated.value.finalKey := consolidated.value.items]);
  }

  // ---------------------------------------------------------------------
  // Properties of the whole handler

  /** As written, a completed run reports no chunk: every run that collects
      a key fails at the log line, and the single-chunk copy never runs. */
  lemma AsWrittenReportsNoChunks(runId: string, chunkSize: Json, expected: nat, finalFileEnv: Option<string>,
                                 pages: seq<seq<string>>, bucketSet: bool, resultListing: seq<ObjectInfo>,
                                 store: map<string, seq<Json>>)
    ensures var (resp, _) := AfterOrchestration(runId, chunkSize, expected, finalFileEnv, pages, bucketSet,
                                                resultListing, store, true);
      resp.Completed? ==> resp.chunks == []
  {
    AsWrittenCollectsNothing(pages, expected);
  }

  /** With the log line corrected, a run of one chunk whose result is
      listed on at most 40 pages is published by copying that result to the
      final key, without reassembly. */
  lemma CorrectedSingleChunkCopied(runId: string, chunkSize: Json, finalFileEnv: Option<string>,
                                   pages: seq<seq<string>>, k: string, bucketSet: bool,
                                   resultListing: seq<ObjectInfo>, store: map<string, seq<Json>>)
    requires runId != "" && JsonKeys(Flatten(pages)) == [k] && |pages| <= 40 && k in store
    ensures var finalKey := FinalSummaryKey(runId, finalFileEnv);
      AfterOrchestration(runId, chunkSize, 1, finalFileEnv, pages, bucketSet, resultListing, store, false)
        == (Report([k], chunkSize, Some(store[k])), store[finalKey := store[k]])
  {
    CorrectedSingleKeyCollected(pages, k);
  }

  /** Without the `FINAL_SUMMARIZED_FILE` override, the handler reads back
      exactly what the reassembler wrote; with an override naming another
      file, a reassembled run reads a key nobody wrote and fails. */
  lemma ReassembledReadBack(runId: string, chunkSize: Json, expected: nat, pages: seq<seq<string>>,
                            bucketSet: bool, resultListing: seq<ObjectInfo>, store: map<string, seq<Json>>,
                            asWritten: bool)
    requires runId != ""
    requires Poll(pages, expected, asWritten).Collected? && |Poll(pages, expected, asWritten).keys| != 1
    requires ReassembleSpec(bucketSet, runId, resultListing, store).Ok?
    ensures var c := ReassembleSpec(bucketSet, runId, resultListing, store).value;
      AfterOrchestration(runId, chunkSize, expected, None, pages, bucketSet, resultListing, store, asWritten)
        == (Report(Poll(pages, expected, asWritten).keys, chunkSize, Some(c.items)), store[FinalKey(runId) := c.items])
  {
    assert FinalSummaryKey(runId, None) == FinalKey(runId);
  }
}
