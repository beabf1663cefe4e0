/** The per-chunk summarizer worker (lambda/summarizer/summarizer_lambda.py):
    summarize the articles of one event and store the result under a key
    built from the run id and the chunk id. */
module SummarizerWorker {
  import opened Base
  import opened Text
  import opened Chunker
  import opened Summarizer

  const DefaultWorkerPrefix: string := "output/summarizer/"

  /** The event as a dict: `articles` is any JSON value; the two ids are
      strings when present. */
  datatype WorkerEvent = WorkerEvent(articles: Option<Json>, chunkId: Option<string>, runId: Option<string>)

  datatype WorkerResponse =
    | Saved(summaryKey: string, count: nat)
    | NoArticles
    | MissingBucket
    | Failed(error: Exc)
  {
    function StatusCode(): int {
      match this
      case Saved(_, _) => 200
      case NoArticles => 400
      case _ => 500
    }
  }

  /** `SUMMARIZER_OUTPUT_PREFIX`, read from the environment. */
  function WorkerPrefix(prefixEnv: Option<string>): string {
    prefixEnv.GetOr(DefaultWorkerPrefix)
  }

  /** The key a worker writes for an event. */
  function WorkerKey(prefixEnv: Option<string>, event: WorkerEvent): string {
    ResultKey(WorkerPrefix(prefixEnv), event.runId.GetOr("unknown_run"), event.chunkId.GetOr("chunk"))
  }

  /** `len(articles)` is defined. */
  predicate HasLength(j: Json) {
    j.JStr? || j.JList? || j.JObj?
  }

  /** `handler(event, context)`: the response and the store it leaves.
      `ticks` drive the summarizer loop. */
  method Handler(bucketSet: bool, prefixEnv: Option<string>, event: WorkerEvent, ticks: seq<Tick>,
                 store: map<string, seq<Json>>)
    returns (resp: WorkerResponse, store': map<string, seq<Json>>)
    ensures !bucketSet ==> resp == MissingBucket && store' == store
    ensures bucketSet && (event.articles.None? || !HasLength(event.articles.value)) ==>
      resp == Failed(TypeError) && store' == store
    ensures bucketSet && event.articles.Some? && HasLength(event.articles.value) && !Truthy(event.articles.value) ==>
      resp == NoArticles && store' == store
    ensures bucketSet && event.articles.Some? && HasLength(event.articles.value) && Truthy(event.articles.value) ==>
      match SummarizeSpec(event.articles, None, ticks)
      case Err(e) => resp == Failed(e) && store' == store
      case Ok(summarized) =>
        resp == Saved(WorkerKey(prefixEnv, event), |summarized|) &&
        store' == store[WorkerKey(prefixEnv, event) := summarized]
  {
    store' := store;
    if !bucketSet {
      return MissingBucket, store';
    }
    var articles := event.articles;
    var chunkId := event.chunkId.GetOr("chunk");
    var runId := event.runId.GetOr("unknown_run");
    if articles.None? || !HasLength(articles.value) {
      return Failed(TypeError), store';
    }
    if !Truthy(articles.value) {
      return NoArticles, store';
    }
    var summarized := SummarizeArticles(articles, None, ticks);
    if summarized.Err? {
      return Failed(summarized.error), store';
    }
    var outputKey := ResultKey(WorkerPrefix(prefixEnv), runId, chunkId);
    store' := store[outputKey := summarized.value];
    resp := Saved(outputKey, |summarized.value|);
  }

  /** The payload `orchestrate_chunks` sends, as the worker reads it. */
  function EventOf(inv: Invocation<Json>): WorkerEvent {
    WorkerEvent(Some(JList(inv.articles)), Some(inv.chunkId), Some(inv.runId))
  }

  /** With its prefix set to the one the reassembler lists, the worker for
      chunk `n` of a run writes a key under that run's result prefix, and
      the reassembler reads the chunk number `n` back out of it. */
  lemma AlignedKeyParsesBack(runId: string, n: nat, uuid: string, chunk: seq<Json>)
    requires NoMarker(ResultPrefix(DefaultSummarizerOutputPrefix, runId))
    ensures var key := WorkerKey(Some(DefaultSummarizerOutputPrefix), EventOf(Invocation(ChunkId(n, uuid), chunk, runId)));
      key == ResultKey(DefaultSummarizerOutputPrefix, runId, ChunkId(n, uuid)) &&
      StartsWith(key, ResultPrefix(DefaultSummarizerOutputPrefix, runId)) &&
      ExtractChunkIndex(key) == Some(n)
  {
    IndexOfResultKey(DefaultSummarizerOutputPrefix, runId, n, uuid);
    var key := ResultKey(DefaultSummarizerOutputPrefix, runId, ChunkId(n, uuid));
    var p := ResultPrefix(DefaultSummarizerOutputPrefix, runId);
    assert key == p + (ChunkId(n, uuid) + ".json");
    assert key[..|p|] == p;
  }

  /** With the default prefix the worker writes where the reassembler never
      looks: no key it writes lies under the reassembler's prefix. */
  lemma DefaultPrefixMisses(event: WorkerEvent, runId: string)
    ensures !StartsWith(WorkerKey(None, event), ResultPrefix(DefaultSummarizerOutputPrefix, runId))
  {
    var key := WorkerKey(None, event);
    var p := ResultPrefix(DefaultSummarizerOutputPrefix, runId);
    assert key[0] == 'o';
    assert p[0] == 'a';
  }
}
