/** The chunker utility (lambda/layers/common/python/utils/chunker.py):
    splitting a batch into fixed-size chunks, naming each chunk, dispatching
    one summarizer invocation per chunk, and putting the per-chunk results
    back together in chunk order. The object store is a map from key to
    the decoded contents of that key; listings are sequences of objects. */
module Chunker {
  import opened Base
  import opened Text
  import opened Listing

  const DefaultChunkSize: int := 2
  const DefaultSummarizerOutputPrefix: string := "ai-research-pipeline/output/summarizer/"
  const DefaultScraperPrefix: string := "ai-research-pipeline/output/scraper/"

  // ---------------------------------------------------------------------
  // Splitting

  function Flatten<T>(css: seq<seq<T>>): seq<T> {
    if css == [] then [] else css[0] + Flatten(css[1..])
  }

  lemma {:induction false} FlattenAppend<T>(a: seq<seq<T>>, b: seq<seq<T>>)
    ensures Flatten(a + b) == Flatten(a) + Flatten(b)
    decreases |a|
  {
    if a != [] {
      assert (a + b)[1..] == a[1..] + b;
      FlattenAppend(a[1..], b);
    } else {
      assert a + b == b;
    }
  }

  /** `[data[i:i + k] for i in range(0, len(data), k)]` for a step k >= 1. */
  function Chunks<T>(data: seq<T>, k: nat): seq<seq<T>>
    requires k >= 1
    decreases |data|
  {
    if data == [] then []
    else if |data| <= k then [data]
    else [data[..k]] + Chunks(data[k..], k)
  }

  /** `split_into_chunks(data, size)`: `range` refuses a zero step with a
      ValueError and yields nothing for a negative one. */
  function SplitIntoChunks<T>(data: seq<T>, size: int): (r: Result<seq<seq<T>>>)
    ensures r.Err? <==> size == 0
    ensures size < 0 ==> r == Ok([])
  {
    if size == 0 then Err(ValueError("range() arg 3 must not be zero"))
    else if size < 0 then Ok([])
    else Ok(Chunks(data, size))
  }

  /** Concatenating the chunks gives back the input exactly. */
  lemma {:induction false} ChunksFlatten<T>(data: seq<T>, k: nat)
    requires k >= 1
    ensures Flatten(Chunks(data, k)) == data
    decreases |data|
  {
    if |data| > k {
      ChunksFlatten(data[k..], k);
      assert data == data[..k] + data[k..];
    }
  }

  /** ceil(N/K) chunks; each is non-empty and at most K long; all but the
      last have exactly K items. */
  lemma {:induction false} ChunksShape<T>(data: seq<T>, k: nat)
    requires k >= 1
    ensures (|Chunks(data, k)| - 1) * k < |data| <= |Chunks(data, k)| * k
    ensures forall i :: 0 <= i < |Chunks(data, k)| ==> 1 <= |Chunks(data, k)[i]| <= k
    ensures forall i :: 0 <= i < |Chunks(data, k)| - 1 ==> |Chunks(data, k)[i]| == k
    decreases |data|
  {
    if data == [] {
    } else if |data| <= k {
    } else {
      ChunksShape(data[k..], k);
      var cs := Chunks(data, k);
      assert cs == [data[..k]] + Chunks(data[k..], k);
      assert forall i :: 1 <= i < |cs| ==> cs[i] == Chunks(data[k..], k)[i - 1];
    }
  }

  // ---------------------------------------------------------------------
  // Naming: chunk ids, result keys, the final key

  /** `f"chunk-{n}-{uuid}"` */
  function ChunkId(n: nat, uuid: string): string {
    "chunk-" + NatToString(n) + "-" + uuid
  }

  /** The prefix the workers of one run write under and the reassembler lists. */
  function ResultPrefix(prefix: string, runId: string): string {
    prefix + "summarized_" + runId + "_"
  }

  /** `f"{prefix}summarized_{run_id}_{chunk_id}.json"`, the key a worker writes. */
  function ResultKey(prefix: string, runId: string, chunkId: string): string {
    ResultPrefix(prefix, runId) + chunkId + ".json"
  }

  /** The consolidated key; the reassembler's `prefix` argument plays no part. */
  function FinalKey(runId: string): string {
    DefaultSummarizerOutputPrefix + "final_summarized_" + runId + ".json"
  }

  // ---------------------------------------------------------------------
  // Dispatch

  /** One asynchronous summarizer invocation: its payload. */
  datatype Invocation<T> = Invocation(chunkId: string, articles: seq<T>, runId: string)

  /** `get_latest_scraper_key`: the newest `.json` object of the listing. */
  function GetLatestScraperKey(listing: seq<ObjectInfo>): (r: Result<string>)
    ensures r.Err? <==> JsonObjects(listing) == []
    ensures r.Err? ==> r.error == FileNotFoundError
    ensures r.Ok? ==> IsJsonKey(r.value)
    ensures r.Ok? ==>
      exists i :: 0 <= i < |listing| && listing[i].key == r.value &&
        (forall j :: 0 <= j < |listing| && IsJsonKey(listing[j].key) ==> listing[j].lastModified <= listing[i].lastModified) &&
        (forall j :: 0 <= j < i && IsJsonKey(listing[j].key) ==> listing[j].lastModified < listing[i].lastModified)
  {
    if listing == [] then Err(FileNotFoundError)
    else
      var json := JsonObjects(listing);
      if json == [] then Err(FileNotFoundError)
      else
        LatestJsonPosition(listing);
        JsonObjectsMembers(listing);
        assert json[LatestIndex(json)] in json;
        Ok(json[LatestIndex(json)].key)
  }

  /** The integer `range` accepts as a step: a Python `int`, `bool` included. */
  function IntArg(j: Json): Option<int> {
    match j
    case JInt(i) => Some(i)
    case JBool(b) => Some(if b then 1 else 0)
    case _ => None
  }

  /** How many chunks `orchestrate_chunks` dispatches, counting from chunk
      `i` of `n`, when `invokeError(j)` is what the invocation of chunk `j`
      raises, if anything: it stops at the first invocation that raises. */
  function Dispatched(invokeError: nat -> Option<Exc>, i: nat, n: nat): (d: nat)
    requires i <= n
    ensures i <= d <= n
    ensures d < n ==> invokeError(d).Some?
    decreases n - i
  {
    if i == n || invokeError(i).Some? then i else Dispatched(invokeError, i + 1, n)
  }

  /** Every invocation before the dispatched count succeeds, so all `n`
      chunks are dispatched exactly when no invocation raises. */
  lemma {:induction false} DispatchedMeaning(invokeError: nat -> Option<Exc>, i: nat, n: nat)
    requires i <= n
    ensures var d := Dispatched(invokeError, i, n);
      (forall j :: i <= j < d ==> invokeError(j).None?) &&
      (d == n <==> forall j :: i <= j < n ==> invokeError(j).None?)
    decreases n - i
  {
    if i < n && invokeError(i).None? {
      DispatchedMeaning(invokeError, i + 1, n);
    }
  }

  /** `orchestrate_chunks(chunk_size)`: pick the newest scraper output, split
      it, and invoke one worker per chunk, in chunk order, with a one-based
      chunk id. `runId` and `uuid` stand for the clock and uuid4; `store`
      maps a key to the decoded article list stored there; `invokeError(i)`
      is what the invocation of chunk `i` raises, if anything, in which
      case the workers already started keep their invocations and the
      exception propagates. A chunk size that is not an integer makes
      `range` raise TypeError. */
  method OrchestrateChunks<T>(chunkSize: Json, runId: string, uuid: nat -> string,
                              scraperListing: seq<ObjectInfo>, store: map<string, seq<T>>,
                              invokeError: nat -> Option<Exc>)
    returns (r: Result<(string, nat)>, invoked: seq<Invocation<T>>)
    ensures var key := GetLatestScraperKey(scraperListing);
      !(key.Ok? && key.value in store && IntArg(chunkSize).Some? && IntArg(chunkSize).value != 0) ==>
        r.Err? && invoked == []
    ensures var key := GetLatestScraperKey(scraperListing);
      key.Ok? && key.value in store && IntArg(chunkSize).Some? && IntArg(chunkSize).value != 0 ==>
        var chunks := SplitIntoChunks(store[key.value], IntArg(chunkSize).value).value;
        var d := Dispatched(invokeError, 0, |chunks|);
        |invoked| == d &&
        (forall i :: 0 <= i < d ==> invoked[i] == Invocation(ChunkId(i + 1, uuid(i)), chunks[i], runId)) &&
        r == (if d == |chunks| then Ok((runId, |chunks|)) else Err(invokeError(d).value))
  {
    invoked := [];
    var key := GetLatestScraperKey(scraperListing);
    if key.Err? {
      return Err(key.error), [];
    }
    if key.value !in store {
      return Err(ClientError("404")), [];
    }
    if IntArg(chunkSize).None? {
      return Err(TypeError), [];
    }
    var split := SplitIntoChunks(store[key.value], IntArg(chunkSize).value);
    if split.Err? {
      return Err(split.error), [];
    }
    var chunks := split.value;
    var idx := 0;
    while idx < |chunks|
      invariant 0 <= idx <= |chunks|
      invariant Dispatched(invokeError, idx, |chunks|) == Dispatched(invokeError, 0, |chunks|)
      invariant idx <= Dispatched(invokeError, 0, |chunks|)
      invariant |invoked| == idx
      invariant forall i :: 0 <= i < idx ==> invoked[i] == Invocation(ChunkId(i + 1, uuid(i)), chunks[i], runId)
    {
      var raised := invokeError(idx);
      if raised.Some? {
        return Err(raised.value), invoked;
      }
      var chunkId := ChunkId(idx + 1, uuid(idx));
      invoked := invoked + [Invocation(chunkId, chunks[idx], runId)];
      idx := idx + 1;
    }
    r := Ok((runId, |chunks|));
  }

  // ---------------------------------------------------------------------
  // `extract_chunk_index`: `re.search(r'chunk-(\d+)', key)`

  /** `chunk-` followed by a digit starts at position `p` of `s`. */
  predicate MarkerAt(s: string, p: nat) {
    p + 7 <= |s| && s[p..p + 6] == "chunk-" && IsDigit(s[p + 6])
  }

  /** The number written by the digits that follow the marker at `p`. */
  function NumberAt(s: string, p: nat): nat
    requires p + 6 <= |s|
  {
    var tail := s[p + 6..];
    ParseDigits(tail[..DigitRun(tail)])
  }

  function IndexFrom(s: string, p: nat): Option<nat>
    decreases |s| - p
  {
    if p + 7 > |s| then None
    else if MarkerAt(s, p) then Some(NumberAt(s, p))
    else IndexFrom(s, p + 1)
  }

  /** The chunk number of a key, `None` standing for `float('inf')`. */
  function ExtractChunkIndex(key: string): Option<nat> {
    IndexFrom(key, 0)
  }

  /** The scan from `p` finds nothing exactly when no marker starts at or
      after `p`. */
  lemma {:induction false} IndexFromNone(s: string, p: nat)
    ensures IndexFrom(s, p).None? <==> forall q: nat :: p <= q ==> !MarkerAt(s, q)
    decreases |s| - p
  {
    if p + 7 > |s| {
      forall q: nat | p <= q
        ensures !MarkerAt(s, q)
      {
      }
    } else if !MarkerAt(s, p) {
      IndexFromNone(s, p + 1);
      assert IndexFrom(s, p) == IndexFrom(s, p + 1);
      if IndexFrom(s, p).None? {
        forall q: nat | p <= q
          ensures !MarkerAt(s, q)
        {
        }
      }
    }
  }

  /** What the scan from `p` finds is the number after the first marker at
      or after `p`. */
  lemma {:induction false} IndexFromSome(s: string, p: nat)
    ensures IndexFrom(s, p).Some? ==> exists q: nat :: p <= q && MarkerAt(s, q) && IndexFrom(s, p).value == NumberAt(s, q) &&
                                                        (forall q': nat :: p <= q' < q ==> !MarkerAt(s, q'))
    decreases |s| - p
  {
    if p + 7 <= |s| {
      if MarkerAt(s, p) {
        assert IndexFrom(s, p) == Some(NumberAt(s, p));
      } else {
        IndexFromSome(s, p + 1);
        assert IndexFrom(s, p) == IndexFrom(s, p + 1);
        if IndexFrom(s, p).Some? {
          var q: nat :| p + 1 <= q && MarkerAt(s, q) && IndexFrom(s, p + 1).value == NumberAt(s, q) &&
                        (forall q': nat :: p + 1 <= q' < q ==> !MarkerAt(s, q'));
          forall q': nat | p <= q' < q
            ensures !MarkerAt(s, q')
          {
          }
        }
      }
    }
  }

  lemma IndexFromMeaning(s: string, p: nat)
    ensures IndexFrom(s, p).None? <==> forall q: nat :: p <= q ==> !MarkerAt(s, q)
    ensures IndexFrom(s, p).Some? ==> exists q: nat :: p <= q && MarkerAt(s, q) && IndexFrom(s, p).value == NumberAt(s, q) &&
                                                        (forall q': nat :: p <= q' < q ==> !MarkerAt(s, q'))
  {
    IndexFromNone(s, p);
    IndexFromSome(s, p);
  }

  /** `extract_chunk_index` gives the number written after the leftmost
      `chunk-` that is followed by a digit, and infinity when there is none. */
  lemma ExtractChunkIndexMeaning(key: string)
    ensures ExtractChunkIndex(key).None? <==> forall q: nat :: !MarkerAt(key, q)
    ensures ExtractChunkIndex(key).Some? ==> exists q: nat :: MarkerAt(key, q) && ExtractChunkIndex(key).value == NumberAt(key, q) &&
                                                               (forall q': nat :: q' < q ==> !MarkerAt(key, q'))
  {
    IndexFromMeaning(key, 0);
  }

  /** No `chunk-<digit>` anywhere in `s`. */
  ghost predicate NoMarker(s: string) {
    forall q: nat :: !MarkerAt(s, q)
  }

  lemma {:induction false} SkipNoMarker(s: string, p: nat, q: nat)
    requires p <= q && q + 7 <= |s|
    requires forall i: nat :: p <= i < q ==> !MarkerAt(s, i)
    ensures IndexFrom(s, p) == IndexFrom(s, q)
    decreases q - p
  {
    if p < q {
      SkipNoMarker(s, p + 1, q);
    }
  }

  /** Appending text after a marker-free string ending in `_` creates no
      marker that starts inside that string. */
  lemma NoMarkerBefore(P: string, rest: string)
    requires NoMarker(P) && P != [] && P[|P| - 1] == '_'
    ensures forall i: nat :: i < |P| ==> !MarkerAt(P + rest, i)
  {
    var s := P + rest;
    forall i: nat | i < |P|
      ensures !MarkerAt(s, i)
    {
      if i + 7 <= |P| {
        assert s[i..i + 6] == P[i..i + 6] && s[i + 6] == P[i + 6];
        assert !MarkerAt(P, i);
      } else {
        // the `_` that ends P lies inside the six characters `chunk-`
        assert s[|P| - 1] == '_';
      }
    }
  }

  /** The number read after `chunk-` at the front of `chunk-<n>-...` is `n`. */
  lemma NumberOfChunkId(s: string, p: nat, n: nat, tail: string)
    requires p <= |s| && s[p..] == "chunk-" + NatToString(n) + tail
    requires tail != [] && !IsDigit(tail[0])
    ensures MarkerAt(s, p) && NumberAt(s, p) == n
  {
    var d := NatToString(n);
    assert s[p..][..6] == "chunk-";
    assert s[p..p + 6] == s[p..][..6];
    assert s[p + 6..] == d + tail;
    assert s[p + 6] == d[0];
    DigitRunOfNumeral(d, tail);
    assert (d + tail)[..|d|] == d;
    ParseNatToString(n);
  }

  /** A key built from a chunk id numbered `n` parses back to `n`, whatever
      the uuid, provided the prefix and run id carry no `chunk-<digit>`. */
  lemma IndexOfResultKey(prefix: string, runId: string, n: nat, uuid: string)
    requires NoMarker(ResultPrefix(prefix, runId))
    ensures ExtractChunkIndex(ResultKey(prefix, runId, ChunkId(n, uuid))) == Some(n)
  {
    var P := ResultPrefix(prefix, runId);
    var tail := "-" + uuid + ".json";
    var rest := "chunk-" + NatToString(n) + tail;
    var s := ResultKey(prefix, runId, ChunkId(n, uuid));
    assert s == P + rest;
    NoMarkerBefore(P, rest);
    assert s[|P|..] == rest;
    NumberOfChunkId(s, |P|, n, tail);
    SkipNoMarker(s, 0, |P|);
  }

  // ---------------------------------------------------------------------
  // Ordering: `sorted(contents, key=...)` with a sort key `rank`

  /** The order of sort keys: numbers ascending, the infinite key last. */
  predicate Le(a: Option<nat>, b: Option<nat>) {
    b.None? || (a.Some? && a.value <= b.value)
  }

  predicate SortedBy(ks: seq<string>, rank: string -> Option<nat>) {
    forall i, j :: 0 <= i < j < |ks| ==> Le(rank(ks[i]), rank(ks[j]))
  }

  /** Every key strictly before the next: distinct numeric keys in ascending order. */
  predicate StrictlySortedBy(ks: seq<string>, rank: string -> Option<nat>) {
    forall i, j :: 0 <= i < j < |ks| ==> !Le(rank(ks[j]), rank(ks[i]))
  }

  /** Places `x` after every key of the sorted `t` whose sort key is not
      greater than its own. */
  function Insert(t: seq<string>, x: string, rank: string -> Option<nat>): seq<string>
    decreases |t|
  {
    if t == [] then [x]
    else if Le(rank(t[0]), rank(x)) then [t[0]] + Insert(t[1..], x, rank)
    else [x] + t
  }

  /** A stable sort (Python's `sorted` is stable): each key in turn is
      inserted after the keys before it that do not sort above it. */
  function SortBy(ks: seq<string>, rank: string -> Option<nat>): seq<string>
    decreases |ks|
  {
    if ks == [] then []
    else Insert(SortBy(ks[..|ks| - 1], rank), ks[|ks| - 1], rank)
  }

  lemma {:induction false} InsertPerm(t: seq<string>, x: string, rank: string -> Option<nat>)
    ensures multiset(Insert(t, x, rank)) == multiset(t) + multiset{x}
    decreases |t|
  {
    if t != [] {
      assert t == [t[0]] + t[1..];
      if Le(rank(t[0]), rank(x)) {
        InsertPerm(t[1..], x, rank);
      }
    }
  }

  /** The sort only rearranges the keys. */
  lemma {:induction false} SortPerm(ks: seq<string>, rank: string -> Option<nat>)
    ensures multiset(SortBy(ks, rank)) == multiset(ks)
    decreases |ks|
  {
    if ks != [] {
      var front := ks[..|ks| - 1];
      SortPerm(front, rank);
      InsertPerm(SortBy(front, rank), ks[|ks| - 1], rank);
      assert ks == front + [ks[|ks| - 1]];
    }
  }

  lemma {:induction false} InsertSorted(t: seq<string>, x: string, rank: string -> Option<nat>)
    requires SortedBy(t, rank)
    ensures SortedBy(Insert(t, x, rank), rank)
    decreases |t|
  {
    if t != [] {
      var r := Insert(t, x, rank);
      if Le(rank(t[0]), rank(x)) {
        var r' := Insert(t[1..], x, rank);
        InsertSorted(t[1..], x, rank);
        InsertPerm(t[1..], x, rank);
        forall j | 0 <= j < |r'|
          ensures Le(rank(t[0]), rank(r'[j]))
        {
          assert r'[j] in multiset(r');
          if r'[j] != x {
            assert r'[j] in multiset(t[1..]);
            var m :| 0 <= m < |t[1..]| && t[1..][m] == r'[j];
            assert t[m + 1] == r'[j];
          }
        }
        assert r == [t[0]] + r';
      } else {
        forall j | 0 <= j < |t|
          ensures Le(rank(x), rank(t[j]))
        {
          assert Le(rank(t[0]), rank(t[j])) || j == 0;
        }
        assert r == [x] + t;
      }
    }
  }

  /** The sort puts the keys in ascending order of their sort key. */
  lemma {:induction false} SortSorted(ks: seq<string>, rank: string -> Option<nat>)
    ensures SortedBy(SortBy(ks, rank), rank)
    decreases |ks|
  {
    if ks != [] {
      SortSorted(ks[..|ks| - 1], rank);
      InsertSorted(SortBy(ks[..|ks| - 1], rank), ks[|ks| - 1], rank);
    }
  }

  /** The keys of `ks` whose sort key is `v`, in order. */
  function WithKey(ks: seq<string>, rank: string -> Option<nat>, v: Option<nat>): seq<string>
    decreases |ks|
  {
    if ks == [] then []
    else (if rank(ks[0]) == v then [ks[0]] else []) + WithKey(ks[1..], rank, v)
  }

  lemma {:induction false} WithKeyAppend(a: seq<string>, b: seq<string>, rank: string -> Option<nat>, v: Option<nat>)
    ensures WithKey(a + b, rank, v) == WithKey(a, rank, v) + WithKey(b, rank, v)
    decreases |a|
  {
    if a != [] {
      assert (a + b)[1..] == a[1..] + b;
      WithKeyAppend(a[1..], b, rank, v);
    } else {
      assert a + b == b;
    }
  }

  /** Every key of `t` sorts strictly above `v`. */
  lemma {:induction false} WithKeyAbove(t: seq<string>, rank: string -> Option<nat>, v: Option<nat>)
    requires forall j :: 0 <= j < |t| ==> !Le(rank(t[j]), v)
    ensures WithKey(t, rank, v) == []
    decreases |t|
  {
    if t != [] {
      assert !Le(rank(t[0]), v);
      WithKeyAbove(t[1..], rank, v);
    }
  }

  /** In a sorted sequence whose first key sorts strictly above `v`,
      every key does. */
  lemma SortedAbove(t: seq<string>, rank: string -> Option<nat>, v: Option<nat>)
    requires SortedBy(t, rank) && t != [] && !Le(rank(t[0]), v)
    ensures forall j :: 0 <= j < |t| ==> !Le(rank(t[j]), v)
  {
    forall j | 0 <= j < |t|
      ensures !Le(rank(t[j]), v)
    {
      assert j == 0 || Le(rank(t[0]), rank(t[j]));
    }
  }

  lemma {:induction false} InsertStable(t: seq<string>, x: string, rank: string -> Option<nat>, v: Option<nat>)
    requires SortedBy(t, rank)
    ensures WithKey(Insert(t, x, rank), rank, v) == WithKey(t, rank, v) + (if rank(x) == v then [x] else [])
    decreases |t|
  {
    var mine := if rank(x) == v then [x] else [];
    if t == [] {
      assert Insert(t, x, rank) == [x];
      assert WithKey([x], rank, v) == mine + WithKey([x][1..], rank, v);
    } else if Le(rank(t[0]), rank(x)) {
      var t' := t[1..];
      var r' := Insert(t', x, rank);
      var first := if rank(t[0]) == v then [t[0]] else [];
      SortedTail(t, rank);
      InsertStable(t', x, rank, v);
      assert Insert(t, x, rank) == [t[0]] + r';
      assert ([t[0]] + r')[1..] == r';
      assert WithKey([t[0]] + r', rank, v) == first + WithKey(r', rank, v);
      assert WithKey(t, rank, v) == first + WithKey(t', rank, v);
    } else {
      assert Insert(t, x, rank) == [x] + t;
      if rank(x) == v {
        SortedAbove(t, rank, v);
        WithKeyAbove(t, rank, v);
      }
      assert ([x] + t)[1..] == t;
      assert WithKey([x] + t, rank, v) == mine + WithKey(t, rank, v);
    }
  }

  /** Keys with equal sort keys keep their listing order. */
  lemma {:induction false} SortStable(ks: seq<string>, rank: string -> Option<nat>, v: Option<nat>)
    ensures WithKey(SortBy(ks, rank), rank, v) == WithKey(ks, rank, v)
    decreases |ks|
  {
    if ks != [] {
      var front := ks[..|ks| - 1];
      var x := ks[|ks| - 1];
      SortStable(front, rank, v);
      SortSorted(front, rank);
      InsertStable(SortBy(front, rank), x, rank, v);
      assert ks == front + [x];
      WithKeyAppend(front, [x], rank, v);
      assert WithKey([x], rank, v) == (if rank(x) == v then [x] else []) + WithKey([], rank, v);
    }
  }

  lemma SortedTail(t: seq<string>, rank: string -> Option<nat>)
    requires t != [] && SortedBy(t, rank)
    ensures SortedBy(t[1..], rank)
  {
    forall i, j | 0 <= i < j < |t| - 1
      ensures Le(rank(t[1..][i]), rank(t[1..][j]))
    {
      assert t[1..][i] == t[i + 1] && t[1..][j] == t[j + 1];
    }
  }

  lemma StrictlySortedTail(u: seq<string>, rank: string -> Option<nat>)
    requires u != [] && StrictlySortedBy(u, rank)
    ensures StrictlySortedBy(u[1..], rank)
  {
    forall i, j | 0 <= i < j < |u| - 1
      ensures !Le(rank(u[1..][j]), rank(u[1..][i]))
    {
      assert u[1..][i] == u[i + 1] && u[1..][j] == u[j + 1];
    }
  }

  /** Two rearrangements of each other, one sorted and one strictly sorted,
      start with the same key. */
  lemma SameHead(t: seq<string>, u: seq<string>, rank: string -> Option<nat>)
    requires SortedBy(t, rank) && StrictlySortedBy(u, rank)
    requires multiset(t) == multiset(u) && u != []
    ensures t != [] && t[0] == u[0]
  {
    assert u[0] in multiset(t);
    var i :| 0 <= i < |t| && t[i] == u[0];
    assert t[0] in multiset(u);
    var j :| 0 <= j < |u| && u[j] == t[0];
    if j != 0 {
      assert Le(rank(t[0]), rank(t[i]));
      assert false;
    }
  }

  /** A sorted rearrangement of a strictly sorted sequence is that sequence. */
  lemma {:induction false} SortedUnique(t: seq<string>, u: seq<string>, rank: string -> Option<nat>)
    requires SortedBy(t, rank) && StrictlySortedBy(u, rank)
    requires multiset(t) == multiset(u)
    ensures t == u
    decreases |u|
  {
    if u == [] {
      assert |t| == |multiset(t)| == 0;
    } else {
      SameHead(t, u, rank);
      assert t == [t[0]] + t[1..] && u == [u[0]] + u[1..];
      assert multiset(t[1..]) == multiset(t) - multiset{t[0]};
      assert multiset(u[1..]) == multiset(u) - multiset{u[0]};
      SortedTail(t, rank);
      StrictlySortedTail(u, rank);
      SortedUnique(t[1..], u[1..], rank);
    }
  }

  // ---------------------------------------------------------------------
  // Reassembly

  /** The consolidated artifact: where it is written and what it holds. */
  datatype Consolidated<T> = Consolidated(finalKey: string, items: seq<T>)

  /** Loading the keys in order: only `.json` keys are read, and their lists
      are concatenated; reading a key the store does not hold fails. */
  function Gather<T>(ks: seq<string>, store: map<string, seq<T>>): Result<seq<T>>
    decreases |ks|
  {
    if ks == [] then Ok([])
    else
      match Gather(ks[..|ks| - 1], store)
      case Err(e) => Err(e)
      case Ok(acc) =>
        var key := ks[|ks| - 1];
        if !IsJsonKey(key) then Ok(acc)
        else if key in store then Ok(acc + store[key])
        else Err(ClientError("NoSuchKey"))
  }

  /** What `reassemble_chunks_from_s3(run_id)` does, given whether the bucket
      is configured, the listing under the run's result prefix and the store. */
  function ReassembleSpec<T>(bucketSet: bool, runId: string, listing: seq<ObjectInfo>,
                             store: map<string, seq<T>>): Result<Consolidated<T>>
  {
    if !bucketSet then Err(EnvironmentError("Missing required S3_OUTPUT_BUCKET environment variable."))
    else if listing == [] then Err(FileNotFoundError)
    else
      match Gather(SortBy(Keys(listing), ExtractChunkIndex), store)
      case Err(e) => Err(e)
      case Ok(items) => Ok(Consolidated(FinalKey(runId), items))
  }

  lemma {:induction false} GatherErrSticks<T>(ks: seq<string>, n: nat, store: map<string, seq<T>>)
    requires n <= |ks| && Gather(ks[..n], store).Err?
    ensures Gather(ks, store) == Gather(ks[..n], store)
    decreases |ks| - n
  {
    if n < |ks| {
      assert ks[..n + 1][..n] == ks[..n];
      GatherErrSticks(ks, n + 1, store);
    } else {
      assert ks[..n] == ks;
    }
  }

  /** `reassemble_chunks_from_s3`: visits the listed keys in chunk-index
      order and extends the consolidated list with each `.json` chunk. */
  method Reassemble<T>(bucketSet: bool, runId: string, listing: seq<ObjectInfo>, store: map<string, seq<T>>)
    returns (r: Result<Consolidated<T>>)
    ensures r == ReassembleSpec(bucketSet, runId, listing, store)
  {
    if !bucketSet {
      return Err(EnvironmentError("Missing required S3_OUTPUT_BUCKET environment variable."));
    }
    if listing == [] {
      return Err(FileNotFoundError);
    }
    var ordered := SortBy(Keys(listing), ExtractChunkIndex);
    var all: seq<T> := [];
    var i := 0;
    while i < |ordered|
      invariant 0 <= i <= |ordered|
      invariant Gather(ordered[..i], store) == Ok(all)
    {
      var key := ordered[i];
      assert ordered[..i + 1][..i] == ordered[..i];
      if IsJsonKey(key) {
        if key !in store {
          GatherErrSticks(ordered, i + 1, store);
          return Err(ClientError("NoSuchKey"));
        }
        all := all + store[key];
      }
      i := i + 1;
    }
    assert ordered[..i] == ordered;
    r := Ok(Consolidated(FinalKey(runId), all));
  }

  /** A non-empty listing without `.json` keys consolidates to an empty list. */
  lemma {:induction false} GatherNoJson<T>(ks: seq<string>, store: map<string, seq<T>>)
    requires forall k :: k in ks ==> !IsJsonKey(k)
    ensures Gather(ks, store) == Ok([])
    decreases |ks|
  {
    if ks != [] {
      assert forall k :: k in ks[..|ks| - 1] ==> k in ks;
      GatherNoJson(ks[..|ks| - 1], store);
    }
  }

  /** When every key is a `.json` key holding the matching chunk, gathering
      concatenates the chunks. */
  lemma {:induction false} GatherAll<T>(ks: seq<string>, css: seq<seq<T>>, store: map<string, seq<T>>)
    requires |ks| == |css|
    requires forall i :: 0 <= i < |ks| ==> IsJsonKey(ks[i]) && ks[i] in store && store[ks[i]] == css[i]
    ensures Gather(ks, store) == Ok(Flatten(css))
    decreases |ks|
  {
    if ks != [] {
      var n := |ks| - 1;
      GatherAll(ks[..n], css[..n], store);
      FlattenAppend(css[..n], [css[n]]);
      assert css == css[..n] + [css[n]];
      assert Flatten([css[n]]) == css[n];
      assert IsJsonKey(ks[n]) && ks[n] in store && store[ks[n]] == css[n];
      assert Gather(ks, store) == Ok(Flatten(css[..n]) + css[n]);
    }
  }

  // ---------------------------------------------------------------------
  // The end-to-end round trip

  /** The keys the workers of one run write, in dispatch order. */
  function ResultKeys(prefix: string, runId: string, n: nat, uuid: nat -> string): (ks: seq<string>)
    ensures |ks| == n
    ensures forall i :: 0 <= i < n ==> ks[i] == ResultKey(prefix, runId, ChunkId(i + 1, uuid(i)))
  {
    seq(n, i requires 0 <= i < n => ResultKey(prefix, runId, ChunkId(i + 1, uuid(i))))
  }

  /** The keys of one run parse back to the chunk indices 1, 2, ... in
      order, so they are strictly sorted by them, and all end in `.json`. */
  lemma ResultKeysParse(prefix: string, runId: string, n: nat, uuid: nat -> string)
    requires NoMarker(ResultPrefix(prefix, runId))
    ensures var ks := ResultKeys(prefix, runId, n, uuid);
      (forall i :: 0 <= i < n ==> ExtractChunkIndex(ks[i]) == Some(i + 1) && IsJsonKey(ks[i])) &&
      StrictlySortedBy(ks, ExtractChunkIndex)
  {
    var ks := ResultKeys(prefix, runId, n, uuid);
    forall i | 0 <= i < n
      ensures ExtractChunkIndex(ks[i]) == Some(i + 1) && IsJsonKey(ks[i])
    {
      IndexOfResultKey(prefix, runId, i + 1, uuid(i));
      var c := ChunkId(i + 1, uuid(i));
      assert ks[i] == ResultPrefix(prefix, runId) + c + ".json";
      assert ks[i][|ks[i]| - 5..] == ".json";
    }
  }

  /** Split, name, store, list in any order, sort by the parsed chunk index
      and concatenate: the consolidated list is the original batch. An empty
      batch dispatches nothing, and its reassembly finds nothing to read. */
  lemma RoundTrip<T>(data: seq<T>, k: nat, prefix: string, runId: string, uuid: nat -> string,
                     listing: seq<ObjectInfo>, store: map<string, seq<T>>)
    requires k >= 1
    requires NoMarker(ResultPrefix(prefix, runId))
    requires multiset(Keys(listing)) == multiset(ResultKeys(prefix, runId, |Chunks(data, k)|, uuid))
    requires forall i :: 0 <= i < |Chunks(data, k)| ==>
      ResultKey(prefix, runId, ChunkId(i + 1, uuid(i))) in store &&
      store[ResultKey(prefix, runId, ChunkId(i + 1, uuid(i)))] == Chunks(data, k)[i]
    ensures data == [] ==> ReassembleSpec(true, runId, listing, store) == Err(FileNotFoundError)
    ensures data != [] ==> ReassembleSpec(true, runId, listing, store) == Ok(Consolidated(FinalKey(runId), data))
  {
    var chunks := Chunks(data, k);
    var ks := ResultKeys(prefix, runId, |chunks|, uuid);
    assert |Keys(listing)| == |ks| by {
      assert |multiset(Keys(listing))| == |multiset(ks)|;
    }
    ChunksShape(data, k);
    if data != [] {
      assert |chunks| >= 1;
      ResultKeysParse(prefix, runId, |chunks|, uuid);
      var sorted := SortBy(Keys(listing), ExtractChunkIndex);
      SortSorted(Keys(listing), ExtractChunkIndex);
      SortPerm(Keys(listing), ExtractChunkIndex);
      SortedUnique(sorted, ks, ExtractChunkIndex);
      GatherAll(ks, chunks, store);
      ChunksFlatten(data, k);
    }
  }
}
