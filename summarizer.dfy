/** The summarizer library (lambda/layers/common/python/utils/summarizer.py):
    the hashtag parser and the loop that summarizes articles one by one,
    retrying an article until the model gives a usable summary or the time
    budget runs out.

    The model call and the clock are inputs. Each visit of the loop head
    consumes one `Tick`: the remaining time budget read there and, when the
    loop goes on, the object the model call produced for the article. When
    the ticks run out the budget counts as spent. `summarize_with_claude`
    catches every exception and answers with the sentinel object
    `{"summary": "[Summary unavailable]", ...}` instead, so a `Tick`'s reply
    is any decoded JSON value. */
module Summarizer {
  import opened Base
  import opened Text

  const Unavailable: string := "[Summary unavailable"
  const MinBudget: int := 45

  // ---------------------------------------------------------------------
  // `parse_hashtags`

  /** `[tag.strip() for tag in xs if isinstance(tag, str)]` */
  function StringItems(xs: seq<Json>): (r: seq<string>)
    ensures |r| <= |xs|
  {
    if xs == [] then []
    else (if xs[0].JStr? then [Strip(xs[0].s)] else []) + StringItems(xs[1..])
  }

  /** Every tag comes from a string element of the list. */
  lemma {:induction false} StringItemsSound(xs: seq<Json>)
    ensures forall t :: t in StringItems(xs) ==> exists s :: JStr(s) in xs && t == Strip(s)
    decreases |xs|
  {
    if xs != [] {
      StringItemsSound(xs[1..]);
      var head := if xs[0].JStr? then [Strip(xs[0].s)] else [];
      assert StringItems(xs) == head + StringItems(xs[1..]);
      forall t | t in StringItems(xs)
        ensures exists s :: JStr(s) in xs && t == Strip(s)
      {
        if t in head {
          assert JStr(xs[0].s) in xs;
        } else {
          var s :| JStr(s) in xs[1..] && t == Strip(s);
          assert JStr(s) in xs;
        }
      }
    }
  }

  /** Every string element gives a tag, and a list of strings loses none. */
  lemma {:induction false} StringItemsComplete(xs: seq<Json>)
    ensures forall i :: 0 <= i < |xs| && xs[i].JStr? ==> Strip(xs[i].s) in StringItems(xs)
    ensures (forall i :: 0 <= i < |xs| ==> xs[i].JStr?) ==> |StringItems(xs)| == |xs|
    decreases |xs|
  {
    if xs != [] {
      var tail := xs[1..];
      StringItemsComplete(tail);
      var head := if xs[0].JStr? then [Strip(xs[0].s)] else [];
      assert StringItems(xs) == head + StringItems(tail);
      forall i | 0 <= i < |xs| && xs[i].JStr?
        ensures Strip(xs[i].s) in StringItems(xs)
      {
        if i == 0 {
          assert Strip(xs[0].s) in head;
        } else {
          assert tail[i - 1] == xs[i];
          assert Strip(xs[i].s) in StringItems(tail);
        }
      }
      if forall i :: 0 <= i < |xs| ==> xs[i].JStr? {
        forall i | 0 <= i < |tail|
          ensures tail[i].JStr?
        {
          assert tail[i] == xs[i + 1];
        }
        assert |head| == 1;
      }
    }
  }

  /** The list comprehension keeps the order of the list: the tags of two
      lists one after the other are the tags of the first, then of the
      second. */
  lemma {:induction false} StringItemsAppend(a: seq<Json>, b: seq<Json>)
    ensures StringItems(a + b) == StringItems(a) + StringItems(b)
    decreases |a|
  {
    if a == [] {
      assert a + b == b;
    } else {
      assert (a + b)[0] == a[0] && (a + b)[1..] == a[1..] + b;
      StringItemsAppend(a[1..], b);
    }
  }

  /** `\w`, restricted to ASCII. */
  predicate IsWordChar(c: char) {
    ('a' <= c <= 'z') || ('A' <= c <= 'Z') || ('0' <= c <= '9') || c == '_'
  }

  /** The number of word characters of `s` from position `i` on. */
  function WordRun(s: string, i: nat): (n: nat)
    ensures i + n <= |s| || n == 0
    ensures forall k :: i <= k < i + n ==> IsWordChar(s[k])
    ensures i + n < |s| ==> !IsWordChar(s[i + n])
    decreases |s| - i
  {
    if i < |s| && IsWordChar(s[i]) then 1 + WordRun(s, i + 1) else 0
  }

  /** Where the word of a match of `"#?\w+"` starting at `i` begins. */
  function WordStart(s: string, i: nat): nat {
    if i + 1 < |s| && s[i + 1] == '#' then i + 2 else i + 1
  }

  /** The length of the match of `"#?\w+"` at position `i`, if any. Once the
      optional `#` is taken, the word run is greedy and must be followed by
      `"`; giving back characters cannot help, since a word character is not
      a quote, and skipping the `#` leaves a `#` where a word must start. */
  function QuotedTagAt(s: string, i: nat): Option<nat> {
    if i < |s| && s[i] == '"' then
      var j := WordStart(s, i);
      var n := WordRun(s, j);
      if n >= 1 && j + n < |s| && s[j + n] == '"' then Some(j + n + 1 - i) else None
    else None
  }

  /** `re.findall(r"\"#?\w+\"", s[i:])`: the leftmost matches, without overlap. */
  function FindAllFrom(s: string, i: nat): seq<string>
    decreases |s| - i
  {
    if i >= |s| then []
    else
      match QuotedTagAt(s, i)
      case Some(len) => [s[i..i + len]] + FindAllFrom(s, i + len)
      case None => FindAllFrom(s, i + 1)
  }

  /** Where the scan resumes after a match found at `q`: its end, or `q`
      itself when no match starts there. */
  function MatchEnd(s: string, q: nat): (e: nat)
    ensures QuotedTagAt(s, q).Some? ==> q < e <= |s|
  {
    match QuotedTagAt(s, q)
    case Some(len) => q + len
    case None => q
  }

  /** The text of the match starting at `q`, if any. */
  function MatchText(s: string, q: nat): string {
    match QuotedTagAt(s, q)
    case Some(len) => s[q..q + len]
    case None => ""
  }

  /** No match starts at a position from `lo` up to `hi`. */
  ghost predicate NoMatchIn(s: string, lo: nat, hi: nat) {
    forall q :: lo <= q < hi ==> QuotedTagAt(s, q).None?
  }

  /** `qs` are the starts of the matches a left-to-right scan from `i`
      finds: the first is the first position from `i` on at which a match
      starts, the scan resumes where that match ends, and once `qs` is used
      up no match starts before the end of `s`. */
  ghost predicate LeftmostMatches(s: string, i: nat, qs: seq<nat>)
    decreases |qs|
  {
    if qs == [] then NoMatchIn(s, i, |s|)
    else
      i <= qs[0] && NoMatchIn(s, i, qs[0]) && QuotedTagAt(s, qs[0]).Some? &&
      LeftmostMatches(s, MatchEnd(s, qs[0]), qs[1..])
  }

  /** The texts matched at the starts `qs`, in order. */
  function Matched(s: string, qs: seq<nat>): (r: seq<string>)
    ensures |r| == |qs| && forall k :: 0 <= k < |qs| ==> r[k] == MatchText(s, qs[k])
  {
    if qs == [] then [] else [MatchText(s, qs[0])] + Matched(s, qs[1..])
  }

  /** The match starts of the scan from `i`. */
  function MatchStarts(s: string, i: nat): seq<nat>
    decreases |s| - i
  {
    if i >= |s| then []
    else
      match QuotedTagAt(s, i)
      case Some(len) => [i] + MatchStarts(s, i + len)
      case None => MatchStarts(s, i + 1)
  }

  /** Such a scan exists: the starts `MatchStarts` lists. */
  lemma {:induction false} MatchStartsLeftmost(s: string, i: nat)
    ensures LeftmostMatches(s, i, MatchStarts(s, i))
    decreases |s| - i
  {
    if i >= |s| {
      assert MatchStarts(s, i) == [];
    } else if QuotedTagAt(s, i).Some? {
      MatchStartsLeftmost(s, MatchEnd(s, i));
      MatchStartsTakes(s, i);
    } else {
      MatchStartsLeftmost(s, i + 1);
      MatchStartsSkips(s, i);
    }
  }

  lemma MatchStartsTakes(s: string, i: nat)
    requires QuotedTagAt(s, i).Some? && LeftmostMatches(s, MatchEnd(s, i), MatchStarts(s, MatchEnd(s, i)))
    ensures LeftmostMatches(s, i, MatchStarts(s, i))
  {
    var qs := MatchStarts(s, i);
    assert qs == [i] + MatchStarts(s, MatchEnd(s, i));
    assert qs[1..] == MatchStarts(s, MatchEnd(s, i));
  }

  lemma MatchStartsSkips(s: string, i: nat)
    requires i < |s| && QuotedTagAt(s, i).None? && LeftmostMatches(s, i + 1, MatchStarts(s, i + 1))
    ensures LeftmostMatches(s, i, MatchStarts(s, i))
  {
    assert MatchStarts(s, i) == MatchStarts(s, i + 1);
    LeftmostExtends(s, i, MatchStarts(s, i + 1));
  }

  /** A scan may start one position earlier where no match starts. */
  lemma LeftmostExtends(s: string, i: nat, qs: seq<nat>)
    requires QuotedTagAt(s, i).None? && LeftmostMatches(s, i + 1, qs)
    ensures LeftmostMatches(s, i, qs)
  {
    var hi := if qs == [] then |s| else qs[0];
    assert NoMatchIn(s, i + 1, hi);
    forall q | i <= q < hi
      ensures QuotedTagAt(s, q).None?
    {
    }
    assert NoMatchIn(s, i, hi);
  }

  /** `re.findall` returns exactly the texts of the leftmost
      non-overlapping matches, in order: for whatever starts `qs` a scan
      from `i` finds, the result is the texts matched at `qs`. */
  lemma {:induction false} FindAllLeftmost(s: string, i: nat, qs: seq<nat>)
    requires LeftmostMatches(s, i, qs)
    ensures FindAllFrom(s, i) == Matched(s, qs)
    decreases |s| - i
  {
    if i >= |s| {
      LeftmostAtEnd(s, i, qs);
    } else if QuotedTagAt(s, i).Some? {
      LeftmostTakes(s, i, qs);
      FindAllLeftmost(s, MatchEnd(s, i), qs[1..]);
      FindAllTakes(s, i);
    } else {
      LeftmostSkips(s, i, qs);
      FindAllLeftmost(s, i + 1, qs);
    }
  }

  lemma LeftmostAtEnd(s: string, i: nat, qs: seq<nat>)
    requires LeftmostMatches(s, i, qs) && i >= |s|
    ensures qs == [] && FindAllFrom(s, i) == Matched(s, qs)
  {
  }

  lemma LeftmostTakes(s: string, i: nat, qs: seq<nat>)
    requires LeftmostMatches(s, i, qs) && QuotedTagAt(s, i).Some?
    ensures qs != [] && qs[0] == i && LeftmostMatches(s, MatchEnd(s, i), qs[1..])
  {
    assert MatchEnd(s, i) <= |s|;
  }

  lemma LeftmostSkips(s: string, i: nat, qs: seq<nat>)
    requires LeftmostMatches(s, i, qs) && QuotedTagAt(s, i).None?
    ensures LeftmostMatches(s, i + 1, qs)
  {
  }

  lemma FindAllTakes(s: string, i: nat)
    requires QuotedTagAt(s, i).Some?
    ensures FindAllFrom(s, i) == [MatchText(s, i)] + FindAllFrom(s, MatchEnd(s, i))
  {
  }

  predicate IsQuoteOrHash(c: char) {
    c == '"' || c == '#'
  }

  /** `t.strip('"#')` */
  function StripQuotesAndHashes(t: string): string
    decreases |t|
  {
    if t != [] && IsQuoteOrHash(t[0]) then StripQuotesAndHashes(t[1..])
    else if t != [] && IsQuoteOrHash(t[|t| - 1]) then StripQuotesAndHashes(t[..|t| - 1])
    else t
  }

  /** `parse_hashtags(response_raw)`; `decode` stands for `json.loads`, with
      `None` for text that is not JSON. */
  function ParseHashtags(raw: Json, decode: string -> Option<Json>): (r: Result<seq<string>>)
    ensures r.Err? ==> r.error == ValueError("Failed to extract hashtags from response")
    ensures raw.JList? ==> r == Ok(StringItems(raw.items))
    ensures raw.JStr? && decode(raw.s).Some? && decode(raw.s).value.JList? ==>
      r == Ok(StringItems(decode(raw.s).value.items))
    ensures raw.JStr? && !(decode(raw.s).Some? && decode(raw.s).value.JList?) ==>
      (r.Ok? <==> FindAllFrom(raw.s, 0) != []) &&
      (r.Ok? ==> |r.value| == |FindAllFrom(raw.s, 0)| &&
                 forall k :: 0 <= k < |r.value| ==> r.value[k] == StripQuotesAndHashes(FindAllFrom(raw.s, 0)[k]))
    ensures !raw.JList? && !raw.JStr? ==> r.Err?
  {
    match raw
    case JList(xs) => Ok(StringItems(xs))
    case JStr(s) =>
      if decode(s).Some? && decode(s).value.JList? then Ok(StringItems(decode(s).value.items))
      else
        var tags := FindAllFrom(s, 0);
        if tags != [] then Ok(seq(|tags|, k requires 0 <= k < |tags| => StripQuotesAndHashes(tags[k])))
        else Err(ValueError("Failed to extract hashtags from response"))
    case _ => Err(ValueError("Failed to extract hashtags from response"))
  }

  /** When the reply is no JSON list, the tags are the leftmost
      non-overlapping matches of the pattern, in order, each stripped of
      its quotes and `#`; with no match the parser raises. */
  lemma FallbackIsLeftmostScan(s: string, decode: string -> Option<Json>, qs: seq<nat>)
    requires !(decode(s).Some? && decode(s).value.JList?)
    requires LeftmostMatches(s, 0, qs)
    ensures ParseHashtags(JStr(s), decode).Ok? <==> qs != []
    ensures ParseHashtags(JStr(s), decode).Ok? ==>
      |ParseHashtags(JStr(s), decode).value| == |qs| &&
      forall k :: 0 <= k < |qs| ==>
        ParseHashtags(JStr(s), decode).value[k] == StripQuotesAndHashes(MatchText(s, qs[k]))
  {
    FindAllLeftmost(s, 0, qs);
  }

  /** A bare word: non-empty, word characters only. */
  predicate IsWord(w: string) {
    w != [] && forall k :: 0 <= k < |w| ==> IsWordChar(w[k])
  }

  /** A match is a quote, an optional `#`, a word and a quote. */
  ghost predicate MatchShaped(t: string) {
    exists w :: IsWord(w) && (t == "\"" + w + "\"" || t == "\"#" + w + "\"")
  }

  lemma MatchAtShape(s: string, i: nat)
    requires QuotedTagAt(s, i).Some?
    ensures i + QuotedTagAt(s, i).value <= |s| && MatchShaped(s[i..i + QuotedTagAt(s, i).value])
  {
    var len := QuotedTagAt(s, i).value;
    var j := WordStart(s, i);
    var n := WordRun(s, j);
    var w := s[j..j + n];
    var t := s[i..i + len];
    assert IsWord(w);
    if j == i + 2 {
      assert t == "\"#" + w + "\"";
    } else {
      assert t == "\"" + w + "\"";
    }
  }

  lemma {:induction false} FindAllShape(s: string, i: nat)
    ensures forall t :: t in FindAllFrom(s, i) ==> MatchShaped(t)
    decreases |s| - i
  {
    if i < |s| {
      match QuotedTagAt(s, i)
      case None => FindAllShape(s, i + 1);
      case Some(len) =>
        MatchAtShape(s, i);
        FindAllShape(s, i + len);
    }
  }

  lemma StripWord(w: string, front: string)
    requires IsWord(w)
    requires front == "\"" || front == "\"#"
    ensures StripQuotesAndHashes(front + w + "\"") == w
  {
    var wq := w + "\"";
    assert !IsQuoteOrHash(w[0]) && !IsQuoteOrHash(w[|w| - 1]);
    assert StripQuotesAndHashes(w) == w;
    assert wq[0] == w[0] && wq[..|w|] == w;
    assert StripQuotesAndHashes(wq) == StripQuotesAndHashes(w);
    var hq := "#" + wq;
    assert hq[1..] == wq;
    assert StripQuotesAndHashes(hq) == StripQuotesAndHashes(wq);
    if front == "\"#" {
      var t := "\"" + hq;
      assert t == front + w + "\"" && t[1..] == hq;
    } else {
      var t := "\"" + wq;
      assert t == front + w + "\"" && t[1..] == wq;
    }
  }

  /** The regex fallback returns bare words: each tag is non-empty, made of
      word characters only, so a leading `#` never survives. */
  lemma FallbackTagsAreWords(s: string, decode: string -> Option<Json>)
    requires !(decode(s).Some? && decode(s).value.JList?)
    ensures var r := ParseHashtags(JStr(s), decode);
      r.Ok? ==> forall k :: 0 <= k < |r.value| ==>
        r.value[k] != [] && forall c :: c in r.value[k] ==> IsWordChar(c) && c != '#'
    ensures ParseHashtags(JStr(s), decode).Err? <==> FindAllFrom(s, 0) == []
  {
    var tags := FindAllFrom(s, 0);
    FindAllShape(s, 0);
    forall k | 0 <= k < |tags|
      ensures StripQuotesAndHashes(tags[k]) != [] &&
              forall c :: c in StripQuotesAndHashes(tags[k]) ==> IsWordChar(c) && c != '#'
    {
      assert tags[k] in tags;
      var w :| IsWord(w) && (tags[k] == "\"" + w + "\"" || tags[k] == "\"#" + w + "\"");
      if tags[k] == "\"" + w + "\"" {
        StripWord(w, "\"");
      } else {
        StripWord(w, "\"#");
      }
    }
  }

  // ---------------------------------------------------------------------
  // `summarize_articles`

  /** One visit of the loop head: the budget left, and the model's reply for
      the current article when the loop goes on. */
  datatype Tick = Tick(remaining: int, reply: Json)

  /** `', '.join(v)` succeeds: a string, an object (its keys) or a list of strings. */
  predicate Joinable(v: Json) {
    v.JStr? || v.JObj? || (v.JList? && forall i :: 0 <= i < |v.items| ==> v.items[i].JStr?)
  }

  /** The prompt can be built: otherwise the builder raises, the retry
      wrapper returns the sentinel string, and `.get` on it raises
      AttributeError. */
  predicate Promptable(a: Json) {
    a.JObj? && "title" in a.fields && "snippet" in a.fields &&
    "authors" in a.fields && Joinable(a.fields["authors"])
  }

  /** What lines 191-195 make of the reply's `summary` value. */
  datatype Verdict = Accept(summary: string) | Retry | Crash(error: Exc)

  function Judge(summary: Json): (v: Verdict)
  {
    match summary
    case JStr(s) => if !Contains(s, Unavailable) && Strip(s) != "" then Accept(s) else Retry
    case JList(xs) => if JStr(Unavailable) in xs then Retry else Crash(AttributeError)
    case JObj(m) => if Unavailable in m then Retry else Crash(AttributeError)
    case _ => Crash(TypeError)
  }

  /** A summary is accepted exactly when it is a string that is not blank
      and does not contain the marker `[Summary unavailable`. */
  lemma JudgeAccepts(summary: Json)
    ensures Judge(summary).Accept? <==> summary.JStr? && !Contains(summary.s, Unavailable) && Strip(summary.s) != ""
    ensures Judge(summary).Accept? ==> Judge(summary).summary == summary.s
  {
  }

  /** `{**article, "summary": summary, "hashtags": hashtags}` */
  function Enrich(article: Json, summary: string, hashtags: Json): Json
    requires article.JObj?
  {
    JObj(article.fields["summary" := JStr(summary)]["hashtags" := hashtags])
  }

  /** `o` is `a` with a usable summary and some hashtags added. */
  predicate Enriched(a: Json, o: Json) {
    a.JObj? && o.JObj? &&
    o.fields.Keys == a.fields.Keys + {"summary", "hashtags"} &&
    (forall k :: k in a.fields && k != "summary" && k != "hashtags" ==> o.fields[k] == a.fields[k]) &&
    o.fields["summary"].JStr? && !Contains(o.fields["summary"].s, Unavailable) &&
    Strip(o.fields["summary"].s) != ""
  }

  /** What one attempt at `article` with the model's `reply` does: append a
      record, try the same article again, or raise. */
  datatype Step = Append(record: Json) | Again | Fail(error: Exc)

  function StepOn(article: Json, reply: Json): Step {
    if !Promptable(article) || !reply.JObj? then Fail(AttributeError)
    else
      match Judge(Get(reply.fields, "summary", JStr("")))
      case Accept(s) => Append(Enrich(article, s, Get(reply.fields, "hashtags", JList([]))))
      case Retry => Again
      case Crash(e) => Fail(e)
  }

  /** An attempt appends exactly when the article can be prompted and the
      reply carries a usable summary; the record is the article enriched
      with that summary and the reply's hashtags. */
  lemma StepOnAppends(article: Json, reply: Json)
    ensures StepOn(article, reply).Append? <==>
      Promptable(article) && reply.JObj? && Judge(Get(reply.fields, "summary", JStr(""))).Accept?
    ensures StepOn(article, reply).Append? ==>
      Enriched(article, StepOn(article, reply).record) &&
      StepOn(article, reply).record.fields["summary"] == Get(reply.fields, "summary", JStr("")) &&
      StepOn(article, reply).record.fields["hashtags"] == Get(reply.fields, "hashtags", JList([]))
  {
    if Promptable(article) && reply.JObj? {
      var summary := Get(reply.fields, "summary", JStr(""));
      JudgeAccepts(summary);
      if Judge(summary).Accept? {
        EnrichMeaning(article, summary.s, Get(reply.fields, "hashtags", JList([])));
      }
    }
  }

  lemma EnrichMeaning(article: Json, summary: string, hashtags: Json)
    requires article.JObj? && !Contains(summary, Unavailable) && Strip(summary) != ""
    ensures Enriched(article, Enrich(article, summary, hashtags))
    ensures Enrich(article, summary, hashtags).fields["summary"] == JStr(summary)
    ensures Enrich(article, summary, hashtags).fields["hashtags"] == hashtags
  {
  }

  /** What decides one attempt; the loop below is run with `StepOn`. */
  type Stepper = (Json, Json) -> Step

  /** The loop from tick `t` on, with `out` summarized so far (`|out|` is
      `idx`) and `step` deciding each attempt: it stops when every article
      is done or the budget is spent. */
  function SummarizeFrom(step: Stepper, articles: seq<Json>, ticks: seq<Tick>, t: nat, out: seq<Json>): Result<seq<Json>>
    requires t <= |ticks| && |out| <= |articles|
    decreases |ticks| - t
  {
    if |out| == |articles| || t == |ticks| || ticks[t].remaining < MinBudget then Ok(out)
    else
      match step(articles[|out|], ticks[t].reply)
      case Append(record) => SummarizeFrom(step, articles, ticks, t + 1, out + [record])
      case Again => SummarizeFrom(step, articles, ticks, t + 1, out)
      case Fail(e) => Err(e)
  }

  /** `articles[:limit]` with Python's slice bounds. */
  function Slice<T>(xs: seq<T>, limit: Option<int>): (r: seq<T>)
    ensures r <= xs
    ensures limit.None? ==> r == xs
    ensures limit.Some? && limit.value >= 0 ==> |r| == if limit.value < |xs| then limit.value else |xs|
    ensures limit.Some? && limit.value < 0 ==> |r| == if |xs| + limit.value > 0 then |xs| + limit.value else 0
  {
    match limit
    case None => xs
    case Some(l) =>
      if l >= 0 then (if l < |xs| then xs[..l] else xs)
      else (if |xs| + l > 0 then xs[..|xs| + l] else [])
  }

  /** The characters of a string, each as a one-character string. */
  function Chars(s: string): seq<Json> {
    seq(|s|, i requires 0 <= i < |s| => JStr([s[i]]))
  }

  /** `summarize_articles(limit)`. `input` is the decoded input file, `None`
      when the file is missing. A list (or a string, whose characters are
      not articles) is sliced and walked; an object has no slice and no
      element 0; other values have no length. */
  function SummarizeSpec(input: Option<Json>, limit: Option<int>, ticks: seq<Tick>): Result<seq<Json>> {
    match input
    case None => Ok([])
    case Some(JList(xs)) => SummarizeFrom(StepOn, Slice(xs, limit), ticks, 0, [])
    case Some(JStr(s)) => SummarizeFrom(StepOn, Slice(Chars(s), limit), ticks, 0, [])
    case Some(JObj(m)) =>
      if limit.Some? then Err(TypeError)
      else if m == map[] || ticks == [] || ticks[0].remaining < MinBudget then Ok([])
      else Err(KeyError("0"))
    case Some(_) => Err(TypeError)
  }

  method SummarizeArticles(input: Option<Json>, limit: Option<int>, ticks: seq<Tick>)
    returns (r: Result<seq<Json>>)
    ensures r == SummarizeSpec(input, limit, ticks)
  {
    if input.None? {
      return Ok([]);
    }
    var articles: seq<Json>;
    match input.value {
      case JList(xs) => articles := Slice(xs, limit);
      case JStr(s) => articles := Slice(Chars(s), limit);
      case JObj(m) =>
        if limit.Some? {
          return Err(TypeError);
        }
        if m == map[] || ticks == [] || ticks[0].remaining < MinBudget {
          return Ok([]);
        }
        return Err(KeyError("0"));
      case _ =>
        return Err(TypeError);
    }
    r := SummarizeLoop(articles, ticks);
  }

  /** The `while idx < len(articles)` loop of `summarize_articles`. */
  method SummarizeLoop(articles: seq<Json>, ticks: seq<Tick>) returns (r: Result<seq<Json>>)
    ensures r == SummarizeFrom(StepOn, articles, ticks, 0, [])
  {
    var summarized: seq<Json> := [];
    var idx := 0;
    var t := 0;
    while idx < |articles|
      invariant t <= |ticks| && idx == |summarized| <= |articles|
      invariant SummarizeFrom(StepOn, articles, ticks, t, summarized) == SummarizeFrom(StepOn, articles, ticks, 0, [])
      decreases |ticks| - t
    {
      if t == |ticks| || ticks[t].remaining < MinBudget {
        break;
      }
      var article := articles[idx];
      if !Promptable(article) {
        return Err(AttributeError);
      }
      var reply := ticks[t].reply;
      if !reply.JObj? {
        return Err(AttributeError);
      }
      var summary := Get(reply.fields, "summary", JStr(""));
      var hashtags := Get(reply.fields, "hashtags", JList([]));
      match Judge(summary) {
        case Accept(s) =>
          summarized := summarized + [Enrich(article, s, hashtags)];
          idx := idx + 1;
        case Retry =>
        case Crash(e) =>
          return Err(e);
      }
      t := t + 1;
    }
    r := Ok(summarized);
  }

  /** The loop only appends: its output extends what it started with and
      never outgrows the articles. */
  lemma {:induction false} SummarizeFromExtends(step: Stepper, articles: seq<Json>, ticks: seq<Tick>, t: nat, out: seq<Json>)
    requires t <= |ticks| && |out| <= |articles|
    ensures var r := SummarizeFrom(step, articles, ticks, t, out);
      r.Ok? ==> |out| <= |r.value| <= |articles| && r.value[..|out|] == out
    decreases |ticks| - t
  {
    var r := SummarizeFrom(step, articles, ticks, t, out);
    if !(|out| == |articles| || t == |ticks| || ticks[t].remaining < MinBudget) {
      var st := step(articles[|out|], ticks[t].reply);
      if st.Append? {
        var out' := out + [st.record];
        SummarizeFromExtends(step, articles, ticks, t + 1, out');
        if r.Ok? {
          assert r.value[..|out|] == r.value[..|out'|][..|out|];
        }
      } else if st.Again? {
        SummarizeFromExtends(step, articles, ticks, t + 1, out);
      }
    }
  }

  /** Each record the loop adds is what an attempt at the article in the
      same position appended, with one of the replies read. */
  lemma {:induction false} SummarizeFromSource(step: Stepper, articles: seq<Json>, ticks: seq<Tick>, t: nat,
                                               out: seq<Json>, i: nat)
    requires t <= |ticks| && |out| <= i < |articles|
    requires SummarizeFrom(step, articles, ticks, t, out).Ok? && i < |SummarizeFrom(step, articles, ticks, t, out).value|
    ensures exists k :: (t <= k < |ticks| &&
                         step(articles[i], ticks[k].reply) == Append(SummarizeFrom(step, articles, ticks, t, out).value[i]))
    decreases |ticks| - t
  {
    var r := SummarizeFrom(step, articles, ticks, t, out);
    var st := step(articles[|out|], ticks[t].reply);
    if st.Append? {
      var out' := out + [st.record];
      if i == |out| {
        SummarizeFromExtends(step, articles, ticks, t + 1, out');
        assert r.value[i] == r.value[..|out'|][i];
      } else {
        SummarizeFromSource(step, articles, ticks, t + 1, out', i);
      }
    } else {
      SummarizeFromSource(step, articles, ticks, t + 1, out, i);
    }
  }

  /** The output is an in-order enriched copy of a prefix of the input:
      record `i` is article `i` with a usable summary added. */
  lemma SummarizeFromEnriches(articles: seq<Json>, ticks: seq<Tick>, t: nat, out: seq<Json>)
    requires t <= |ticks| && |out| <= |articles|
    requires forall i :: 0 <= i < |out| ==> Enriched(articles[i], out[i])
    ensures var r := SummarizeFrom(StepOn, articles, ticks, t, out);
      r.Ok? ==> |out| <= |r.value| <= |articles| && r.value[..|out|] == out &&
                forall i :: 0 <= i < |r.value| ==> Enriched(articles[i], r.value[i])
  {
    SummarizeFromExtends(StepOn, articles, ticks, t, out);
    var r := SummarizeFrom(StepOn, articles, ticks, t, out);
    if r.Ok? {
      forall i | 0 <= i < |r.value|
        ensures Enriched(articles[i], r.value[i])
      {
        if i < |out| {
          assert r.value[i] == r.value[..|out|][i];
        } else {
          SummarizeFromSource(StepOn, articles, ticks, t, out, i);
          var k :| t <= k < |ticks| && StepOn(articles[i], ticks[k].reply) == Append(r.value[i]);
          StepOnAppends(articles[i], ticks[k].reply);
        }
      }
    }
  }

  lemma SummarizeEnriches(xs: seq<Json>, limit: Option<int>, ticks: seq<Tick>)
    ensures var r := SummarizeSpec(Some(JList(xs)), limit, ticks);
      r.Ok? ==> |r.value| <= |Slice(xs, limit)| &&
                forall i :: 0 <= i < |r.value| ==> Enriched(xs[i], r.value[i])
  {
    var articles := Slice(xs, limit);
    SummarizeFromEnriches(articles, ticks, 0, []);
    var r := SummarizeFrom(StepOn, articles, ticks, 0, []);
    if r.Ok? {
      forall i | 0 <= i < |r.value|
        ensures Enriched(xs[i], r.value[i])
      {
        assert articles[i] == xs[i];
      }
    }
  }

  /** Readings after the first one below the budget never matter: the loop
      stops there. */
  lemma {:induction false} SummarizeFromStopsAtBudget(step: Stepper, articles: seq<Json>, ticks: seq<Tick>, t: nat,
                                                      out: seq<Json>, k: nat)
    requires t <= k < |ticks| && |out| <= |articles| && ticks[k].remaining < MinBudget
    ensures SummarizeFrom(step, articles, ticks, t, out) == SummarizeFrom(step, articles, ticks[..k + 1], t, out)
    decreases k - t
  {
    var ticks' := ticks[..k + 1];
    assert ticks'[t] == ticks[t] && |ticks'| == k + 1;
    if !(t == k || |out| == |articles| || ticks[t].remaining < MinBudget) {
      match step(articles[|out|], ticks[t].reply)
      case Append(record) => SummarizeFromStopsAtBudget(step, articles, ticks, t + 1, out + [record], k);
      case Again => SummarizeFromStopsAtBudget(step, articles, ticks, t + 1, out, k);
      case Fail(_) =>
    }
  }

  /** The run ends at the first reading below the budget: later readings
      and replies play no part. */
  lemma SummarizeStopsAtBudget(input: Option<Json>, limit: Option<int>, ticks: seq<Tick>, k: nat)
    requires k < |ticks| && ticks[k].remaining < MinBudget
    ensures SummarizeSpec(input, limit, ticks) == SummarizeSpec(input, limit, ticks[..k + 1])
  {
    match input
    case Some(JList(xs)) => SummarizeFromStopsAtBudget(StepOn, Slice(xs, limit), ticks, 0, [], k);
    case Some(JStr(s)) => SummarizeFromStopsAtBudget(StepOn, Slice(Chars(s), limit), ticks, 0, [], k);
    case _ =>
  }

  /** A reply the loop accepts for an article. */
  predicate Good(tick: Tick) {
    tick.remaining >= MinBudget && tick.reply.JObj? && Judge(Get(tick.reply.fields, "summary", JStr(""))).Accept?
  }

  /** Enough readings in budget whose attempts all append finish the loop. */
  lemma {:induction false} SummarizeFromAppendsAll(step: Stepper, articles: seq<Json>, ticks: seq<Tick>, t: nat,
                                                   out: seq<Json>)
    requires t <= |ticks| && |out| <= |articles|
    requires forall j :: t <= j < |ticks| ==> ticks[j].remaining >= MinBudget
    requires forall i, j :: |out| <= i < |articles| && t <= j < |ticks| ==> step(articles[i], ticks[j].reply).Append?
    requires |ticks| - t >= |articles| - |out|
    ensures SummarizeFrom(step, articles, ticks, t, out).Ok?
    ensures |SummarizeFrom(step, articles, ticks, t, out).value| == |articles|
    decreases |ticks| - t
  {
    if |out| < |articles| {
      var st := step(articles[|out|], ticks[t].reply);
      assert st.Append?;
      SummarizeFromAppendsAll(step, articles, ticks, t + 1, out + [st.record]);
    }
  }

  /** When every article can be prompted and enough readings in budget
      bring usable replies, every article is summarized. */
  lemma SummarizeFromComplete(articles: seq<Json>, ticks: seq<Tick>, t: nat, out: seq<Json>)
    requires t <= |ticks| && |out| <= |articles|
    requires forall i :: |out| <= i < |articles| ==> Promptable(articles[i])
    requires forall j :: t <= j < |ticks| ==> Good(ticks[j])
    requires |ticks| - t >= |articles| - |out|
    ensures SummarizeFrom(StepOn, articles, ticks, t, out).Ok?
    ensures |SummarizeFrom(StepOn, articles, ticks, t, out).value| == |articles|
  {
    forall i, j | |out| <= i < |articles| && t <= j < |ticks|
      ensures StepOn(articles[i], ticks[j].reply).Append?
    {
      StepOnAppends(articles[i], ticks[j].reply);
    }
    SummarizeFromAppendsAll(StepOn, articles, ticks, t, out);
  }
}
