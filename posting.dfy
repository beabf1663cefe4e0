/** Posting an article as a reply-chained thread (utils/post_to_twitter.py,
    lambda/layers/common/python/utils/post_to_twitter.py and the older
    lambda/post_to_twitter.py). The thread splitter and the tweet client
    are oracles: `split` turns the summary, title, url and tag block into
    the thread's segments, and `post(i, text, replyTo)` is what the client
    answers to the `i`-th post. The confirmation prompt is `confirm`: the
    answer is `y` or not, or `None` when reading it fails. */
module Posting {
  import opened Base
  import opened Text

  const DefaultHashtags: seq<string> := ["#AI"]

  const RequiredEnvVars: seq<string> :=
    ["TWITTER_BEARER_TOKEN", "TWITTER_API_KEY", "TWITTER_API_SECRET",
     "TWITTER_ACCESS_TOKEN", "TWITTER_ACCESS_SECRET"]

  // Environment validation

  /** `os.getenv(key)` is truthy. */
  predicate IsSet(v: Option<string>) {
    v.Some? && v.value != ""
  }

  /** `m` is `keys` with some entries dropped, the rest in order. */
  predicate SubsequenceOf(m: seq<string>, keys: seq<string>)
    decreases |keys|
  {
    if m == [] then true
    else if keys == [] then false
    else if m[0] == keys[0] then SubsequenceOf(m[1..], keys[1..])
    else SubsequenceOf(m, keys[1..])
  }

  /** `[key for key in keys if not present(key)]` */
  function Absent(keys: seq<string>, present: string -> bool): (m: seq<string>)
    ensures forall k :: k in m <==> k in keys && !present(k)
    ensures SubsequenceOf(m, keys)
  {
    if keys == [] then []
    else
      var rest := Absent(keys[1..], present);
      if !present(keys[0]) then [keys[0]] + rest
      else
        assert rest == [] || rest[0] != keys[0];
        rest
  }

  /** The filter keeps every occurrence, in order: it distributes over
      concatenation, so a key listed twice is reported twice. */
  lemma {:induction false} AbsentAppend(a: seq<string>, b: seq<string>, present: string -> bool)
    ensures Absent(a + b, present) == Absent(a, present) + Absent(b, present)
    decreases |a|
  {
    if a == [] {
      assert a + b == b;
    } else {
      assert (a + b)[1..] == a[1..] + b;
      AbsentAppend(a[1..], b, present);
    }
  }

  /** The required variables that are unset, in declaration order. */
  function MissingEnvVars(env: string -> Option<string>): seq<string> {
    Absent(RequiredEnvVars, k => IsSet(env(k)))
  }

  /** `validate_env_vars()`: the error it raises, if any, naming the unset
      variables in declaration order. */
  function ValidateEnvVars(env: string -> Option<string>): (error: Option<Exc>)
    ensures error.None? <==> forall k :: k in RequiredEnvVars ==> IsSet(env(k))
    ensures error.Some? ==>
      error.value.EnvironmentError? &&
      error.value.msg == "Missing required environment variables: " + Join(", ", MissingEnvVars(env))
  {
    var missing := MissingEnvVars(env);
    if missing != [] then
      Some(EnvironmentError("Missing required environment variables: " + Join(", ", missing)))
    else
      assert forall k :: k in RequiredEnvVars ==> k !in missing;
      None
  }

  // The tag block

  /** The words that start with `#`, in order. */
  function HashWords(ws: seq<string>): (r: seq<string>)
    ensures |r| <= |ws|
    ensures forall t :: t in r <==> t in ws && StartsWith(t, "#")
  {
    if ws == [] then []
    else if StartsWith(ws[0], "#") then [ws[0]] + HashWords(ws[1..])
    else HashWords(ws[1..])
  }

  /** The filter keeps the order and the repeats of the `#` words: it
      distributes over concatenation. */
  lemma {:induction false} HashWordsAppend(a: seq<string>, b: seq<string>)
    ensures HashWords(a + b) == HashWords(a) + HashWords(b)
    decreases |a|
  {
    if a == [] {
      assert a + b == b;
    } else {
      assert (a + b)[1..] == a[1..] + b;
      HashWordsAppend(a[1..], b);
    }
  }

  /** `article.get("hashtags", "")`, which must be a string to be split: any
      other value has no `split` and raises AttributeError. */
  function ArticleHashtags(article: Record): (r: Result<string>)
    ensures r.Err? <==> "hashtags" in article && !article["hashtags"].JStr?
    ensures r.Err? ==> r.error == AttributeError
    ensures r.Ok? && "hashtags" !in article ==> r.value == ""
  {
    match Get(article, "hashtags", JStr(""))
    case JStr(s) => Ok(s)
    case _ => Err(AttributeError)
  }

  /** `DEFAULT_HASHTAGS + hashtags[:2]` for the `#` words of `hashtags`. */
  function TagBlockOf(hashtags: string): (block: seq<string>)
    ensures var tags := HashWords(Words(hashtags));
      1 <= |block| <= 3 && block[0] == "#AI" &&
      |block| - 1 == (if |tags| < 2 then |tags| else 2) &&
      block[1..] == tags[..|block| - 1]
  {
    TagBlockFrom(HashWords(Words(hashtags)))
  }

  /** `#AI` followed by the first two of `tags`, or all of them when fewer. */
  function TagBlockFrom(tags: seq<string>): (block: seq<string>)
    ensures 1 <= |block| <= 3 && block[0] == "#AI" &&
      |block| - 1 == (if |tags| < 2 then |tags| else 2) &&
      block[1..] == tags[..|block| - 1]
  {
    var block := DefaultHashtags + tags[..if |tags| < 2 then |tags| else 2];
    assert block[1..] == tags[..|block| - 1];
    block
  }

  /** The tag block of an article. */
  function TagBlock(article: Record): Result<seq<string>> {
    match ArticleHashtags(article)
    case Ok(s) => Ok(TagBlockOf(s))
    case Err(e) => Err(e)
  }

  /** Every tag after `#AI` is a `#` word of the hashtags. */
  lemma TagBlockWords(hashtags: string)
    ensures forall i :: 1 <= i < |TagBlockOf(hashtags)| ==>
      StartsWith(TagBlockOf(hashtags)[i], "#") && TagBlockOf(hashtags)[i] in Words(hashtags)
  {
    var block := TagBlockOf(hashtags);
    var tags := HashWords(Words(hashtags));
    forall i | 1 <= i < |block|
      ensures StartsWith(block[i], "#") && block[i] in Words(hashtags)
    {
      assert block[i] == block[1..][i - 1] == tags[i - 1];
      assert tags[i - 1] in tags;
    }
  }

  // The reply chain

  /** The tweet client: the id it returns for the `i`-th post, if any. */
  type Poster = (nat, string, Option<string>) -> Option<string>

  /** The thread splitter, from summary, title, url and tag block. */
  type Splitter = (Json, Json, Json, seq<string>) -> seq<string>

  /** A returned id is truthy. */
  predicate Posted(o: Option<string>) {
    o.Some? && o.value != ""
  }

  /** The id the next post replies to. */
  function Prev(ids: seq<string>): Option<string> {
    if ids == [] then None else Some(ids[|ids| - 1])
  }

  /** The posting loop from segment `|ids|` on. */
  function ChainFrom(thread: seq<string>, post: Poster, ids: seq<string>): seq<string>
    requires |ids| <= |thread|
    decreases |thread| - |ids|
  {
    if |ids| == |thread| then ids
    else
      var o := post(|ids|, thread[|ids|], Prev(ids));
      if Posted(o) then ChainFrom(thread, post, ids + [o.value]) else ids
  }

  /** The ids posted before the first failed post (all of them when none
      fails). */
  function Chain(thread: seq<string>, post: Poster): seq<string> {
    ChainFrom(thread, post, [])
  }

  /** `ids` were posted one per segment in thread order, the first as a new
      tweet and each later one as a reply to the one before. */
  predicate Replies(thread: seq<string>, post: Poster, ids: seq<string>)
    requires |ids| <= |thread|
  {
    forall k :: 0 <= k < |ids| ==> post(k, thread[k], Prev(ids[..k])) == Some(ids[k]) && ids[k] != ""
  }

  lemma {:induction false} ChainFromMeaning(thread: seq<string>, post: Poster, ids: seq<string>)
    requires |ids| <= |thread| && Replies(thread, post, ids)
    ensures var r := ChainFrom(thread, post, ids);
      ids <= r && |r| <= |thread| && Replies(thread, post, r) &&
      (|r| < |thread| ==> !Posted(post(|r|, thread[|r|], Prev(r))))
    decreases |thread| - |ids|
  {
    if |ids| < |thread| {
      var o := post(|ids|, thread[|ids|], Prev(ids));
      if Posted(o) {
        var next := ids + [o.value];
        forall k | 0 <= k < |next|
          ensures post(k, thread[k], Prev(next[..k])) == Some(next[k]) && next[k] != ""
        {
          if k < |ids| {
            assert next[..k] == ids[..k];
          } else {
            assert next[..k] == ids;
          }
        }
        ChainFromMeaning(thread, post, next);
      }
    }
  }

  /** The chain is the longest run of successful posts from the start:
      each segment in order, replying to the previous id, stopping at the
      first post that returns no id. */
  lemma ChainMeaning(thread: seq<string>, post: Poster)
    ensures var ids := Chain(thread, post);
      |ids| <= |thread| && Replies(thread, post, ids) &&
      (|ids| < |thread| ==> !Posted(post(|ids|, thread[|ids|], Prev(ids))))
  {
    ChainFromMeaning(thread, post, []);
  }

  /** What `post_thread` returns when the thread went out. */
  datatype ThreadRecord = ThreadRecord(articleTitle: Json, url: Json, variant: string, tweetIds: seq<string>)

  /** The segments of an article's thread. */
  function Thread(article: Record, variant: string, tags: seq<string>, split: Splitter): seq<string> {
    split(Get(article, variant, JStr("")), Get(article, "title", JStr("")), Get(article, "url", JStr("")), tags)
  }

  /** The posting loop of utils/post_to_twitter.py and its layer copy: the
      ids of the whole thread, or `None` once a post returns no id. */
  method PostSegments(thread: seq<string>, post: Poster) returns (ids: Option<seq<string>>)
    ensures ids.None? <==> |Chain(thread, post)| < |thread|
    ensures ids.Some? ==> ids.value == Chain(thread, post)
  {
    ChainMeaning(thread, post);
    var tweetIds: seq<string> := [];
    var replyTo: Option<string> := None;
    var i := 0;
    while i < |thread|
      invariant i == |tweetIds| <= |thread|
      invariant replyTo == Prev(tweetIds)
      invariant ChainFrom(thread, post, tweetIds) == Chain(thread, post)
    {
      var tweetId := post(i, thread[i], replyTo);
      if !Posted(tweetId) {
        assert Chain(thread, post) == tweetIds;
        return None;
      }
      tweetIds := tweetIds + [tweetId.value];
      replyTo := tweetId;
      i := i + 1;
    }
    ids := Some(tweetIds);
  }

  /** `post_thread(article, variant, dry_run)` of utils/post_to_twitter.py
      and its layer copy: `None` when dry, cancelled or when a post fails;
      otherwise the record with one id per segment. */
  method PostThread(article: Record, variant: string, dryRun: bool, confirm: Option<bool>,
                    split: Splitter, post: Poster)
    returns (r: Result<Option<ThreadRecord>>)
    ensures TagBlock(article).Err? ==> r == Err(AttributeError)
    ensures TagBlock(article).Ok? && dryRun ==> r == Ok(None)
    ensures TagBlock(article).Ok? && !dryRun && confirm.None? ==> r == Err(EOFError)
    ensures TagBlock(article).Ok? && !dryRun && confirm == Some(false) ==> r == Ok(None)
    ensures TagBlock(article).Ok? && !dryRun && confirm == Some(true) ==>
      var thread := Thread(article, variant, TagBlock(article).value, split);
      var ids := Chain(thread, post);
      r == if |ids| < |thread| then Ok(None)
           else Ok(Some(ThreadRecord(Get(article, "title", JStr("")), Get(article, "url", JStr("")), variant, ids)))
  {
    var tagBlock := TagBlock(article);
    if tagBlock.Err? {
      return Err(tagBlock.error);
    }
    var thread := Thread(article, variant, tagBlock.value, split);
    if dryRun {
      return Ok(None);
    }
    if confirm.None? {
      return Err(EOFError);
    }
    if !confirm.value {
      return Ok(None);
    }
    var tweetIds := PostSegments(thread, post);
    if tweetIds.None? {
      return Ok(None);
    }
    r := Ok(Some(ThreadRecord(Get(article, "title", JStr("")), Get(article, "url", JStr("")), variant, tweetIds.value)));
  }

  /** `post_thread(article, variant)` of lambda/post_to_twitter.py: `None`
      when cancelled; otherwise the ids posted until the first failure. */
  method PostThreadPartial(article: Record, variant: string, confirm: Option<bool>,
                           split: Splitter, post: Poster)
    returns (r: Result<Option<seq<string>>>)
    ensures TagBlock(article).Err? ==> r == Err(AttributeError)
    ensures TagBlock(article).Ok? && confirm.None? ==> r == Err(EOFError)
    ensures TagBlock(article).Ok? && confirm == Some(false) ==> r == Ok(None)
    ensures TagBlock(article).Ok? && confirm == Some(true) ==>
      r == Ok(Some(Chain(Thread(article, variant, TagBlock(article).value, split), post)))
  {
    var tagBlock := TagBlock(article);
    if tagBlock.Err? {
      return Err(tagBlock.error);
    }
    var thread := Thread(article, variant, tagBlock.value, split);
    if confirm.None? {
      return Err(EOFError);
    }
    if !confirm.value {
      return Ok(None);
    }
    var tweetIds: seq<string> := [];
    var replyTo: Option<string> := None;
    for i := 0 to |thread|
      invariant i == |tweetIds|
      invariant replyTo == Prev(tweetIds)
      invariant ChainFrom(thread, post, tweetIds) == Chain(thread, post)
    {
      var tweetId := post(i, thread[i], replyTo);
      if !Posted(tweetId) {
        break;
      }
      tweetIds := tweetIds + [tweetId.value];
      replyTo := tweetId;
    }
    r := Ok(Some(tweetIds));
  }
}
