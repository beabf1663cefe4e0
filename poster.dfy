/** The two poster Lambdas. lambda/poster_lambda.py posts the thread of the
    article its event carries; lambda/poster/poster_lambda.py picks the
    newest summary file and hands over to a posting pipeline whose module
    does not define it, so that pipeline is an oracle here. */
module Poster {
  import opened Base
  import opened Text
  import opened Listing
  import opened Posting
  import Pipeline
  import Chunker

  const StatusUrl: string := "https://twitter.com/user/status/"

  // lambda/poster_lambda.py

  /** Python's `key in article` for the values an event can carry: a dict
      key, a substring of a string, or an element of a list. */
  predicate HasField(article: Json, key: string) {
    match article
    case JObj(fields) => key in fields
    case JStr(s) => Contains(s, key)
    case JList(items) => JStr(key) in items
    case _ => false
  }

  /** The fields among `title`, `url` and the variant that `article` lacks,
      in that order. */
  function MissingFields(article: Json, variant: string): (m: seq<string>)
    ensures SubsequenceOf(m, ["title", "url", variant])
    ensures forall k :: k in m <==> k in ["title", "url", variant] && !HasField(article, k)
  {
    Absent(["title", "url", variant], k => HasField(article, k))
  }

  /** `article['title'][:60]` is defined for a string or a list. */
  predicate Sliceable(j: Json) {
    j.JStr? || j.JList?
  }

  /** The checks before posting: the article dict and the variant, or the
      exception the handler catches. */
  function ValidateEvent(event: Record): (r: Result<(Record, string)>)
    ensures !Truthy(Get(event, "article", JNull)) ==> r == Err(ValueError("Missing 'article' in event payload"))
    ensures Truthy(Get(event, "article", JNull)) && Get(event, "variant", JStr("v1_summary")).JStr? &&
            !Get(event, "article", JNull).JInt? && !Get(event, "article", JNull).JBool? &&
            MissingFields(Get(event, "article", JNull), Get(event, "variant", JStr("v1_summary")).s) != [] ==>
      r == Err(ValueError("Missing article fields: " +
                          Join(", ", MissingFields(Get(event, "article", JNull), Get(event, "variant", JStr("v1_summary")).s))))
    ensures r.Ok? ==>
      Get(event, "article", JNull) == JObj(r.value.0) &&
      Get(event, "variant", JStr("v1_summary")) == JStr(r.value.1) &&
      "title" in r.value.0 && "url" in r.value.0 && r.value.1 in r.value.0
    ensures r.Err? ==> r.error.ValueError? || r.error == TypeError
    ensures Truthy(Get(event, "article", JNull)) && Get(event, "article", JNull).JObj? &&
            Get(event, "variant", JStr("v1_summary")).JStr? &&
            MissingFields(Get(event, "article", JNull), Get(event, "variant", JStr("v1_summary")).s) == [] &&
            Sliceable(Get(event, "article", JNull).fields["title"]) ==>
      r == Ok((Get(event, "article", JNull).fields, Get(event, "variant", JStr("v1_summary")).s))
  {
    var article := Get(event, "article", JNull);
    if !Truthy(article) then Err(ValueError("Missing 'article' in event payload"))
    else
      match Get(event, "variant", JStr("v1_summary"))
      case JStr(variant) =>
        if !(article.JObj? || article.JStr? || article.JList?) then Err(TypeError)
        else
          var missing := MissingFields(article, variant);
          if missing != [] then Err(ValueError("Missing article fields: " + Join(", ", missing)))
          else if !article.JObj? then Err(TypeError)
          else
            assert "title" !in missing && "url" !in missing && variant !in missing;
            if !Sliceable(article.fields["title"]) then Err(TypeError)
            else Ok((article.fields, variant))
      case _ => Err(TypeError)
  }

  datatype PostResponse = Posted(tweetIds: seq<string>, firstTweet: Option<string>) | Failed(error: Exc) {
    function StatusCode(): int {
      if Posted? then 200 else 500
    }
  }

  /** `handler(event, context)` of lambda/poster_lambda.py. Posting is never
      dry; a `None` from `post_thread` makes `result.get` raise
      AttributeError. */
  method Handler(event: Record, confirm: Option<bool>, split: Splitter, post: Poster)
    returns (resp: PostResponse)
    ensures ValidateEvent(event).Err? ==> resp == Failed(ValidateEvent(event).error)
    ensures ValidateEvent(event).Ok? ==>
      var (article, variant) := ValidateEvent(event).value;
      match TagBlock(article)
      case Err(e) => resp == Failed(e)
      case Ok(tags) =>
        var thread := Thread(article, variant, tags, split);
        var ids := Chain(thread, post);
        if confirm.None? then resp == Failed(EOFError)
        else if !confirm.value || |ids| < |thread| then resp == Failed(AttributeError)
        else resp == Posted(ids, if ids == [] then None else Some(StatusUrl + ids[0]))
  {
    var validated := ValidateEvent(event);
    if validated.Err? {
      return Failed(validated.error);
    }
    var (article, variant) := validated.value;
    var result := PostThread(article, variant, false, confirm, split, post);
    if result.Err? {
      return Failed(result.error);
    }
    if result.value.None? {
      return Failed(AttributeError);
    }
    var tweetIds := result.value.value.tweetIds;
    var firstTweet := if tweetIds != [] then Some(StatusUrl + tweetIds[0]) else None;
    resp := Posted(tweetIds, firstTweet);
  }

  /** A successful post answers with one id per segment, each replying to
      the one before, and links the first of them. */
  lemma PostedThreadChained(thread: seq<string>, post: Poster)
    requires |Chain(thread, post)| == |thread|
    ensures Replies(thread, post, Chain(thread, post))
    ensures thread != [] ==> post(0, thread[0], None) == Some(Chain(thread, post)[0])
  {
    ChainMeaning(thread, post);
    if thread != [] {
      assert Chain(thread, post)[..0] == [];
    }
  }

  // lambda/poster/poster_lambda.py

  /** `get_latest_summary_key()`: the newest `.json` key of the listing. */
  function GetLatestSummaryKey(listing: seq<ObjectInfo>): (r: Result<string>)
    ensures listing == [] ==> r == Err(FileNotFoundError)
    ensures listing != [] && JsonObjects(listing) == [] ==> r == Err(IndexError)
    ensures r.Ok? ==> IsJsonKey(r.value)
    ensures r.Ok? ==>
      exists i :: 0 <= i < |listing| && listing[i].key == r.value &&
        (forall j :: 0 <= j < |listing| && IsJsonKey(listing[j].key) ==> listing[j].lastModified <= listing[i].lastModified) &&
        (forall j :: 0 <= j < i && IsJsonKey(listing[j].key) ==> listing[j].lastModified < listing[i].lastModified)
  {
    if listing == [] then Err(FileNotFoundError)
    else
      var json := JsonObjects(listing);
      if json == [] then Err(IndexError)
      else
        LatestJsonPosition(listing);
        JsonObjectsMembers(listing);
        assert json[LatestIndex(json)] in json;
        Ok(json[LatestIndex(json)].key)
  }

  /** The poster's selection agrees with the chunker's choice of scraper
      output: the same key whenever both find one; they differ only in the
      exception for a listing without `.json` keys. */
  lemma LatestKeysAgree(listing: seq<ObjectInfo>)
    ensures GetLatestSummaryKey(listing).Ok? <==> Chunker.GetLatestScraperKey(listing).Ok?
    ensures GetLatestSummaryKey(listing).Ok? ==>
      GetLatestSummaryKey(listing).value == Chunker.GetLatestScraperKey(listing).value
    ensures listing != [] && JsonObjects(listing) == [] ==>
      GetLatestSummaryKey(listing) == Err(IndexError) &&
      Chunker.GetLatestScraperKey(listing) == Err(FileNotFoundError)
  {
  }

  /** The arguments `run_posting_pipeline` is called with. */
  datatype PostingArgs = PostingArgs(limit: Json, variant: string, dryRun: Json, confirmPost: bool, startIndex: Json)

  /** The arguments the handler passes for an event: `limit` 1, `dry_run`
      false and `start_index` 0 unless the event sets them. */
  function ArgsOf(event: Record): PostingArgs {
    PostingArgs(Get(event, "limit", JInt(1)), "summary", Get(event, "dry_run", JBool(false)), true,
                Get(event, "start_index", JInt(0)))
  }

  /** `len(results)`, when defined. */
  function Len(j: Json): Option<nat> {
    match j
    case JStr(s) => Some(|s|)
    case JList(xs) => Some(|xs|)
    case JObj(m) => Some(|m|)
    case _ => None
  }

  datatype SummaryPostResponse = Done(message: string, results: Json) | Rejected(error: Exc) {
    function StatusCode(): int {
      if Done? then 200 else 500
    }
  }

  /** `handler(event, context)` of lambda/poster/poster_lambda.py. `listing`
      is the summary prefix's listing, `download(key)` the error fetching
      the file raised, if any, and `pipeline` what the posting pipeline
      returned or raised. */
  function SummaryHandler(event: Record, listing: Result<seq<ObjectInfo>>, download: string -> Option<Exc>,
                          pipeline: PostingArgs -> Result<Json>): (resp: SummaryPostResponse)
    ensures listing.Err? ==> resp == Rejected(listing.error)
    ensures listing.Ok? && GetLatestSummaryKey(listing.value).Err? ==>
      resp == Rejected(GetLatestSummaryKey(listing.value).error)
    ensures resp.Done? ==>
      var key := GetLatestSummaryKey(listing.value).value;
      download(key).None? && pipeline(ArgsOf(event)) == Ok(resp.results) &&
      Len(resp.results).Some? &&
      resp.message == "Posted " + NatToString(Len(resp.results).value) + " threads successfully."
    ensures (listing.Ok? && GetLatestSummaryKey(listing.value).Ok? &&
             download(GetLatestSummaryKey(listing.value).value).None? &&
             pipeline(ArgsOf(event)).Ok? && Len(pipeline(ArgsOf(event)).value).Some?) ==> resp.Done?
  {
    match listing
    case Err(e) => Rejected(e)
    case Ok(objs) =>
      match GetLatestSummaryKey(objs)
      case Err(e) => Rejected(e)
      case Ok(key) =>
        match download(key)
        case Some(e) => Rejected(e)
        case None =>
          match pipeline(ArgsOf(event))
          case Err(e) => Rejected(e)
          case Ok(results) =>
            match Len(results)
            case None => Rejected(TypeError)
            case Some(n) => Done("Posted " + NatToString(n) + " threads successfully.", results)
  }

  /** The pipeline controller hands the poster `post_limit`, but the poster
      reads `limit`: whatever the pipeline's event says, one article is
      asked for. */
  lemma PostLimitNeverReachesPoster(event: Record)
    ensures ArgsOf(Pipeline.BuildPayload("poster", event)).limit == JInt(1)
  {
    assert "limit" !in Pipeline.FunctionPayloads["poster"];
  }
}
