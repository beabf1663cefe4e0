# ai-news-pipeline, modelled in Dafny

The AI news pipeline scrapes arXiv search results and remembers which
articles it has already seen. It fans the new batch out to summarizer
Lambdas in fixed-size chunks, waits for their per-chunk results in S3, and
puts the results back together in chunk order. It then posts a Twitter
thread per summarized article. A pipeline controller runs the scraper, the
summarizer orchestrator and the poster in sequence.

This project models the data handling around those calls. Every call
into AWS, Bedrock or Twitter is an oracle: a parameter of the operation
that uses it.

- An S3 listing is a sequence of `(key, lastModified)` entries
  (`Listing.ObjectInfo`).
- The object store is a map from key to decoded contents.
- A paginated listing is a sequence of pages.
- A Lambda invocation is a function from the request to its raw answer.
- Posting a tweet is a function from (position, text, reply-to id) to an
  optional id.
- The wall clock is a sequence of remaining-budget readings.
- The HTML parser's view of a search result is a record of optional
  fields.
- Run ids and uuids are plain parameters.

One module per source file (or per group of variants):

| module | file | models |
|---|---|---|
| `Base` | base.dfy | Option/Result, the Python exceptions that matter, JSON values, `dict.get`, truthiness |
| `Text` | text.dfy | the string operations used (`strip`, `split`, `replace`, `find`, `str(n)`, `int(s)`) |
| `Listing` | listing.dfy | listings, `.json` filtering, "newest by LastModified" selection |
| `Chunker` | chunker.py | splitting, chunk ids, result keys, `extract_chunk_index`, the stable sort, reassembly, `orchestrate_chunks` |
| `SummarizerMain` | summarizer_main_lambda.py | the page/timeout loop, single-chunk copy or reassembly, the report |
| `Orchestrator` | orchestrator_lambda.py | the `waited < 600` poll loop, unconditional reassembly |
| `SummarizerWorker` | summarizer_lambda.py | guards, defaults, the result key |
| `Summarizer` | utils/summarizer.py | `parse_hashtags`, the `summarize_articles` loop |
| `Memcon` | memcon.py | the seen-article library as a class with `filter_new_articles` |
| `Pipeline` | pipeline_lambda.py | `FUNCTION_PAYLOADS`, `build_payload`, `invoke_lambda`, the three-stage handler |
| `Posting` | the three post_to_twitter.py files | env validation, tag block, reply-chained posting |
| `Poster` | the two poster_lambda.py files | event validation, response shaping, latest summary key |
| `Scraper` | utils/scraper.py | the skip/keep/limit scan and URL normalisation |
| `LegacyScraper` | lambda/scraper.py | the older scan with an unconditional host prefix |

The headline result is `Chunker.RoundTrip`. The list is split into chunks
of size K, chunk `i` is stored under the key its worker writes, and the
result keys are listed in any order. Sorting that listing by the parsed
chunk index and concatenating the contents gives back exactly the original
list.

## Model

| member | source | states |
|---|---|---|
| Chunker.SplitIntoChunks | lambda/layers/common/python/utils/chunker.py:31-32 | a zero size raises (the `range` step); a negative size gives no chunks |
| Chunker.ChunksFlatten | lambda/layers/common/python/utils/chunker.py:31-32 | for K >= 1 concatenating the chunks gives back the input exactly |
| Chunker.ChunksShape | lambda/layers/common/python/utils/chunker.py:31-32 | ceil(N/K) chunks, each non-empty and at most K long, all but the last exactly K |
| Chunker.FlattenAppend | lambda/layers/common/python/utils/chunker.py:119-125 | concatenation distributes over appended chunk lists |
| Chunker.GetLatestScraperKey | lambda/layers/common/python/utils/chunker.py:46-66 | FileNotFoundError iff there is no `.json` key; otherwise the key at a listing position that no `.json` object is newer than and before which every `.json` object is strictly older (the stable reverse sort picks the first of the newest) |
| Chunker.OrchestrateChunks | lambda/layers/common/python/utils/chunker.py:68-96 | errors before the loop invoke nothing; otherwise the workers started are the chunks before the first invocation that raises, chunk `idx` named `chunk-{idx+1}-{uuid}` with its chunk and the run id; the exception of that invocation propagates, and without one the run id and the number of chunks are returned |
| Chunker.Dispatched | lambda/layers/common/python/utils/chunker.py:82-94 | the dispatch loop stops short of the last chunk only at an invocation that raises |
| Chunker.DispatchedMeaning | lambda/layers/common/python/utils/chunker.py:82-94 | every invocation before the stopping point succeeds, so all chunks are dispatched iff no invocation raises |
| Chunker.IndexFromNone | lambda/layers/common/python/utils/chunker.py:100-102 | the scan from a position finds nothing iff no `chunk-<digit>` starts there or later |
| Chunker.IndexFromSome | lambda/layers/common/python/utils/chunker.py:100-102 | a found number is the one after the first `chunk-<digit>` at or after the position |
| Chunker.IndexFromMeaning | lambda/layers/common/python/utils/chunker.py:100-102 | the scan finds no number iff no `chunk-<digit>` occurs from the position on; otherwise the number after the leftmost one |
| Chunker.ExtractChunkIndexMeaning | lambda/layers/common/python/utils/chunker.py:100-102 | `extract_chunk_index` is infinity (None) iff no `chunk-<digit>` occurs, else the digits after the leftmost occurrence |
| Chunker.SkipNoMarker | lambda/layers/common/python/utils/chunker.py:101 | positions without a marker do not change the search result |
| Chunker.NoMarkerBefore | lambda/layers/common/python/utils/chunker.py:101 | appending after a marker-free prefix ending in `_` creates no marker inside the prefix |
| Chunker.NumberOfChunkId | lambda/layers/common/python/utils/chunker.py:83 | the number read after `chunk-` in `chunk-{n}-...` is `n` |
| Chunker.IndexOfResultKey | lambda/layers/common/python/utils/chunker.py:100-102 | a result key built from chunk id `n` parses back to `n` when prefix and run id hold no `chunk-<digit>` |
| Chunker.InsertPerm | lambda/layers/common/python/utils/chunker.py:120 | inserting a key adds exactly that key |
| Chunker.SortPerm | lambda/layers/common/python/utils/chunker.py:120 | the sort is a permutation of the listed keys |
| Chunker.InsertSorted | lambda/layers/common/python/utils/chunker.py:120 | insertion keeps the keys ordered by chunk index, infinity last |
| Chunker.SortSorted | lambda/layers/common/python/utils/chunker.py:120 | keys come out in ascending chunk index, unmatched keys last |
| Chunker.WithKeyAppend | lambda/layers/common/python/utils/chunker.py:120 | the keys with a given index distribute over concatenation |
| Chunker.WithKeyAbove | lambda/layers/common/python/utils/chunker.py:120 | a list sorting above an index holds no key with that index |
| Chunker.InsertStable | lambda/layers/common/python/utils/chunker.py:120 | insertion keeps equal-index keys in arrival order |
| Chunker.SortStable | lambda/layers/common/python/utils/chunker.py:120 | keys with equal index keep their listing order (stable sort) |
| Chunker.SortedTail | lambda/layers/common/python/utils/chunker.py:120 | the tail of a sorted key list is sorted |
| Chunker.StrictlySortedTail | lambda/layers/common/python/utils/chunker.py:120 | the tail of a strictly sorted key list is strictly sorted |
| Chunker.SameHead | lambda/layers/common/python/utils/chunker.py:120 | a sorted and a strictly sorted permutation of each other start with the same key |
| Chunker.SortedUnique | lambda/layers/common/python/utils/chunker.py:120 | a sorted permutation of a strictly sorted key list is that list, so distinct indexes fix the order |
| Chunker.GatherErrSticks | lambda/layers/common/python/utils/chunker.py:119-125 | once loading a key fails, later keys do not change the outcome |
| Chunker.Reassemble | lambda/layers/common/python/utils/chunker.py:105-133 | the loop gives the reassembly: EnvironmentError without a bucket, FileNotFoundError on an empty listing, otherwise the `.json` contents concatenated in sorted order under the fixed final key |
| Chunker.GatherNoJson | lambda/layers/common/python/utils/chunker.py:122 | a listing without `.json` keys consolidates to an empty list |
| Chunker.GatherAll | lambda/layers/common/python/utils/chunker.py:119-125 | when every key holds its chunk, loading concatenates the chunks |
| Chunker.ResultKeys | lambda/summarizer/summarizer_lambda.py:53 | worker `i` writes `prefix + summarized_{run}_chunk-{i+1}-{uuid}.json` |
| Chunker.RoundTrip | lambda/layers/common/python/utils/chunker.py:105-133 | split, name, store, list in any order, sort by parsed index and concatenate gives the original list under `final_summarized_{run}.json`; no data gives FileNotFoundError |
| Listing.Keys | lambda/layers/common/python/utils/chunker.py:59 | the keys of a listing, position by position |
| Listing.JsonKeys | lambda/summarizer/summarizer_main_lambda.py:45-47 | exactly the listed keys ending in `.json`, never more than listed |
| Listing.JsonKeysAppend | lambda/summarizer/summarizer_main_lambda.py:44-47 | `.json` filtering distributes over pages |
| Listing.JsonObjects | lambda/layers/common/python/utils/chunker.py:56 | never more objects than listed |
| Listing.JsonObjectsMembers | lambda/layers/common/python/utils/chunker.py:56 | the filter keeps exactly the objects whose key ends in `.json` |
| Listing.LatestIndex | lambda/layers/common/python/utils/chunker.py:63-64 | a position with the greatest LastModified, earlier positions strictly older |
| SummarizerMain.PageJsonKeys | lambda/summarizer/summarizer_main_lambda.py:45-47 | the inner loop collects exactly the page's `.json` keys, in order |
| SummarizerMain.PollPages | lambda/summarizer/summarizer_main_lambda.py:44-62 | the loop computes the page-loop outcome, examining no more pages than the listing has |
| SummarizerMain.PollFromBounds | lambda/summarizer/summarizer_main_lambda.py:53-62 | seconds waited stay a multiple of 15 and at most 600; a timeout needs more than 40 pages |
| SummarizerMain.PollBounds | lambda/summarizer/summarizer_main_lambda.py:35-62 | the same for the whole loop, which never lists again after sleeping |
| SummarizerMain.KeysUpToStep | lambda/summarizer/summarizer_main_lambda.py:44-47 | each page adds its `.json` keys |
| SummarizerMain.PollFromKeys | lambda/summarizer/summarizer_main_lambda.py:44-55 | the keys collected are those of the pages read so far, in order |
| SummarizerMain.PollKeys | lambda/summarizer/summarizer_main_lambda.py:44-55 | a finished loop holds the `.json` keys of a prefix of the pages; if it stopped early, at least the expected count |
| SummarizerMain.KeysUpToPrefix | lambda/summarizer/summarizer_main_lambda.py:44-47 | fewer pages give a prefix of the keys |
| SummarizerMain.AsWrittenFromCollectsNothing | lambda/summarizer/summarizer_main_lambda.py:51 | as written, a loop that ends normally has collected nothing more |
| SummarizerMain.AsWrittenCollectsNothing | lambda/summarizer/summarizer_main_lambda.py:51 | as written, a loop that ends normally has collected no key |
| SummarizerMain.LogLineCounterexample | lambda/summarizer/summarizer_main_lambda.py:51 | one page with one result: TypeError as written, the key collected when corrected |
| SummarizerMain.CorrectedOnlyTimesOut | lambda/summarizer/summarizer_main_lambda.py:57-58 | with the log line corrected, the loop's only error is TimeoutError |
| SummarizerMain.CorrectedSingleKeyCollected | lambda/summarizer/summarizer_main_lambda.py:44-55 | corrected, a listing of one result on at most 40 pages collects exactly that key |
| SummarizerMain.Report | lambda/summarizer/summarizer_main_lambda.py:79-134 | an unreadable final file leaves `content` unbound (500); otherwise 200 iff every article is an object, with basenames, chunk size, titles defaulting to Untitled, count, the first article's keys, summary flag and hashtags |
| SummarizerMain.PublishFinal | lambda/summarizer/summarizer_main_lambda.py:64-76 | one collected key is copied to the final key (a missing source raises NoSuchKey); otherwise the reassembly is written, or its error returned |
| SummarizerMain.AfterOrchestrating | lambda/summarizer/summarizer_main_lambda.py:28-134 | an empty run id raises ValueError; otherwise the page loop's error, the publishing error, or the report on the final file |
| SummarizerMain.Handler | lambda/summarizer/summarizer_main_lambda.py:20-141 | chunk size defaults to 2; failures before the dispatch loop give 500 with nothing invoked; an invocation that raises gives 500 with the workers started before it; otherwise one invocation per chunk and the poll/publish/report outcome |
| SummarizerMain.AsWrittenReportsNoChunks | lambda/summarizer/summarizer_main_lambda.py:51 | as written, a completed run reports no chunk at all |
| SummarizerMain.CorrectedSingleChunkCopied | lambda/summarizer/summarizer_main_lambda.py:66-74 | corrected, one result is copied to the final key without reassembly and reported |
| SummarizerMain.ReassembledReadBack | lambda/summarizer/summarizer_main_lambda.py:64-77 | without `FINAL_SUMMARIZED_FILE` the handler reads back exactly what the reassembler wrote |
| Orchestrator.WaitFromMeaning | lambda/orchestrator/orchestrator_lambda.py:32-53 | the loop stops at the first listing with enough `.json` keys, otherwise after exactly 40 listings |
| Orchestrator.WaitMeaning | lambda/orchestrator/orchestrator_lambda.py:28-53 | at most 40 listings; the count is reached iff one of the first 40 listings shows enough keys |
| Orchestrator.PollResults | lambda/orchestrator/orchestrator_lambda.py:32-53 | the loop's listing count and outcome are those of the poll specification |
| Orchestrator.Handler | lambda/orchestrator/orchestrator_lambda.py:16-69 | orchestration errors give 500 without polling; otherwise the poll loop, then reassembly whether or not the count was reached; 500 iff reassembly raised |
| SummarizerWorker.Handler | lambda/summarizer/summarizer_lambda.py:23-70 | 500 without a bucket; `len` of a missing or unsized `articles` gives 500; empty articles 400; otherwise the summaries stored under `prefix + summarized_{run}_{chunk}.json` with their count |
| SummarizerWorker.AlignedKeyParsesBack | lambda/summarizer/summarizer_lambda.py:53 | with the prefix aligned to the reassembler's, the worker's key lies under the run's prefix and parses back to chunk `n` |
| SummarizerWorker.DefaultPrefixMisses | lambda/summarizer/summarizer_lambda.py:19 | with the default prefix no worker key lies under the prefix the reassembler lists |
| Summarizer.StringItems | lambda/layers/common/python/utils/summarizer.py:73-74 | never more tags than list elements |
| Summarizer.StringItemsSound | lambda/layers/common/python/utils/summarizer.py:73-74 | every tag is a stripped string element |
| Summarizer.StringItemsComplete | lambda/layers/common/python/utils/summarizer.py:73-74 | every string element yields its stripped tag; a list of strings loses none |
| Summarizer.WordRun | lambda/layers/common/python/utils/summarizer.py:85 | the maximal run of word characters from a position |
| Summarizer.ParseHashtags | lambda/layers/common/python/utils/summarizer.py:72-89 | a list, or a string that decodes to a list, gives the stripped string elements; any other string gives the `findall` matches, in order, each stripped of quotes and `#`, and raises when there is none; neither list nor string raises; the only error is that ValueError |
| Summarizer.StringItemsAppend | lambda/layers/common/python/utils/summarizer.py:73-74 | the tags keep the list order: the tags of a concatenation are the tags of each part, in order |
| Summarizer.MatchEnd | lambda/layers/common/python/utils/summarizer.py:85 | a match ends after it starts and within the string |
| Summarizer.MatchStartsLeftmost | lambda/layers/common/python/utils/summarizer.py:85 | a left-to-right scan of leftmost non-overlapping matches exists for every string |
| Summarizer.FindAllLeftmost | lambda/layers/common/python/utils/summarizer.py:85 | `findall` returns the texts of the leftmost non-overlapping matches, in order: each starts at the first match position from where the previous ended, and none starts after the last |
| Summarizer.LeftmostExtends | lambda/layers/common/python/utils/summarizer.py:85 | a scan may start one position earlier where no match starts |
| Summarizer.FallbackIsLeftmostScan | lambda/layers/common/python/utils/summarizer.py:76-89 | when the reply is no JSON list, the tags are the leftmost non-overlapping matches in order, stripped; no match raises |
| Summarizer.MatchAtShape | lambda/layers/common/python/utils/summarizer.py:85 | a match is quote, optional `#`, word, quote |
| Summarizer.FindAllShape | lambda/layers/common/python/utils/summarizer.py:85 | every `findall` match has that shape |
| Summarizer.StripWord | lambda/layers/common/python/utils/summarizer.py:87 | stripping `"` and `#` from a match leaves its word |
| Summarizer.FallbackTagsAreWords | lambda/layers/common/python/utils/summarizer.py:76-89 | the regex fallback gives non-empty words without `#`; a string with no match raises |
| Summarizer.JudgeAccepts | lambda/layers/common/python/utils/summarizer.py:191-195 | a summary is accepted iff it is a non-blank string without `[Summary unavailable` |
| Summarizer.EnrichMeaning | lambda/layers/common/python/utils/summarizer.py:194-199 | the enriched record keeps every other field of the article and carries the accepted summary and the given hashtags |
| Summarizer.StepOnAppends | lambda/layers/common/python/utils/summarizer.py:186-205 | an attempt appends iff the prompt builds and the summary is accepted; the record is the article plus `summary` and `hashtags` |
| Summarizer.Slice | lambda/layers/common/python/utils/summarizer.py:173-174 | `articles[:limit]` with Python's bounds, negative limits included |
| Summarizer.SummarizeArticles | lambda/layers/common/python/utils/summarizer.py:161-215 | the loop computes the summarizer's result: [] without an input file, otherwise the accepted records |
| Summarizer.SummarizeLoop | lambda/layers/common/python/utils/summarizer.py:177-215 | the while loop returns what the loop specification gives from the first tick with nothing summarized |
| Summarizer.SummarizeFromExtends | lambda/layers/common/python/utils/summarizer.py:176-205 | the loop only appends: its output extends what it started with and never outgrows the articles |
| Summarizer.SummarizeFromSource | lambda/layers/common/python/utils/summarizer.py:176-205 | each added record is what one attempt at the article in the same position appended |
| Summarizer.SummarizeFromEnriches | lambda/layers/common/python/utils/summarizer.py:176-205 | the loop's output is an in-order enriched copy of a prefix of the articles |
| Summarizer.SummarizeEnriches | lambda/layers/common/python/utils/summarizer.py:161-215 | the result is an in-order enriched copy of a prefix of the (sliced) input |
| Summarizer.SummarizeFromStopsAtBudget | lambda/layers/common/python/utils/summarizer.py:178-181 | readings after the first below 45 s never matter |
| Summarizer.SummarizeStopsAtBudget | lambda/layers/common/python/utils/summarizer.py:178-181 | the run ends at the first reading below the budget |
| Summarizer.SummarizeFromAppendsAll | lambda/layers/common/python/utils/summarizer.py:176-205 | enough in-budget readings whose attempts all append finish every article |
| Summarizer.SummarizeFromComplete | lambda/layers/common/python/utils/summarizer.py:176-205 | with prompts buildable and enough accepting readings, every article is summarized |
| Memcon.Memory.constructor | lambda/layers/common/python/utils/memcon.py:21-35 | the stored library, or none stored yet |
| Memcon.Memory.Download | lambda/layers/common/python/utils/memcon.py:21-35 | a missing object or a `NoSuchKey` read gives the empty library; any other ClientError propagates; otherwise the stored library |
| Memcon.Memory.Upload | lambda/layers/common/python/utils/memcon.py:37-48 | the stored library becomes the given one |
| Memcon.Memory.FilterNewArticles | lambda/layers/common/python/utils/memcon.py:50-81 | returns the articles whose url the loaded library lacks; uploads iff one is new, the library plus the new articles; a `NoSuchKey` read filters against the empty library; any other read error propagates with nothing stored |
| Memcon.CollectNew | lambda/layers/common/python/utils/memcon.py:59-66 | the first loop returns the articles whose url the loaded library lacks, in order, or the first KeyError |
| Memcon.AddEach | lambda/layers/common/python/utils/memcon.py:73-74 | the second loop stores each new article under its url, later ones overwriting earlier ones |
| Memcon.NewArticlesErrSticks | lambda/layers/common/python/utils/memcon.py:61-62 | after a KeyError later articles do not matter |
| Memcon.NewArticlesHaveUrls | lambda/layers/common/python/utils/memcon.py:57-66 | every returned article has a url not in the loaded library |
| Memcon.NewArticlesFails | lambda/layers/common/python/utils/memcon.py:62 | filtering fails iff some article has no string url |
| Memcon.NewArticlesCounts | lambda/layers/common/python/utils/memcon.py:60-66 | an article appears as often as in the batch if its url is new, otherwise never (repeats kept) |
| Memcon.NewArticlesAppend | lambda/layers/common/python/utils/memcon.py:59-66 | the batch is filtered in order: the new articles of a concatenation are those of the first part followed by those of the second |
| Memcon.UrlsMeaning | lambda/layers/common/python/utils/memcon.py:73-74 | the urls of a batch are those of its articles |
| Memcon.AddAllKeeps | lambda/layers/common/python/utils/memcon.py:73-74 | the library gains exactly the new urls; prior entries are unchanged |
| Memcon.AddAllLastWins | lambda/layers/common/python/utils/memcon.py:73-74 | a url repeated in the batch maps to its last article |
| Memcon.FilterNeverRemoves | lambda/layers/common/python/utils/memcon.py:69-79 | the updated library keeps every prior entry |
| Memcon.UrlsCovered | lambda/layers/common/python/utils/memcon.py:57-79 | after the update every scraped url is in the library |
| Memcon.RerunFindsNothing | lambda/layers/common/python/utils/memcon.py:50-81 | re-running the batch against the updated library finds nothing new, so nothing is uploaded |
| Memcon.AllSeen | lambda/layers/common/python/utils/memcon.py:57-66 | a batch whose urls are all known filters to [] |
| Pipeline.Project | lambda/pipeline/pipeline_lambda.py:38 | exactly the listed keys present in the event, with its values |
| Pipeline.BuildPayload | lambda/pipeline/pipeline_lambda.py:36-39 | a stage's payload is its `FUNCTION_PAYLOADS` keys present in the event; an unknown stage gets {} |
| Pipeline.PayloadsPartition | lambda/pipeline/pipeline_lambda.py:28-39 | the three payloads are disjoint and together carry exactly the pipeline parameters the event sets |
| Pipeline.InvokeLambda | lambda/pipeline/pipeline_lambda.py:43-55 | RequestResponse returns the decoded payload; Event returns None unread; call and decode errors propagate |
| Pipeline.Planned | lambda/pipeline/pipeline_lambda.py:69-85 | three synchronous calls |
| Pipeline.Handler | lambda/pipeline/pipeline_lambda.py:59-105 | scraper, orchestrator, poster in order; a failed stage stops the run with its error (500); success embeds the orchestrator's result |
| Posting.Absent | utils/post_to_twitter.py:37 | the keys not present, in declaration order |
| Posting.AbsentAppend | utils/post_to_twitter.py:37 | the filter distributes over concatenation, so every occurrence of a missing key is kept in order |
| Posting.ValidateEnvVars | utils/post_to_twitter.py:36-39 | no error iff every required variable is set; otherwise EnvironmentError listing the missing ones in order |
| Posting.HashWords | utils/post_to_twitter.py:64 | exactly the tokens starting with `#` |
| Posting.HashWordsAppend | utils/post_to_twitter.py:64 | the filter distributes over concatenation, keeping token order and repeats |
| Posting.ArticleHashtags | utils/post_to_twitter.py:64 | a non-string `hashtags` raises AttributeError; absent means "" |
| Posting.TagBlockOf | utils/post_to_twitter.py:26-65 | `#AI` followed by the first two `#` tokens, at most three entries |
| Posting.TagBlockFrom | utils/post_to_twitter.py:64-65 | `#AI` followed by the first two tags, or all when fewer |
| Posting.TagBlockWords | utils/post_to_twitter.py:64-65 | every entry after `#AI` is a `#` token of the hashtags |
| Posting.ChainFromMeaning | utils/post_to_twitter.py:82-94 | each posted id replies to the previous one; the chain stops at the first failed post |
| Posting.ChainMeaning | lambda/layers/common/python/utils/post_to_twitter.py:80-94 | at most one id per segment, in thread order; if fewer, the next post failed |
| Posting.PostSegments | lambda/layers/common/python/utils/post_to_twitter.py:80-94 | None iff a post failed; otherwise all ids in posting order |
| Posting.PostThread | lambda/layers/common/python/utils/post_to_twitter.py:58-105 | dry run or a non-`y` answer returns None; a failed post returns None; success records the title, url, variant and the chained ids |
| Posting.PostThreadPartial | lambda/post_to_twitter.py:30-62 | a non-`y` answer returns None; otherwise the ids posted before the first failure |
| Poster.MissingFields | lambda/poster_lambda.py:41-42 | the missing fields among title, url and variant, in that order |
| Poster.ValidateEvent | lambda/poster_lambda.py:34-47 | a falsy article raises ValueError; missing fields raise ValueError listing them; a non-empty dict article with title, url and the (string) variant and a sliceable title is accepted as it is; success yields an article with title, url and variant |
| Poster.Handler | lambda/poster_lambda.py:33-68 | validation errors give 500; posting is never dry; a None thread gives 500; success gives the ids and the first tweet's status URL |
| Poster.PostedThreadChained | lambda/poster_lambda.py:49-56 | a posted thread answers one id per segment, each replying to the previous, the first with no reply |
| Poster.GetLatestSummaryKey | lambda/poster/poster_lambda.py:24-32 | empty listing FileNotFoundError; no `.json` key IndexError; else the first `.json` key with the greatest LastModified |
| Listing.JsonObjectsPosition | lambda/poster/poster_lambda.py:30-32 | the i-th `.json` object sits at a listing position after only earlier `.json` objects |
| Listing.LatestJsonPosition | lambda/poster/poster_lambda.py:30-32 | the selected key sits at a listing position no `.json` object is newer than, and every earlier `.json` object is strictly older |
| Listing.LatestNoOlder | lambda/poster/poster_lambda.py:31-32 | no `.json` object of the listing is newer than the selected one |
| Listing.LatestStrictlyNewer | lambda/poster/poster_lambda.py:31-32 | every `.json` object listed before the selected one is strictly older |
| Poster.LatestKeysAgree | lambda/poster/poster_lambda.py:24-32 | the poster and the chunker choose the same key; they differ only in the exception for a listing without `.json` keys |
| Poster.SummaryHandler | lambda/poster/poster_lambda.py:34-74 | listing or selection errors give 500; success calls the posting pipeline with the event's limit (default 1), `summary`, dry run (default false), confirmation and start index (default 0), and reports `len(results)` |
| Poster.PostLimitNeverReachesPoster | lambda/poster/poster_lambda.py:39 | the pipeline's poster payload never carries `limit`, so the poster always asks for one article |
| Scraper.ArticleOfKeys | lambda/layers/common/python/utils/scraper.py:44-60 | a record has exactly the fields title, url, authors, snippet and published |
| Scraper.Normalise | lambda/layers/common/python/utils/scraper.py:46-47 | an `http` link is kept; otherwise the arXiv host is put in front |
| Scraper.Texts | lambda/layers/common/python/utils/scraper.py:51 | one string per author, in order |
| Scraper.ArticleOf | lambda/layers/common/python/utils/scraper.py:45-54 | a record with title, url, authors, snippet and published; the url is absolute |
| Scraper.ScanFromMeaning | lambda/layers/common/python/utils/scraper.py:33-57 | the scan returns a page-order prefix of the kept records: all of them, or at least `limit` |
| Scraper.ScanFromWithinLimit | lambda/layers/common/python/utils/scraper.py:56-57 | with a positive limit no more than `limit` records |
| Scraper.ScanFromRaises | lambda/layers/common/python/utils/scraper.py:39 | without a limit the scan raises iff an unskipped result has no `list-title` |
| Scraper.ScrapeMeaning | lambda/layers/common/python/utils/scraper.py:23-65 | page order, skipped results before `start_scrape`, at most `limit` records, [] after an exception |
| Scraper.KeptUrls | lambda/layers/common/python/utils/scraper.py:46-50 | every kept record has an absolute string url |
| Scraper.ScrapeUrls | lambda/layers/common/python/utils/scraper.py:23-65 | every scraped record has an absolute string url |
| Scraper.ScrapedBatchFilters | lambda/layers/common/python/utils/memcon.py:62 | a scraped batch never makes the seen-article filter raise KeyError |
| Scraper.ScraperClient.constructor | lambda/layers/common/python/utils/scraper.py:17-21 | the target url, limit and start position are kept |
| Scraper.ScraperClient.Scrape | lambda/layers/common/python/utils/scraper.py:23-65 | the loop returns the scan's records, [] on a failed fetch |
| LegacyScraper.LegacyArticleOf | lambda/scraper.py:39-45 | a link without `href` raises; otherwise the url is the host plus the href and there is no `published` |
| LegacyScraper.LegacyScanNoneSticks | lambda/scraper.py:32-53 | once a result raises, the scrape returns [] |
| LegacyScraper.LegacyRecordMatches | lambda/scraper.py:39-45 | for a relative link the old record is the layer record without `published` |
| LegacyScraper.LegacyMatchesLayer | lambda/scraper.py:32-45 | with well-formed relative links the old scraper returns the layer scraper's records without `published` |
| LegacyScraper.KeptSnoc | lambda/layers/common/python/utils/scraper.py:33-54 | the kept records grow by the last result's record |
| LegacyScraper.KeptSplit | lambda/layers/common/python/utils/scraper.py:33-54 | the kept records split before the last result |
| LegacyScraper.AbsoluteLinkDoubled | lambda/scraper.py:42 | for every kept result whose link starts with `http`, the old scraper's url is the host followed by the link, the layer scraper's is the link itself, and the two differ |
| LegacyScraper.LegacyScraperClient.constructor | lambda/scraper.py:17-20 | the target url is kept |
| LegacyScraper.LegacyScraperClient.Scrape | lambda/scraper.py:22-53 | the loop returns the legacy scan, [] on any exception; every url starts with the arXiv host |
| Text.StripLeft | lambda/layers/common/python/utils/summarizer.py:74 | drops exactly the leading whitespace, the characters `str.isspace()` accepts |
| Text.StripRight | lambda/layers/common/python/utils/summarizer.py:74 | drops exactly the trailing whitespace, the characters `str.isspace()` accepts |
| Text.TakeWord | utils/post_to_twitter.py:64 | a prefix free of `str.isspace()` characters that ends at whitespace or at the end of the string, so it is the longest such prefix |
| Text.WordsShape | utils/post_to_twitter.py:64 | every `split()` token is non-empty and holds no `str.isspace()` character |
| Text.FindFromMeaning | lambda/layers/common/python/utils/scraper.py:53 | the search `split` makes finds the leftmost occurrence from a position on, or reports that none occurs there |
| Text.LastStartMeaning | lambda/layers/common/python/utils/scraper.py:53 | searching again past each separator found stops where no separator occurs any more, right after the last one found |
| Text.LastPieceMeaning | lambda/layers/common/python/utils/scraper.py:53 | `split(": ")[-1]` is a suffix holding no separator, and unless it is the whole string a separator ends right where it begins |
| Text.DigitChar | lambda/layers/common/python/utils/chunker.py:83 | a decimal digit |
| Text.NatToString | lambda/layers/common/python/utils/chunker.py:83 | `str(n)` is a non-empty numeral |
| Text.DigitRun | lambda/layers/common/python/utils/chunker.py:101 | the maximal run of leading digits |
| Text.ParseNatToString | lambda/layers/common/python/utils/chunker.py:83-102 | `int(str(n)) == n` |
| Text.DigitRunOfNumeral | lambda/layers/common/python/utils/chunker.py:101 | `\d+` after `chunk-` reads the whole numeral up to the `-` |

## Left out

- S3, Lambda, Bedrock, Secrets Manager, tweepy and HTTP calls are oracles. The model does not capture retries, latency, partial writes or the exact wording of exception messages raised inside those services.
- S3 `list_objects_v2`, `put_object` and `upload_file` calls never fail in the model: a listing is a plain sequence of objects and a write always lands in the store. In the source any of them may raise, and the exception reaches the handler's `except` (500) or leaves `filter_new_articles`. The reads that are modelled as fallible are the object download (NoSuchKey / missing key), the memory read error, the poster's listing and download, and the worker invocation. The members concerned are named on the next lines.
- Chunker.GetLatestScraperKey, Chunker.OrchestrateChunks: a failing listing of the scraper prefix is not modelled.
- Chunker.Reassemble: a failing listing of the result prefix and a failing `upload_file` of the final file are not modelled.
- Orchestrator.PollResults: a failing listing inside the poll loop is not modelled.
- SummarizerMain.PollPages: a failing page of the paginated listing is not modelled.
- SummarizerMain.PublishFinal: a failing `copy_object` or final upload is not modelled; only the missing source key is.
- SummarizerWorker.Handler: a failing `upload_file` of the chunk result is not modelled.
- Memcon.Memory.Upload, Memcon.Memory.FilterNewArticles: a failing `put_object` is not modelled; the stored library is always replaced.
- `time.sleep`, `random_delay`, the throttle jitter, `uuid4` and `datetime.utcnow`: run ids and uuids are parameters. The summarizer's clock is a sequence of remaining-budget readings.
- `retry_until_timeout` and `summarize_with_claude`: each attempt's outcome is one reading of the reply oracle. Token counting is not modelled.
- `generate_tweet_thread` (utils.twitter_threading) is not part of this model; it is a function parameter.
- `utils.orchestrator` is not part of this model. The orchestrator Lambda takes its `orchestrate_chunks` outcome and reassembly error as inputs.
- `run_posting_pipeline`, imported by lambda/poster/poster_lambda.py from a module that does not define it, is an oracle.
- BeautifulSoup parsing is replaced by records of optional fields. The pandas `DataFrame(...).to_dict` round trip is taken to be the identity on the records.
- `json.loads`/`json.dumps` are oracles or the identity on JSON values. Float values are not modelled.
- `input()` confirmation is `Option<bool>`: `None` stands for the EOFError `input()` raises without a terminal, and `Some(b)` for whether the stripped, lower-cased answer is `y`.
- Logging and printing, the archive step, `load_articles`, the argparse `main` blocks, and the import-time file load in lambda/post_to_twitter.py.
- lambda/poster_lambda.py imports `validate_env_vars` from a logger module that does not define it. That import error is not modelled; only the handler logic is.
- Memcon.Memory.FilterNewArticles: a url that is not a string is modelled as TypeError. Python would use a number or another hashable value as a dict key, and would raise TypeError only for unhashable ones.
- Poster.ValidateEvent: a non-string variant is modelled as TypeError, although a string article would raise it and a list article might not. `article['title'][:60]` on a non-sliceable title is TypeError.
- Summarizer.WordRun: `\w` is taken as ASCII letters, digits and `_`; Python's Unicode word characters are not modelled.
- Text.DigitRun: `\d` is taken as the ASCII digits `0`-`9`. Python's `\d` also matches the other Unicode decimal digits, which `int()` then reads, so a chunk key numbered in such digits yields an index in Python and none in the model.
- SummarizerMain.Report: `article_keys` is the set of the first article's keys. Their order in the dict is not modelled, since JSON objects are maps here.
- SummarizerWorker.Handler: `chunk_id` and `run_id` are strings or absent. Non-string ids, which Python would format with `str()`, are not modelled.
- Chunker.Reassemble: the bucket check is modelled for reassembly only. S3 calls in the other operations assume the bucket is set.
- Pipeline.Handler: an unset stage-name variable becomes a `None` function name passed to the oracle.
- lambda/scraper/scraper_lambda.py, the logger, user-agent, request-helper and tweepy client files, automations.py, agent-scraper.py and the Bedrock wrapper lambda/summarizer.py carry only I/O glue and are not modelled.

## Findings

| source | as written | input that shows it | evidently intended | confidence | as-written member | corrected member |
|---|---|---|---|---|---|---|
| lambda/summarizer/summarizer_main_lambda.py:51 | the log line evaluates `obj['Key']` on the collected key strings, raising TypeError as soon as one `.json` key has been collected, so every run that finds a result fails with 500 and the single-chunk copy never runs | one page listing `r.json`, one chunk expected | log the collected keys themselves; the loop then stops once enough keys are collected | not executed | SummarizerMain.LogLineCounterexample | SummarizerMain.CorrectedSingleKeyCollected |
