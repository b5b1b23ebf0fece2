# IdeaOasis daily-idea pipeline, modelled in Dafny

IdeaOasis publishes one startup idea per day, summarised in Korean. A discovery
agent builds the candidate list from three scrapers: IdeaBrowser, Hacker News and
Product Hunt. It scores the candidates, keeps those with a positive score and
ranks them. It drops titles already stored in the last 30 days, prefers an
IdeaBrowser candidate, and has the chosen candidate rewritten by a language model.
A scheduler saves the result and then always archives ideas older than a day. A
small web app shows today's idea and the archive, and takes up/down votes. A
legacy crawler keeps its own table of evaluated business ideas awaiting review.

The model's layout:

- **Values.** Records are datatypes, with the text fields as `string`.
- **Time.** Timestamps are `real` seconds.
- **External inputs.**
  - Everything the program reads from outside is a parameter: HTML already
    extracted to strings, the language model's reply, the clocks, random draws,
    and whether a database call raises.
  - A call that may raise returns `Outcome<T>` (`Returned(v)` or `Raised`).
- **Mutable tables.** The tables the program updates in place are classes over a
  `seq` field:
  - `IdeaStore.IdeaTable`;
  - `Web.VoteTable`;
  - `Crawler.CrawlerDb`.
- **Loops.** The source's loops are methods with loop invariants. Each is proved
  equal to a specification function, and the lemmas are stated about that
  function.

Modules, one per file:

- `Wrappers` (wrappers.dfy): `Option` and `Outcome`.
- `Text` (text.dfy): Python's string operations, restricted to ASCII:
  - lowercasing;
  - substring search;
  - `split()` and `strip()`;
  - slicing a prefix;
  - the first run of digits.
- `Sorting` (sorting.dfy): Python's stable `sort(key=…, reverse=True)`, as a
  function and as an in-place insertion sort on an array.
- `Records` (records.dfy): the scraped idea, the processed idea and the stored
  `ideas` row.
- `Scoring` (scoring.dfy): `_calculate_idea_score`.
- `Dedup` (dedup.dfy): `check_duplicate` and `_check_duplicates`.
- `Enrichment` (enrichment.dfy): `process_idea`, `_get_ai_response`,
  `_fallback_response` and `categorize_idea`.
- `Agent` (agent.dfy): collection, filtering and ranking, selection,
  `discover_daily_idea` and `get_ideas_by_category`.
- `IdeaStore` (idea_store.dfy): `save_idea_to_database` and `archive_old_ideas`
  on the `ideas` table.
- `Scheduler` (scheduler.dfy): `run_daily_discovery` and
  `_check_and_run_if_needed`.
- `Web` (web.dfy): the demo-mode gate, the vote upsert and counts, and the index
  and archive queries.
- `Crawler` (crawler.dfy): the legacy crawler's table, its evaluation and its
  run.
- `Scraping`, `HackerNews`, `ProductHunt`, `IdeaBrowser` (scraping.dfy,
  hackernews.dfy, producthunt.dfy, ideabrowser.dfy): the field logic of the
  three scrapers, working on already-extracted strings.

Two behaviours of the code decide outcomes that a reader might expect to go
otherwise:

- **Content-length bonus.** The `> 500` branch of the length bonus is tested
  after `> 200`, so it is never taken.
  - Long content earns +1.5, never +2 (`Scoring.LengthBonus`).
  - A Hacker News story with 150 points, 40 comments, category "ai-ml", 600
    characters of content and the word "beta" therefore scores 10.5 (11.5 if it
    is recent) (`Scoring.HackerNewsExampleScore`).
- **Language-model failure.** When the call to the language model raises,
  `_get_ai_response` returns None and `process_idea` returns None, so the run
  yields no idea. The fallback summary is used only when the reply is not valid
  JSON (`Enrichment.GetAiResponse`, `Agent.ModelFailureNoIdea`).

## Model

| member | source | states |
|---|---|---|
| Scoring.EngagementBonus | app/idea_discovery_agent.py:146-147 | the bonus is score/100 capped at 5, and 0 exactly when the score is not positive |
| Scoring.CommentBonus | app/idea_discovery_agent.py:149-150 | the bonus is comments/10 capped at 3, and 0 exactly when there are no comments |
| Scoring.SourceBonus | app/idea_discovery_agent.py:153-161 | first substring match in the order ideabrowser 4, showhn 3, producthunt 2.5, hackernews 2, else 0; each value iff its case |
| Scoring.SourceTagBonuses | app/idea_discovery_agent.py:153-161 | the four source tags the scrapers produce earn 4, 3, 2.5 and 2; "hackernews_showhn" earns exactly 3 |
| Scoring.CategoryBonus | app/idea_discovery_agent.py:21-26 | 1.5 iff the lowercased category contains one of the 19 taxonomy entries, else 0 |
| Scoring.RecencyBonus | app/idea_discovery_agent.py:169-172 | 1 iff a creation time is present and less than 24 hours before now, else 0 |
| Scoring.LengthBonus | app/idea_discovery_agent.py:175-181 | -2 iff shorter than 50, 0 iff 50..200, 1.5 iff longer than 200; the +2 of the unreachable branch is never given |
| Scoring.KeywordBonus | app/idea_discovery_agent.py:184-187 | 1 iff a quality keyword occurs in the lowercased "title content", else 0 (applied at most once) |
| Scoring.KeywordInContent | app/idea_discovery_agent.py:184-187 | a quality keyword in the content alone earns the keyword bonus |
| Scoring.Score | app/idea_discovery_agent.py:141-189 | the score lies in 0..17, is positive exactly when the raw sum is, and then equals it (the clamp at 0) |
| Scoring.HackerNewsExampleScore | app/idea_discovery_agent.py:141-189 | a 150-point, 40-comment "ai-ml" story with 600 characters mentioning "beta" scores 10.5, or 11.5 if recent |
| HackerNews.KeywordInTitle | app/scrapers/hackernews_scraper.py:136-151 | a startup keyword in the lowercased title makes the story startup-related |
| HackerNews.ExtractIdeaFromRow | app/scrapers/hackernews_scraper.py:52-103 | None iff the story link or the metadata row is missing; else the stripped link text as title, the link as url, content "", source "hackernews", and score and comments each the first number in their text, or 0 |
| HackerNews.ExtractReadsScore | app/scrapers/hackernews_scraper.py:69-76 | a score text "p n q" with no digit in p reads back exactly n |
| HackerNews.StoryRowsPenalised | app/scrapers/hackernews_scraper.py:89-98 | every extracted story has empty content and so takes the -2 length penalty |
| HackerNews.StartupRowsProperties | app/scrapers/hackernews_scraper.py:30-38 | main-page results are at most one per row, startup-related, tagged "hackernews", with empty content |
| HackerNews.ShowHnProperties | app/scrapers/hackernews_scraper.py:118-123 | Show HN results are at most one per row and all retagged "hackernews_showhn" |
| HackerNews.ShowHnKeepsUnrelated | app/scrapers/hackernews_scraper.py:118-123 | a Show HN row that is not startup-related is still kept, while the main page drops it |
| HackerNews.GetShowHnPosts | app/scrapers/hackernews_scraper.py:105-134 | the loop over the first `limit` rows returns exactly the Show HN specification; a failed fetch gives [] |
| HackerNews.GetStartupIdeas | app/scrapers/hackernews_scraper.py:16-50 | startup-related rows of the first `limit` main-page rows followed by Show HN posts fetched with limit // 2; [] when the main fetch fails |
| Scraping.RecordUrl | app/scrapers/producthunt_scraper.py:64-67 | empty link gives the base url, a relative one is prefixed with it, an absolute one is kept |
| Scraping.CollectLength | app/scrapers/producthunt_scraper.py:34-38 | a collection loop that adds at most one record per item yields no more records than items |
| Scraping.CollectAll | app/scrapers/hackernews_scraper.py:30-38 | a property of every record an item yields holds of everything the loop collects |
| Scraping.RecordUrlAbsolute | app/scrapers/ideabrowser_scraper.py:99-102 | with an absolute base the record url is absolute, and normalising it again changes nothing |
| ProductHunt.KeywordInContent | app/scrapers/producthunt_scraper.py:139-154 | a startup keyword in the lowercased content makes the product startup-related |
| ProductHunt.ExtractIdeaFromContainer | app/scrapers/producthunt_scraper.py:52-101 | a record iff the stripped heading and description are both non-empty; title and content are those, source "producthunt", url made absolute, votes and comments each the first number in their text, or 0 |
| ProductHunt.RecordsLinkAbsolute | app/scrapers/producthunt_scraper.py:87-96 | every product record carries an absolute url |
| ProductHunt.CollectedProducts | app/scrapers/producthunt_scraper.py:34-38 | at most one product per container, each startup-related, tagged "producthunt", with non-empty title and content and an absolute url |
| ProductHunt.CollectContainers | app/scrapers/producthunt_scraper.py:34-38 | the loop over the first `limit` containers returns exactly the specification's records |
| ProductHunt.GetTodayProducts | app/scrapers/producthunt_scraper.py:16-50 | the class-matched containers or else the text fallback, first `limit` of them; [] when the fetch fails |
| ProductHunt.SearchProducts | app/scrapers/producthunt_scraper.py:195-216 | the first `limit` search containers' records; [] when the fetch fails |
| ProductHunt.TrendingQuota | app/scrapers/producthunt_scraper.py:115-126 | each page contributes at most the quota, so the result has at most pages * quota records |
| ProductHunt.GetTrendingProducts | app/scrapers/producthunt_scraper.py:103-137 | takes at most limit // 3 containers from each of the 3 pages, keeps startup-related records, and returns at most `limit` |
| ProductHunt.GetProductDetails | app/scrapers/producthunt_scraper.py:156-193 | a record iff the title and the joined content are non-empty; its title is the stripped heading, its content the joined text, its url the page url, with zero counts |
| ProductHunt.DetailJoin | app/scrapers/producthunt_scraper.py:177 | the joined content is "description\n\ncontent" when both are present, else the one that is |
| ProductHunt.DetailContentEmpty | app/scrapers/producthunt_scraper.py:177-188 | the joined content is empty iff description and content both strip to empty |
| IdeaBrowser.KeywordInCategory | app/scrapers/ideabrowser_scraper.py:214-230 | a startup keyword in the lowercased category alone makes the idea startup-related |
| IdeaBrowser.FirstHitNone | app/scrapers/ideabrowser_scraper.py:80-86 | with no matching selector the title (or category) is "" |
| IdeaBrowser.FirstHitAt | app/scrapers/ideabrowser_scraper.py:80-86 | the title (or category) is the stripped text of the first matching selector |
| IdeaBrowser.FindFirstHit | app/scrapers/ideabrowser_scraper.py:114-120 | the selector loop with `break` computes exactly the first-hit function |
| IdeaBrowser.ContentTakesFirstLong | app/scrapers/ideabrowser_scraper.py:89-96 | the content is the first selector text longer than 20 characters |
| IdeaBrowser.ContentTakesLastShort | app/scrapers/ideabrowser_scraper.py:89-96 | when no text is longer than 20, the content is the last matched selector's text |
| IdeaBrowser.ContentNoHit | app/scrapers/ideabrowser_scraper.py:89-96 | with no matching selector the content stays "" |
| IdeaBrowser.ContentIsSomeHit | app/scrapers/ideabrowser_scraper.py:89-96 | the content is either the starting value or the stripped text of some matched selector |
| IdeaBrowser.FindContent | app/scrapers/ideabrowser_scraper.py:89-96 | the loop with `break` computes exactly the content-selection function |
| IdeaBrowser.ExtractIdea | app/scrapers/ideabrowser_scraper.py:122-132 | a record iff title and content are non-empty, with score 0, 0 comments, source "ideabrowser" and an absolute url |
| IdeaBrowser.ExtractIdeaFromContainer | app/scrapers/ideabrowser_scraper.py:76-135 | the imperative extraction returns exactly that record |
| IdeaBrowser.CollectedIdeas | app/scrapers/ideabrowser_scraper.py:59-68 | at most one idea per container, each startup-related, tagged "ideabrowser", with non-empty title and content and zero counts |
| IdeaBrowser.CollectContainers | app/scrapers/ideabrowser_scraper.py:59-68 | the loop over the first `limit` containers returns exactly the specification's records |
| IdeaBrowser.FirstNonEmpty | app/scrapers/ideabrowser_scraper.py:46-52 | the container list is the first non-empty selector result, and empty iff all are empty |
| IdeaBrowser.SelectContainers | app/scrapers/ideabrowser_scraper.py:46-52 | the selector loop computes exactly that choice |
| IdeaBrowser.GetStartupIdeas | app/scrapers/ideabrowser_scraper.py:25-74 | the first `limit` chosen containers (or the text fallback) turned into records; [] when the fetch fails |
| IdeaBrowser.CrawlQuota | app/scrapers/ideabrowser_scraper.py:202 | each url contributes at most the quota, so the result has at most urls * quota records |
| IdeaBrowser.GetIdeasByCategory | app/scrapers/ideabrowser_scraper.py:177-212 | at most limit // 4 containers from each of the 4 category urls; at most `limit` records |
| IdeaBrowser.SearchIdeas | app/scrapers/ideabrowser_scraper.py:286-320 | at most limit // 3 containers from each of the 3 search urls; at most `limit` records |
| IdeaBrowser.GetTrendingIdeas | app/scrapers/ideabrowser_scraper.py:322-357 | at most limit // 4 containers from each of the 4 trending urls; at most `limit` records |
| Agent.FirstRaise | app/idea_discovery_agent.py:75-99 | the index of the first sub-call that raises: every call before it returned |
| Agent.CollectIdeasFromSources | app/idea_discovery_agent.py:70-123 | the loop-built list equals the collection specification |
| Agent.CollectedMembers | app/idea_discovery_agent.py:75-121 | an idea is collected iff it comes from an IdeaBrowser call when none of them raised, from the Hacker News stories call, from the Show HN call when the stories call did not raise, or from Product Hunt |
| Agent.ConcatMembers | app/idea_discovery_agent.py:94 | the concatenation holds exactly the ideas of the calls that returned |
| Agent.ShowHnCollectedTwice | app/idea_discovery_agent.py:103-109 | with each call reading its own clock, a Show HN post the second call returns is in the collected list, and the same post stamped with the first call's time sits at an earlier position |
| HackerNews.ShowHnRestamp | app/scrapers/hackernews_scraper.py:90-96 | a Show HN record fetched at one time is returned, with only its creation time changed, by the same rows read at any other time |
| Agent.FilterAndRank | app/idea_discovery_agent.py:125-139 | the filter loop followed by the in-place array sort returns exactly the ranking specification |
| Agent.KeepPositiveMembers | app/idea_discovery_agent.py:129-133 | a record is kept iff it is some input scoring above 0 with that score written as its quality score |
| Agent.KeepPositiveScores | app/idea_discovery_agent.py:129-133 | no more records than the input, each carrying a positive quality score |
| Agent.RankedMembers | app/idea_discovery_agent.py:125-139 | the ranking is a permutation of the kept records, and its members are exactly the positively scored inputs with their scores |
| Agent.RankedOrder | app/idea_discovery_agent.py:136 | the ranking is in non-increasing score order, records of equal score keep input order, and every score is positive |
| Agent.NoPositiveNothingRanked | app/idea_discovery_agent.py:129-133 | when nothing scores above 0 the ranking is empty |
| Agent.RankedNonEmpty | app/idea_discovery_agent.py:129-139 | the ranking is non-empty iff some input scores above 0 |
| Agent.IdeaBrowserIdeas | app/idea_discovery_agent.py:218 | empty iff no record's source contains "ideabrowser"; otherwise it starts with the first such record |
| Agent.SelectBest | app/idea_discovery_agent.py:212-227 | None iff the list is empty; the first IdeaBrowser record when there is one, else element 0 |
| Agent.DiscoverDailyIdea | app/idea_discovery_agent.py:28-68 | the staged run with its early returns equals the discovery specification |
| Agent.NoPositiveCandidateNoIdea | app/idea_discovery_agent.py:39-44 | when no candidate scores above 0 the run returns None whatever the store and the model do |
| Agent.StoreFailureRaises | app/idea_discovery_agent.py:46-51 | the run raises iff the duplicate lookup raises and there is a ranked candidate to check |
| Agent.ModelFailureNoIdea | app/idea_discovery_agent.py:60-68 | when the language-model call raises the run yields no idea (None, or the lookup's exception) |
| Agent.DiscoverPicks | app/idea_discovery_agent.py:46-68 | a run that returns an idea processed a candidate that survived ranking and the duplicate check, with the lookup working |
| Agent.SurvivorOrigin | app/idea_discovery_agent.py:125-210 | a survivor of ranking and deduplication is a positively scored collected idea with a fresh title, tagged with its score |
| Agent.SurvivorAt | app/idea_discovery_agent.py:125-210 | a positively scored collected idea with a fresh title survives ranking and deduplication, tagged with its score |
| Agent.DiscoverProcessesBest | app/idea_discovery_agent.py:46-68 | with a working lookup and some survivor, the run returns what processing the selected candidate gives |
| Agent.DiscoveredFromCandidate | app/idea_discovery_agent.py:28-68 | a returned idea comes from a collected, positively scored, non-duplicate candidate and carries its url and source |
| Agent.IdeaBrowserPreferred | app/idea_discovery_agent.py:212-227 | when some positively scored IdeaBrowser candidate is new, the published idea comes from an IdeaBrowser candidate |
| Agent.SearchTerms | app/idea_discovery_agent.py:239 | three search terms, the first being the category itself |
| Agent.IdeasByCategory | app/idea_discovery_agent.py:229-247 | the category call and the three searches are concatenated up to the first call that raises; earlier results are kept |
| Agent.PartialResultsKept | app/idea_discovery_agent.py:233-245 | a raise at call k keeps exactly the results of calls before k, and makes the agent's IdeaBrowser part empty |
| Dedup.CheckDuplicate | app/ai_processor.py:149-177 | the loop with early returns computes the duplicate predicate; a failing lookup raises |
| Dedup.SameTitleIsDuplicate | app/ai_processor.py:154-163 | an identical title stored within 30 days is a duplicate |
| Dedup.SharedWordExample | app/ai_processor.py:166-175 | a title whose first word is "Remote" (such as "Remote Team VR Platform") is a duplicate of a title stored ten days earlier that starts with "Remote" |
| Dedup.FirstKeyword | app/ai_processor.py:166 | the first keyword of a title is its first whitespace-free word, lowercased |
| Dedup.RecentRows | app/ai_processor.py:154-163 | a row is kept iff it is in the table and created within the window |
| Dedup.ExactIgnoresStale | app/ai_processor.py:154-163 | the exact-title query gives the same answer on the whole table as on its rows within the window |
| Dedup.TokenIgnoresStale | app/ai_processor.py:166-175 | a keyword query gives the same answer on the whole table as on its rows within the window |
| Dedup.ShortWordsOnlyExact | app/ai_processor.py:166-175 | when every word has at most 3 characters only an exact recent title makes a duplicate |
| Dedup.OldRowsIgnored | app/ai_processor.py:154-171 | wherever they stand in the table, rows older than 30 days never change the answer: it is the one the recent rows alone give |
| Dedup.NoRecentRowNoDuplicate | app/ai_processor.py:154-177 | with no row inside the window the answer is false |
| Dedup.MoreRowsMoreDuplicates | app/ai_processor.py:149-177 | adding rows never turns a duplicate into a non-duplicate |
| Dedup.CheckedTitle | app/idea_discovery_agent.py:199 | the checked title is a prefix of the title: exactly 100 characters long when the title is longer, the whole title otherwise |
| Dedup.CheckDuplicates | app/idea_discovery_agent.py:191-210 | the loop keeps exactly the non-duplicates in order; a lookup exception propagates once there is a title to check |
| Dedup.KeepIfStep | app/idea_discovery_agent.py:196-203 | one more record is kept exactly when the filter accepts it |
| Dedup.KeepIfConcat | app/idea_discovery_agent.py:196-203 | filtering distributes over concatenation |
| Dedup.KeepIfMembers | app/idea_discovery_agent.py:196-203 | a record is kept iff it is an input the filter accepts |
| Dedup.UniqueMembers | app/idea_discovery_agent.py:196-203 | a record survives iff it is an input whose truncated title is not a duplicate |
| Dedup.UniqueConcat | app/idea_discovery_agent.py:196-203 | deduplication works record by record: it distributes over concatenation |
| Dedup.UniqueShorter | app/idea_discovery_agent.py:196-203 | no more records than the input, the first survivor being an input (order is kept, by `Dedup.KeepIfConcat`) |
| Enrichment.Fallback | app/ai_processor.py:122-147 | the fixed fallback title and a summary that embeds the first 100 characters of the input followed by "..." |
| Enrichment.FallbackRoundTrip | app/ai_processor.py:122-147 | the excerpt can be read back from the fallback summary |
| Enrichment.GetAiResponse | app/ai_processor.py:94-120 | None iff the call raises; the parsed JSON when the reply parses; else the fallback built from the reply text |
| Enrichment.ProcessIdea | app/ai_processor.py:15-38 | None when the call raises or the response is falsy or not an object; a record for any non-empty object, with language "ko", not archived, url and source copied, published now |
| Enrichment.UnparsedReplyUsesFallback | app/ai_processor.py:22-33 | an unparsable reply yields the fallback title and summary |
| Enrichment.ParsedObjectFields | app/ai_processor.py:24-33 | any non-empty object, even one with no string member such as `{"n": 1}`, yields a record; its title is used, falling back to the candidate's title, and its summary defaults to "" |
| Enrichment.CountMatches | app/ai_processor.py:213-214 | at most one hit per keyword, and 0 iff no keyword occurs |
| Enrichment.PickCategory | app/ai_processor.py:205-219 | over any table without a "general" entry: "general" iff no category has a hit; otherwise the earliest category with the most hits |
| Enrichment.CategorizeIdea | app/ai_processor.py:179-219 | "general" iff no keyword of any category occurs; otherwise a category with strictly more hits than every earlier one and no fewer than every later one |
| IdeaStore.NewRow | app/idea_discovery_agent.py:249-275 | the saved row copies the processed idea, is not archived, and takes the UTC clock for both timestamps |
| IdeaStore.IdeaTable.Save | app/idea_discovery_agent.py:249-275 | true and exactly one new row with a fresh id, or false and no change when the store raises |
| IdeaStore.IdeaTable.ArchiveOldIdeas | app/idea_discovery_agent.py:277-298 | the in-place loop leaves exactly the archive-pass table; a store error leaves the table as it was |
| IdeaStore.ArchiveExact | app/idea_discovery_agent.py:283-292 | a row is archived afterwards iff it was archived or created before the cutoff; only eligible rows change, and only in `archived` and `updated_at` |
| IdeaStore.ArchiveTwice | app/idea_discovery_agent.py:283-292 | after a pass nothing is eligible, and a second pass changes nothing |
| IdeaStore.CountEligibleZero | app/idea_discovery_agent.py:284-287 | the eligible count is zero iff no row is unarchived and older than the cutoff |
| Scheduler.RunDailyDiscovery | app/scheduler.py:14-39 | saved iff discovery returned an idea and the save succeeded; the table is then saved and archived, the archive running whatever discovery did |
| Scheduler.ArchiveAlwaysRuns | app/scheduler.py:35-39 | unless archiving raises, no row is left to archive after a run, whatever discovery returned |
| Scheduler.SavedIdeaStaysActive | app/scheduler.py:20-37 | the idea a run saves ends the table, unarchived, when the UTC clock is not a day behind |
| Scheduler.ActiveIdea | app/scheduler.py:75-82 | None iff no unarchived row is created in [midnight, midnight + 1 day); else such a row |
| Scheduler.CheckAndRunIfNeeded | app/scheduler.py:66-93 | a run happens iff the query succeeds and finds no active idea today; otherwise the table is unchanged |
| Web.DemoMode | app/main.py:72 | demo mode iff the key is unset, empty, or the placeholder |
| Web.VoteTable.CastVote | app/main.py:143-188 | demo mode and invalid types leave the votes unchanged; otherwise the upsert happens and the counts after it are returned |
| Web.VoteOutcome | app/main.py:150-154 | demo mode accepts without writing, an invalid type is refused without writing, and only a valid vote is counted |
| Web.FindVote | app/main.py:160-163 | the first vote of this voter on this idea, or None iff there is none |
| Web.UpsertShape | app/main.py:165-176 | only this voter's vote changes or one vote is added (iff none existed); one vote per voter is kept and carries the new type |
| Web.CountsAfterUpsert | app/main.py:181-182 | the new vote joins its type's tally, a replaced vote leaves its own, and other ideas' tallies are unchanged |
| Web.VoteTable.Count | app/main.py:181-182 | the counting scan returns the number of votes of that type for the idea |
| Web.TodaysIdea | app/main.py:87-91 | None iff no unarchived row is created since midnight; else the first such row |
| IdeaStore.IdsIdentifyRows | app/models.py:15 | with the id invariant the table keeps, two rows share an id iff they are the same row |
| Web.IndexCountsOneIdea | app/main.py:87-96 | with unique ids, the votes the index page counts under today's idea's id belong to that row alone |
| Web.Index | app/main.py:67-112 | demo page with 42/8 in demo mode; otherwise today's idea with its up and down counts, or no idea with zeros |
| Web.ArchivePageExact | app/main.py:135 | the archive lists exactly the archived rows (as a multiset), newest first |
| Crawler.NewBusinessIdea | idea_crawler.py:29-31 | country defaults to "KR" |
| Crawler.EvaluateIdea | idea_crawler.py:180-200 | scores stay in 4..9, 3..8, 3..8, 5..9; only "FinTech" raises market size and only "AI/SaaS" and "HealthTech" raise timing, capped at 9 |
| Crawler.NewRow | idea_crawler.py:97-99 | a stored idea starts pending |
| Crawler.StatusUpdateExact | idea_crawler.py:320-324 | the update changes only the status of the row with that id, and at most one row has it |
| Crawler.CrawlerDb.SaveIdea | idea_crawler.py:202-232 | true and one pending row iff no row has the same title and source and the store does not raise; otherwise no change; the new table is the save specification's |
| Crawler.CrawlerDb.ApproveIdea | idea_crawler.py:314-332 | true iff a row has the id; that row becomes approved whatever its status was |
| Crawler.CrawlerDb.RejectIdea | idea_crawler.py:334-352 | true iff a row has the id; that row becomes rejected whatever its status was |
| Crawler.PendingIdeasExact | idea_crawler.py:299-305 | the queue holds exactly the pending rows (as a multiset), newest first |
| Crawler.CrawlerDb.RunCrawler | idea_crawler.py:251-291 | the table is the one the sampled ideas give when saved in order, each insert stamped with its own clock reading; three found, added equals the new rows (at most three), each pending and holding a sampled idea, their creation times strictly increasing in table order, and every idea whose save did not raise has a row |
| Crawler.SaveRowsWellFormed | idea_crawler.py:202-232 | one `INSERT OR IGNORE` keeps ids increasing and (title, source) unique |
| Crawler.SaveAllWellFormed | idea_crawler.py:265-268 | saving the sample in order keeps the table well formed, so a repeated title and source is stored once |
| Crawler.SaveAllAppends | idea_crawler.py:265-268 | saving the sample only appends, at most one pending row per idea, each holding an idea whose save did not raise and stamped with that save's clock reading |
| Crawler.SaveAllIncreasing | idea_crawler.py:265-268 | with the clock moving forward across the sleeps between saves, the new rows' creation times strictly increase in table order |
| Crawler.SaveAllStores | idea_crawler.py:265-268 | after the run every sampled idea whose save did not raise has a row with its title and source |
| Sorting.SortByKeyDesc | app/idea_discovery_agent.py:136 | the in-place insertion sort leaves exactly the stable descending sort of the array |
| Sorting.SortDescPermutation | app/idea_discovery_agent.py:136 | sorting permutes its input |
| Sorting.SortDescSorted | app/idea_discovery_agent.py:136 | the result is in non-increasing key order |
| Sorting.SortDescStable | app/idea_discovery_agent.py:136 | records of equal key keep their input order |
| Text.CountIn | app/scrapers/hackernews_scraper.py:69-84 | the count is the first number in the text, and 0 when there is no text or no digit |
| Text.FirstNumberReadsBack | app/scrapers/hackernews_scraper.py:69-84 | the first digit run of "p n q" (no digit in p) reads back n |
| Text.StripIdempotent | app/scrapers/producthunt_scraper.py:177 | stripping twice is stripping once |
| Text.SplitToken | app/ai_processor.py:166 | every token of `split()` is non-empty and holds no whitespace |
| Text.Take | app/idea_discovery_agent.py:199 | the slice `[:n]` is the prefix of length min(n, len) |

## Left out

- HTTP fetching and HTML parsing are left out. The scrapers take the selector results as inputs: optional strings, lists of containers, and a failed fetch as None.
- The language-model call is left out. Its reply is an input: the call raised, or it returned text with an optional JSON parse. The prompt text in `_create_prompt` is not modelled.
- Clocks and time zones are parameters. The Korean local clock, the naive local clock and the UTC clock are passed in separately, as `now`, `utcNow` and today's midnight.
- SQLAlchemy and sqlite sessions are in-memory sequences. SQL `LIKE` wildcards and `ILIKE`'s non-ASCII case folding are not modelled. Lowercasing, whitespace and digits are ASCII only.
- Floating-point rounding is not modelled: scores are exact reals.
- Random draws and sleeps are inputs or are dropped. This covers `random.sample`, `random.randint` and `time.sleep`. The five sample ideas of `generate_sample_ideas` are not modelled: `RunCrawler` takes the three sampled ideas as input.
- Printing and logging are left out, as are `log_crawler_run` and the scheduler's polling loops.
- `Agent.CollectIdeasFromSources` and `Agent.IdeasByCategory` take each scraper call's result or exception as input. The scrapers' own exception handlers appear only as a failed fetch giving [].
- Some scraper code is not used by the pipeline and is not modelled:
  - the date extraction at `app/scrapers/ideabrowser_scraper.py:105-111`, whose value is never stored;
  - `_get_ideas_from_sections`;
  - `get_idea_details` of IdeaBrowser and of Hacker News;
  - `get_trending_stories`.
- `Crawler.EvaluateIdea` takes the random draws in their `randint` ranges as input. `run_crawler` does not call it: the sample ideas carry their own scores.
- The vote row's own id is not modelled.
- `Web.ArchivePageExact` and `Crawler.PendingIdeasExact` use a stable sort. SQL leaves the order of rows with equal `created_at` unspecified; the model keeps table order.
- `Web.VoteTable.CastVote` updates only the first existing vote of the voter. The table has no unique constraint on `(idea_id, user_ip)`. The model proves that the endpoint keeps one vote per voter.
- Enrichment.ProcessIdea: a reply object's `idea_title` or `summary_kr` member that is not a string (null, a number, a list) is not carried. Python copies such a value into the result, and the later save then rejects or converts it. The model treats that member as missing: the candidate's title, or "". The processed record holds strings only.
- The crawler's clock readings are inputs to `RunCrawler`, one per insert. They must strictly increase, standing for the one-second sleep between saves; SQLite's second-resolution `CURRENT_TIMESTAMP` is not modelled.
- `Crawler.CrawlerDb.SaveIdea` decides "inserted" from the table contents, not from the driver's row count.
- `Scheduler.CheckAndRunIfNeeded` does not model one failure path: when opening the session itself raises, `db.close()` in the `finally` fails on an unbound name.
- `IdeaStore.IdeaTable.Save` models a failing store as a `fails` input. The `datetime.fromisoformat` parse of `published_at` is not modelled: the processed idea already carries a real timestamp.
