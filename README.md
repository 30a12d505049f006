# Tech News Monitor: a Dafny model of its collection and export core

Tech News Monitor is a small web service. It gathers technology news from three
kinds of source:

- RSS feeds;
- subreddit listings from Reddit's JSON API;
- scraped web pages.

Each source kind has a **collector**. A collector turns what it fetched into
normalised article records. A **collection run** then walks the enabled sources
in name order, lets a language model categorise uncategorised articles (when
the `auto_summarize` setting is `true`) and inserts them into an SQLite store.
The store rejects an article whose url or content fingerprint is already
present. An interval **scheduler** repeats the run. The stored articles can be
listed, summarised by the language model, and exported in three formats:

- JSON Lines;
- a Markdown-like text grouped by category, for NotebookLM;
- a plain list of urls.

The project models that core, one module per source file:

| module | file | form |
|---|---|---|
| `BaseCollector` | `base_collector.dfy` | functions: the collector's fields and `normalize_article` |
| `RssCollector`, `RedditCollector`, `ScraperCollector` | `*_collector.dfy` | a `method Collect` with a loop over the fetched items, proved equal to a `FilterMap` of a per-item function, plus lemmas about that function |
| `Database` | `database.dfy` | `class NewsDb` holding the tables as sequences and maps; each operation is a method whose contract gives the new state as a function of the old; the listing, counting, update and seeding rules are specification functions with their lemmas |
| `ExportService` | `export_service.dfy` | `class ExportService` over a map from file names to contents; the three file formats are functions; the grouping loop is a method proved against them |
| `LlmService` | `llm_service.dfy` | functions and the prompt-building loop as a method; the chat model is a parameter |
| `SchedulerService` | `scheduler_service.dfy` | `class SchedulerService` (scheduler state and callback) and `class Registry` (the process-wide single instance) |
| `Server` | `server.dfy` | the collection run as methods over `NewsDb`, and the request rules of the endpoints |
| `Text`, `Seqs`, `Json`, `Wrappers` | helpers | Python's `str.strip`, `lower`, `split`, `startswith`, `int()`, `str()`; filtering, mapping and stable sorting of sequences; `json.dumps` string escaping with its inverse; `Option` and `Result` |

Everything outside the process is a parameter:

- HTTP answers and the parsed feed, listing or page;
- the MD5 digest;
- the language model;
- the clock.

The main invariant of the store is `NewsDb.Valid()`. Article urls are distinct,
content hashes are distinct, every hash is the fingerprint of its title and
url, and ids are increasing and below the next id. Every state-changing method
preserves it.

Three behaviours of the code shape the model:

- A source's `last_fetched` is not updated when an insert raises during its
  collection. The timestamp update comes after the insert loop inside the
  same `try` (`backend/server.py:155-163`).
- `run_now` has no guard against overlapping runs: it calls the collection
  callback directly. Only the scheduled job is limited to one instance, by the
  scheduler library's `max_instances=1`.
- The source type tags are `rss`, `reddit` and `scraper`; a source with any
  other tag collects nothing.

## Model

| member | source | states |
|---|---|---|
| BaseCollector.NewCollector | backend/collectors/base_collector.py:10-15 | each key of the source record is taken when present; otherwise id is none, name is `Unknown`, url is empty and config is empty |
| BaseCollector.NormalizeArticle | backend/collectors/base_collector.py:33-44 | title and url are the trimmed inputs (empty when missing); description, content and author are the trimmed inputs cut to 1000, 10000 and 200 characters; the date is kept as given; the source id is always the collector's; the category passes through, empty by default |
| BaseCollector.NormalizeStable | backend/collectors/base_collector.py:35-44 | normalising an already normalised article keeps its title, url, date, category and source id |
| BaseCollector.NormalizedTitleEmpty | backend/collectors/base_collector.py:36 | the normalised title is empty exactly when the raw title is missing or all whitespace |
| RssCollector.EntryDate | backend/collectors/rss_collector.py:34-38 | the date comes from the first six fields of `published_parsed`, else of `updated_parsed`, else is empty; a date that cannot be built is reported as none |
| RssCollector.EntryContent | backend/collectors/rss_collector.py:41-45 | the content is the first content item's value, else the summary, else empty |
| RssCollector.EntryArticle | backend/collectors/rss_collector.py:32-61 | an entry yields an article exactly when its date can be built and its trimmed title and link are non-empty; the article has that title, link and date, the entry's summary cut to 500 characters and trimmed as description, the entry's content trimmed and cut to 10000, its author trimmed and cut to 200, the collector's source id and no category |
| RssCollector.Collect | backend/collectors/rss_collector.py:13-70 | the loop yields the accepted articles of the first 50 entries, in feed order; a network error or a non-200 status yields nothing; at most 50 articles, each with a title, a url and the collector's source id |
| RssCollector.CollectedAccepted | backend/collectors/rss_collector.py:56-57 | every collected article has a title and a url, the collector's source id and no category |
| RssCollector.CollectedFrom | backend/collectors/rss_collector.py:31-57 | an article is collected if and only if one of the first 50 entries yields it |
| RssCollector.SkippedEntryIsolated | backend/collectors/rss_collector.py:59-61 | a skipped or failing entry removes only itself; the articles before and after it are kept in order |
| RssCollector.OnlyFirstFifty | backend/collectors/rss_collector.py:31 | entries after the fiftieth never change the result |
| RedditCollector.PostDate | backend/collectors/reddit_collector.py:56-57 | a missing or zero `created_utc` gives an empty date; otherwise the formatted timestamp, none where formatting raises |
| RedditCollector.PostDescription | backend/collectors/reddit_collector.py:61 | the post's text cut to 500 characters, or the `Score: … \| Comments: …` line when the text is empty |
| RedditCollector.PostUrl | backend/collectors/reddit_collector.py:64 | the post's url when non-empty, otherwise `https://reddit.com` followed by the permalink; never empty |
| RedditCollector.PostArticle | backend/collectors/reddit_collector.py:47-73 | a post yields an article exactly when it is well formed, not stickied, its timestamp formats and its trimmed title and url are non-empty; the article has that title, url and date, the description, self text and author trimmed and cut to 1000, 10000 and 200 characters, the collector's source id and no category |
| RedditCollector.Collect | backend/collectors/reddit_collector.py:14-82 | with no subreddit (configured or found after `/r/` in the url) nothing is fetched; otherwise the hot listing url is fetched and the result is the accepted articles of its children, in order; every one has a title, url and the collector's source id |
| RedditCollector.CollectedAccepted | backend/collectors/reddit_collector.py:68-69 | every collected post has a title and a url, the collector's source id and no category |
| RedditCollector.CollectedFrom | backend/collectors/reddit_collector.py:45-69 | an article is collected if and only if one of the listing's children yields it |
| RedditCollector.SkippedPostIsolated | backend/collectors/reddit_collector.py:71-73 | a skipped or failing post removes only itself from the result |
| RedditCollector.PermalinkFallbackKept | backend/collectors/reddit_collector.py:64-69 | a titled, dated, non-stickied post without a url is still collected, with a `https://reddit.com` url |
| RedditCollector.ScoreLineDescription | backend/collectors/reddit_collector.py:61 | a collected post without text has the score line as its description |
| RedditCollector.StickiedSkipped | backend/collectors/reddit_collector.py:52-53 | a stickied post is never collected |
| RedditCollector.SubredditFromUrl | backend/collectors/reddit_collector.py:17-23 | with no configured subreddit, the subreddit is the text after the url's first `/r/` up to the next `/`, and empty when the url has no `/r/` |
| RedditCollector.SubredditFromPage | backend/collectors/reddit_collector.py:17-23 | with no configured subreddit, a url `https://www.reddit.com/r/<name>[/…]` gives the subreddit `<name>` |
| ScraperCollector.StrippedTextEmpty | backend/collectors/scraper_collector.py:52 | an element's stripped text is empty exactly when all its strings are whitespace |
| ScraperCollector.ConfiguredSelectors | backend/collectors/scraper_collector.py:35-39 | each of the four selectors is the configured one for its key and the default where that key is missing (`article`, `h2 a, h3 a, .title a`, `p, .summary, .excerpt`, `a`); no configured selectors gives all four defaults |
| ScraperCollector.Containers | backend/collectors/scraper_collector.py:42-46 | at most 30 containers: the first 30 the article selector matches, or the first 30 the fallback selectors match when it matches none |
| ScraperCollector.LinkElement | backend/collectors/scraper_collector.py:55-57 | the link element is the title element when the two selectors are equal, otherwise the link selector's match; when that is missing, the first anchor |
| ScraperCollector.Link | backend/collectors/scraper_collector.py:58-63 | an empty href stays empty; an href starting with `http` is kept; any other href is resolved against the page url |
| ScraperCollector.ScrapedArticle | backend/collectors/scraper_collector.py:66-79 | the article has the title, the trimmed link, the element text cut to 500 characters and trimmed as description (a prefix of that text), no content or author, the run's time as its date, the collector's source id and no category |
| ScraperCollector.ItemArticle | backend/collectors/scraper_collector.py:49-85 | a container yields an article exactly when its title text is non-empty and its link resolves to a non-empty url |
| ScraperCollector.Collect | backend/collectors/scraper_collector.py:15-94 | the loop yields the accepted items of the containers, in page order; at most 30 articles, each with a title, no content or author, the run's time as its date and the collector's source id |
| ScraperCollector.CollectedShape | backend/collectors/scraper_collector.py:72-81 | every scraped article has a title, empty content and author, the run's time as its date, the collector's source id and no category |
| ScraperCollector.BlankTitleSkipped | backend/collectors/scraper_collector.py:51-70 | a container whose title element holds only whitespace is skipped |
| ScraperCollector.AbsoluteLinkKept | backend/collectors/scraper_collector.py:61-63 | a titled container whose href starts with `http` is collected with that href, trimmed, as its url |
| Database.FingerprintCanonical | backend/database.py:108-111 | the fingerprint depends only on the lower-cased, trimmed title and url |
| Database.FingerprintExample | backend/database.py:108-111 | ` Foo ` with `HTTP://X` and `foo` with `http://x` have the same fingerprint |
| Database.FingerprintJoinCollision | backend/database.py:110 | title and url are joined without a separator, so moving text between them keeps the fingerprint |
| Database.AppendRow | backend/database.py:21-36 | appending a non-duplicate row with the next id and its own fingerprint keeps urls and hashes unique and ids increasing |
| Database.Window | backend/database.py:176-177 | `LIMIT`/`OFFSET`: the result is the rows from `offset` on, at most `limit` of them (all when the limit is negative) |
| Database.WindowsAdjacent | backend/database.py:176-177 | two consecutive pages together are the page of their combined size |
| Database.SourceName | backend/database.py:156-158 | the left join gives the name of the source with the article's source id, and none when no source has it |
| Database.ListingSound | backend/database.py:163-174 | every listed article satisfies every given filter: category equal, search text in title or description, source id equal, exported flag equal |
| Database.ListingOrdered | backend/database.py:176 | listed articles are ordered by `collected_at`, newest first |
| Database.ListingComplete | backend/database.py:143-181 | an unpaged listing holds exactly the matching rows, each once |
| Database.CountIsUnpagedListing | backend/database.py:183-205 | the count with filters is the length of the unpaged listing with the same filters |
| Database.ListingWithinCount | backend/database.py:183-205 | a page never holds more articles than the count |
| Database.MarkExported | backend/database.py:207-215 | the rows are kept in order with their ids |
| Database.MarkExportedExact | backend/database.py:207-215 | a row is flagged exported exactly when its id was given or it already was; every other column is unchanged |
| Database.MarkExportedKeepsKeys | backend/database.py:212 | marking keeps the store's unique keys, fingerprints and ids |
| Database.MarkExportedIdempotent | backend/database.py:207-215 | marking the same ids twice is the same as marking them once |
| Database.UpdatedSources | backend/database.py:252-269 | an update keeps every source and its id |
| Database.UpdateTouchesOnlyGiven | backend/database.py:252-269 | the source with the id takes every value the update gives; it changes in no other field, and every other source is unchanged |
| Database.UpdateIdempotent | backend/database.py:264-267 | applying the same update twice is the same as applying it once |
| Database.WithoutSource | backend/database.py:271-276 | deletion keeps exactly the sources with another id |
| Database.DeletedSourceUnnamed | backend/database.py:271-276 | after deletion, articles of that source are listed without a source name |
| Database.Touched | backend/database.py:278-285 | only the source with the id changes, and only its `last_fetched`, which becomes the given time |
| Database.SourceListingSpec | backend/database.py:235-250 | sources are listed ordered by name, each once; with `enabled_only`, exactly the enabled ones |
| Database.WithDefaultsSpec | backend/database.py:92-104 | seeding settings keeps every existing value, adds every default key and adds nothing else |
| Database.WithDefaultsValue | backend/database.py:99-103 | a default key that was absent gets its default value |
| Database.NewsDb.constructor | backend/database.py:18-81 | a new store has empty tables |
| Database.NewsDb.InitDb | backend/database.py:14-104 | the settings become the old settings with the five defaults added where missing |
| Database.NewsDb.InsertArticle | backend/database.py:114-141 | a url or fingerprint already stored gives none and no write; otherwise the row is appended with the next id, the time, its fingerprint and exported 0, and its id is returned |
| Database.NewsDb.MarkArticlesExported | backend/database.py:207-215 | the articles become `MarkExported` of the old articles |
| Database.NewsDb.InsertSource | backend/database.py:218-233 | appends the source with the next id and the creation time, and returns that id |
| Database.NewsDb.UpdateSource | backend/database.py:252-269 | a non-empty update changes the sources as `UpdatedSources` says; an empty one writes nothing and reports failure, standing for the SQL error it raises |
| Database.NewsDb.DeleteSource | backend/database.py:271-276 | removes the sources with the id and returns true |
| Database.NewsDb.TouchLastFetched | backend/database.py:278-285 | sets that source's `last_fetched` and nothing else |
| Database.NewsDb.GetSetting | backend/database.py:288-295 | the stored value of the key, or none when absent |
| Database.NewsDb.UpdateSetting | backend/database.py:304-311 | the key gets the value; every other setting is unchanged |
| Database.NewsDb.SeedDefaultSources | backend/database.py:408-433 | an empty sources table receives the eleven default sources in order, with consecutive ids; a non-empty one is left unchanged |
| Database.NewsDb.InsertExport | backend/database.py:347-360 | appends the export record with the next id and the time, and returns that id |
| Json.Escape | backend/services/export_service.py:40 | escaped text has no raw control character |
| Json.UnescapeEscape | backend/services/export_service.py:40 | reading the escaped text back gives the original string |
| Json.Object | backend/services/export_service.py:40 | an encoded object has no newline, so it fits on one JSON Lines line |
| ExportService.ExportRecordKeys | backend/services/export_service.py:29-39 | each record has the nine keys from title to collected_at, in that order |
| ExportService.RecordJson | backend/services/export_service.py:40 | a record's JSON text has no newline |
| ExportService.JsonlLines | backend/services/export_service.py:26-40 | the JSON Lines file, split at newlines, is exactly one line per article, in order, followed by the final empty piece |
| ExportService.Label | backend/services/export_service.py:84 | the group label is the category, or `Uncategorized` when the category is empty; never empty |
| ExportService.LabelsSpec | backend/services/export_service.py:82-87 | the group labels are distinct and are exactly the labels of the articles, in order of first appearance |
| ExportService.GroupsPartition | backend/services/export_service.py:82-94 | the groups together hold every article exactly once |
| ExportService.OptionalLines | backend/services/export_service.py:96-106 | the source, date, url and description lines appear exactly when their fields are non-empty; the date line shows the first 10 characters |
| ExportService.ExcerptRule | backend/services/export_service.py:108-110 | the content excerpt appears exactly when the content is longer than the description, and is its first 2000 characters |
| ExportService.EntriesNumbered | backend/services/export_service.py:93-94 | entries in a group are numbered from 1 in order |
| ExportService.NotebookHeaderOnlyIfAsked | backend/services/export_service.py:63-79 | with the prompt the text is the analysis header followed by exactly the text without it |
| ExportService.NonWebUrlSkipped | backend/services/export_service.py:127-131 | an article whose url does not start with `http` adds nothing to the url list |
| ExportService.WebUrlListed | backend/services/export_service.py:127-131 | an article with a web url adds its title, cut to 80 characters, and its url |
| ExportService.JsonlName | backend/services/export_service.py:20-22 | a given non-empty file name is used; otherwise `news_export_<timestamp>.jsonl` |
| ExportService.Categorize | backend/services/export_service.py:82-87 | the loop returns the labels in order of first appearance and, for each, the articles with that label in order |
| ExportService.WriteSection | backend/services/export_service.py:89-112 | the loop writes the section heading followed by the numbered entries of the group |
| ExportService.ExportService.constructor | backend/services/export_service.py:15-16 | the service starts over the existing export files |
| ExportService.ExportService.ReadExport | backend/services/export_service.py:152-159 | the file's contents, or empty when the file does not exist |
| ExportService.ExportService.DeleteExport | backend/services/export_service.py:161-167 | true exactly when the file existed; afterwards it is gone and nothing else changes |
| ExportService.ExportService.ExportJsonl | backend/services/export_service.py:18-43 | writes the JSON Lines text under its name and changes no other file |
| ExportService.ExportService.ExportNotebookLm | backend/services/export_service.py:45-115 | writes the grouped NotebookLM text under `notebooklm_export_<timestamp>.txt` and changes no other file |
| ExportService.ExportService.ExportUrls | backend/services/export_service.py:117-134 | writes the url list under `urls_export_<timestamp>.txt` and changes no other file |
| LlmService.NewLlmService | backend/services/llm_service.py:14-17 | the key is the environment's or empty; the model is `gpt-4o-mini` from `openai` |
| LlmService.LabelOf | backend/services/llm_service.py:43-46 | the trimmed reply when it is one of the five categories, otherwise `Other` |
| LlmService.CategorizeArticle | backend/services/llm_service.py:19-50 | the result is empty exactly when there is no key or the model call fails; otherwise it is the label of the reply, always one of the five categories |
| LlmService.PaddedLabelAccepted | backend/services/llm_service.py:43-46 | a category surrounded by whitespace is accepted as that category |
| LlmService.LabelOfLabel | backend/services/llm_service.py:43-46 | each category is its own label |
| LlmService.OnlyFirstTwenty | backend/services/llm_service.py:68 | articles after the twentieth do not change the prompt text |
| LlmService.BlocksNumbered | backend/services/llm_service.py:68-71 | each block adds the next article, numbered from 1 |
| LlmService.BuildArticlesText | backend/services/llm_service.py:67-71 | the loop builds the prompt's article text for the first 20 articles |
| LlmService.FocusLine | backend/services/llm_service.py:120-121 | the focus line is empty exactly when no category is given |
| LlmService.FocusOnlyForCategory | backend/services/llm_service.py:108-121 | the system message is the base message, with the focus line appended only when a category is given |
| LlmService.SummarizeArticles | backend/services/llm_service.py:52-158 | no key gives the key error; no articles gives the empty-input error; otherwise a failed model call gives its error, and a reply gives a summary with the article count, the category, the format, the time and, for `json`, the parsed JSON when parsing succeeds |
| LlmService.UnfencedReplyWhole | backend/services/llm_service.py:144 | a reply without backticks is parsed whole |
| LlmService.JsonFencedBody | backend/services/llm_service.py:145-146 | the text between a ```` ```json ```` fence and the next ```` ``` ```` is what gets parsed |
| LlmService.PlainFencedBody | backend/services/llm_service.py:147-148 | without a `json` fence, the text between the first two ```` ``` ```` fences is what gets parsed |
| LlmService.PromptIgnoresArticles | backend/services/llm_service.py:160-190 | the NotebookLM prompt is the same for any articles |
| SchedulerService.Outcome | backend/services/scheduler_service.py:77-87 | no callback, a completed callback or a failed one, with its error; a failure never raises further |
| SchedulerService.SchedulerService.constructor | backend/services/scheduler_service.py:17-21 | the first construction creates one stopped scheduler with no job and no callback |
| SchedulerService.SchedulerService.IsRunning | backend/services/scheduler_service.py:54-56 | true exactly when a scheduler exists and runs |
| SchedulerService.SchedulerService.GetNextRun | backend/services/scheduler_service.py:58-66 | none when not running; otherwise the collection job's next run time |
| SchedulerService.SchedulerService.SetCollectCallback | backend/services/scheduler_service.py:23-25 | the callback becomes the given one |
| SchedulerService.SchedulerService.Start | backend/services/scheduler_service.py:27-46 | a running scheduler is replaced by a new one; the scheduler then holds exactly the collection job with the given interval, running unless its start failed |
| SchedulerService.SchedulerService.Stop | backend/services/scheduler_service.py:48-52 | afterwards the scheduler is not running; stopping a stopped scheduler changes nothing; jobs are kept |
| SchedulerService.SchedulerService.UpdateInterval | backend/services/scheduler_service.py:68-75 | when running, the collection job gets the new interval and the scheduler keeps running; otherwise nothing changes |
| SchedulerService.SchedulerService.RunCollection | backend/services/scheduler_service.py:77-87 | reports a missing callback, completion, or the callback's error |
| SchedulerService.SchedulerService.RunNow | backend/services/scheduler_service.py:89-91 | the same outcome as a scheduled run |
| SchedulerService.Registry.constructor | backend/services/scheduler_service.py:13 | no instance exists before the first construction |
| SchedulerService.Registry.Get | backend/services/scheduler_service.py:17-21 | the first call creates the instance; later calls return the same object |
| SchedulerService.Registry.GetTwice | backend/services/scheduler_service.py:17-21 | two constructions give the same object |
| SchedulerService.StartTwice | backend/services/scheduler_service.py:27-40 | starting twice leaves one running scheduler with only the second interval's job |
| Server.CollectorOf | backend/server.py:125-129 | the collector built from a stored source carries its id, name, url and config |
| Server.Fetched | backend/server.py:122-135 | a source type other than `rss`, `reddit` or `scraper` gives no collector |
| Server.Prepared | backend/server.py:141-148 | an article is changed only in its category, and only when auto-categorising is on and it has none; the new category is empty or one of the five |
| Server.InsertOneCounts | backend/server.py:151-153 | one insert either changes nothing or appends one row, advances the id and counts one |
| Server.StoreAllCounts | backend/server.py:136-153 | the count is the number of rows the loop appended, never more than the articles; the old rows stay in front |
| Server.StoreAllCovers | backend/server.py:141-153 | after the loop, every collected article's url or fingerprint is in the store |
| Server.InsertCounted | backend/server.py:151-153 | a returned id counts one, and the store changes as one insert says |
| Server.StoreArticles | backend/server.py:136-153 | the loop prepares and inserts each article in order and counts the successes; an insert that raises ends it, keeping the earlier inserts |
| Server.RunCollector | backend/server.py:122-135 | the dispatch on the type tag runs the matching collector, or none for an unknown type |
| Server.CollectFromSource | backend/server.py:120-163 | an unknown type gives 0 and no change; otherwise the store gets the prepared articles inserted in order after the old rows; without a fault the count is the number of rows added and `last_fetched` is set; when an insert raises, the rows inserted before it stay, the count is 0 and `last_fetched` is not touched |
| Server.CollectAllSources | backend/server.py:165-182 | every enabled source is visited once, in name order; the report names them in that order, gives 0 for unknown types, and its total is the sum of the counts; the old articles stay in front, at least the total is added, and exactly the total when no insert raises; the sources keep their rows and every column except `last_fetched`, which is either unchanged or the run's time |
| Server.OnlyStampedTouched | backend/server.py:155-163 | setting one source's `last_fetched` to the run's time keeps the sources changed in `last_fetched` alone, and only to that time |
| Server.Updates | backend/server.py:250 | the update holds exactly the fields given in the request and never the type |
| Server.UpdateSourceEndpoint | backend/server.py:247-255 | 400 and no write exactly when no field is given; otherwise 200 and the update is applied |
| Server.UpdateKeepsKind | backend/server.py:58-62 | no request through this endpoint changes a source's type |
| Server.SourceToCollect | backend/server.py:263-270 | the stored source with that id, or a 404 when no source has it |
| Server.ByIdsSpec | backend/server.py:297-298 | with ids given, the chosen articles are exactly those of the `len(ids)` newest whose id was asked for, so never more than the ids |
| Server.SummarizeEndpoint | backend/server.py:291-327 | 404 when no article is chosen; 500 without an API key; otherwise 500 with the chat error when the chat call fails, and the summary built from the reply, its count and the request's format and category when it answers; 200 exactly when a summary came back |
| Server.ExportEndpoint | backend/server.py:343-387 | 404 without articles and 400 for an unknown type, both before any write; otherwise the file of that type is written, the articles are marked exported when asked, one export row is recorded and the name and count are returned |
| Server.DownloadExport | backend/server.py:396-407 | a missing or empty export file gives 404; otherwise its contents |
| Server.DeleteExportEndpoint | backend/server.py:409-414 | 404 exactly when the file did not exist; afterwards it is gone |
| Server.IntervalSetting | backend/server.py:105-109 | a missing or empty setting gives 60; otherwise the setting parsed as an integer (optional sign, ASCII digits in groups joined by single underscores), none when it is not one |
| Text.ParseIntGrouped | backend/server.py:107 | `int` reads two groups of digits joined by an underscore as the digits run together |
| Server.IntervalRoundTrip | backend/server.py:105-107 | an interval saved as its decimal text is read back as itself |
| Server.Startup | backend/server.py:95-111 | the settings get their defaults where missing, the default sources are seeded into an empty table and an existing table is left alone, the collection run becomes the callback, and when the saved interval is a number the scheduler holds exactly the collection job with that interval; otherwise the startup fails and the scheduler is unchanged |
| Server.StartScheduler | backend/server.py:446-451 | starts the scheduler with the saved interval, 60 when none is saved |

## Left out

- Network access, feed parsing (`feedparser`), JSON decoding of the Reddit answer, HTML parsing and CSS selection (`BeautifulSoup`) and `urljoin` are parameters. The model covers what the collectors do with their results, not those libraries.
- MD5 is an uninterpreted digest function. The model proves what its input is, not properties of the hash.
- Time: every "now" is a parameter. The scraper stamps each item with `datetime.now`; the model uses one time per run.
- Database.Matches: SQLite's `LIKE` is case-insensitive for ASCII letters and treats `%` and `_` in the search text as wildcards. The model matches the search text as an exact substring.
- Database.ListingOrdered: SQLite leaves the order of rows with equal `collected_at` unspecified. The model breaks ties by id, newest first, and orders sources with equal names by id.
- Server.IntervalSetting: Python's `int` also accepts decimal digits of other scripts (Arabic-Indic, full-width and so on). The model reads ASCII digits only and gives none for such text.
- Text.Lower lowers ASCII letters only. Python's `str.lower` also lowers other alphabets.
- Source configs are modelled as the two keys the collectors read (`subreddit` and `selectors`). Their JSON encoding in the `config` column is not modelled.
- RedditCollector.PostDate: Reddit sends `created_utc` as a float. The model holds it as an integer; the collector only tests it for truth and hands it to the date formatter, which is a parameter.
- Json.Unescape refuses every `\u` escape of a surrogate, including a valid pair that `json.loads` would combine into one character. `Escape` never writes such escapes, so the round trip is unaffected.
- Articles are typed records, so `normalize_article`'s `str(...)` conversion of non-string values is not modelled.
- Inside a collector, only failures that come from the parameters are modelled: a network error, a non-200 status, a date or url that cannot be built, a malformed Reddit child. Other exceptions inside a collector's outer `try`, which would end the loop with a partial list, are not modelled.
- `categorize_article` catches every exception itself. The orchestrator's own `except` around it (`backend/server.py:147-148`) is therefore unreachable and not modelled.
- Only insert faults are modelled inside `collect_from_source` (the `faultAt` parameter). A failing `get_setting` or `update_source_last_fetched` is not.
- The summary endpoint's `insert_summary` call and the summaries table (`get_summaries`, `GET /summaries`) are not modelled. The endpoint model ends at the summary result.
- `get_stats`, `get_all_settings`, the settings and categories endpoints (including `PUT /settings` re-arming the interval), `get_exports` (the file listing and the export history), list/create/delete source endpoints and the shutdown hook are thin wrappers over modelled operations and are not modelled separately.
- The scheduler library's timers, `max_instances` and the asynchronous execution of jobs are not modelled. The next run time is supplied by the caller.
- `asyncio`, FastAPI's background tasks, logging, the MongoDB client and CORS setup are outside the core.
