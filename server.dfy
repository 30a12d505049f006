/**
 * The API server's own logic: the collection run that feeds every enabled
 * source through its collector into the store, and the request rules of the
 * endpoints around it (source updates, selecting articles by id, the export
 * dispatch, serving and deleting export files, and the scheduler interval).
 * Network answers, the language model and the clock are parameters.
 */
module Server {
  import opened Wrappers
  import opened Text
  import opened Seqs
  import opened BaseCollector
  import Rss = RssCollector
  import Reddit = RedditCollector
  import Scraper = ScraperCollector
  import opened Database
  import opened Json
  import opened ExportService
  import opened LlmService
  import Sched = SchedulerService

  /** The outside world a collector talks to. */
  datatype Net = Net(
    feed: string -> Option<Rss.FeedResponse>,
    isoDate: seq<int> -> Option<string>,
    reddit: (string, string) -> Option<Reddit.RedditResponse>,
    unixDate: int -> Option<string>,
    page: (string, string) -> Option<Scraper.ScrapeResponse>,
    resolve: (string, string) -> Option<string>)

  // ---------------------------------------------------------------- one source

  /** The collector built from a stored source: every key of the row is present. */
  function CollectorOf(s: SourceRow): (c: Collector)
    ensures c.sourceId == Some(s.id as int) && c.name == s.name && c.url == s.url && c.config == s.config
  {
    NewCollector(SourceDict(Some(s.id as int), Some(s.name), Some(s.url), Some(s.config)))
  }

  /** The type tags that have a collector. */
  predicate KnownKind(kind: string) {
    kind == "rss" || kind == "reddit" || kind == "scraper"
  }

  /** What the source's collector yields, or `None` for an unknown type tag. */
  function Fetched(net: Net, s: SourceRow, now: string): (r: Option<seq<Article>>)
    ensures r.None? <==> !KnownKind(s.kind)
  {
    var c := CollectorOf(s);
    if s.kind == "rss" then Some(Rss.Collected(c, net.isoDate, net.feed(c.url)))
    else if s.kind == "reddit" then
      var sub := Reddit.Subreddit(c);
      Some(if sub == "" then [] else Reddit.Collected(c, net.unixDate, net.reddit(Reddit.ListingUrl(sub), Reddit.UserAgent)))
    else if s.kind == "scraper" then Some(Scraper.Collected(c, net.resolve, now, net.page(c.url, Scraper.BrowserAgent)))
    else None
  }

  /** The article as it is stored: categorised by the model only when asked and it has no category. */
  function Prepared(auto: bool, svc: LlmService, chat: ChatRequest -> Result<string, string>, a: Article)
    : (r: Article)
    ensures r == a.(category := r.category)
    ensures !auto || a.category != "" ==> r == a
    ensures auto && a.category == "" ==> r.category == "" || r.category in ValidCategories
  {
    if auto && a.category == "" then a.(category := CategorizeArticle(svc, chat, a)) else a
  }

  /** The per-article step of the collection loop, as a function value. */
  function Preparer(auto: bool, svc: LlmService, chat: ChatRequest -> Result<string, string>): Article -> Article {
    a => Prepared(auto, svc, chat, a)
  }

  function PreparedAll(prepare: Article -> Article, arts: seq<Article>): (r: seq<Article>)
    ensures |r| == |arts|
  {
    seq(|arts|, i requires 0 <= i < |arts| => prepare(arts[i]))
  }

  /** The articles table with its next id, and how many inserts have succeeded. */
  datatype Store = Store(rows: seq<ArticleRow>, next: nat, added: nat)

  /** One `insert_article` call, as the store carries it out. */
  function InsertOne(hash: (string, string) -> string, st: Store, a: Article, now: string): Store {
    var h := hash(a.title, a.url);
    if Duplicate(st.rows, a.url, h) then st
    else Store(st.rows + [NewArticleRow(st.next, a, now, h)], st.next + 1, st.added + 1)
  }

  /** The articles inserted one after another. */
  function StoreAll(hash: (string, string) -> string, st: Store, arts: seq<Article>, now: string): Store
    decreases |arts|
  {
    if arts == [] then st
    else InsertOne(hash, StoreAll(hash, st, arts[..|arts| - 1], now), arts[|arts| - 1], now)
  }

  /**
   * The count is the number of rows the inserts added: the old rows stay in
   * front, each success adds one row and one id, and there are at most as
   * many successes as articles.
   */
  lemma InsertOneCounts(hash: (string, string) -> string, st: Store, a: Article, now: string)
    ensures var r := InsertOne(hash, st, a, now);
            r == st ||
            (|r.rows| == |st.rows| + 1 && r.rows[..|st.rows|] == st.rows &&
             r.next == st.next + 1 && r.added == st.added + 1)
  {
    var r := InsertOne(hash, st, a, now);
    if r != st {
      assert r.rows[..|st.rows|] == st.rows;
    }
  }

  lemma {:induction false} StoreAllCounts(hash: (string, string) -> string, st: Store, arts: seq<Article>, now: string)
    ensures var r := StoreAll(hash, st, arts, now);
            |st.rows| <= |r.rows| && r.rows[..|st.rows|] == st.rows &&
            r.added == st.added + (|r.rows| - |st.rows|) &&
            r.next == st.next + (|r.rows| - |st.rows|) &&
            |r.rows| - |st.rows| <= |arts|
    decreases |arts|
  {
    if arts != [] {
      var n := |arts| - 1;
      StoreAllCounts(hash, st, arts[..n], now);
      var p := StoreAll(hash, st, arts[..n], now);
      var r := StoreAll(hash, st, arts, now);
      assert r == InsertOne(hash, p, arts[n], now);
      InsertOneCounts(hash, p, arts[n], now);
      if r != p {
        assert r.rows[..|st.rows|] == r.rows[..|p.rows|][..|st.rows|];
      }
    }
  }

  /** One insert stores the article's url and content hash... */
  lemma InsertOneStores(hash: (string, string) -> string, st: Store, a: Article, now: string)
    ensures Duplicate(InsertOne(hash, st, a, now).rows, a.url, hash(a.title, a.url))
  {
    var r := InsertOne(hash, st, a, now);
    if !Duplicate(st.rows, a.url, hash(a.title, a.url)) {
      assert r.rows[|st.rows|].url == a.url;
    }
  }

  /** ...and keeps every one that was stored. */
  lemma InsertOneKeeps(hash: (string, string) -> string, st: Store, a: Article, now: string, url: string, h: string)
    requires Duplicate(st.rows, url, h)
    ensures Duplicate(InsertOne(hash, st, a, now).rows, url, h)
  {
    var r := InsertOne(hash, st, a, now);
    var k :| 0 <= k < |st.rows| && (st.rows[k].url == url || st.rows[k].contentHash == h);
    assert r.rows[k] == st.rows[k];
  }

  /** Afterwards every article is in the store: inserted now, or its url or content hash was there. */
  lemma {:induction false} StoreAllCovers(hash: (string, string) -> string, st: Store, arts: seq<Article>, now: string)
    ensures var r := StoreAll(hash, st, arts, now);
            forall i :: 0 <= i < |arts| ==> Duplicate(r.rows, arts[i].url, hash(arts[i].title, arts[i].url))
    decreases |arts|
  {
    if arts != [] {
      var n := |arts| - 1;
      StoreAllCovers(hash, st, arts[..n], now);
      var p := StoreAll(hash, st, arts[..n], now);
      var r := StoreAll(hash, st, arts, now);
      assert r == InsertOne(hash, p, arts[n], now);
      forall i | 0 <= i < |arts|
        ensures Duplicate(r.rows, arts[i].url, hash(arts[i].title, arts[i].url))
      {
        if i < n {
          assert arts[..n][i] == arts[i];
          InsertOneKeeps(hash, p, arts[n], now, arts[i].url, hash(arts[i].title, arts[i].url));
        } else {
          assert i == n;
          InsertOneStores(hash, p, arts[n], now);
        }
      }
    }
  }

  /** `get_setting('auto_summarize') == 'true'` */
  function AutoCategorize(settings: map<string, string>): bool {
    "auto_summarize" in settings && settings["auto_summarize"] == "true"
  }

  lemma StoreAllStep(hash: (string, string) -> string, st: Store, arts: seq<Article>, i: nat, now: string, done: Store)
    requires i < |arts| && done == StoreAll(hash, st, arts[..i], now)
    ensures StoreAll(hash, st, arts[..i + 1], now) == InsertOne(hash, done, arts[i], now)
  {
    assert arts[..i + 1][..i] == arts[..i];
  }

  /** One `insert_article` call, counted when it returns an id. */
  method InsertCounted(db: NewsDb, a: Article, now: string, inserted: nat) returns (count: nat)
    requires db.Valid()
    modifies db`articles, db`nextArticleId
    ensures db.Valid()
    ensures Store(db.articles, db.nextArticleId, count) ==
            InsertOne(db.hash, Store(old(db.articles), old(db.nextArticleId), inserted), a, now)
  {
    ghost var dup := Duplicate(db.articles, a.url, db.hash(a.title, a.url));
    var id := db.InsertArticle(a, now);
    if id.Some? {
      count := inserted + 1;
      assert !dup;
    } else {
      count := inserted;
      assert dup;
    }
  }

  /** The insert of the `i`-th article, as one more step of `StoreAll`. */
  method StoreNext(db: NewsDb, ghost st0: Store, ghost arts: seq<Article>, i: nat, article: Article, now: string,
                   inserted: nat)
    returns (count: nat)
    requires db.Valid() && i < |arts| && article == arts[i]
    requires Store(db.articles, db.nextArticleId, inserted) == StoreAll(db.hash, st0, arts[..i], now)
    modifies db`articles, db`nextArticleId
    ensures db.Valid()
    ensures Store(db.articles, db.nextArticleId, count) == StoreAll(db.hash, st0, arts[..i + 1], now)
  {
    StoreAllStep(db.hash, st0, arts, i, now, Store(db.articles, db.nextArticleId, inserted));
    count := InsertCounted(db, article, now, inserted);
  }

  /**
   * The loop of `collect_from_source`: each article is categorised when asked
   * and inserted, and the successful inserts are counted. `faulted` when the
   * insert `faultAt` raises, which ends the loop.
   */
  method StoreArticles(db: NewsDb, articles: seq<Article>, prepare: Article -> Article, now: string, faultAt: Option<nat>)
    returns (inserted: nat, faulted: bool)
    requires db.Valid()
    modifies db`articles, db`nextArticleId
    ensures db.Valid()
    ensures faulted <==> faultAt.Some? && faultAt.value < |articles|
    ensures Store(db.articles, db.nextArticleId, inserted) ==
            StoreAll(db.hash, Store(old(db.articles), old(db.nextArticleId), 0),
                     var arts := PreparedAll(prepare, articles);
                     if faulted then arts[..faultAt.value] else arts, now)
  {
    ghost var arts := PreparedAll(prepare, articles);
    ghost var st0 := Store(db.articles, db.nextArticleId, 0);
    inserted := 0;
    var i := 0;
    while i < |articles|
      invariant 0 <= i <= |articles|
      invariant db.Valid()
      invariant faultAt.None? || faultAt.value >= i
      invariant Store(db.articles, db.nextArticleId, inserted) == StoreAll(db.hash, st0, arts[..i], now)
    {
      var article := prepare(articles[i]);
      if faultAt.Some? && faultAt.value == i {
        return inserted, true;
      }
      inserted := StoreNext(db, st0, arts, i, article, now, inserted);
      i := i + 1;
    }
    assert arts[..i] == arts;
    faulted := false;
  }

  /** The dispatch on the source's type tag, and the collector's run. */
  method RunCollector(net: Net, s: SourceRow, now: string) returns (articles: Option<seq<Article>>)
    ensures articles == Fetched(net, s, now)
  {
    var c := CollectorOf(s);
    if s.kind == "rss" {
      var got := Rss.Collect(c, net.feed, net.isoDate);
      articles := Some(got);
    } else if s.kind == "reddit" {
      var _, got := Reddit.Collect(c, net.reddit, net.unixDate);
      articles := Some(got);
    } else if s.kind == "scraper" {
      var got := Scraper.Collect(c, net.page, net.resolve, now);
      articles := Some(got);
    } else {
      articles := None;
    }
  }

  /**
   * `collect_from_source`, for a stored source. `faultAt` is the insert that
   * raises, if one does; the inserts before it stay in the store, the count is
   * then 0 and `last_fetched` is not touched.
   */
  method CollectFromSource(db: NewsDb, s: SourceRow, net: Net, svc: LlmService,
                           chat: ChatRequest -> Result<string, string>, now: string, faultAt: Option<nat>)
    returns (count: nat)
    requires db.Valid()
    modifies db`articles, db`nextArticleId, db`sources
    ensures db.Valid()
    ensures !KnownKind(s.kind) ==>
              count == 0 && db.articles == old(db.articles) && db.nextArticleId == old(db.nextArticleId) &&
              db.sources == old(db.sources)
    ensures KnownKind(s.kind) ==>
              var arts := PreparedAll(Preparer(AutoCategorize(db.settings), svc, chat), Fetched(net, s, now).value);
              var clean := faultAt.None? || faultAt.value >= |arts|;
              var done := StoreAll(db.hash, Store(old(db.articles), old(db.nextArticleId), 0),
                                   if clean then arts else arts[..faultAt.value], now);
              db.articles == done.rows && db.nextArticleId == done.next &&
              (clean ==> count == done.added && db.sources == Touched(old(db.sources), s.id, now)) &&
              (!clean ==> count == 0 && db.sources == old(db.sources))
    ensures |old(db.articles)| <= |db.articles| && db.articles[..|old(db.articles)|] == old(db.articles)
    ensures |old(db.articles)| + count <= |db.articles|
    ensures faultAt.None? ==> |db.articles| == |old(db.articles)| + count
  {
    var fetched := RunCollector(net, s, now);
    if fetched.None? {
      return 0;
    }
    var auto := db.GetSetting("auto_summarize") == Some("true");
    var inserted, faulted := StoreArticles(db, fetched.value, Preparer(auto, svc, chat), now, faultAt);
    ghost var arts := PreparedAll(Preparer(auto, svc, chat), fetched.value);
    StoreAllCounts(db.hash, Store(old(db.articles), old(db.nextArticleId), 0),
                   if faulted then arts[..faultAt.value] else arts, now);
    if faulted {
      return 0;
    }
    db.TouchLastFetched(s.id, now);
    count := inserted;
  }

  // ---------------------------------------------------------------- a whole run

  datatype SourceResult = SourceResult(source: string, collected: nat)

  /** The report `collect_all_sources` returns. */
  datatype RunReport = RunReport(totalCollected: nat, sourcesProcessed: nat, results: seq<SourceResult>, timestamp: string)

  function Total(rs: seq<SourceResult>): nat
    decreases |rs|
  {
    if rs == [] then 0 else Total(rs[..|rs| - 1]) + rs[|rs| - 1].collected
  }

  /** The results name the first sources in order; a source of unknown type collected nothing. */
  predicate ReportsOn(sources: seq<SourceRow>, results: seq<SourceResult>) {
    |results| <= |sources| &&
    forall j {:trigger results[j]} :: 0 <= j < |results| ==>
      results[j].source == sources[j].name && (!KnownKind(sources[j].kind) ==> results[j].collected == 0)
  }

  lemma ResultsStep(sources: seq<SourceRow>, results: seq<SourceResult>, r: SourceResult)
    requires ReportsOn(sources, results) && |results| < |sources|
    requires r.source == sources[|results|].name && (!KnownKind(sources[|results|].kind) ==> r.collected == 0)
    ensures ReportsOn(sources, results + [r])
    ensures Total(results + [r]) == Total(results) + r.collected
  {
    ReportsSnoc(sources, results, r);
    TotalSnoc(results, r);
  }

  lemma ReportsSnoc(sources: seq<SourceRow>, results: seq<SourceResult>, r: SourceResult)
    requires ReportsOn(sources, results) && |results| < |sources|
    requires r.source == sources[|results|].name && (!KnownKind(sources[|results|].kind) ==> r.collected == 0)
    ensures ReportsOn(sources, results + [r])
  {
    var rs := results + [r];
    forall j | 0 <= j < |rs|
      ensures rs[j].source == sources[j].name && (!KnownKind(sources[j].kind) ==> rs[j].collected == 0)
    {
      if j < |results| { assert rs[j] == results[j]; }
    }
  }

  lemma TotalSnoc(results: seq<SourceResult>, r: SourceResult)
    ensures Total(results + [r]) == Total(results) + r.collected
  {
    var rs := results + [r];
    assert rs[..|results|] == results && rs[|rs| - 1] == r;
  }

  /**
   * The sources differ from `before` at most in `last_fetched`, and each
   * changed `last_fetched` is `now`.
   */
  predicate OnlyStamped(before: seq<SourceRow>, after: seq<SourceRow>, now: string) {
    |after| == |before| &&
    forall k :: 0 <= k < |after| ==>
      after[k] == before[k].(lastFetched := after[k].lastFetched) &&
      (after[k].lastFetched == before[k].lastFetched || after[k].lastFetched == Some(now))
  }

  /** Stamping one source, after stamping some, still only stamps. */
  lemma OnlyStampedTouched(start: seq<SourceRow>, before: seq<SourceRow>, id: int, now: string)
    requires OnlyStamped(start, before, now)
    ensures OnlyStamped(start, Touched(before, id, now), now)
  {
    var after := Touched(before, id, now);
    forall k | 0 <= k < |after|
      ensures after[k] == start[k].(lastFetched := after[k].lastFetched) &&
              (after[k].lastFetched == start[k].lastFetched || after[k].lastFetched == Some(now))
    {
      assert before[k] == start[k].(lastFetched := before[k].lastFetched);
    }
  }

  /**
   * `collect_all_sources`: every enabled source, in name order, once.
   * `faults` gives, per source id, the insert that raises, if any.
   */
  method CollectAllSources(db: NewsDb, net: Net, svc: LlmService, chat: ChatRequest -> Result<string, string>,
                           now: string, faults: int -> Option<nat>)
    returns (report: RunReport)
    requires db.Valid()
    modifies db`articles, db`nextArticleId, db`sources
    ensures db.Valid()
    ensures var listed := SourceListing(old(db.sources), true);
            report.sourcesProcessed == |listed| && |report.results| == |listed| &&
            (forall i :: 0 <= i < |listed| ==> report.results[i].source == listed[i].name) &&
            (forall i :: 0 <= i < |listed| && !KnownKind(listed[i].kind) ==> report.results[i].collected == 0) &&
            report.totalCollected == Total(report.results) && report.timestamp == now
    ensures |old(db.articles)| <= |db.articles| && db.articles[..|old(db.articles)|] == old(db.articles)
    ensures |old(db.articles)| + report.totalCollected <= |db.articles|
    ensures var listed := SourceListing(old(db.sources), true);
            (forall i :: 0 <= i < |listed| ==> faults(listed[i].id).None?) ==>
              |db.articles| == |old(db.articles)| + report.totalCollected
    ensures OnlyStamped(old(db.sources), db.sources, now)
  {
    var sources := SourceListing(db.sources, true);
    var total := 0;
    var results: seq<SourceResult> := [];
    var i := 0;
    while i < |sources|
      invariant 0 <= i <= |sources|
      invariant db.Valid()
      invariant |results| == i && ReportsOn(sources, results)
      invariant total == Total(results)
      invariant |old(db.articles)| <= |db.articles| && db.articles[..|old(db.articles)|] == old(db.articles)
      invariant |old(db.articles)| + total <= |db.articles|
      invariant (forall j :: 0 <= j < i ==> faults(sources[j].id).None?) ==>
                  |db.articles| == |old(db.articles)| + total
      invariant OnlyStamped(old(db.sources), db.sources, now)
    {
      ghost var before := db.articles;
      ghost var stamped := db.sources;
      var count := CollectFromSource(db, sources[i], net, svc, chat, now, faults(sources[i].id));
      assert db.articles[..|old(db.articles)|] == db.articles[..|before|][..|old(db.articles)|];
      if db.sources != stamped {
        OnlyStampedTouched(old(db.sources), stamped, sources[i].id, now);
      }
      ResultsStep(sources, results, SourceResult(sources[i].name, count));
      total := total + count;
      results := results + [SourceResult(sources[i].name, count)];
      i := i + 1;
    }
    report := RunReport(total, |sources|, results, now);
  }

  // ---------------------------------------------------------------- source endpoints

  /** The body of `PUT /sources/{id}`; the type of a source cannot be changed here. */
  datatype UpdateRequest = UpdateRequest(name: Option<string>, url: Option<string>, enabled: Option<bool>, config: Option<Config>)

  /** The fields that are not `None`, as the update to apply. */
  function Updates(req: UpdateRequest): (u: SourceUpdate)
    ensures u.kind.None?
    ensures EmptyUpdate(u) <==> req.name.None? && req.url.None? && req.enabled.None? && req.config.None?
    ensures u.name == req.name && u.url == req.url && u.enabled == req.enabled && u.config == req.config
  {
    SourceUpdate(req.name, None, req.url, req.enabled, req.config)
  }

  /** `update_source_endpoint`: 400 for an empty update, before anything is written. */
  method UpdateSourceEndpoint(db: NewsDb, id: int, req: UpdateRequest) returns (status: int)
    requires db.Valid()
    modifies db`sources
    ensures db.Valid()
    ensures status == 400 <==> EmptyUpdate(Updates(req))
    ensures status == 400 || status == 200
    ensures status == 400 ==> db.sources == old(db.sources)
    ensures status == 200 ==> db.sources == UpdatedSources(old(db.sources), id, Updates(req))
  {
    var u := Updates(req);
    if EmptyUpdate(u) {
      return 400;
    }
    var _ := db.UpdateSource(id, u);
    status := 200;
  }

  /** No request through this endpoint changes a source's type. */
  lemma UpdateKeepsKind(sources: seq<SourceRow>, id: int, req: UpdateRequest)
    ensures var r := UpdatedSources(sources, id, Updates(req));
            forall i :: 0 <= i < |r| ==> r[i].kind == sources[i].kind
  {
  }

  /** The source `POST /sources/{id}/collect` starts on, or `None` for a 404. */
  function SourceToCollect(sources: seq<SourceRow>, id: int): (r: Option<SourceRow>)
    ensures r.Some? ==> r.value in sources && r.value.id == id
    ensures r.None? ==> forall s :: s in sources ==> s.id != id
  {
    var listed := SourceListing(sources, false);
    SourceListingSpec(sources, false);
    FirstWithId(listed, id)
  }

  function FirstWithId(l: seq<SourceRow>, id: int): (r: Option<SourceRow>)
    ensures r.Some? ==> r.value in l && r.value.id == id
    ensures r.None? ==> forall s :: s in l ==> s.id != id
    decreases |l|
  {
    if l == [] then None
    else if l[0].id == id then Some(l[0])
    else
      var r := FirstWithId(l[1..], id);
      assert forall s :: s in l ==> s == l[0] || s in l[1..];
      r
  }

  // ---------------------------------------------------------------- choosing articles

  const NoFilter := ArticleFilter(None, None, None, None)

  function InIds(ids: seq<int>): ArticleView -> bool {
    (v: ArticleView) => v.row.id as int in ids
  }

  /** `article_ids` given: those of the `len(article_ids)` newest articles whose id was asked for. */
  function ByIds(rows: seq<ArticleRow>, sources: seq<SourceRow>, ids: seq<int>): seq<ArticleView> {
    Filter(InIds(ids), Listing(rows, sources, NoFilter, |ids|, 0))
  }

  /**
   * An article is chosen exactly when it is among the `len(ids)` newest and its
   * id was asked for; there are never more than ids.
   */
  lemma ByIdsSpec(rows: seq<ArticleRow>, sources: seq<SourceRow>, ids: seq<int>)
    ensures var r := ByIds(rows, sources, ids);
            var recent := Listing(rows, sources, NoFilter, |ids|, 0);
            |r| <= |ids| &&
            forall v :: v in r <==> v in recent && v.row.id as int in ids
  {
    var recent := Listing(rows, sources, NoFilter, |ids|, 0);
    var r := ByIds(rows, sources, ids);
    forall v | v in recent && v.row.id as int in ids ensures v in r {
      FilterKeeps(InIds(ids), recent, v);
    }
  }

  /** `if request.article_ids:` an empty list counts as not given. */
  predicate IdsGiven(ids: Option<seq<int>>) {
    ids.Some? && ids.value != []
  }

  // ---------------------------------------------------------------- summarize

  datatype SummarizeRequest = SummarizeRequest(articleIds: Option<seq<int>>, category: Option<string>, outputFormat: string, limit: int)

  function SummaryArticles(rows: seq<ArticleRow>, sources: seq<SourceRow>, req: SummarizeRequest): seq<ArticleView> {
    if IdsGiven(req.articleIds) then ByIds(rows, sources, req.articleIds.value)
    else Listing(rows, sources, ArticleFilter(req.category, None, None, None), req.limit, 0)
  }

  /**
   * `POST /summarize`: 404 when no article is chosen, 500 when the summary
   * failed, 200 with the summary otherwise.
   */
  method SummarizeEndpoint<J>(db: NewsDb, svc: LlmService, req: SummarizeRequest,
                              chat: ChatRequest -> Result<string, string>, loads: string -> Option<J>,
                              stamp: string, now: string)
    returns (status: int, outcome: SummaryOutcome<J>)
    ensures var arts := SummaryArticles(db.articles, db.sources, req);
            (arts == [] ==> status == 404 && outcome == Failed("No articles found")) &&
            (arts != [] && svc.apiKey == "" ==> status == 500 && outcome == Failed("No LLM API key configured")) &&
            (arts != [] ==> (status == 500 <==> outcome.Failed?) && (status == 200 <==> outcome.Summary?)) &&
            (outcome.Summary? ==> outcome.articleCount == |arts| && outcome.category == req.category)
    ensures var arts := SummaryArticles(db.articles, db.sources, req);
            arts != [] && svc.apiKey != "" ==>
              var answer := chat(SummaryRequest(arts, req.outputFormat, req.category, stamp));
              (answer.Err? ==> status == 500 && outcome == Failed(answer.error)) &&
              (answer.Ok? ==> outcome == SummaryOf(answer.value, |arts|, req.outputFormat, req.category, now, loads))
  {
    var articles := SummaryArticles(db.articles, db.sources, req);
    if articles == [] {
      return 404, Failed("No articles found");
    }
    outcome := SummarizeArticles(svc, articles, req.category, req.outputFormat, chat, loads, stamp, now);
    status := if outcome.Failed? then 500 else 200;
  }

  // ---------------------------------------------------------------- export

  datatype ExportRequest = ExportRequest(articleIds: Option<seq<int>>, exportType: string, markExported: bool,
                                         unexportedOnly: bool, limit: int)

  datatype ExportResponse = NotFound | BadType | Exported(filename: string, articlesCount: nat)

  function ExportArticles(rows: seq<ArticleRow>, sources: seq<SourceRow>, req: ExportRequest): seq<ArticleView> {
    if IdsGiven(req.articleIds) then ByIds(rows, sources, req.articleIds.value)
    else Listing(rows, sources, ArticleFilter(None, None, None, if req.unexportedOnly then Some(false) else None), req.limit, 0)
  }

  predicate KnownExportType(t: string) {
    t == "notebooklm" || t == "jsonl" || t == "urls"
  }

  /** The file the export writes, by type. */
  function ExportFile(t: string, arts: seq<ArticleView>, stamp: string): (string, string)
    requires KnownExportType(t)
  {
    if t == "notebooklm" then (NotebookName(stamp), Notebook(arts, true))
    else if t == "jsonl" then (JsonlName(None, stamp), Jsonl(arts))
    else (UrlsName(stamp), UrlList(arts))
  }

  function ViewIds(vs: seq<ArticleView>): (ids: seq<int>)
    ensures |ids| == |vs| && forall i :: 0 <= i < |vs| ==> ids[i] == vs[i].row.id as int
  {
    seq(|vs|, i requires 0 <= i < |vs| => vs[i].row.id as int)
  }

  /**
   * `POST /export`: 404 without articles and 400 for an unknown type, both
   * before anything is written; otherwise the file is written, the articles
   * are marked when asked, and the export is recorded.
   */
  method ExportEndpoint(db: NewsDb, ex: ExportService, req: ExportRequest, stamp: string, now: string)
    returns (resp: ExportResponse)
    requires db.Valid()
    modifies db`articles, db`exports, db`nextExportId, ex`files
    ensures db.Valid()
    ensures var arts := ExportArticles(old(db.articles), old(db.sources), req);
            (arts == [] ==> resp == NotFound) &&
            (arts != [] && !KnownExportType(req.exportType) ==> resp == BadType) &&
            (resp.NotFound? || resp.BadType? ==>
               ex.files == old(ex.files) && db.articles == old(db.articles) && db.exports == old(db.exports)) &&
            (arts != [] && KnownExportType(req.exportType) ==>
               var (name, content) := ExportFile(req.exportType, arts, stamp);
               resp == Exported(name, |arts|) &&
               ex.files == old(ex.files)[name := content] &&
               db.articles == (if req.markExported then MarkExported(old(db.articles), ViewIds(arts)) else old(db.articles)) &&
               db.exports == old(db.exports) + [ExportRow(old(db.nextExportId), |arts|, now, name, req.exportType)])
  {
    var articles := ExportArticles(db.articles, db.sources, req);
    if articles == [] {
      return NotFound;
    }
    var name;
    if req.exportType == "notebooklm" {
      name := ex.ExportNotebookLm(articles, true, stamp);
    } else if req.exportType == "jsonl" {
      name := ex.ExportJsonl(articles, None, stamp);
    } else if req.exportType == "urls" {
      name := ex.ExportUrls(articles, stamp);
    } else {
      return BadType;
    }
    if req.markExported {
      db.MarkArticlesExported(ViewIds(articles));
    }
    var _ := db.InsertExport(|articles|, name, req.exportType, now);
    resp := Exported(name, |articles|);
  }

  /** `GET /exports/{filename}`: the contents, or `None` for a 404 when the file is missing or empty. */
  function DownloadExport(ex: ExportService, name: string): (r: Option<string>)
    reads ex
    ensures r.None? <==> name !in ex.files || ex.files[name] == ""
    ensures r.Some? ==> r.value == ex.files[name]
  {
    var content := ex.ReadExport(name);
    if content == "" then None else Some(content)
  }

  /** `DELETE /exports/{filename}`: 404 when there was no such file. */
  method DeleteExportEndpoint(ex: ExportService, name: string) returns (status: int)
    modifies ex`files
    ensures status == 404 <==> name !in old(ex.files)
    ensures status == 200 || status == 404
    ensures ex.files == old(ex.files) - {name}
  {
    var ok := ex.DeleteExport(name);
    status := if ok then 200 else 404;
  }

  // ---------------------------------------------------------------- scheduler interval

  /** `int(interval) if interval else 60`; `None` stands for the error `int` raises on other text. */
  function IntervalSetting(setting: Option<string>): (r: Option<int>)
    ensures setting.None? || setting == Some("") ==> r == Some(60)
    ensures setting.Some? && setting.value != "" ==> r == ParseInt(setting.value)
  {
    if setting.Some? && setting.value != "" then ParseInt(setting.value) else Some(60)
  }

  /** An interval saved as its decimal text is read back as itself. */
  lemma IntervalRoundTrip(n: int)
    ensures IntervalSetting(Some(IntToString(n))) == Some(n)
  {
    ParseIntRoundTrip(n);
    assert |IntToString(n)| > 0;
  }

  /**
   * The startup event: the default settings and sources are written, the run
   * is set as the scheduler's callback and the scheduler started with the
   * saved interval. `false` when the saved interval is not a number.
   */
  method Startup(db: NewsDb, sched: Sched.SchedulerService, run: () -> Result<(), string>,
                 now: string, nextRun: string, startOk: bool)
    returns (ok: bool)
    requires db.Valid() && sched.Valid()
    modifies db`settings, db`sources, db`nextSourceId, sched
    ensures db.Valid() && sched.Valid()
    ensures db.settings == WithDefaults(old(db.settings), DefaultSettings)
    ensures old(db.sources) != [] ==> db.sources == old(db.sources) && db.nextSourceId == old(db.nextSourceId)
    ensures old(db.sources) == [] ==>
              |db.sources| == |DefaultSources| &&
              forall i :: 0 <= i < |DefaultSources| ==>
                db.sources[i] == NewSourceRow(old(db.nextSourceId) + i, DefaultSources[i], now)
    ensures sched.callback == Some(run)
    ensures ok <==> IntervalSetting(db.GetSetting("schedule_interval")).Some?
    ensures !ok ==> sched.scheduler == old(sched.scheduler)
    ensures ok ==> sched.scheduler == Some(Sched.Scheduler(startOk, map[Sched.JobId :=
                     Sched.Job(IntervalSetting(db.GetSetting("schedule_interval")).value, nextRun)]))
  {
    db.InitDb();
    db.SeedDefaultSources(now);
    sched.SetCollectCallback(run);
    ok := StartScheduler(db, sched, nextRun, startOk);
  }

  /** `POST /scheduler/start`: starts with the saved interval, 60 minutes when none is saved. */
  method StartScheduler(db: NewsDb, sched: Sched.SchedulerService, nextRun: string, startOk: bool)
    returns (ok: bool)
    requires sched.Valid()
    modifies sched`scheduler, sched`created
    ensures sched.Valid()
    ensures ok <==> IntervalSetting(db.GetSetting("schedule_interval")).Some?
    ensures !ok ==> sched.scheduler == old(sched.scheduler)
    ensures ok ==> sched.scheduler == Some(Sched.Scheduler(startOk, map[Sched.JobId :=
                     Sched.Job(IntervalSetting(db.GetSetting("schedule_interval")).value, nextRun)]))
  {
    var interval := IntervalSetting(db.GetSetting("schedule_interval"));
    if interval.None? {
      return false;
    }
    sched.Start(interval.value, nextRun, startOk);
    ok := true;
  }
}
