/**
 * The RSS collector: fetch the source's feed url, take at most 50 entries and
 * turn each into an article, skipping entries without a title or link and
 * entries whose date cannot be built.
 */
module RssCollector {
  import opened Wrappers
  import opened Text
  import opened Seqs
  import opened BaseCollector

  /** One item of an entry's `content` list. */
  datatype ContentItem = ContentItem(value: Option<string>)

  /** A parsed feed entry; every attribute may be missing. */
  datatype FeedEntry = FeedEntry(
    title: Option<string>,
    summary: Option<string>,
    author: Option<string>,
    link: Option<string>,
    publishedParsed: Option<seq<int>>,
    updatedParsed: Option<seq<int>>,
    content: Option<seq<ContentItem>>)

  /** The answer to the feed request: its HTTP status and the entries the feed parser found. */
  datatype FeedResponse = FeedResponse(status: int, entries: seq<FeedEntry>)

  const MaxEntries := 50
  const MaxSummary := 500

  /** A parsed-date tuple that is present and non-empty (Python truthiness). */
  predicate Given(p: Option<seq<int>>) {
    p.Some? && |p.value| > 0
  }

  /**
   * The entry's date: from `published_parsed`, else from `updated_parsed`, else
   * empty. `isoDate` builds the ISO text of the first six tuple fields and is
   * `None` where building the date raises.
   */
  function EntryDate(e: FeedEntry, isoDate: seq<int> -> Option<string>): (r: Option<string>)
    ensures Given(e.publishedParsed) ==> r == isoDate(Take(e.publishedParsed.value, 6))
    ensures !Given(e.publishedParsed) && Given(e.updatedParsed) ==>
              r == isoDate(Take(e.updatedParsed.value, 6))
    ensures !Given(e.publishedParsed) && !Given(e.updatedParsed) ==> r == Some("")
  {
    if Given(e.publishedParsed) then isoDate(Take(e.publishedParsed.value, 6))
    else if Given(e.updatedParsed) then isoDate(Take(e.updatedParsed.value, 6))
    else Some("")
  }

  /** The entry's content: the first content item's value, else the summary, else empty. */
  function EntryContent(e: FeedEntry): (r: string)
    ensures e.content.Some? && |e.content.value| > 0 ==> r == e.content.value[0].value.GetOr("")
    ensures (e.content.None? || e.content.value == []) && e.summary.Some? ==> r == e.summary.value
    ensures (e.content.None? || e.content.value == []) && e.summary.None? ==> r == ""
  {
    if e.content.Some? && |e.content.value| > 0 then e.content.value[0].value.GetOr("")
    else if e.summary.Some? then e.summary.value
    else ""
  }

  /** The record handed to the normaliser for an entry dated `date`. */
  function EntryRecord(e: FeedEntry, date: string): RawArticle {
    RawArticle(
      Some(e.title.GetOr("")),
      Some(Take(e.summary.GetOr(""), MaxSummary)),
      Some(EntryContent(e)),
      Some(e.author.GetOr("")),
      Some(e.link.GetOr("")),
      Some(date),
      None)
  }

  /**
   * The article an entry yields, or `None` when the entry is skipped: its date
   * raised, or its trimmed title or link is empty.
   */
  function EntryArticle(c: Collector, isoDate: seq<int> -> Option<string>, e: FeedEntry): (r: Option<Article>)
    ensures r.Some? <==>
              EntryDate(e, isoDate).Some? &&
              Strip(e.title.GetOr("")) != "" && Strip(e.link.GetOr("")) != ""
    ensures r.Some? ==>
              r.value.title == Strip(e.title.GetOr("")) && r.value.url == Strip(e.link.GetOr("")) &&
              r.value.description == Strip(Take(e.summary.GetOr(""), MaxSummary)) &&
              |r.value.description| <= MaxSummary &&
              CutTo(r.value.content, Strip(EntryContent(e)), MaxContent) &&
              CutTo(r.value.author, Strip(e.author.GetOr("")), MaxAuthor) &&
              r.value.publishedDate == EntryDate(e, isoDate).value &&
              r.value.sourceId == c.sourceId && r.value.category == ""
  {
    match EntryDate(e, isoDate)
    case None => None
    case Some(date) =>
      var a := NormalizeArticle(c, EntryRecord(e, date));
      if Accepted(a) then Some(a) else None
  }

  /** `EntryArticle` as a function value, for mapping over a list of entries. */
  function EntryFn(c: Collector, isoDate: seq<int> -> Option<string>): FeedEntry -> Option<Article> {
    e => EntryArticle(c, isoDate, e)
  }

  /** The articles the feed yields: nothing unless the fetch answered 200, then the first 50 entries mapped. */
  function Collected(c: Collector, isoDate: seq<int> -> Option<string>, response: Option<FeedResponse>): seq<Article> {
    match response
    case None => []
    case Some(resp) =>
      if resp.status != 200 then [] else FilterMap(EntryFn(c, isoDate), Take(resp.entries, MaxEntries))
  }

  /**
   * `RSSCollector.collect`. `fetch` answers a GET of a url (`None` for a network
   * error); `isoDate` formats a parsed date.
   */
  method Collect(c: Collector, fetch: string -> Option<FeedResponse>, isoDate: seq<int> -> Option<string>)
    returns (articles: seq<Article>)
    ensures articles == Collected(c, isoDate, fetch(c.url))
    ensures fetch(c.url).None? || fetch(c.url).value.status != 200 ==> articles == []
    ensures |articles| <= MaxEntries
    ensures forall a :: a in articles ==> Accepted(a) && a.sourceId == c.sourceId && a.category == ""
  {
    articles := [];
    var response := fetch(c.url);
    if response.None? {
      return;
    }
    if response.value.status != 200 {
      return;
    }
    var entries := Take(response.value.entries, MaxEntries);
    var i := 0;
    ghost var f := EntryFn(c, isoDate);
    while i < |entries|
      invariant 0 <= i <= |entries|
      invariant articles == FilterMap(f, entries[..i])
    {
      var e := entries[i];
      var article := EntryArticle(c, isoDate, e);
      if article.Some? {
        articles := articles + [article.value];
      }
      FilterMapStep(f, entries, i);
      i := i + 1;
    }
    assert entries[..i] == entries;
    CollectedAccepted(c, isoDate, entries);
  }

  /** Every article the entries yield has a title and a url, the collector's source id and no category. */
  lemma CollectedAccepted(c: Collector, isoDate: seq<int> -> Option<string>, entries: seq<FeedEntry>)
    ensures forall a :: a in FilterMap(EntryFn(c, isoDate), entries) ==>
              Accepted(a) && a.sourceId == c.sourceId && a.category == ""
  {
    var f := EntryFn(c, isoDate);
    forall a | a in FilterMap(f, entries) ensures Accepted(a) && a.sourceId == c.sourceId && a.category == "" {
      FilterMapMember(f, entries, a);
      var i :| 0 <= i < |entries| && f(entries[i]) == Some(a);
      assert EntryArticle(c, isoDate, entries[i]) == Some(a);
    }
  }

  /** Every article comes from one of the first 50 entries, and every acceptable one of those is kept. */
  lemma CollectedFrom(c: Collector, isoDate: seq<int> -> Option<string>, resp: FeedResponse, a: Article)
    requires resp.status == 200
    ensures a in Collected(c, isoDate, Some(resp)) <==>
              exists i :: 0 <= i < Min(MaxEntries, |resp.entries|) &&
                          EntryArticle(c, isoDate, resp.entries[i]) == Some(a)
  {
    var entries := Take(resp.entries, MaxEntries);
    var f := EntryFn(c, isoDate);
    assert Collected(c, isoDate, Some(resp)) == FilterMap(f, entries);
    FilterMapMember(f, entries, a);
    if a in FilterMap(f, entries) {
      var i :| 0 <= i < |entries| && f(entries[i]) == Some(a);
      assert entries[i] == resp.entries[i];
      assert EntryArticle(c, isoDate, resp.entries[i]) == Some(a);
    } else {
      forall i | 0 <= i < Min(MaxEntries, |resp.entries|)
        ensures EntryArticle(c, isoDate, resp.entries[i]) != Some(a)
      {
        assert entries[i] == resp.entries[i];
        assert f(entries[i]) == EntryArticle(c, isoDate, entries[i]);
      }
    }
  }

  /**
   * Entries are processed in feed order, and an entry that is skipped (its date
   * raised, or it has no title or link) removes only itself from the output.
   */
  lemma SkippedEntryIsolated(c: Collector, isoDate: seq<int> -> Option<string>,
                             before: seq<FeedEntry>, e: FeedEntry, after: seq<FeedEntry>)
    requires EntryArticle(c, isoDate, e).None?
    ensures FilterMap(EntryFn(c, isoDate), before + [e] + after) ==
            FilterMap(EntryFn(c, isoDate), before) + FilterMap(EntryFn(c, isoDate), after)
  {
    var f := EntryFn(c, isoDate);
    assert FilterMap(f, before + [e] + after) == FilterMap(f, before + [e]) + FilterMap(f, after) by {
      FilterMapAppend(f, before + [e], after);
    }
    assert FilterMap(f, before + [e]) == FilterMap(f, before) by {
      FilterMapAppend(f, before, [e]);
      assert [e][..0] == [];
      assert f(e) == None;
    }
  }

  /** Entries past the fiftieth never contribute. */
  lemma OnlyFirstFifty(c: Collector, isoDate: seq<int> -> Option<string>, first: seq<FeedEntry>,
                       rest: seq<FeedEntry>)
    requires |first| == MaxEntries
    ensures Collected(c, isoDate, Some(FeedResponse(200, first + rest))) ==
            Collected(c, isoDate, Some(FeedResponse(200, first)))
  {
    assert Take(first + rest, MaxEntries) == first;
  }
}
