/**
 * What every collector shares: the source record it is built from and the
 * normaliser that every collected item passes through before it is stored.
 */
module BaseCollector {
  import opened Wrappers
  import opened Text

  /** The keys of a source's `config` object that the collectors read. */
  datatype Config = Config(subreddit: Option<string>, selectors: Option<map<string, string>>)

  /** `{}`: a source without configuration. */
  const EmptyConfig := Config(None, None)

  /** A source dictionary handed to a collector; every key may be absent. */
  datatype SourceDict = SourceDict(
    id: Option<int>,
    name: Option<string>,
    url: Option<string>,
    config: Option<Config>)

  /** The fields a collector reads from its source when it is built. */
  datatype Collector = Collector(sourceId: Option<int>, name: string, url: string, config: Config)

  /** `BaseCollector(source)`: absent keys take their defaults. */
  function NewCollector(s: SourceDict): (c: Collector)
    ensures s.id.None? ==> c.sourceId.None?
    ensures s.name.None? ==> c.name == "Unknown"
    ensures s.url.None? ==> c.url == ""
    ensures s.config.None? ==> c.config == EmptyConfig
    ensures s.id.Some? ==> c.sourceId == s.id
    ensures s.name.Some? ==> c.name == s.name.value
    ensures s.url.Some? ==> c.url == s.url.value
    ensures s.config.Some? ==> c.config == s.config.value
  {
    Collector(s.id, s.name.GetOr("Unknown"), s.url.GetOr(""), s.config.GetOr(EmptyConfig))
  }

  /** An item as a collector assembles it, before normalisation; any key may be absent. */
  datatype RawArticle = RawArticle(
    title: Option<string>,
    description: Option<string>,
    content: Option<string>,
    author: Option<string>,
    url: Option<string>,
    publishedDate: Option<string>,
    category: Option<string>)

  /** A normalised article, ready for the store. */
  datatype Article = Article(
    title: string,
    description: string,
    content: string,
    author: string,
    url: string,
    publishedDate: string,
    sourceId: Option<int>,
    category: string)

  const MaxDescription := 1000
  const MaxContent := 10000
  const MaxAuthor := 200

  /** `t` is `s` cut to at most `n` characters. */
  predicate CutTo(t: string, s: string, n: nat) {
    |t| == Min(n, |s|) && t == s[..|t|]
  }

  /**
   * `normalize_article`: title and url trimmed; description, content and
   * author trimmed and then cut to their bounds; the date kept as given; the
   * source id always the collector's own.
   */
  function NormalizeArticle(c: Collector, a: RawArticle): (r: Article)
    ensures r.title == Strip(a.title.GetOr("")) && r.url == Strip(a.url.GetOr(""))
    ensures CutTo(r.description, Strip(a.description.GetOr("")), MaxDescription)
    ensures CutTo(r.content, Strip(a.content.GetOr("")), MaxContent)
    ensures CutTo(r.author, Strip(a.author.GetOr("")), MaxAuthor)
    ensures r.publishedDate == a.publishedDate.GetOr("")
    ensures r.sourceId == c.sourceId
    ensures r.category == a.category.GetOr("")
  {
    Article(
      Strip(a.title.GetOr("")),
      Take(Strip(a.description.GetOr("")), MaxDescription),
      Take(Strip(a.content.GetOr("")), MaxContent),
      Take(Strip(a.author.GetOr("")), MaxAuthor),
      Strip(a.url.GetOr("")),
      a.publishedDate.GetOr(""),
      c.sourceId,
      a.category.GetOr(""))
  }

  /** The collectors keep an article only when its normalised title and url are both non-empty. */
  predicate Accepted(a: Article) {
    a.title != "" && a.url != ""
  }

  /** The article fed back in as a raw record, every key present. */
  function AsRaw(a: Article): RawArticle {
    RawArticle(Some(a.title), Some(a.description), Some(a.content), Some(a.author),
               Some(a.url), Some(a.publishedDate), Some(a.category))
  }

  /**
   * Normalising an already normalised article again changes nothing in its
   * title, url, date, category or source id.
   */
  lemma NormalizeStable(c: Collector, a: RawArticle)
    ensures var once := NormalizeArticle(c, a);
            var twice := NormalizeArticle(c, AsRaw(once));
            twice.title == once.title && twice.url == once.url &&
            twice.publishedDate == once.publishedDate && twice.category == once.category &&
            twice.sourceId == once.sourceId
  {
    StripIdempotent(a.title.GetOr(""));
    StripIdempotent(a.url.GetOr(""));
  }

  /** The normalised title is empty exactly when the raw title is absent or all whitespace. */
  lemma NormalizedTitleEmpty(c: Collector, a: RawArticle)
    ensures NormalizeArticle(c, a).title == "" <==>
              forall k :: 0 <= k < |a.title.GetOr("")| ==> IsSpace(a.title.GetOr("")[k])
  {
    StripEmpty(a.title.GetOr(""));
  }
}
