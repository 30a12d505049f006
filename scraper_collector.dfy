/**
 * The page scraper: fetch the source's page, pick at most 30 article
 * containers with the configured CSS selectors (or a fallback list of common
 * ones) and read a title, a link and a description from each.
 *
 * The parsed HTML is given as the answers to the selector queries the scraper
 * makes: which containers a page selector matches, and which element a
 * selector or the first `<a>` finds inside a container.
 */
module ScraperCollector {
  import opened Wrappers
  import opened Text
  import opened Seqs
  import opened BaseCollector

  /** An element: the text strings beneath it, in document order, and its `href` attribute. */
  datatype Element = Element(strings: seq<string>, href: Option<string>)

  /**
   * A matched container: `selectOne[sel]` is the first element inside it that
   * `sel` matches (absent when nothing does); `firstAnchor` is its first `<a>`.
   */
  datatype Container = Container(selectOne: map<string, Element>, firstAnchor: Option<Element>)

  /** A parsed page: `select[sel]` lists the elements `sel` matches, in document order. */
  datatype Page = Page(select: map<string, seq<Container>>)

  /** The answer to the page request: its HTTP status and the parsed page. */
  datatype ScrapeResponse = ScrapeResponse(status: int, page: Page)

  const BrowserAgent :=
    "Mozilla/5.0 (Windows NT 10.0; Win64; x64) AppleWebKit/537.36 (KHTML, like Gecko) Chrome/120.0.0.0 Safari/537.36"
  const DefaultArticle := "article"
  const DefaultTitle := "h2 a, h3 a, .title a"
  const DefaultDescription := "p, .summary, .excerpt"
  const DefaultLink := "a"
  const FallbackContainers := "article, .post, .entry, .item"
  const MaxContainers := 30
  const MaxSnippet := 500

  /** `s` has no surrounding whitespace. */
  predicate Unpadded(s: string) {
    s == "" || (!IsSpace(s[0]) && !IsSpace(s[|s| - 1]))
  }

  /** `get_text(strip=True)`: every string trimmed, the empty ones dropped, the rest run together. */
  function StrippedText(strings: seq<string>): (r: string)
    ensures Unpadded(r)
    decreases |strings|
  {
    if strings == [] then ""
    else StrippedText(strings[..|strings| - 1]) + Strip(strings[|strings| - 1])
  }

  /** Every string of the element trims to nothing. */
  predicate AllBlank(strings: seq<string>) {
    forall i :: 0 <= i < |strings| ==> Strip(strings[i]) == ""
  }

  /** The text of an element is empty exactly when all of its strings are whitespace. */
  lemma {:induction false} StrippedTextEmpty(strings: seq<string>)
    ensures StrippedText(strings) == "" <==> AllBlank(strings)
    decreases |strings|
  {
    if strings != [] {
      var n := |strings| - 1;
      var init := strings[..n];
      StrippedTextEmpty(init);
      assert StrippedText(strings) == StrippedText(init) + Strip(strings[n]);
      assert strings == init + [strings[n]];
      assert AllBlank(strings) <==> AllBlank(init) && Strip(strings[n]) == "";
    }
  }

  function GetText(e: Element): (r: string)
    ensures Unpadded(r)
  {
    StrippedText(e.strings)
  }

  /** `selectors.get(key, default)` */
  function Selector(selectors: map<string, string>, key: string, default: string): string {
    if key in selectors then selectors[key] else default
  }

  /** The four selectors the scraper uses, from the source's configuration or the defaults. */
  datatype Selectors = Selectors(article: string, title: string, description: string, link: string)

  /**
   * Each selector is the configured one for its key, and the default where
   * that key is not configured; no `selectors` at all gives the four defaults.
   */
  function ConfiguredSelectors(c: Collector): (s: Selectors)
    ensures c.config.selectors.None? ==>
              s == Selectors(DefaultArticle, DefaultTitle, DefaultDescription, DefaultLink)
    ensures var m := c.config.selectors.GetOr(map[]);
            ("article" in m ==> s.article == m["article"]) && ("article" !in m ==> s.article == DefaultArticle)
    ensures var m := c.config.selectors.GetOr(map[]);
            ("title" in m ==> s.title == m["title"]) && ("title" !in m ==> s.title == DefaultTitle)
    ensures var m := c.config.selectors.GetOr(map[]);
            ("description" in m ==> s.description == m["description"]) &&
            ("description" !in m ==> s.description == DefaultDescription)
    ensures var m := c.config.selectors.GetOr(map[]);
            ("link" in m ==> s.link == m["link"]) && ("link" !in m ==> s.link == DefaultLink)
  {
    var m := c.config.selectors.GetOr(map[]);
    Selectors(
      Selector(m, "article", DefaultArticle),
      Selector(m, "title", DefaultTitle),
      Selector(m, "description", DefaultDescription),
      Selector(m, "link", DefaultLink))
  }

  /** `soup.select(sel)` */
  function Select(page: Page, sel: string): seq<Container> {
    if sel in page.select then page.select[sel] else []
  }

  /** `element.select_one(sel)` */
  function SelectOne(el: Container, sel: string): Option<Element> {
    if sel in el.selectOne then Some(el.selectOne[sel]) else None
  }

  /** The first 30 containers the article selector matches; the fallback selectors when it matches none. */
  function Containers(page: Page, articleSelector: string): (r: seq<Container>)
    ensures |r| <= MaxContainers
    ensures Select(page, articleSelector) != [] ==> r == Take(Select(page, articleSelector), MaxContainers)
    ensures Select(page, articleSelector) == [] ==> r == Take(Select(page, FallbackContainers), MaxContainers)
  {
    var primary := Take(Select(page, articleSelector), MaxContainers);
    if primary != [] then primary else Take(Select(page, FallbackContainers), MaxContainers)
  }

  /**
   * The element the link is read from: the link selector's match (which is the
   * title element when both selectors are the same), else the first `<a>`.
   */
  function LinkElement(el: Container, sels: Selectors): (r: Option<Element>)
    ensures sels.link == sels.title && SelectOne(el, sels.title).Some? ==> r == SelectOne(el, sels.title)
    ensures sels.link != sels.title && SelectOne(el, sels.link).Some? ==> r == SelectOne(el, sels.link)
    ensures SelectOne(el, if sels.link == sels.title then sels.title else sels.link).None? ==> r == el.firstAnchor
  {
    var titleEl := SelectOne(el, sels.title);
    var chosen := if sels.link != sels.title then SelectOne(el, sels.link) else titleEl;
    if chosen.Some? then chosen else el.firstAnchor
  }

  /** The raw `href` the link is read from; empty when there is no link element or it has no `href`. */
  function LinkHref(el: Container, sels: Selectors): string {
    match LinkElement(el, sels)
    case None => ""
    case Some(e) => e.href.GetOr("")
  }

  /**
   * The item's link: an `href` that does not start with `http` is resolved
   * against the page url by `resolve` (`None` where resolving raises).
   */
  function Link(el: Container, sels: Selectors, base: string, resolve: (string, string) -> Option<string>)
    : (r: Option<string>)
    ensures LinkHref(el, sels) == "" ==> r == Some("")
    ensures StartsWith(LinkHref(el, sels), "http") ==> r == Some(LinkHref(el, sels))
    ensures LinkHref(el, sels) != "" && !StartsWith(LinkHref(el, sels), "http") ==>
              r == resolve(base, LinkHref(el, sels))
  {
    var href := LinkHref(el, sels);
    if href != "" && !StartsWith(href, "http") then resolve(base, href) else Some(href)
  }

  /** The item's title: the text of the title element, else empty. */
  function TitleText(el: Container, sels: Selectors): (r: string)
    ensures Unpadded(r)
  {
    match SelectOne(el, sels.title)
    case None => ""
    case Some(t) => GetText(t)
  }

  /** The full text of the description element, else empty. */
  function DescriptionText(el: Container, sels: Selectors): (r: string)
    ensures Unpadded(r)
  {
    match SelectOne(el, sels.description)
    case None => ""
    case Some(d) => GetText(d)
  }

  /** Trimming a cut of an unpadded text leaves a prefix of that text. */
  lemma StripCutIsPrefix(s: string, n: nat)
    requires Unpadded(s)
    ensures |Strip(Take(s, n))| <= Min(n, |s|)
    ensures Strip(Take(s, n)) == s[..|Strip(Take(s, n))|]
  {
    var t := Take(s, n);
    if t != "" {
      assert t[0] == s[0];
      var r := TrimRight(t);
      if r != "" {
        assert TrimLeft(r) == r;
      }
    }
  }

  /**
   * The normalised article for a scraped title, description text and link:
   * the title is already trimmed, the description is cut to 500 characters
   * and the date is the moment of collection, `now`.
   */
  function ScrapedArticle(c: Collector, title: string, descriptionText: string, link: string, now: string)
    : (a: Article)
    requires Unpadded(title) && Unpadded(descriptionText)
    ensures a.title == title && a.url == Strip(link)
    ensures a.description == Strip(Take(descriptionText, MaxSnippet))
    ensures |a.description| <= Min(MaxSnippet, |descriptionText|)
    ensures a.description == descriptionText[..|a.description|]
    ensures a.content == "" && a.author == "" && a.publishedDate == now
    ensures a.sourceId == c.sourceId && a.category == ""
  {
    StripUnpadded(title);
    var description := Take(descriptionText, MaxSnippet);
    StripCutIsPrefix(descriptionText, MaxSnippet);
    TakeAll(Strip(description), MaxDescription);
    NormalizeArticle(c, RawArticle(Some(title), Some(description), Some(""), Some(""),
                                   Some(link), Some(now), None))
  }

  /**
   * The article a container yields, or `None` when it is skipped: resolving
   * its link raised, or it has no title or no link.
   */
  function ItemArticle(c: Collector, resolve: (string, string) -> Option<string>, now: string, el: Container)
    : (r: Option<Article>)
    ensures var sels := ConfiguredSelectors(c);
            r.Some? <==> TitleText(el, sels) != "" && Link(el, sels, c.url, resolve).Some? &&
                         Link(el, sels, c.url, resolve).value != ""
    ensures var sels := ConfiguredSelectors(c);
            r.Some? ==> r.value == ScrapedArticle(c, TitleText(el, sels), DescriptionText(el, sels),
                                                  Link(el, sels, c.url, resolve).value, now)
  {
    var sels := ConfiguredSelectors(c);
    var title := TitleText(el, sels);
    match Link(el, sels, c.url, resolve)
    case None => None
    case Some(link) =>
      if title == "" || link == "" then None
      else Some(ScrapedArticle(c, title, DescriptionText(el, sels), link, now))
  }

  /** `ItemArticle` as a function value, for mapping over the containers. */
  function ItemFn(c: Collector, resolve: (string, string) -> Option<string>, now: string)
    : Container -> Option<Article>
  {
    el => ItemArticle(c, resolve, now, el)
  }

  /** The articles a page answer yields: none unless it answered 200. */
  function Collected(c: Collector, resolve: (string, string) -> Option<string>, now: string,
                     response: Option<ScrapeResponse>): seq<Article>
  {
    match response
    case None => []
    case Some(resp) =>
      if resp.status != 200 then []
      else FilterMap(ItemFn(c, resolve, now), Containers(resp.page, ConfiguredSelectors(c).article))
  }

  /**
   * `ScraperCollector.collect`. `fetch` answers a GET of a url sent with a
   * User-Agent header (`None` for a network error); `resolve` is `urljoin`.
   */
  method Collect(c: Collector, fetch: (string, string) -> Option<ScrapeResponse>,
                 resolve: (string, string) -> Option<string>, now: string)
    returns (articles: seq<Article>)
    ensures articles == Collected(c, resolve, now, fetch(c.url, BrowserAgent))
    ensures |articles| <= MaxContainers
    ensures forall a :: a in articles ==>
              a.title != "" && a.content == "" && a.author == "" && a.publishedDate == now &&
              a.sourceId == c.sourceId && a.category == ""
  {
    articles := [];
    var response := fetch(c.url, BrowserAgent);
    if response.None? || response.value.status != 200 {
      return;
    }
    var sels := ConfiguredSelectors(c);
    var elements := Containers(response.value.page, sels.article);
    ghost var f := ItemFn(c, resolve, now);
    var i := 0;
    while i < |elements|
      invariant 0 <= i <= |elements|
      invariant articles == FilterMap(f, elements[..i])
    {
      var article := ItemArticle(c, resolve, now, elements[i]);
      if article.Some? {
        articles := articles + [article.value];
      }
      FilterMapStep(f, elements, i);
      i := i + 1;
    }
    assert elements[..i] == elements;
    CollectedShape(c, resolve, now, elements);
  }

  /** Every scraped article has a title, no content or author, the collection time and no category. */
  lemma CollectedShape(c: Collector, resolve: (string, string) -> Option<string>, now: string,
                       elements: seq<Container>)
    ensures forall a :: a in FilterMap(ItemFn(c, resolve, now), elements) ==>
              a.title != "" && a.content == "" && a.author == "" && a.publishedDate == now &&
              a.sourceId == c.sourceId && a.category == ""
  {
    var f := ItemFn(c, resolve, now);
    forall a: Article | a in FilterMap(f, elements)
      ensures a.title != "" && a.content == "" && a.author == "" && a.publishedDate == now &&
              a.sourceId == c.sourceId && a.category == ""
    {
      FilterMapMember(f, elements, a);
      var i :| 0 <= i < |elements| && f(elements[i]) == Some(a);
      assert ItemArticle(c, resolve, now, elements[i]) == Some(a);
    }
  }

  /**
   * A container whose title strings are all whitespace is skipped, whatever
   * its link.
   */
  lemma BlankTitleSkipped(c: Collector, resolve: (string, string) -> Option<string>, now: string,
                          el: Container, t: Element)
    requires SelectOne(el, ConfiguredSelectors(c).title) == Some(t)
    requires forall i :: 0 <= i < |t.strings| ==> Strip(t.strings[i]) == ""
    ensures ItemArticle(c, resolve, now, el) == None
  {
    StrippedTextEmpty(t.strings);
  }

  /** An absolute link is stored as written, only trimmed; the resolver is not consulted. */
  lemma AbsoluteLinkKept(c: Collector, resolve: (string, string) -> Option<string>, now: string, el: Container)
    requires StartsWith(LinkHref(el, ConfiguredSelectors(c)), "http")
    requires TitleText(el, ConfiguredSelectors(c)) != ""
    ensures ItemArticle(c, resolve, now, el).Some?
    ensures ItemArticle(c, resolve, now, el).value.url == Strip(LinkHref(el, ConfiguredSelectors(c)))
  {
  }
}
