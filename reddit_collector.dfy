/**
 * The Reddit collector: work out the subreddit from the source's configuration
 * or url, fetch its "hot" listing as JSON and turn every post that is not
 * pinned into an article.
 */
module RedditCollector {
  import opened Wrappers
  import opened Text
  import opened Seqs
  import opened BaseCollector

  /** The `data` object of one listed post; every key may be missing. */
  datatype PostData = PostData(
    title: Option<string>,
    selftext: Option<string>,
    author: Option<string>,
    url: Option<string>,
    permalink: Option<string>,
    stickied: bool,
    createdUtc: Option<int>,
    score: Option<int>,
    numComments: Option<int>)

  /** `{}`: a post without a `data` object. */
  const NoData := PostData(None, None, None, None, None, false, None, None, None)

  /**
   * One child of the listing. `Malformed` is a child that is not an object, on
   * which reading `data` raises; `Post(None)` is an object without `data`.
   */
  datatype Post = Malformed | Post(data: Option<PostData>)

  /** The listing's `data` object: its `children`, if present. */
  datatype Listing = Listing(children: Option<seq<Post>>)

  /** The answer to the listing request; `body` is `None` when it is not a JSON object. */
  datatype RedditResponse = RedditResponse(status: int, body: Option<Listing>)

  const SubredditPage := "https://www.reddit.com/r/"
  const UserAgent := "TechNewsMonitor/1.0 (Educational Project)"
  const MaxSelftext := 500

  /**
   * The subreddit to read: the configured one when it is non-empty, else the
   * text between the first `/r/` of the url and the next `/`.
   */
  function Subreddit(c: Collector): string {
    var configured := c.config.subreddit.GetOr("");
    if configured != "" then configured
    else
      var parts := Split(c.url, "/r/");
      if |parts| > 1 then Split(parts[1], "/")[0] else ""
  }

  /** The JSON listing of the subreddit's 50 hottest posts. */
  function ListingUrl(subreddit: string): string {
    SubredditPage + subreddit + "/hot.json?limit=50"
  }

  /** The post's date: empty when its timestamp is missing or zero; `None` where formatting it raises. */
  function PostDate(d: PostData, unixDate: int -> Option<string>): (r: Option<string>)
    ensures d.createdUtc.GetOr(0) == 0 ==> r == Some("")
    ensures d.createdUtc.GetOr(0) != 0 ==> r == unixDate(d.createdUtc.value)
  {
    var created := d.createdUtc.GetOr(0);
    if created != 0 then unixDate(created) else Some("")
  }

  /** The line that stands in for a post without text. */
  function ScoreLine(d: PostData): string {
    "Score: " + IntToString(d.score.GetOr(0)) + " | Comments: " + IntToString(d.numComments.GetOr(0))
  }

  /** The post's description: its text cut to 500 characters, or the score line when it has no text. */
  function PostDescription(d: PostData): (r: string)
    ensures d.selftext.GetOr("") != "" ==> r == Take(d.selftext.value, MaxSelftext)
    ensures d.selftext.GetOr("") == "" ==> r == ScoreLine(d)
  {
    var text := Take(d.selftext.GetOr(""), MaxSelftext);
    if text != "" then text else ScoreLine(d)
  }

  /** The post's url, else the reddit address of its permalink; never empty. */
  function PostUrl(d: PostData): (r: string)
    ensures r != ""
    ensures d.url.GetOr("") != "" ==> r == d.url.value
    ensures d.url.GetOr("") == "" ==> StartsWith(r, "https://reddit.com")
  {
    var u := d.url.GetOr("");
    if u != "" then u else "https://reddit.com" + d.permalink.GetOr("")
  }

  /** The record handed to the normaliser for a post dated `date`. */
  function PostRecord(d: PostData, date: string): RawArticle {
    RawArticle(
      Some(d.title.GetOr("")),
      Some(PostDescription(d)),
      Some(d.selftext.GetOr("")),
      Some(d.author.GetOr("")),
      Some(PostUrl(d)),
      Some(date),
      None)
  }

  /**
   * The article a post yields, or `None` when it is skipped: a malformed child,
   * a pinned post, a timestamp that cannot be formatted, or no title or url
   * after trimming.
   */
  function PostArticle(c: Collector, unixDate: int -> Option<string>, p: Post): (r: Option<Article>)
    ensures r.Some? <==>
              p.Post? && !p.data.GetOr(NoData).stickied &&
              PostDate(p.data.GetOr(NoData), unixDate).Some? &&
              Strip(p.data.GetOr(NoData).title.GetOr("")) != "" &&
              Strip(PostUrl(p.data.GetOr(NoData))) != ""
    ensures r.Some? ==>
              var d := p.data.GetOr(NoData);
              r.value.title == Strip(d.title.GetOr("")) && r.value.url == Strip(PostUrl(d)) &&
              CutTo(r.value.description, Strip(PostDescription(d)), MaxDescription) &&
              CutTo(r.value.content, Strip(d.selftext.GetOr("")), MaxContent) &&
              CutTo(r.value.author, Strip(d.author.GetOr("")), MaxAuthor) &&
              r.value.publishedDate == PostDate(d, unixDate).value &&
              r.value.sourceId == c.sourceId && r.value.category == ""
  {
    match p
    case Malformed => None
    case Post(data) =>
      var d := data.GetOr(NoData);
      if d.stickied then None
      else
        match PostDate(d, unixDate)
        case None => None
        case Some(date) =>
          var a := NormalizeArticle(c, PostRecord(d, date));
          if Accepted(a) then Some(a) else None
  }

  /** `PostArticle` as a function value, for mapping over the listing. */
  function PostFn(c: Collector, unixDate: int -> Option<string>): Post -> Option<Article> {
    p => PostArticle(c, unixDate, p)
  }

  /** The posts of a listing answer: none unless it answered 200 with a JSON object. */
  function Posts(response: Option<RedditResponse>): seq<Post> {
    match response
    case None => []
    case Some(resp) =>
      if resp.status != 200 || resp.body.None? then [] else resp.body.value.children.GetOr([])
  }

  /** The articles a listing answer yields. */
  function Collected(c: Collector, unixDate: int -> Option<string>, response: Option<RedditResponse>): seq<Article> {
    FilterMap(PostFn(c, unixDate), Posts(response))
  }

  /**
   * `RedditCollector.collect`. `fetch` answers a GET of a url sent with a
   * User-Agent header (`None` for a network error); `unixDate` formats a UTC
   * timestamp. `requested` is the url fetched, `None` when no subreddit is known
   * and nothing is fetched.
   */
  method Collect(c: Collector, fetch: (string, string) -> Option<RedditResponse>, unixDate: int -> Option<string>)
    returns (requested: Option<string>, articles: seq<Article>)
    ensures Subreddit(c) == "" ==> requested == None && articles == []
    ensures Subreddit(c) != "" ==>
              requested == Some(ListingUrl(Subreddit(c))) &&
              articles == Collected(c, unixDate, fetch(ListingUrl(Subreddit(c)), UserAgent))
    ensures forall a :: a in articles ==> Accepted(a) && a.sourceId == c.sourceId && a.category == ""
  {
    var subreddit := c.config.subreddit.GetOr("");
    if subreddit == "" {
      var parts := Split(c.url, "/r/");
      if |parts| > 1 {
        subreddit := Split(parts[1], "/")[0];
      }
    }
    if subreddit == "" {
      return None, [];
    }
    requested := Some(ListingUrl(subreddit));
    articles := [];
    var response := fetch(requested.value, UserAgent);
    ghost var f := PostFn(c, unixDate);
    if response.None? || response.value.status != 200 || response.value.body.None? {
      assert Posts(response) == [];
      return;
    }
    var posts := response.value.body.value.children.GetOr([]);
    var i := 0;
    while i < |posts|
      invariant 0 <= i <= |posts|
      invariant articles == FilterMap(f, posts[..i])
    {
      var article := PostArticle(c, unixDate, posts[i]);
      if article.Some? {
        articles := articles + [article.value];
      }
      FilterMapStep(f, posts, i);
      i := i + 1;
    }
    assert posts[..i] == posts;
    CollectedAccepted(c, unixDate, posts);
  }

  /** Every article the posts yield has a title and a url, the collector's source id and no category. */
  lemma CollectedAccepted(c: Collector, unixDate: int -> Option<string>, posts: seq<Post>)
    ensures forall a :: a in FilterMap(PostFn(c, unixDate), posts) ==>
              Accepted(a) && a.sourceId == c.sourceId && a.category == ""
  {
    var f := PostFn(c, unixDate);
    forall a | a in FilterMap(f, posts) ensures Accepted(a) && a.sourceId == c.sourceId && a.category == "" {
      FilterMapMember(f, posts, a);
      var i :| 0 <= i < |posts| && f(posts[i]) == Some(a);
      assert PostArticle(c, unixDate, posts[i]) == Some(a);
    }
  }

  /** Every article comes from a listed post, and every acceptable listed post is kept. */
  lemma CollectedFrom(c: Collector, unixDate: int -> Option<string>, response: Option<RedditResponse>, a: Article)
    ensures a in Collected(c, unixDate, response) <==>
              exists i :: 0 <= i < |Posts(response)| && PostArticle(c, unixDate, Posts(response)[i]) == Some(a)
  {
    var f := PostFn(c, unixDate);
    var posts := Posts(response);
    FilterMapMember(f, posts, a);
    forall i | 0 <= i < |posts| ensures f(posts[i]) == PostArticle(c, unixDate, posts[i]) {
    }
  }

  /** A post that is skipped removes only itself; the others keep their listing order. */
  lemma SkippedPostIsolated(c: Collector, unixDate: int -> Option<string>,
                            before: seq<Post>, p: Post, after: seq<Post>)
    requires PostArticle(c, unixDate, p).None?
    ensures FilterMap(PostFn(c, unixDate), before + [p] + after) ==
            FilterMap(PostFn(c, unixDate), before) + FilterMap(PostFn(c, unixDate), after)
  {
    var f := PostFn(c, unixDate);
    assert FilterMap(f, before + [p] + after) == FilterMap(f, before + [p]) + FilterMap(f, after) by {
      FilterMapAppend(f, before + [p], after);
    }
    assert FilterMap(f, before + [p]) == FilterMap(f, before) by {
      FilterMapAppend(f, before, [p]);
      assert [p][..0] == [];
      assert f(p) == None;
    }
  }

  /**
   * A post without a url of its own is not lost: when it is not pinned, is
   * dated and has a title, it is kept under the reddit address of its permalink.
   */
  lemma PermalinkFallbackKept(c: Collector, unixDate: int -> Option<string>, d: PostData)
    requires d.url.GetOr("") == "" && !d.stickied
    requires PostDate(d, unixDate).Some? && Strip(d.title.GetOr("")) != ""
    ensures PostArticle(c, unixDate, Post(Some(d))).Some?
    ensures StartsWith(PostArticle(c, unixDate, Post(Some(d))).value.url, "https://reddit.com")
  {
    var prefix := "https://reddit.com";
    assert !IsSpace(prefix[0]) && !IsSpace(prefix[|prefix| - 1]);
    StripKeepsPrefix(PostUrl(d), prefix);
  }

  /** A post without text is described by its score line (cut only if the numbers are absurdly long). */
  lemma ScoreLineDescription(c: Collector, unixDate: int -> Option<string>, p: Post)
    requires PostArticle(c, unixDate, p).Some?
    requires p.data.GetOr(NoData).selftext.GetOr("") == ""
    ensures PostArticle(c, unixDate, p).value.description == Take(ScoreLine(p.data.GetOr(NoData)), MaxDescription)
  {
    ScoreLineUnpadded(p.data.GetOr(NoData));
  }

  /** The score line starts with a letter and ends with a digit, so trimming leaves it alone. */
  lemma ScoreLineUnpadded(d: PostData)
    ensures Strip(ScoreLine(d)) == ScoreLine(d)
  {
    var comments := IntToString(d.numComments.GetOr(0));
    var head := "Score: " + IntToString(d.score.GetOr(0)) + " | Comments: ";
    var line := head + comments;
    assert line[0] == head[0] == 'S';
    assert line[|line| - 1] == comments[|comments| - 1];
    StripUnpadded(line);
  }

  /** A pinned post never yields an article. */
  lemma StickiedSkipped(c: Collector, unixDate: int -> Option<string>, d: PostData)
    requires d.stickied
    ensures PostArticle(c, unixDate, Post(Some(d))) == None
  {
  }

  /**
   * With no subreddit configured, the name is the text after the first `/r/`
   * of the url up to the next `/`, and empty when the url has no `/r/`.
   */
  lemma SubredditFromUrl(c: Collector)
    requires c.config.subreddit.GetOr("") == ""
    ensures IndexOf(c.url, "/r/").None? ==> Subreddit(c) == ""
    ensures IndexOf(c.url, "/r/").Some? ==>
              Subreddit(c) == Split(c.url[IndexOf(c.url, "/r/").value + 3..], "/")[0]
  {
    SplitFirst(c.url, "/r/");
    if IndexOf(c.url, "/r/").Some? {
      FirstSegment(c.url[IndexOf(c.url, "/r/").value + 3..]);
    }
  }

  /** Cutting at the first `/r/` before cutting at the first `/` changes nothing: `/r/` starts with `/`. */
  lemma FirstSegment(t: string)
    ensures Split(Split(t, "/r/")[0], "/")[0] == Split(t, "/")[0]
  {
    SplitFirst(t, "/r/");
    var m: nat := if IndexOf(t, "/r/").Some? then IndexOf(t, "/r/").value else |t|;
    var j: nat := if IndexOf(t, "/").Some? then IndexOf(t, "/").value else |t|;
    SlashNoLater(t, m);
    SplitHead(t, "/", j);
    PrefixHead(t, m, j);
  }

  /** The first `/` comes no later than an occurrence of `/r/`. */
  lemma SlashNoLater(t: string, m: nat)
    requires m == |t| || OccursAt(t, "/r/", m)
    ensures IndexOf(t, "/").Some? ==> IndexOf(t, "/").value <= m
    ensures IndexOf(t, "/").None? ==> m == |t|
  {
    if m < |t| {
      assert t[m..m + 3][..1] == t[m..m + 1];
      assert OccursAt(t, "/", m);
    }
  }

  /** The first part of a prefix split at `/` is cut where the whole string's first `/` is. */
  lemma PrefixHead(t: string, m: nat, j: nat)
    requires j <= m <= |t|
    requires forall k :: 0 <= k < j ==> !OccursAt(t, "/", k)
    requires j == |t| || OccursAt(t, "/", j)
    ensures Split(t[..m], "/")[0] == t[..j]
  {
    var u := t[..m];
    forall k | 0 <= k < j ensures !OccursAt(u, "/", k) {
      if OccursAt(u, "/", k) {
        OccursInPrefix(t, "/", m, k);
      }
    }
    if j < m {
      assert u[j..j + 1] == t[j..j + 1];
    }
    SplitHead(u, "/", j);
    assert u[..j] == t[..j];
  }

  /** A url `https://www.reddit.com/r/<name>` followed by nothing or by a path names the subreddit `<name>`. */
  lemma SubredditFromPage(c: Collector, name: string, rest: string)
    requires c.config.subreddit.GetOr("") == ""
    requires '/' !in name
    requires rest == "" || rest[0] == '/'
    requires c.url == SubredditPage + name + rest
    ensures Subreddit(c) == name
  {
    PageTail(c.url, name + rest);
    SubredditFromUrl(c);
    NameHead(name, rest);
  }

  /** On the subreddit page followed by `tail`, the first `/r/` is the page's own and `tail` follows it. */
  lemma PageTail(s: string, tail: string)
    requires s == SubredditPage + tail
    ensures IndexOf(s, "/r/") == Some(22) && s[25..] == tail
  {
    PageIndex(s);
  }

  /** On a url that starts with the subreddit page, the first `/r/` is the page's own. */
  lemma PageIndex(s: string)
    requires StartsWith(s, SubredditPage)
    ensures IndexOf(s, "/r/") == Some(22)
  {
    assert s[22..25] == SubredditPage[22..25] == "/r/";
    assert s[..22] == "https://www.reddit.com";
    forall k | 0 <= k < 22 ensures !OccursAt(s, "/r/", k) {
      assert s[k] == s[..22][k];
      if s[k] == '/' {
        assert k == 6 || k == 7;
        assert s[k + 1] == s[..22][k + 1] != 'r';
      }
    }
    IndexOfIs(s, "/r/", 22);
  }

  /** A name without `/`, followed by nothing or by a path, is what precedes the first `/`. */
  lemma NameHead(name: string, rest: string)
    requires '/' !in name
    requires rest == "" || rest[0] == '/'
    ensures Split(name + rest, "/")[0] == name
  {
    var tail := name + rest;
    forall k | 0 <= k < |name| ensures !OccursAt(tail, "/", k) {
      assert tail[k..k + 1][0] == name[k] != '/';
    }
    if rest != [] {
      assert tail[|name|..|name| + 1] == "/";
    }
    SplitHead(tail, "/", |name|);
    assert tail[..|name|] == name;
  }
}
