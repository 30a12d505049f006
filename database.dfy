/**
 * The article store. Each SQLite table is a sequence of rows in insertion
 * (rowid) order, or a map for the key/value settings table; the UNIQUE
 * constraints of the articles table become the check made before an insert,
 * and the queries become functions of the tables.
 */
module Database {
  import opened Wrappers
  import opened Text
  import opened Seqs
  import opened BaseCollector

  /** A row of `articles`. */
  datatype ArticleRow = ArticleRow(
    id: nat,
    title: string,
    description: string,
    content: string,
    author: string,
    url: string,
    publishedDate: string,
    sourceId: Option<int>,
    collectedAt: string,
    contentHash: string,
    category: string,
    exported: bool)

  /** A row of `sources`; `kind` is the `type` column. */
  datatype SourceRow = SourceRow(
    id: nat,
    name: string,
    kind: string,
    url: string,
    enabled: bool,
    config: Config,
    lastFetched: Option<string>,
    createdAt: string)

  /** A row of `exports`. */
  datatype ExportRow = ExportRow(id: nat, articlesCount: int, exportDate: string, filename: string, exportType: string)

  // ---------------------------------------------------------------- fingerprint

  /**
   * `generate_content_hash`: the digest of the lower-cased, trimmed title
   * followed by the lower-cased, trimmed url. `digest` stands for MD5's hex digest.
   */
  function Fingerprint(digest: string -> string, title: string, url: string): string {
    digest(Strip(Lower(title)) + Strip(Lower(url)))
  }

  /** Lower-casing and trimming a field first does not change its part of the fingerprint. */
  lemma CanonicalField(s: string)
    ensures Strip(Lower(Lower(Strip(s)))) == Strip(Lower(s))
  {
    calc {
      Strip(Lower(Lower(Strip(s))));
      { LowerIdempotent(Strip(s)); }
      Strip(Lower(Strip(s)));
      { LowerStrip(Strip(s)); }
      Lower(Strip(Strip(s)));
      { StripIdempotent(s); }
      Lower(Strip(s));
      { LowerStrip(s); }
      Strip(Lower(s));
    }
  }

  /** The fingerprint ignores case and surrounding whitespace in both fields. */
  lemma FingerprintCanonical(digest: string -> string, title: string, url: string)
    ensures Fingerprint(digest, Lower(Strip(title)), Lower(Strip(url))) == Fingerprint(digest, title, url)
  {
    CanonicalField(title);
    CanonicalField(url);
  }

  /** For instance `" Foo "` with `"HTTP://X"` is the same article as `"foo"` with `"http://x"`. */
  lemma FingerprintExample(digest: string -> string)
    ensures Fingerprint(digest, " Foo ", "HTTP://X") == Fingerprint(digest, "foo", "http://x")
  {
    FingerprintCanonical(digest, " Foo ", "HTTP://X");
    PaddedFoo();
    LowerLetters();
  }

  lemma PaddedFoo()
    ensures Strip(" Foo ") == "Foo"
  {
    var s := " Foo ";
    assert IsSpace(s[0]) && !IsSpace(s[1]);
    assert SpacesFrom(s, 0) == 1;
    assert TrimLeft(s) == "Foo " by {
      assert s[1..] == "Foo ";
    }
    var t := "Foo ";
    assert IsSpace(t[3]) && !IsSpace(t[2]);
    assert SpacesBefore(t, 4) == 3;
    assert TrimRight(t) == "Foo" by {
      assert t[..3] == "Foo";
    }
  }

  lemma LowerLetters()
    ensures Lower("Foo") == "foo" && Strip("HTTP://X") == "HTTP://X" && Lower("HTTP://X") == "http://x"
  {
    assert Lower("Foo") == "foo" by {
      var f := Lower("Foo");
      assert f[0] == 'f' && f[1] == 'o' && f[2] == 'o';
    }
    assert Lower("HTTP://X") == "http://x" by {
      var u := Lower("HTTP://X");
      assert u[0] == 'h' && u[1] == 't' && u[2] == 't' && u[3] == 'p';
      assert u[4] == ':' && u[5] == '/' && u[6] == '/' && u[7] == 'x';
    }
    assert Strip("HTTP://X") == "HTTP://X" by {
      assert !IsSpace('H') && !IsSpace('X');
      StripUnpadded("HTTP://X");
    }
  }

  /** A non-empty word of lower-case ASCII letters. */
  predicate LowerWord(s: string) {
    |s| > 0 && forall i :: 0 <= i < |s| ==> 'a' <= s[i] <= 'z'
  }

  lemma LowerWordJoin(a: string, b: string)
    requires LowerWord(a) && LowerWord(b)
    ensures LowerWord(a + b)
  {
    forall i | 0 <= i < |a + b| ensures 'a' <= (a + b)[i] <= 'z' {
      if i < |a| { assert (a + b)[i] == a[i]; } else { assert (a + b)[i] == b[i - |a|]; }
    }
  }

  /** A word of lower-case letters is its own lower-cased, trimmed form. */
  lemma LowerKeeps(s: string)
    requires LowerWord(s)
    ensures Strip(Lower(s)) == s
  {
    assert Lower(s) == s;
    StripUnpadded(s);
  }

  /**
   * Title and url are run together without a separator, so moving letters
   * from the end of the title to the start of the url keeps the fingerprint:
   * `("ab", "c")` and `("a", "bc")` collide.
   */
  lemma FingerprintJoinCollision(digest: string -> string, t: string, u: string, v: string)
    requires LowerWord(t) && LowerWord(u) && LowerWord(v)
    ensures Fingerprint(digest, t + u, v) == Fingerprint(digest, t, u + v)
  {
    calc {
      Fingerprint(digest, t + u, v);
      digest(Strip(Lower(t + u)) + Strip(Lower(v)));
      { LowerWordJoin(t, u); LowerKeeps(t + u); LowerKeeps(v); }
      digest((t + u) + v);
      { assert (t + u) + v == t + (u + v); }
      digest(t + (u + v));
      { LowerWordJoin(u, v); LowerKeeps(t); LowerKeeps(u + v); }
      digest(Strip(Lower(t)) + Strip(Lower(u + v)));
      Fingerprint(digest, t, u + v);
    }
  }

  // ---------------------------------------------------------------- table invariants

  /** The UNIQUE constraints on `url` and `content_hash`. */
  predicate KeysDistinct(rows: seq<ArticleRow>) {
    forall i, j :: 0 <= i < j < |rows| ==> rows[i].url != rows[j].url && rows[i].contentHash != rows[j].contentHash
  }

  /** Every stored hash is the content hash of its row's title and url. */
  predicate Hashed(hash: (string, string) -> string, rows: seq<ArticleRow>) {
    forall i :: 0 <= i < |rows| ==> rows[i].contentHash == hash(rows[i].title, rows[i].url)
  }

  /** AUTOINCREMENT: ids grow with insertion order and stay below the next id. */
  predicate ArticleIds(rows: seq<ArticleRow>, next: nat) {
    (forall i, j :: 0 <= i < j < |rows| ==> rows[i].id < rows[j].id) &&
    (forall i :: 0 <= i < |rows| ==> rows[i].id < next)
  }

  predicate SourceIds(rows: seq<SourceRow>, next: nat) {
    (forall i, j :: 0 <= i < j < |rows| ==> rows[i].id < rows[j].id) &&
    (forall i :: 0 <= i < |rows| ==> rows[i].id < next)
  }

  predicate ExportIds(rows: seq<ExportRow>, next: nat) {
    (forall i, j :: 0 <= i < j < |rows| ==> rows[i].id < rows[j].id) &&
    (forall i :: 0 <= i < |rows| ==> rows[i].id < next)
  }

  /** A row with this url or fingerprint is already stored, so the insert violates a UNIQUE constraint. */
  predicate Duplicate(rows: seq<ArticleRow>, url: string, hash: string) {
    exists i :: 0 <= i < |rows| && (rows[i].url == url || rows[i].contentHash == hash)
  }

  /** Appending a row that is not a duplicate keeps the UNIQUE constraints. */
  lemma AppendKeepsKeys(rows: seq<ArticleRow>, r: ArticleRow)
    requires KeysDistinct(rows) && !Duplicate(rows, r.url, r.contentHash)
    ensures KeysDistinct(rows + [r])
  {
    var rs := rows + [r];
    forall i, j | 0 <= i < j < |rs| ensures rs[i].url != rs[j].url && rs[i].contentHash != rs[j].contentHash {
      if j == |rows| {
        assert rs[i] == rows[i];
      }
    }
  }

  /** Appending a fresh row with the next id and its own fingerprint keeps all the article invariants. */
  lemma AppendRow(hash: (string, string) -> string, rows: seq<ArticleRow>, next: nat, r: ArticleRow)
    requires KeysDistinct(rows) && Hashed(hash, rows) && ArticleIds(rows, next)
    requires !Duplicate(rows, r.url, r.contentHash)
    requires r.contentHash == hash(r.title, r.url) && r.id == next
    ensures KeysDistinct(rows + [r]) && Hashed(hash, rows + [r]) && ArticleIds(rows + [r], next + 1)
  {
    AppendKeepsKeys(rows, r);
    var rs := rows + [r];
    forall i | 0 <= i < |rs| ensures rs[i].contentHash == hash(rs[i].title, rs[i].url) {
      if i < |rows| {
        assert rs[i] == rows[i];
      }
    }
    forall i, j | 0 <= i < j < |rs| ensures rs[i].id < rs[j].id {
      assert rs[i] == rows[i];
    }
  }

  /** The row `insert_article` writes: not exported, collected at `now`. */
  function NewArticleRow(id: nat, a: Article, now: string, hash: string): ArticleRow {
    ArticleRow(id, a.title, a.description, a.content, a.author, a.url, a.publishedDate, a.sourceId,
               now, hash, a.category, false)
  }

  // ---------------------------------------------------------------- listing

  /** The optional filters of `get_articles`; `None` is a filter not given. */
  datatype ArticleFilter = ArticleFilter(
    category: Option<string>,
    search: Option<string>,
    sourceId: Option<int>,
    exported: Option<bool>)

  /**
   * A row passes every filter that is given and truthy: equal category, the
   * search text in the title or the description, equal source id, equal
   * exported flag.
   */
  predicate Matches(f: ArticleFilter, r: ArticleRow) {
    (f.category.GetOr("") != "" ==> r.category == f.category.value) &&
    (f.search.GetOr("") != "" ==> Contains(r.title, f.search.value) || Contains(r.description, f.search.value)) &&
    (f.sourceId.GetOr(0) != 0 ==> r.sourceId == f.sourceId) &&
    (f.exported.Some? ==> r.exported == f.exported.value)
  }

  function MatchesFn(f: ArticleFilter): ArticleRow -> bool {
    r => Matches(f, r)
  }

  /**
   * `ORDER BY collected_at DESC` under SQLite's binary text collation; rows
   * collected at the same moment are taken newest row first.
   */
  predicate Newer(x: ArticleRow, y: ArticleRow) {
    StrLt(y.collectedAt, x.collectedAt) || (x.collectedAt == y.collectedAt && x.id >= y.id)
  }

  const NewestFirst: (ArticleRow, ArticleRow) -> bool := (x, y) => Newer(x, y)

  lemma NewestFirstPreorder()
    ensures TotalPreorder(NewestFirst)
  {
    forall x, y ensures NewestFirst(x, y) || NewestFirst(y, x) {
      StrLtTotal(x.collectedAt, y.collectedAt);
    }
    forall x, y, z | NewestFirst(x, y) && NewestFirst(y, z) ensures NewestFirst(x, z) {
      if StrLt(y.collectedAt, x.collectedAt) && StrLt(z.collectedAt, y.collectedAt) {
        StrLtTrans(z.collectedAt, y.collectedAt, x.collectedAt);
      }
    }
  }

  /** `LIMIT limit OFFSET offset`; a negative limit means no limit. */
  function Window<T>(s: seq<T>, limit: int, offset: nat): (r: seq<T>)
    ensures limit < 0 ==> |r| == |s| - Min(offset, |s|)
    ensures limit >= 0 ==> |r| == Min(limit, |s| - Min(offset, |s|))
    ensures forall i :: 0 <= i < |r| ==> offset + i < |s| && r[i] == s[offset + i]
  {
    var rest := if offset <= |s| then s[offset..] else [];
    if limit < 0 then rest else Take(rest, limit)
  }

  /** Consecutive pages put together are the page that spans both. */
  lemma WindowsAdjacent<T>(s: seq<T>, first: nat, second: nat, offset: nat)
    ensures Window(s, first, offset) + Window(s, second, offset + first) == Window(s, first + second, offset)
  {
    var a := Window(s, first, offset);
    var b := Window(s, second, offset + first);
    var w := Window(s, first + second, offset);
    assert |a + b| == |w|;
    forall i | 0 <= i < |w| ensures (a + b)[i] == w[i] {
      if i >= |a| {
        assert (a + b)[i] == b[i - |a|];
      }
    }
  }

  /** The LEFT JOIN with `sources`: the name of the source with this id, if there is one. */
  function SourceName(sources: seq<SourceRow>, id: Option<int>): (r: Option<string>)
    ensures r.Some? ==> id.Some? && exists i :: 0 <= i < |sources| && sources[i].id == id.value && sources[i].name == r.value
    ensures r.None? ==> id.None? || forall i :: 0 <= i < |sources| ==> sources[i].id != id.value
    decreases |sources|
  {
    if id.None? || sources == [] then None
    else if sources[0].id == id.value then Some(sources[0].name)
    else
      var r := SourceName(sources[1..], id);
      assert forall i :: 1 <= i < |sources| ==> sources[i] == sources[1..][i - 1];
      r
  }

  /** An article with the name of its source, as `get_articles` returns it. */
  datatype ArticleView = ArticleView(row: ArticleRow, sourceName: Option<string>)

  /** The matching rows, newest first, cut to the page. */
  function Selected(rows: seq<ArticleRow>, f: ArticleFilter, limit: int, offset: nat): seq<ArticleRow> {
    Window(SortBy(Filter(MatchesFn(f), rows), NewestFirst), limit, offset)
  }

  /** `get_articles(limit, offset, category, search, source_id, exported)` */
  function Listing(rows: seq<ArticleRow>, sources: seq<SourceRow>, f: ArticleFilter, limit: int, offset: nat)
    : seq<ArticleView>
  {
    var w := Selected(rows, f, limit, offset);
    seq(|w|, i requires 0 <= i < |w| => ArticleView(w[i], SourceName(sources, w[i].sourceId)))
  }

  function Rows(vs: seq<ArticleView>): seq<ArticleRow> {
    seq(|vs|, i requires 0 <= i < |vs| => vs[i].row)
  }

  lemma RowsOfListing(rows: seq<ArticleRow>, sources: seq<SourceRow>, f: ArticleFilter, limit: int, offset: nat)
    ensures Rows(Listing(rows, sources, f, limit, offset)) == Selected(rows, f, limit, offset)
  {
  }

  /** Every listed article is a stored row that passes the filters, joined with its source's name. */
  lemma ListingSound(rows: seq<ArticleRow>, sources: seq<SourceRow>, f: ArticleFilter, limit: int, offset: nat)
    ensures var l := Listing(rows, sources, f, limit, offset);
            forall i :: 0 <= i < |l| ==>
              l[i].row in rows && Matches(f, l[i].row) && l[i].sourceName == SourceName(sources, l[i].row.sourceId)
  {
    var kept := Filter(MatchesFn(f), rows);
    var sorted := SortBy(kept, NewestFirst);
    var l := Listing(rows, sources, f, limit, offset);
    forall i | 0 <= i < |l|
      ensures l[i].row in rows && Matches(f, l[i].row)
    {
      var r := sorted[offset + i];
      assert l[i].row == r;
      assert r in multiset(sorted);
      assert r in kept;
    }
  }

  /** The listing is ordered newest first. */
  lemma ListingOrdered(rows: seq<ArticleRow>, sources: seq<SourceRow>, f: ArticleFilter, limit: int, offset: nat)
    ensures var l := Listing(rows, sources, f, limit, offset);
            forall i, j :: 0 <= i < j < |l| ==> Newer(l[i].row, l[j].row)
  {
    var sorted := SortBy(Filter(MatchesFn(f), rows), NewestFirst);
    NewestFirstPreorder();
    SortBySorted(Filter(MatchesFn(f), rows), NewestFirst);
    var l := Listing(rows, sources, f, limit, offset);
    forall i, j | 0 <= i < j < |l| ensures Newer(l[i].row, l[j].row) {
      assert l[i].row == sorted[offset + i] && l[j].row == sorted[offset + j];
      assert NewestFirst(sorted[offset + i], sorted[offset + j]);
    }
  }

  /** Without a limit or an offset, every matching row is listed, each exactly as often as it is stored. */
  lemma ListingComplete(rows: seq<ArticleRow>, sources: seq<SourceRow>, f: ArticleFilter)
    ensures multiset(Rows(Listing(rows, sources, f, -1, 0))) == multiset(Filter(MatchesFn(f), rows))
    ensures forall r :: r in rows && Matches(f, r) ==> r in Rows(Listing(rows, sources, f, -1, 0))
  {
    var sorted := SortBy(Filter(MatchesFn(f), rows), NewestFirst);
    assert Window(sorted, -1, 0) == sorted;
    RowsOfListing(rows, sources, f, -1, 0);
    forall r | r in rows && Matches(f, r) ensures r in Rows(Listing(rows, sources, f, -1, 0)) {
      FilterKeeps(MatchesFn(f), rows, r);
      assert r in multiset(sorted);
    }
  }

  /** `get_article_count(category, search, source_id)`: the matching rows, whatever their exported flag. */
  function Count(rows: seq<ArticleRow>, category: Option<string>, search: Option<string>, sourceId: Option<int>): nat {
    |Filter(MatchesFn(ArticleFilter(category, search, sourceId, None)), rows)|
  }

  /** The count is the length of the whole listing under the same filters without the exported one. */
  lemma CountIsUnpagedListing(rows: seq<ArticleRow>, sources: seq<SourceRow>,
                              category: Option<string>, search: Option<string>, sourceId: Option<int>)
    ensures Count(rows, category, search, sourceId) ==
            |Listing(rows, sources, ArticleFilter(category, search, sourceId, None), -1, 0)|
  {
    ListingComplete(rows, sources, ArticleFilter(category, search, sourceId, None));
  }

  /** No page of the listing is longer than the count of its category, search and source filters. */
  lemma ListingWithinCount(rows: seq<ArticleRow>, sources: seq<SourceRow>, f: ArticleFilter, limit: int, offset: nat)
    ensures |Listing(rows, sources, f, limit, offset)| <= Count(rows, f.category, f.search, f.sourceId)
  {
    var g := ArticleFilter(f.category, f.search, f.sourceId, None);
    FilterStricter(MatchesFn(g), MatchesFn(f), rows);
    var sorted := SortBy(Filter(MatchesFn(f), rows), NewestFirst);
    assert |multiset(sorted)| == |multiset(Filter(MatchesFn(f), rows))|;
  }

  // ---------------------------------------------------------------- exported flag

  /** `UPDATE articles SET exported = 1 WHERE id IN ids` */
  function MarkExported(rows: seq<ArticleRow>, ids: seq<int>): (r: seq<ArticleRow>)
    ensures |r| == |rows|
    ensures forall i :: 0 <= i < |rows| ==> r[i].id == rows[i].id
  {
    seq(|rows|, i requires 0 <= i < |rows| => if rows[i].id in ids then rows[i].(exported := true) else rows[i])
  }

  /**
   * Exactly the listed rows end up exported; every other row, and every other
   * column, is left as it was.
   */
  lemma MarkExportedExact(rows: seq<ArticleRow>, ids: seq<int>)
    ensures forall i :: 0 <= i < |rows| ==>
              (rows[i].id in ids ==> MarkExported(rows, ids)[i].exported) &&
              (rows[i].id !in ids ==> MarkExported(rows, ids)[i] == rows[i]) &&
              MarkExported(rows, ids)[i].(exported := rows[i].exported) == rows[i]
  {
  }

  /** Marking touches no url, hash, title or id, so the table invariants survive it. */
  lemma MarkExportedKeepsKeys(hash: (string, string) -> string, rows: seq<ArticleRow>, ids: seq<int>, next: nat)
    requires KeysDistinct(rows) && Hashed(hash, rows) && ArticleIds(rows, next)
    ensures var r := MarkExported(rows, ids);
            KeysDistinct(r) && Hashed(hash, r) && ArticleIds(r, next)
  {
    var r := MarkExported(rows, ids);
    forall i | 0 <= i < |rows|
      ensures r[i].url == rows[i].url && r[i].contentHash == rows[i].contentHash && r[i].title == rows[i].title
    {
    }
  }

  /** Marking the same ids twice is marking them once. */
  lemma MarkExportedIdempotent(rows: seq<ArticleRow>, ids: seq<int>)
    ensures MarkExported(MarkExported(rows, ids), ids) == MarkExported(rows, ids)
  {
  }

  // ---------------------------------------------------------------- sources

  /** The source dictionary `insert_source` receives; `enabled` and `config` may be absent. */
  datatype NewSource = NewSource(name: string, kind: string, url: string, enabled: Option<bool>, config: Option<Config>)

  /** The columns an update sets; `None` is a column left alone. */
  datatype SourceUpdate = SourceUpdate(
    name: Option<string>,
    kind: Option<string>,
    url: Option<string>,
    enabled: Option<bool>,
    config: Option<Config>)

  predicate EmptyUpdate(u: SourceUpdate) {
    u.name.None? && u.kind.None? && u.url.None? && u.enabled.None? && u.config.None?
  }

  /** The row `insert_source` writes: enabled and `{}` unless given, never fetched. */
  function NewSourceRow(id: nat, s: NewSource, now: string): SourceRow {
    SourceRow(id, s.name, s.kind, s.url, s.enabled.GetOr(true), s.config.GetOr(EmptyConfig), None, now)
  }

  function ApplyUpdate(s: SourceRow, u: SourceUpdate): SourceRow {
    s.(name := u.name.GetOr(s.name), kind := u.kind.GetOr(s.kind), url := u.url.GetOr(s.url),
       enabled := u.enabled.GetOr(s.enabled), config := u.config.GetOr(s.config))
  }

  /** `UPDATE sources SET ... WHERE id = ?` */
  function UpdatedSources(sources: seq<SourceRow>, id: int, u: SourceUpdate): (r: seq<SourceRow>)
    ensures |r| == |sources|
    ensures forall i :: 0 <= i < |r| ==> r[i].id == sources[i].id
  {
    seq(|sources|, i requires 0 <= i < |sources| => if sources[i].id == id then ApplyUpdate(sources[i], u) else sources[i])
  }

  /**
   * The chosen row takes the given values; only the given columns of the
   * chosen row change; other rows and columns are untouched.
   */
  lemma UpdateTouchesOnlyGiven(sources: seq<SourceRow>, id: int, u: SourceUpdate)
    ensures forall i :: 0 <= i < |sources| && sources[i].id == id ==>
              var r := UpdatedSources(sources, id, u)[i];
              (u.name.Some? ==> r.name == u.name.value) && (u.kind.Some? ==> r.kind == u.kind.value) &&
              (u.url.Some? ==> r.url == u.url.value) && (u.enabled.Some? ==> r.enabled == u.enabled.value) &&
              (u.config.Some? ==> r.config == u.config.value)
    ensures forall i :: 0 <= i < |sources| ==>
              var r := UpdatedSources(sources, id, u)[i];
              (sources[i].id != id ==> r == sources[i]) &&
              r.lastFetched == sources[i].lastFetched && r.createdAt == sources[i].createdAt &&
              (u.name.None? ==> r.name == sources[i].name) && (u.kind.None? ==> r.kind == sources[i].kind) &&
              (u.url.None? ==> r.url == sources[i].url) && (u.enabled.None? ==> r.enabled == sources[i].enabled) &&
              (u.config.None? ==> r.config == sources[i].config)
  {
  }

  /** Setting the same columns again changes nothing more. */
  lemma UpdateIdempotent(sources: seq<SourceRow>, id: int, u: SourceUpdate)
    ensures UpdatedSources(UpdatedSources(sources, id, u), id, u) == UpdatedSources(sources, id, u)
  {
  }

  function OtherThan(id: int): SourceRow -> bool {
    (s: SourceRow) => s.id != id
  }

  /** `DELETE FROM sources WHERE id = ?` */
  function WithoutSource(sources: seq<SourceRow>, id: int): (r: seq<SourceRow>)
    ensures forall s :: s in r <==> s in sources && s.id != id
  {
    forall s | s in sources && s.id != id ensures s in Filter(OtherThan(id), sources) {
      FilterKeeps(OtherThan(id), sources, s);
    }
    Filter(OtherThan(id), sources)
  }

  /** After a delete, articles of that source join with no source name. */
  lemma DeletedSourceUnnamed(sources: seq<SourceRow>, id: int)
    ensures SourceName(WithoutSource(sources, id), Some(id)) == None
  {
    var r := WithoutSource(sources, id);
    forall i | 0 <= i < |r| ensures r[i].id != id {
      assert r[i] in r;
    }
  }

  /** `UPDATE sources SET last_fetched = now WHERE id = ?` */
  function Touched(sources: seq<SourceRow>, id: int, now: string): (r: seq<SourceRow>)
    ensures |r| == |sources|
    ensures forall i :: 0 <= i < |r| ==>
              r[i] == if sources[i].id == id then sources[i].(lastFetched := Some(now)) else sources[i]
  {
    seq(|sources|, i requires 0 <= i < |sources| =>
      if sources[i].id == id then sources[i].(lastFetched := Some(now)) else sources[i])
  }

  /** `ORDER BY name`, under binary collation; rows with the same name in id order. */
  predicate ByName(x: SourceRow, y: SourceRow) {
    StrLt(x.name, y.name) || (x.name == y.name && x.id <= y.id)
  }

  const NameOrder: (SourceRow, SourceRow) -> bool := (x, y) => ByName(x, y)

  lemma NameOrderPreorder()
    ensures TotalPreorder(NameOrder)
  {
    forall x, y ensures NameOrder(x, y) || NameOrder(y, x) {
      StrLtTotal(x.name, y.name);
    }
    forall x, y, z | NameOrder(x, y) && NameOrder(y, z) ensures NameOrder(x, z) {
      if StrLt(x.name, y.name) && StrLt(y.name, z.name) {
        StrLtTrans(x.name, y.name, z.name);
      }
    }
  }

  const IsEnabled: SourceRow -> bool := (s: SourceRow) => s.enabled

  /** `get_sources(enabled_only)` */
  function SourceListing(sources: seq<SourceRow>, enabledOnly: bool): seq<SourceRow> {
    SortBy(if enabledOnly then Filter(IsEnabled, sources) else sources, NameOrder)
  }

  /**
   * The source listing holds exactly the stored sources (only the enabled ones
   * when asked), sorted by name.
   */
  lemma SourceListingSpec(sources: seq<SourceRow>, enabledOnly: bool)
    ensures var l := SourceListing(sources, enabledOnly);
            (forall s :: s in l <==> s in sources && (enabledOnly ==> s.enabled)) &&
            (forall i, j :: 0 <= i < j < |l| ==> ByName(l[i], l[j]))
  {
    var kept := if enabledOnly then Filter(IsEnabled, sources) else sources;
    var l := SourceListing(sources, enabledOnly);
    forall s ensures s in l <==> s in sources && (enabledOnly ==> s.enabled) {
      assert s in l <==> s in multiset(kept);
      if enabledOnly && s in sources && s.enabled {
        FilterKeeps(IsEnabled, sources, s);
      }
    }
    NameOrderPreorder();
    SortBySorted(kept, NameOrder);
  }

  // ---------------------------------------------------------------- settings

  const DefaultSettings: seq<(string, string)> := [
    ("schedule_interval", "60"),
    ("categories", "AI/ML,Software Development,Cybersecurity,New Technologies"),
    ("max_articles_per_fetch", "50"),
    ("auto_summarize", "true"),
    ("llm_model", "gpt-4o-mini")
  ]

  /** `INSERT OR IGNORE` of each default in turn. */
  function WithDefaults(m: map<string, string>, defaults: seq<(string, string)>): map<string, string>
    decreases |defaults|
  {
    if defaults == [] then m
    else
      var n := |defaults| - 1;
      var prev := WithDefaults(m, defaults[..n]);
      if defaults[n].0 in prev then prev else prev[defaults[n].0 := defaults[n].1]
  }

  /** Existing keys keep their values, every default key ends up present, and nothing else is added. */
  lemma {:induction false} WithDefaultsSpec(m: map<string, string>, defaults: seq<(string, string)>)
    ensures forall k :: k in m ==> k in WithDefaults(m, defaults) && WithDefaults(m, defaults)[k] == m[k]
    ensures forall i :: 0 <= i < |defaults| ==> defaults[i].0 in WithDefaults(m, defaults)
    ensures forall k :: k in WithDefaults(m, defaults) ==>
              k in m || exists i :: 0 <= i < |defaults| && defaults[i].0 == k
    decreases |defaults|
  {
    if defaults != [] {
      var n := |defaults| - 1;
      WithDefaultsSpec(m, defaults[..n]);
      assert forall i :: 0 <= i < n ==> defaults[..n][i] == defaults[i];
    }
  }

  /** A key that only the defaults supply takes the value of its first default. */
  lemma {:induction false} WithDefaultsValue(m: map<string, string>, defaults: seq<(string, string)>, i: nat)
    requires i < |defaults| && defaults[i].0 !in m
    requires forall j :: 0 <= j < i ==> defaults[j].0 != defaults[i].0
    ensures defaults[i].0 in WithDefaults(m, defaults)
    ensures WithDefaults(m, defaults)[defaults[i].0] == defaults[i].1
    decreases |defaults|
  {
    var n := |defaults| - 1;
    var prev := WithDefaults(m, defaults[..n]);
    var k := defaults[i].0;
    if i < n {
      assert defaults[..n][i] == defaults[i];
      assert forall j :: 0 <= j < i ==> defaults[..n][j] == defaults[j];
      WithDefaultsValue(m, defaults[..n], i);
      assert k in prev && prev[k] == defaults[i].1;
      var r := WithDefaults(m, defaults);
      assert r == if defaults[n].0 in prev then prev else prev[defaults[n].0 := defaults[n].1];
    } else {
      WithDefaultsSpec(m, defaults[..n]);
      forall j | 0 <= j < n ensures defaults[..n][j].0 != k {
        assert defaults[..n][j] == defaults[j];
      }
      assert k !in prev;
      assert WithDefaults(m, defaults) == prev[k := defaults[i].1];
    }
  }

  // ---------------------------------------------------------------- default sources

  const DefaultSources: seq<NewSource> := [
    NewSource("Hacker News", "rss", "https://news.ycombinator.com/rss", Some(true), None),
    NewSource("TechCrunch", "rss", "https://techcrunch.com/feed/", Some(true), None),
    NewSource("Wired", "rss", "https://www.wired.com/feed/rss", Some(true), None),
    NewSource("Ars Technica", "rss", "https://feeds.arstechnica.com/arstechnica/index", Some(true), None),
    NewSource("MIT Tech Review", "rss", "https://www.technologyreview.com/feed/", Some(true), None),
    NewSource("The Verge", "rss", "https://www.theverge.com/rss/index.xml", Some(true), None),
    NewSource("AI News (VentureBeat)", "rss", "https://venturebeat.com/category/ai/feed/", Some(true), None),
    NewSource("Dev.to", "rss", "https://dev.to/feed", Some(true), None),
    NewSource("r/MachineLearning", "reddit", "https://www.reddit.com/r/MachineLearning", Some(true),
              Some(Config(Some("MachineLearning"), None))),
    NewSource("r/technology", "reddit", "https://www.reddit.com/r/technology", Some(true),
              Some(Config(Some("technology"), None))),
    NewSource("r/programming", "reddit", "https://www.reddit.com/r/programming", Some(true),
              Some(Config(Some("programming"), None)))
  ]

  // ---------------------------------------------------------------- the database

  /**
   * The database file `news.db`. `digest` stands for MD5's hex digest and
   * `hash` for `generate_content_hash` under it; `now` arguments are the clock.
   */
  class NewsDb {
    const digest: string -> string
    const hash: (string, string) -> string
    var articles: seq<ArticleRow>
    var sources: seq<SourceRow>
    var settings: map<string, string>
    var exports: seq<ExportRow>
    var nextArticleId: nat
    var nextSourceId: nat
    var nextExportId: nat

    /** `hash` is `Fingerprint` under `digest`. */
    ghost predicate HashIsFingerprint() {
      forall t, u {:trigger Fingerprint(digest, t, u)} :: hash(t, u) == Fingerprint(digest, t, u)
    }

    ghost predicate Valid()
      reads this
    {
      HashIsFingerprint() &&
      KeysDistinct(articles) && Hashed(hash, articles) && ArticleIds(articles, nextArticleId) &&
      SourceIds(sources, nextSourceId) && ExportIds(exports, nextExportId)
    }

    /** A new, empty database file. */
    constructor (digest: string -> string)
      ensures Valid() && this.digest == digest
      ensures articles == [] && sources == [] && settings == map[] && exports == []
    {
      this.digest := digest;
      hash := (title: string, url: string) => Fingerprint(digest, title, url);
      articles := [];
      sources := [];
      settings := map[];
      exports := [];
      nextArticleId := 1;
      nextSourceId := 1;
      nextExportId := 1;
    }

    /** `init_db`: the tables exist already here; the default settings are added where missing. */
    method InitDb()
      requires Valid()
      modifies this`settings
      ensures Valid()
      ensures settings == WithDefaults(old(settings), DefaultSettings)
    {
      var i := 0;
      while i < |DefaultSettings|
        invariant 0 <= i <= |DefaultSettings|
        invariant settings == WithDefaults(old(settings), DefaultSettings[..i])
      {
        var (key, value) := DefaultSettings[i];
        assert DefaultSettings[..i + 1][..i] == DefaultSettings[..i];
        if key !in settings {
          settings := settings[key := value];
        }
        i := i + 1;
      }
      assert DefaultSettings[..i] == DefaultSettings;
    }

    /**
     * `insert_article`: the new row's id, or `None` when its url or its
     * fingerprint is already stored, in which case nothing changes.
     */
    method InsertArticle(a: Article, now: string) returns (id: Option<nat>)
      requires Valid()
      modifies this`articles, this`nextArticleId
      ensures Valid()
      ensures Duplicate(old(articles), a.url, hash(a.title, a.url)) ==>
                id.None? && articles == old(articles) && nextArticleId == old(nextArticleId)
      ensures !Duplicate(old(articles), a.url, hash(a.title, a.url)) ==>
                id == Some(old(nextArticleId)) && nextArticleId == old(nextArticleId) + 1 &&
                articles == old(articles) + [NewArticleRow(old(nextArticleId), a, now, hash(a.title, a.url))]
    {
      var h := hash(a.title, a.url);
      if Duplicate(articles, a.url, h) {
        return None;
      }
      id := Some(nextArticleId);
      var row := NewArticleRow(nextArticleId, a, now, h);
      AppendRow(hash, articles, nextArticleId, row);
      articles := articles + [row];
      nextArticleId := nextArticleId + 1;
    }

    /** `mark_articles_exported(ids)` */
    method MarkArticlesExported(ids: seq<int>)
      requires Valid()
      modifies this`articles
      ensures Valid()
      ensures articles == MarkExported(old(articles), ids)
    {
      MarkExportedKeepsKeys(hash, articles, ids, nextArticleId);
      articles := MarkExported(articles, ids);
    }

    /** `insert_source`: the new row's id. */
    method InsertSource(s: NewSource, now: string) returns (id: nat)
      requires Valid()
      modifies this`sources, this`nextSourceId
      ensures Valid()
      ensures id == old(nextSourceId) && nextSourceId == id + 1
      ensures sources == old(sources) + [NewSourceRow(id, s, now)]
    {
      id := nextSourceId;
      sources := sources + [NewSourceRow(id, s, now)];
      nextSourceId := nextSourceId + 1;
    }

    /**
     * `update_source`: `false` stands for the SQL error an update without any
     * column raises; then nothing changes.
     */
    method UpdateSource(id: int, u: SourceUpdate) returns (ok: bool)
      requires Valid()
      modifies this`sources
      ensures Valid()
      ensures ok == !EmptyUpdate(u)
      ensures sources == if ok then UpdatedSources(old(sources), id, u) else old(sources)
    {
      if EmptyUpdate(u) {
        return false;
      }
      sources := UpdatedSources(sources, id, u);
      ok := true;
    }

    /** `delete_source`: the source's articles stay, without a source name. */
    method DeleteSource(id: int) returns (ok: bool)
      requires Valid()
      modifies this`sources
      ensures Valid() && ok
      ensures sources == WithoutSource(old(sources), id)
    {
      var before := sources;
      sources := WithoutSource(sources, id);
      FilterOrdered(OtherThan(id), before, nextSourceId);
      ok := true;
    }

    /** `update_source_last_fetched` */
    method TouchLastFetched(id: int, now: string)
      requires Valid()
      modifies this`sources
      ensures Valid()
      ensures sources == Touched(old(sources), id, now)
    {
      sources := Touched(sources, id, now);
    }

    /** `get_setting(key)` */
    function GetSetting(key: string): (r: Option<string>)
      reads this
      ensures r.Some? <==> key in settings
      ensures r.Some? ==> r.value == settings[key]
    {
      if key in settings then Some(settings[key]) else None
    }

    /** `update_setting(key, value)`: `INSERT OR REPLACE`. */
    method UpdateSetting(key: string, value: string)
      requires Valid()
      modifies this`settings
      ensures Valid()
      ensures settings == old(settings)[key := value]
      ensures GetSetting(key) == Some(value)
      ensures forall k :: k != key ==> GetSetting(k) == old(GetSetting(k))
    {
      settings := settings[key := value];
    }

    /** `seed_default_sources`: the eleven default sources, only into an empty table. */
    method SeedDefaultSources(now: string)
      requires Valid()
      modifies this`sources, this`nextSourceId
      ensures Valid()
      ensures old(sources) != [] ==> sources == old(sources) && nextSourceId == old(nextSourceId)
      ensures old(sources) == [] ==>
                |sources| == |DefaultSources| &&
                forall i :: 0 <= i < |DefaultSources| ==>
                  sources[i] == NewSourceRow(old(nextSourceId) + i, DefaultSources[i], now)
    {
      if |sources| > 0 {
        return;
      }
      var i := 0;
      while i < |DefaultSources|
        invariant 0 <= i <= |DefaultSources|
        invariant Valid()
        invariant |sources| == i && nextSourceId == old(nextSourceId) + i
        invariant forall j :: 0 <= j < i ==> sources[j] == NewSourceRow(old(nextSourceId) + j, DefaultSources[j], now)
      {
        var _ := InsertSource(DefaultSources[i], now);
        i := i + 1;
      }
    }

    /** `insert_export`: the new row's id. */
    method InsertExport(count: int, filename: string, exportType: string, now: string) returns (id: nat)
      requires Valid()
      modifies this`exports, this`nextExportId
      ensures Valid()
      ensures id == old(nextExportId) && nextExportId == id + 1
      ensures exports == old(exports) + [ExportRow(id, count, now, filename, exportType)]
    {
      id := nextExportId;
      exports := exports + [ExportRow(id, count, now, filename, exportType)];
      nextExportId := nextExportId + 1;
    }
  }

  /** Filtering keeps the relative order of what it keeps, so increasing ids stay increasing. */
  lemma {:induction false} FilterOrdered(p: SourceRow -> bool, rows: seq<SourceRow>, next: nat)
    requires SourceIds(rows, next)
    ensures SourceIds(Filter(p, rows), next)
    decreases |rows|
  {
    if rows != [] {
      var n := |rows| - 1;
      var init := rows[..n];
      assert forall i :: 0 <= i < n ==> init[i] == rows[i];
      FilterOrdered(p, init, next);
      var prev := Filter(p, init);
      forall i | 0 <= i < |prev| ensures prev[i].id < rows[n].id {
        assert prev[i] in init;
      }
      assert Filter(p, rows) == prev + (if p(rows[n]) then [rows[n]] else []);
    }
  }
}
