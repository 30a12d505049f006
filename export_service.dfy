/**
 * The export files. Each export builds its text by appending to a buffer, the
 * way the source issues `f.write` calls one after another, and stores it under
 * its file name in the export directory, modelled as a map from file name to
 * file contents.
 */
module ExportService {
  import opened Wrappers
  import opened Text
  import opened Seqs
  import opened Json
  import opened Database

  // ---------------------------------------------------------------- JSONL

  /** The nine keys of an exported record, with `source` taken from the joined source name. */
  function ExportRecord(v: ArticleView): seq<(string, JValue)> {
    var r := v.row;
    [("title", JStr(r.title)),
     ("description", JStr(r.description)),
     ("content", JStr(r.content)),
     ("author", JStr(r.author)),
     ("url", JStr(r.url)),
     ("published_date", JStr(r.publishedDate)),
     ("source", match v.sourceName case Some(n) => JStr(n) case None => JNull),
     ("category", JStr(r.category)),
     ("collected_at", JStr(r.collectedAt))]
  }

  const ExportKeys: seq<string> :=
    ["title", "description", "content", "author", "url", "published_date", "source", "category", "collected_at"]

  /** Every record has the same nine keys, in the same order. */
  lemma ExportRecordKeys(v: ArticleView)
    ensures |ExportRecord(v)| == |ExportKeys|
    ensures forall i :: 0 <= i < |ExportKeys| ==> ExportRecord(v)[i].0 == ExportKeys[i]
  {
  }

  /** `json.dumps` of one exported record. */
  function RecordJson(v: ArticleView): (r: string)
    ensures '\n' !in r
  {
    Object(ExportRecord(v))
  }

  const RecordJsonFn: ArticleView -> string := (v: ArticleView) => RecordJson(v)

  /** A line writer: the text `line` gives, then a newline. */
  function Terminated<T>(line: T -> string): T -> string {
    v => line(v) + "\n"
  }

  /** The whole JSONL file: one line per article, in the given order. */
  function Jsonl(vs: seq<ArticleView>): string {
    ConcatMap(Terminated(RecordJsonFn), vs)
  }

  /** Splitting at the first newline of a text whose first part has none. */
  lemma SplitAtNewline(x: string, rest: string)
    requires '\n' !in x
    ensures Split(x + "\n" + rest, "\n") == [x] + Split(rest, "\n")
  {
    var s := x + "\n" + rest;
    forall k | 0 <= k < |x| ensures !OccursAt(s, "\n", k) {
      assert s[k..k + 1][0] == s[k] == x[k];
    }
    assert s[|x|..|x| + 1] == "\n";
    IndexOfIs(s, "\n", |x|);
    assert s[..|x|] == x;
    assert s[|x| + 1..] == rest;
  }

  /**
   * Text written one newline-terminated line per element, where no line holds
   * a newline of its own, splits back into those lines and a final empty part.
   */
  lemma {:induction false} SplitLines<T>(line: T -> string, vs: seq<T>)
    requires forall v :: '\n' !in line(v)
    ensures Split(ConcatMap(Terminated(line), vs), "\n") ==
            seq(|vs|, i requires 0 <= i < |vs| => line(vs[i])) + [""]
    decreases |vs|
  {
    var lines := seq(|vs|, i requires 0 <= i < |vs| => line(vs[i]));
    if vs == [] {
      assert IndexOf("", "\n").None?;
      assert lines + [""] == [""];
    } else {
      var rest := seq(|vs| - 1, i requires 0 <= i < |vs| - 1 => line(vs[1..][i]));
      assert lines == [line(vs[0])] + rest;
      ConcatMapFront(Terminated(line), vs);
      SplitLines(line, vs[1..]);
      SplitAtNewline(line(vs[0]), ConcatMap(Terminated(line), vs[1..]));
    }
  }

  /**
   * The file splits at its newlines into exactly one JSON object per article,
   * in input order, followed by the empty text after the last newline.
   */
  lemma JsonlLines(vs: seq<ArticleView>)
    ensures Split(Jsonl(vs), "\n") == seq(|vs|, i requires 0 <= i < |vs| => RecordJsonFn(vs[i])) + [""]
  {
    SplitLines(RecordJsonFn, vs);
  }

  // ---------------------------------------------------------------- NotebookLM

  const NotebookHeader: string :=
    "# Tech News Collection for Analysis\n\n" +
    "This document contains curated tech news articles for analysis.\n\n" +
    "## Analysis Instructions\n" +
    "Please analyze these articles focusing on:\n" +
    "- AI/ML developments\n" +
    "- Software development trends  \n" +
    "- Cybersecurity news\n" +
    "- New technologies and breakthroughs\n\n" +
    "Provide insights on key trends, significant developments, and potential implications.\n\n" +
    "---\n\n"

  /** The group an article is written under: its category, or `Uncategorized` when it has none. */
  function Label(v: ArticleView): (l: string)
    ensures l != ""
    ensures v.row.category != "" ==> l == v.row.category
  {
    if v.row.category == "" then "Uncategorized" else v.row.category
  }

  /** The group labels in order of first occurrence: the keys of the `categorized` dict. */
  function Labels(vs: seq<ArticleView>): seq<string>
    decreases |vs|
  {
    if vs == [] then []
    else
      var prev := Labels(vs[..|vs| - 1]);
      var l := Label(vs[|vs| - 1]);
      if l in prev then prev else prev + [l]
  }

  /** Each label is listed once, and the listed labels are exactly those the articles carry. */
  lemma {:induction false} LabelsSpec(vs: seq<ArticleView>)
    ensures forall i, j :: 0 <= i < j < |Labels(vs)| ==> Labels(vs)[i] != Labels(vs)[j]
    ensures forall l :: l in Labels(vs) <==> exists v :: v in vs && Label(v) == l
    decreases |vs|
  {
    if vs != [] {
      var init := vs[..|vs| - 1];
      var last := vs[|vs| - 1];
      LabelsSpec(init);
      assert forall v :: v in vs <==> v in init || v == last by {
        assert vs == init + [last];
      }
      var prev := Labels(init);
      var l := Label(last);
      if l !in prev {
        var ls := prev + [l];
        assert Labels(vs) == ls;
        forall i, j | 0 <= i < j < |ls| ensures ls[i] != ls[j] {
          assert ls[i] == prev[i];
          if j < |prev| {
            assert ls[j] == prev[j];
          }
        }
      }
    }
  }

  function HasLabel(l: string): ArticleView -> bool {
    v => Label(v) == l
  }

  /** The articles of one group, in input order. */
  function GroupOf(vs: seq<ArticleView>, l: string): seq<ArticleView> {
    Filter(HasLabel(l), vs)
  }

  function GroupFn(vs: seq<ArticleView>): string -> seq<ArticleView> {
    l => GroupOf(vs, l)
  }

  function LabelIn(ls: seq<string>): ArticleView -> bool {
    v => Label(v) in ls
  }

  /** The articles whose label is one of `ls`, group after group. */
  lemma {:induction false} GroupsCollect(vs: seq<ArticleView>, ls: seq<string>)
    requires forall i, j :: 0 <= i < j < |ls| ==> ls[i] != ls[j]
    ensures multiset(ConcatMap(GroupFn(vs), ls)) == multiset(Filter(LabelIn(ls), vs))
    decreases |ls|
  {
    if ls == [] {
      FilterNone(LabelIn(ls), vs);
    } else {
      var n := |ls| - 1;
      var init := ls[..n];
      GroupsCollect(vs, init);
      assert forall v :: LabelIn(ls)(v) == (LabelIn(init)(v) || HasLabel(ls[n])(v)) by {
        assert ls == init + [ls[n]];
      }
      assert forall v :: !(LabelIn(init)(v) && HasLabel(ls[n])(v));
      FilterDisjoint(LabelIn(init), HasLabel(ls[n]), LabelIn(ls), vs);
    }
  }

  lemma {:induction false} FilterNone<T>(p: T -> bool, xs: seq<T>)
    requires forall x :: !p(x)
    ensures Filter(p, xs) == []
    decreases |xs|
  {
    if xs != [] {
      FilterNone(p, xs[..|xs| - 1]);
    }
  }

  /** The groups together hold every article exactly once. */
  lemma GroupsPartition(vs: seq<ArticleView>)
    ensures multiset(ConcatMap(GroupFn(vs), Labels(vs))) == multiset(vs)
  {
    LabelsSpec(vs);
    GroupsCollect(vs, Labels(vs));
    FilterAll(LabelIn(Labels(vs)), vs);
  }

  /** A label that no article carries has an empty group. */
  lemma AbsentLabelEmpty(vs: seq<ArticleView>, l: string)
    requires l !in Labels(vs)
    ensures GroupOf(vs, l) == []
  {
    LabelsSpec(vs);
    if GroupOf(vs, l) != [] {
      assert false;
    }
  }

  /** What one more article does to the groups. */
  lemma GroupStep(vs: seq<ArticleView>, i: nat, l: string)
    requires i < |vs|
    ensures GroupOf(vs[..i + 1], l) == GroupOf(vs[..i], l) + (if Label(vs[i]) == l then [vs[i]] else [])
  {
    assert vs[..i + 1][..i] == vs[..i];
  }

  /** What one more article does to the labels. */
  lemma LabelsStep(vs: seq<ArticleView>, i: nat)
    requires i < |vs|
    ensures Labels(vs[..i + 1]) ==
            Labels(vs[..i]) + (if Label(vs[i]) in Labels(vs[..i]) then [] else [Label(vs[i])])
  {
    assert vs[..i + 1][..i] == vs[..i];
  }

  /** The `**Source:**` line, written only for a non-empty source name. */
  function SourceLine(v: ArticleView): string {
    if v.sourceName.Some? && v.sourceName.value != "" then "**Source:** " + v.sourceName.value + "\n" else ""
  }

  /** The `**Date:**` line, written only for a non-empty date, cut to its first 10 characters. */
  function DateLine(v: ArticleView): string {
    if v.row.publishedDate != "" then "**Date:** " + Take(v.row.publishedDate, 10) + "\n" else ""
  }

  /** The `**URL:**` line, written only for a non-empty url. */
  function UrlLine(v: ArticleView): string {
    if v.row.url != "" then "**URL:** " + v.row.url + "\n" else ""
  }

  /** The description paragraph, written only for a non-empty description. */
  function DescriptionPart(v: ArticleView): string {
    if v.row.description != "" then v.row.description + "\n\n" else ""
  }

  /** The content excerpt, written only when the content is longer than the description. */
  function Excerpt(v: ArticleView): string {
    var r := v.row;
    if r.content != "" && |r.content| > |r.description| then Take(r.content, MaxExcerpt) + "\n\n" else ""
  }

  /**
   * Each optional line of an entry is written exactly when its field is
   * non-empty, and the date is cut to a prefix of at most 10 characters.
   */
  lemma OptionalLines(v: ArticleView)
    ensures SourceLine(v) != "" <==> v.sourceName.Some? && v.sourceName.value != ""
    ensures SourceLine(v) != "" ==> SourceLine(v) == "**Source:** " + v.sourceName.value + "\n"
    ensures DateLine(v) != "" <==> v.row.publishedDate != ""
    ensures DateLine(v) != "" ==>
              exists d :: DateLine(v) == "**Date:** " + d + "\n" && |d| == Min(10, |v.row.publishedDate|) &&
                          StartsWith(v.row.publishedDate, d)
    ensures UrlLine(v) != "" <==> v.row.url != ""
    ensures DescriptionPart(v) != "" <==> v.row.description != ""
  {
    if v.row.publishedDate != "" {
      var d := Take(v.row.publishedDate, 10);
      assert StartsWith(v.row.publishedDate, d);
      assert DateLine(v) == "**Date:** " + d + "\n";
    }
  }

  /**
   * The excerpt is written exactly when the content is longer than the
   * description, and is then the content's first 2000 characters.
   */
  lemma ExcerptRule(v: ArticleView)
    ensures Excerpt(v) != "" <==> |v.row.content| > |v.row.description|
    ensures Excerpt(v) != "" ==>
              exists e :: Excerpt(v) == e + "\n\n" && |e| == Min(MaxExcerpt, |v.row.content|) &&
                          StartsWith(v.row.content, e)
  {
    var r := v.row;
    if |r.content| > |r.description| {
      var e := Take(r.content, MaxExcerpt);
      assert StartsWith(r.content, e);
      assert Excerpt(v) == e + "\n\n";
    }
  }

  /** The block written for the `i`-th article of a group (numbered from 1). */
  function Entry(i: nat, v: ArticleView): string {
    "### " + NatToString(i) + ". " + v.row.title + "\n\n" +
    SourceLine(v) + DateLine(v) + UrlLine(v) + "\n" + DescriptionPart(v) + Excerpt(v) +
    "---\n\n"
  }

  const MaxExcerpt := 2000

  /** The blocks of a group, numbered 1, 2, ... in order. */
  function Entries(g: seq<ArticleView>): string
    decreases |g|
  {
    if g == [] then "" else Entries(g[..|g| - 1]) + Entry(|g|, g[|g| - 1])
  }

  function SectionHead(l: string): string {
    "\n## " + l + "\n\n"
  }

  function Section(vs: seq<ArticleView>, l: string): string {
    SectionHead(l) + Entries(GroupOf(vs, l))
  }

  function SectionFn(vs: seq<ArticleView>): string -> string {
    l => Section(vs, l)
  }

  /** What one more group adds to the text written so far. */
  lemma SectionsStep(vs: seq<ArticleView>, ls: seq<string>, k: nat, out: string, section: string)
    requires k < |ls|
    requires out == ConcatMap(SectionFn(vs), ls[..k])
    requires section == SectionHead(ls[k]) + Entries(GroupOf(vs, ls[k]))
    ensures out + section == ConcatMap(SectionFn(vs), ls[..k + 1])
  {
    ConcatMapStep(SectionFn(vs), ls, k);
    assert SectionFn(vs)(ls[k]) == section;
  }

  /** The NotebookLM text: the optional header, then one section per group in order of first occurrence. */
  function Notebook(vs: seq<ArticleView>, includePrompt: bool): string {
    (if includePrompt then NotebookHeader else "") + ConcatMap(SectionFn(vs), Labels(vs))
  }

  /** The header is written exactly when it is asked for; the sections follow unchanged. */
  lemma NotebookHeaderOnlyIfAsked(vs: seq<ArticleView>)
    ensures Notebook(vs, true) == NotebookHeader + Notebook(vs, false)
    ensures StartsWith(Notebook(vs, true), NotebookHeader)
  {
    var body := ConcatMap(SectionFn(vs), Labels(vs));
    assert Notebook(vs, false) == body by {
      assert "" + body == body;
    }
    PrefixOfAppend(NotebookHeader, body);
  }

  lemma PrefixOfAppend(a: string, b: string)
    ensures StartsWith(a + b, a)
  {
    assert (a + b)[..|a|] == a;
  }

  /** The `k`-th article of a group is written as entry number `k`, right after the entries before it. */
  lemma EntriesNumbered(head: string, g: seq<ArticleView>, k: nat)
    requires k < |g|
    ensures head + Entries(g[..k + 1]) == head + Entries(g[..k]) + Entry(k + 1, g[k])
  {
    assert g[..k + 1][..k] == g[..k];
  }

  // ---------------------------------------------------------------- URL list

  const UrlsHeader: string :=
    "# Article URLs for NotebookLM Import\n\n" +
    "# You can add these URLs directly to NotebookLM as web sources\n\n"

  const MaxUrlTitle := 80

  /** Only urls that start with `http` are listed. */
  predicate IsWebUrl(v: ArticleView) {
    v.row.url != "" && StartsWith(v.row.url, "http")
  }

  const IsWebUrlFn: ArticleView -> bool := (v: ArticleView) => IsWebUrl(v)

  function UrlEntry(v: ArticleView): string {
    "# " + Take(v.row.title, MaxUrlTitle) + "\n" + v.row.url + "\n\n"
  }

  const UrlEntryFn: ArticleView -> string := (v: ArticleView) => UrlEntry(v)

  /** The URL list: the header, then one entry per web url, in input order. */
  function UrlList(vs: seq<ArticleView>): string {
    UrlsHeader + ConcatMap(UrlEntryFn, Filter(IsWebUrlFn, vs))
  }

  /** An article whose url is not a web url leaves the list as it is. */
  lemma NonWebUrlSkipped(vs: seq<ArticleView>, v: ArticleView)
    requires !IsWebUrl(v)
    ensures UrlList(vs + [v]) == UrlList(vs)
  {
    assert Filter(IsWebUrlFn, vs + [v]) == Filter(IsWebUrlFn, vs) by {
      assert (vs + [v])[..|vs|] == vs;
      assert !IsWebUrlFn(v);
    }
  }

  /** An article with a web url adds its entry at the end. */
  lemma WebUrlListed(vs: seq<ArticleView>, v: ArticleView)
    requires IsWebUrl(v)
    ensures UrlList(vs + [v]) == UrlList(vs) + UrlEntry(v)
  {
    var ws := Filter(IsWebUrlFn, vs);
    assert Filter(IsWebUrlFn, vs + [v]) == ws + [v] by {
      assert (vs + [v])[..|vs|] == vs;
      assert IsWebUrlFn(v);
    }
    assert ConcatMap(UrlEntryFn, ws + [v]) == ConcatMap(UrlEntryFn, ws) + UrlEntry(v) by {
      assert (ws + [v])[..|ws|] == ws;
    }
  }

  // ---------------------------------------------------------------- the service

  /** The file names the exports choose, from the UTC timestamp `stamp` (`%Y%m%d_%H%M%S`). */
  function JsonlName(filename: Option<string>, stamp: string): (name: string)
    ensures filename.Some? && filename.value != "" ==> name == filename.value
    ensures filename.None? || filename.value == "" ==> name == "news_export_" + stamp + ".jsonl"
  {
    if filename.Some? && filename.value != "" then filename.value else "news_export_" + stamp + ".jsonl"
  }

  function NotebookName(stamp: string): string {
    "notebooklm_export_" + stamp + ".txt"
  }

  function UrlsName(stamp: string): string {
    "urls_export_" + stamp + ".txt"
  }

  /** `keys` and `groups` are the `categorized` dict of `vs`. */
  ghost predicate Grouped(vs: seq<ArticleView>, keys: seq<string>, groups: map<string, seq<ArticleView>>) {
    keys == Labels(vs) &&
    (forall l :: l in groups <==> l in keys) &&
    (forall l :: l in groups ==> groups[l] == GroupOf(vs, l))
  }

  /** Appending the next article to its group, opening the group when it is new. */
  lemma CategorizeStep(vs: seq<ArticleView>, i: nat, keys: seq<string>, groups: map<string, seq<ArticleView>>)
    requires i < |vs| && Grouped(vs[..i], keys, groups)
    ensures var cat := Label(vs[i]);
            Grouped(vs[..i + 1], if cat in groups then keys else keys + [cat],
                    groups[cat := (if cat in groups then groups[cat] else []) + [vs[i]]])
  {
    var cat := Label(vs[i]);
    var keys' := if cat in groups then keys else keys + [cat];
    var groups' := groups[cat := (if cat in groups then groups[cat] else []) + [vs[i]]];
    LabelsStep(vs, i);
    assert keys' == Labels(vs[..i + 1]);
    assert forall l :: l in groups' <==> l in keys';
    if cat !in groups {
      AbsentLabelEmpty(vs[..i], cat);
    }
    forall l | l in groups' ensures groups'[l] == GroupOf(vs[..i + 1], l) {
      GroupStep(vs, i, l);
    }
  }

  /**
   * The `categorized` dict of `export_notebooklm_format`: its keys in insertion
   * order, and for each key the articles with that label, in input order.
   */
  method Categorize(articles: seq<ArticleView>)
    returns (keys: seq<string>, groups: map<string, seq<ArticleView>>)
    ensures keys == Labels(articles)
    ensures forall l :: l in groups <==> l in keys
    ensures forall l :: l in groups ==> groups[l] == GroupOf(articles, l)
  {
    keys := [];
    groups := map[];
    var i := 0;
    while i < |articles|
      invariant 0 <= i <= |articles|
      invariant Grouped(articles[..i], keys, groups)
    {
      var v := articles[i];
      var cat := Label(v);
      CategorizeStep(articles, i, keys, groups);
      if cat in groups {
        groups := groups[cat := groups[cat] + [v]];
      } else {
        groups := groups[cat := [] + [v]];
        keys := keys + [cat];
      }
      i := i + 1;
    }
    assert articles[..i] == articles;
  }

  /** The text written for one group: its heading, then its articles numbered from 1. */
  method WriteSection(cat: string, g: seq<ArticleView>) returns (out: string)
    ensures out == SectionHead(cat) + Entries(g)
  {
    var head := SectionHead(cat);
    out := head;
    var j := 0;
    while j < |g|
      invariant 0 <= j <= |g|
      invariant out == head + Entries(g[..j])
    {
      EntriesNumbered(head, g, j);
      out := out + Entry(j + 1, g[j]);
      j := j + 1;
    }
    assert g[..j] == g;
  }

  class ExportService {
    /** The export directory: file name to contents. */
    var files: map<string, string>

    constructor(existing: map<string, string>)
      ensures files == existing
    {
      files := existing;
    }

    /** `read_export`: the file's contents, or empty text when there is no such file. */
    function ReadExport(name: string): (content: string)
      reads this
      ensures name !in files ==> content == ""
      ensures name in files ==> content == files[name]
    {
      if name in files then files[name] else ""
    }

    /** `delete_export`: removes the file and reports whether it was there. */
    method DeleteExport(name: string) returns (ok: bool)
      modifies this`files
      ensures ok <==> name in old(files)
      ensures files == old(files) - {name}
      ensures ReadExport(name) == ""
    {
      ok := name in files;
      if ok {
        files := files - {name};
      }
    }

    /** `export_jsonl`: writes one line per article and returns the file name. */
    method ExportJsonl(articles: seq<ArticleView>, filename: Option<string>, stamp: string)
      returns (name: string)
      modifies this`files
      ensures name == JsonlName(filename, stamp)
      ensures files == old(files)[name := Jsonl(articles)]
      ensures ReadExport(name) == Jsonl(articles)
    {
      name := JsonlName(filename, stamp);
      var out := "";
      var i := 0;
      while i < |articles|
        invariant 0 <= i <= |articles|
        invariant files == old(files)
        invariant out == Jsonl(articles[..i])
      {
        ConcatMapStep(Terminated(RecordJsonFn), articles, i);
        out := out + RecordJson(articles[i]) + "\n";
        i := i + 1;
      }
      assert articles[..i] == articles;
      files := files[name := out];
    }

    /** `export_notebooklm_format`: groups the articles by label, then writes the groups in order. */
    method ExportNotebookLm(articles: seq<ArticleView>, includePrompt: bool, stamp: string)
      returns (name: string)
      modifies this`files
      ensures name == NotebookName(stamp)
      ensures files == old(files)[name := Notebook(articles, includePrompt)]
    {
      name := NotebookName(stamp);
      var keys, groups := Categorize(articles);
      var body := "";
      var k := 0;
      while k < |keys|
        invariant 0 <= k <= |keys|
        invariant files == old(files)
        invariant body == ConcatMap(SectionFn(articles), keys[..k])
      {
        var cat := keys[k];
        assert cat in groups && groups[cat] == GroupOf(articles, cat);
        var section := WriteSection(cat, groups[cat]);
        SectionsStep(articles, keys, k, body, section);
        body := body + section;
        k := k + 1;
      }
      assert keys[..k] == keys;
      var header := if includePrompt then NotebookHeader else "";
      files := files[name := header + body];
    }

    /** `export_urls_list`: the header, then an entry for each article with a web url. */
    method ExportUrls(articles: seq<ArticleView>, stamp: string) returns (name: string)
      modifies this`files
      ensures name == UrlsName(stamp)
      ensures files == old(files)[name := UrlList(articles)]
    {
      name := UrlsName(stamp);
      var out := UrlsHeader;
      var i := 0;
      while i < |articles|
        invariant 0 <= i <= |articles|
        invariant files == old(files)
        invariant out == UrlList(articles[..i])
      {
        var v := articles[i];
        assert articles[..i + 1] == articles[..i] + [v];
        if v.row.url != "" && StartsWith(v.row.url, "http") {
          WebUrlListed(articles[..i], v);
          out := out + UrlEntry(v);
        } else {
          NonWebUrlSkipped(articles[..i], v);
        }
        i := i + 1;
      }
      assert articles[..i] == articles;
      files := files[name := out];
    }
  }
}
