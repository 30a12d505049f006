/**
 * The language-model service: categorising one article into a closed set of
 * labels, building the summary request for a list of articles and reading a
 * JSON answer out of a markdown reply. The chat endpoint is an oracle that
 * answers a request with the reply text, or with the error it raised.
 */
module LlmService {
  import opened Wrappers
  import opened Text
  import opened Seqs
  import opened BaseCollector
  import opened Database

  /** The configured service: the key from the environment (empty when unset), the model and its provider. */
  datatype LlmService = LlmService(apiKey: string, model: string, provider: string)

  /** One chat request: the session id, the system message and the user message. */
  datatype ChatRequest = ChatRequest(sessionId: string, system: string, text: string)

  /** `LLMService.__init__`, given the `EMERGENT_LLM_KEY` environment variable. */
  function NewLlmService(key: Option<string>): (s: LlmService)
    ensures s.apiKey == key.GetOr("")
    ensures s.model == "gpt-4o-mini" && s.provider == "openai"
  {
    LlmService(key.GetOr(""), "gpt-4o-mini", "openai")
  }

  // ---------------------------------------------------------------- categorising

  const ValidCategories: seq<string> :=
    ["AI/ML", "Software Development", "Cybersecurity", "New Technologies", "Other"]

  const CategorizerPrompt: string :=
    "You are a tech news categorizer. Categorize the given article into ONE of these categories:\n" +
    "- AI/ML\n- Software Development\n- Cybersecurity\n- New Technologies\n- Other\n\n" +
    "Respond with ONLY the category name, nothing else."

  /**
   * The request sent for a collected article. Collected articles carry no
   * `id`, so the session is always `categorize_unknown`.
   */
  function CategorizeRequest(a: Article): ChatRequest {
    ChatRequest("categorize_unknown", CategorizerPrompt,
                "Title: " + a.title + "\nDescription: " + a.description)
  }

  /** The label a reply names: the trimmed reply when it is one of the labels, else `Other`. */
  function LabelOf(reply: string): (tag: string)
    ensures tag in ValidCategories
    ensures Strip(reply) in ValidCategories ==> tag == Strip(reply)
    ensures Strip(reply) !in ValidCategories ==> tag == "Other"
  {
    var c := Strip(reply);
    if c in ValidCategories then c else "Other"
  }

  /**
   * `categorize_article`: empty without a key or when the chat call raises,
   * otherwise the label the reply names.
   */
  function CategorizeArticle(svc: LlmService, chat: ChatRequest -> Result<string, string>, a: Article)
    : (tag: string)
    ensures tag == "" || tag in ValidCategories
    ensures tag == "" <==> svc.apiKey == "" || chat(CategorizeRequest(a)).Err?
    ensures svc.apiKey != "" && chat(CategorizeRequest(a)).Ok? ==>
              tag == LabelOf(chat(CategorizeRequest(a)).value)
  {
    if svc.apiKey == "" then ""
    else
      match chat(CategorizeRequest(a))
      case Err(_) => ""
      case Ok(reply) => LabelOf(reply)
  }

  /** A reply that is a label, however padded, is taken as that label. */
  lemma PaddedLabelAccepted(reply: string, tag: string)
    requires tag in ValidCategories && Strip(reply) == tag
    ensures LabelOf(reply) == tag
  {
  }

  /** A label read as a reply is itself: the closed set is stable under `LabelOf`. */
  lemma LabelOfLabel(tag: string)
    requires tag in ValidCategories
    ensures LabelOf(tag) == tag
  {
    assert tag != "" && !IsSpace(tag[0]) && !IsSpace(tag[|tag| - 1]) by {
      assert tag == "AI/ML" || tag == "Software Development" || tag == "Cybersecurity" ||
             tag == "New Technologies" || tag == "Other";
    }
    StripUnpadded(tag);
  }

  // ---------------------------------------------------------------- summarising

  const MaxPromptArticles := 20

  /** How the source name prints: the joined name, or `None` for an article without a source. */
  function SourceText(v: ArticleView): string {
    match v.sourceName
    case Some(n) => n
    case None => "None"
  }

  /** The prompt block for the `i`-th article (numbered from 1). */
  function ArticleBlock(i: nat, v: ArticleView): string {
    "\n---\n" + NatToString(i) + ". **" + v.row.title + "**\n" +
    "Source: " + SourceText(v) + "\n" +
    "Description: " + v.row.description + "\n"
  }

  /** The blocks of `vs`, numbered 1, 2, ... in order. */
  function Blocks(vs: seq<ArticleView>): string
    decreases |vs|
  {
    if vs == [] then "" else Blocks(vs[..|vs| - 1]) + ArticleBlock(|vs|, vs[|vs| - 1])
  }

  /** `articles_text`: the blocks of the first 20 articles. */
  function ArticlesText(vs: seq<ArticleView>): string {
    Blocks(Take(vs, MaxPromptArticles))
  }

  /** Articles past the twentieth never reach the prompt. */
  lemma OnlyFirstTwenty(first: seq<ArticleView>, rest: seq<ArticleView>)
    requires |first| == MaxPromptArticles
    ensures ArticlesText(first + rest) == ArticlesText(first)
  {
    assert Take(first + rest, MaxPromptArticles) == first;
  }

  /** The `k`-th article is written as block number `k + 1`, after the blocks before it. */
  lemma BlocksNumbered(text: string, vs: seq<ArticleView>, k: nat)
    requires k < |vs| && text == Blocks(vs[..k])
    ensures text + ArticleBlock(k + 1, vs[k]) == Blocks(vs[..k + 1])
  {
    assert vs[..k + 1][..k] == vs[..k];
  }

  /** The loop that builds `articles_text`. */
  method BuildArticlesText(articles: seq<ArticleView>) returns (text: string)
    ensures text == ArticlesText(articles)
  {
    var vs := Take(articles, MaxPromptArticles);
    text := "";
    var i := 0;
    while i < |vs|
      invariant 0 <= i <= |vs|
      invariant text == Blocks(vs[..i])
    {
      BlocksNumbered(text, vs, i);
      text := text + ArticleBlock(i + 1, vs[i]);
      i := i + 1;
    }
    assert vs[..i] == vs;
  }

  const JsonInstruction: string :=
    "Output your response as valid JSON with this structure:\n{\n  \"summary\": \"Overall summary paragraph\",\n" +
    "  \"key_trends\": [\"trend1\", \"trend2\", ...],\n  \"top_stories\": [\n" +
    "    {\"title\": \"...\", \"significance\": \"...\", \"index\": 1},\n    ...\n  ],\n  \"categories\": {\n" +
    "    \"AI/ML\": [\"headline1\", ...],\n    \"Software Development\": [...],\n    ...\n  }\n}"

  const MarkdownInstruction: string :=
    "Format your response as clean markdown with:\n## Summary\nA brief overview paragraph\n\n## Key Trends\n" +
    "- Trend 1\n- Trend 2\n\n## Top Stories\n1. **Story Title** - Brief significance\n\n## By Category\n" +
    "### AI/ML\n- Headlines...\n### Software Development\n- Headlines...\n(etc for relevant categories)"

  const AnalystIntro: string :=
    "You are a tech news analyst. Analyze the following tech news articles and provide an insightful summary.\n\n" +
    "Filter and focus on these topics:\n- AI/ML advancements\n- Software development trends\n" +
    "- Cybersecurity news\n- New technologies and research breakthroughs\n\n" +
    "Ignore irrelevant or low-quality content.\n\n"

  /** The format instruction: JSON for `json`, markdown for any other format. */
  function FormatInstruction(format: string): string {
    if format == "json" then JsonInstruction else MarkdownInstruction
  }

  /** The line that narrows the summary to one category. */
  function FocusLine(category: Option<string>): (r: string)
    ensures r == "" <==> category.None? || category.value == ""
  {
    if category.Some? && category.value != "" then
      "\n\nFocus specifically on articles related to: " + category.value
    else ""
  }

  /** The system message: the analyst instructions, the format instruction, and the focus line when a category is given. */
  function SystemMessage(format: string, category: Option<string>): string {
    AnalystIntro + FormatInstruction(format) + FocusLine(category)
  }

  /** A focus line after any instructions: nothing, or the focus sentence. */
  lemma FocusAppended(base: string, category: Option<string>)
    ensures category.None? || category.value == "" ==> base + FocusLine(category) == base
    ensures category.Some? && category.value != "" ==>
              base + FocusLine(category) == base + "\n\nFocus specifically on articles related to: " + category.value
  {
    assert base + "" == base;
  }

  /** The focus line is added exactly when a category is given, and nothing else changes. */
  lemma FocusOnlyForCategory(format: string, category: Option<string>)
    ensures category.None? || category.value == "" ==>
              SystemMessage(format, category) == SystemMessage(format, None)
    ensures category.Some? && category.value != "" ==>
              SystemMessage(format, category) ==
              SystemMessage(format, None) + "\n\nFocus specifically on articles related to: " + category.value
  {
    var base := AnalystIntro + FormatInstruction(format);
    FocusAppended(base, None);
    FocusAppended(base, category);
  }

  /** The chat request for a summary; `stamp` is the current time, used in the session id. */
  function SummaryRequest(articles: seq<ArticleView>, format: string, category: Option<string>, stamp: string)
    : ChatRequest
  {
    ChatRequest("summary_" + stamp, SystemMessage(format, category),
                "Here are the articles to analyze:\n" + ArticlesText(articles))
  }

  /** What `summarize_articles` returns: an error message, or the summary record. */
  datatype SummaryOutcome<J> =
    | Failed(error: string)
    | Summary(summaryText: string, articleCount: nat, category: Option<string>, format: string,
              createdAt: string, summaryJson: Option<J>)

  /** JSON extraction: ```` ```json ```` fenced text, else plain-fenced text, else the whole reply. */
  function ExtractJson(reply: string): string {
    if Contains(reply, "```json") then
      SplitFirst(reply, "```json");
      Split(Split(reply, "```json")[1], "```")[0]
    else if Contains(reply, "```") then
      SplitFirst(reply, "```");
      Split(Split(reply, "```")[1], "```")[0]
    else reply
  }

  /**
   * The record for a reply. `loads` is `json.loads`, `None` where it raises;
   * `summary_json` is present only for the `json` format and a reply that parses.
   */
  function SummaryOf<J>(reply: string, count: nat, format: string, category: Option<string>, now: string,
                        loads: string -> Option<J>): SummaryOutcome<J>
  {
    Summary(reply, count, category, format, now, if format == "json" then loads(ExtractJson(reply)) else None)
  }

  /**
   * `summarize_articles`, the key checked before the article list. `chat`
   * answers a request or raises (`Err` with the message); `stamp` and `now`
   * are the clock readings for the session id and `created_at`.
   */
  method SummarizeArticles<J>(svc: LlmService, articles: seq<ArticleView>, category: Option<string>,
                              format: string, chat: ChatRequest -> Result<string, string>,
                              loads: string -> Option<J>, stamp: string, now: string)
    returns (outcome: SummaryOutcome<J>)
    ensures svc.apiKey == "" ==> outcome == Failed("No LLM API key configured")
    ensures svc.apiKey != "" && articles == [] ==> outcome == Failed("No articles to summarize")
    ensures svc.apiKey != "" && articles != [] ==>
              var answer := chat(SummaryRequest(articles, format, category, stamp));
              (answer.Err? ==> outcome == Failed(answer.error)) &&
              (answer.Ok? ==> outcome == SummaryOf(answer.value, |articles|, format, category, now, loads))
    ensures outcome.Summary? ==> outcome.articleCount == |articles| && outcome.category == category
  {
    if svc.apiKey == "" {
      return Failed("No LLM API key configured");
    }
    if articles == [] {
      return Failed("No articles to summarize");
    }
    var text := BuildArticlesText(articles);
    var request := ChatRequest("summary_" + stamp, SystemMessage(format, category),
                               "Here are the articles to analyze:\n" + text);
    match chat(request)
    case Err(e) =>
      outcome := Failed(e);
    case Ok(reply) =>
      outcome := SummaryOf(reply, |articles|, format, category, now, loads);
  }

  // ---------------------------------------------------------------- reading fenced JSON

  /** A fence (or any pattern starting with a backquote) after backquote-free text is found right there. */
  lemma FenceAfterPlainText(pre: string, pat: string, rest: string)
    requires |pat| > 0 && pat[0] == '`' && '`' !in pre
    ensures IndexOf(pre + pat + rest, pat) == Some(|pre|)
  {
    var s := pre + pat + rest;
    forall k | 0 <= k < |pre| ensures !OccursAt(s, pat, k) {
      if k + |pat| <= |s| {
        assert s[k..k + |pat|][0] == s[k] == pre[k];
      }
    }
    assert s[|pre|..|pre| + |pat|] == pat;
    IndexOfIs(s, pat, |pre|);
  }

  /** Text without a backquote holds no fence. */
  lemma NoFenceInPlainText(s: string, pat: string)
    requires |pat| > 0 && pat[0] == '`' && '`' !in s
    ensures IndexOf(s, pat).None?
  {
    forall k | 0 <= k ensures !OccursAt(s, pat, k) {
      if k + |pat| <= |s| {
        assert s[k..k + |pat|][0] == s[k];
      }
    }
  }

  /** A reply without any backquote is parsed whole. */
  lemma UnfencedReplyWhole(reply: string)
    requires '`' !in reply
    ensures ExtractJson(reply) == reply
  {
    NoFenceInPlainText(reply, "```json");
    NoFenceInPlainText(reply, "```");
  }

  /** The part after a ```` ```json ```` fence whose text has no backquote and does not restart a fence. */
  lemma NoJsonFenceAfter(body: string, post: string)
    requires '`' !in body && '`' !in post && !StartsWith(post, "json")
    ensures IndexOf(body + "```" + post, "```json").None?
  {
    forall k | 0 <= k ensures !OccursAt(body + "```" + post, "```json", k) {
      NoJsonFenceAt(body, post, k);
    }
  }

  lemma NoJsonFenceAt(body: string, post: string, k: nat)
    requires '`' !in body && '`' !in post && !StartsWith(post, "json")
    ensures !OccursAt(body + "```" + post, "```json", k)
  {
    var t := body + "```" + post;
    var b := |body|;
    if k + 7 <= |t| {
      var w := t[k..k + 7];
      if k < b {
        assert w[0] == body[k];
      } else if k == b {
        assert w[3..7] == post[..4] by {
          forall j | 0 <= j < 4 ensures w[3 + j] == post[j] {
            assert t[b + 3 + j] == post[j];
          }
        }
      } else if k == b + 1 {
        assert t[b + 3] == post[0];
        assert w[2] == post[0];
      } else if k == b + 2 {
        assert t[b + 3] == post[0];
        assert w[1] == post[0];
      } else {
        assert t[k] == post[k - b - 3];
        assert w[0] == post[k - b - 3];
      }
    }
  }

  /** After backquote-free text and a fence, the second part of the split starts right after the fence. */
  lemma AfterLeadingFence(pre: string, pat: string, t: string)
    requires |pat| > 0 && pat[0] == '`' && '`' !in pre
    ensures Contains(pre + pat + t, pat)
    ensures Split(pre + pat + t, pat)[1] == Split(t, pat)[0]
  {
    var s := pre + pat + t;
    FenceAfterPlainText(pre, pat, t);
    SplitFirst(s, pat);
    assert s[|pre| + |pat|..] == t;
  }

  /** Backquote-free text before a fence is the first part of the split. */
  lemma BeforeNextFence(body: string, post: string)
    requires '`' !in body
    ensures Split(body + "```" + post, "```")[0] == body
  {
    var t := body + "```" + post;
    FenceAfterPlainText(body, "```", post);
    SplitFirst(t, "```");
    assert t[..|body|] == body;
  }

  /**
   * A reply with one ```` ```json ```` block, and no other backquote, yields
   * exactly the text inside the block.
   */
  lemma JsonFencedBody(pre: string, body: string, post: string)
    requires '`' !in pre && '`' !in body && '`' !in post && !StartsWith(post, "json")
    ensures ExtractJson(pre + "```json" + body + "```" + post) == body
  {
    var t := body + "```" + post;
    assert pre + "```json" + body + "```" + post == pre + "```json" + t;
    AfterLeadingFence(pre, "```json", t);
    NoJsonFenceAfter(body, post);
    SplitFirst(t, "```json");
    BeforeNextFence(body, post);
  }

  /**
   * A reply with one plain ```` ``` ```` block and no ```` ```json ```` fence,
   * and no other backquote, yields exactly the text inside the block.
   */
  lemma PlainFencedBody(pre: string, body: string, post: string)
    requires '`' !in pre && '`' !in body && '`' !in post
    requires !Contains(pre + "```" + body + "```" + post, "```json")
    ensures ExtractJson(pre + "```" + body + "```" + post) == body
  {
    var t := body + "```" + post;
    assert pre + "```" + body + "```" + post == pre + "```" + t;
    AfterLeadingFence(pre, "```", t);
    BeforeNextFence(body, post);
    NoFenceInPlainText(body, "```");
    SplitFirst(body, "```");
  }

  // ---------------------------------------------------------------- NotebookLM prompt

  const NotebookLmPrompt: string :=
    "# Tech News Analysis Instructions\n\n" +
    "Please analyze the uploaded news content with the following criteria:\n\n" +
    "## Focus Areas\n" +
    "1. **AI/ML** - Artificial Intelligence, Machine Learning, Deep Learning, LLMs, Neural Networks\n" +
    "2. **Software Development** - Programming, DevOps, Frameworks, Tools, Best Practices\n" +
    "3. **Cybersecurity** - Security threats, vulnerabilities, privacy, data protection\n" +
    "4. **New Technologies** - Research breakthroughs, emerging tech, innovations\n\n" +
    "## Analysis Tasks\n" +
    "1. Categorize each article into the focus areas above\n" +
    "2. Identify key trends across the articles\n" +
    "3. Highlight the most significant developments\n" +
    "4. Note any potential implications or predictions\n" +
    "5. Flag any duplicate or low-quality content\n\n" +
    "## Output Format\n" +
    "Provide a structured summary with:\n" +
    "- Executive Summary (2-3 sentences)\n" +
    "- Key Trends (bullet points)\n" +
    "- Top Stories by Category\n" +
    "- Potential Implications\n" +
    "- Recommended Deep Dives\n\n" +
    "---\n\n"

  /** `generate_notebooklm_prompt`: the fixed instructions; the articles passed in are not used. */
  function GenerateNotebookLmPrompt(articles: seq<ArticleView>): string {
    NotebookLmPrompt
  }

  /** The prompt is the same whatever articles are passed. */
  lemma PromptIgnoresArticles(a: seq<ArticleView>, b: seq<ArticleView>)
    ensures GenerateNotebookLmPrompt(a) == GenerateNotebookLmPrompt(b)
  {
  }
}
