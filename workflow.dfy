/** The daily run of main.py: select the first articles that have text,
    summarize each one and draft two posts from the summary, assemble one
    report and hand it to the Telegram notifier. */
module Workflow {
  import opened Values
  import opened Strings
  import opened ApiClients
  import opened AiProcessing
  import opened Settings
  import opened Sequences

  // ---------------------------------------------------------------------
  // Article selection
  // ---------------------------------------------------------------------

  /** The test of the selection loop: the extracted text is not empty. */
  predicate HasText(a: Article) {
    GetTextFromArticle(a) != ""
  }

  /** The articles with non-empty extracted text, in input order. */
  function WithText(articles: seq<Article>): seq<Article> {
    Filter(articles, HasText)
  }

  /** The number of articles the selection loop keeps at most: the loop
      appends before it compares, so a limit below 1 still keeps one. */
  function EffectiveLimit(maxArticles: int): nat {
    if maxArticles < 1 then 1 else maxArticles
  }

  /** The articles `run_assistant_workflow` processes: the first ones with
      non-empty text, in input order, at most the configured number. */
  function SelectArticles(articles: seq<Article>, maxArticles: int): seq<Article> {
    TakeFirst(articles, HasText, EffectiveLimit(maxArticles))
  }

  /** The selection is the longest prefix of the articles with text that
      the limit allows. */
  lemma SelectionIsPrefix(articles: seq<Article>, maxArticles: int)
    ensures SelectArticles(articles, maxArticles)
      == WithText(articles)[..Min(EffectiveLimit(maxArticles), |WithText(articles)|)]
    ensures |SelectArticles(articles, maxArticles)| <= EffectiveLimit(maxArticles)
  {
    TakeFirstIsPrefix(articles, HasText, EffectiveLimit(maxArticles));
  }

  /** Every kept article has text; there is none only when no article has
      text; and every article with text is among them. */
  lemma WithTextHasText(articles: seq<Article>)
    ensures forall k | 0 <= k < |WithText(articles)| :: HasText(WithText(articles)[k])
    ensures WithText(articles) == [] <==> forall k | 0 <= k < |articles| :: !HasText(articles[k])
    ensures forall k | 0 <= k < |articles| && HasText(articles[k]) :: articles[k] in WithText(articles)
  {
    FilterKeeps(articles, HasText);
    forall k | 0 <= k < |articles| && HasText(articles[k])
      ensures articles[k] in WithText(articles)
    {
      FilterComplete(articles, HasText, k);
    }
  }

  /** Articles without text before the first one with text are passed over. */
  lemma SkipsArticlesWithoutText(a1: Article, a2: Article, a3: Article)
    requires !HasText(a1) && !HasText(a2) && HasText(a3)
    ensures SelectArticles([a1, a2, a3], MaxArticlesToProcess) == [a3]
  {
    assert [a1, a2, a3][1..] == [a2, a3];
    assert [a2, a3][1..] == [a3];
    assert [a3][1..] == [];
    assert TakeFirst([a3], HasText, 1) == [a3];
    assert TakeFirst([a2, a3], HasText, 1) == [a3];
  }

  // ---------------------------------------------------------------------
  // Articles the processing loop raises on
  // ---------------------------------------------------------------------

  /** `article.get("source", {}).get("name", ...)` raises for a source
      that is `null` or not an object, before anything else is done. */
  predicate SourceRaises(a: Article) {
    a.source.SourceOther?
  }

  function SummaryOf(cfg: Config, a: Article, groq: GroqCall -> HttpReply<CompletionBody>): Option<string> {
    Summarize(cfg.groqApiKey, GetTextFromArticle(a), cfg.maxArticleTextForGroq, groq)
  }

  /** `len(title)` in the console banner raises for a `null` title; it is
      reached only after a successful summary and both draft calls. */
  predicate TitleRaises(cfg: Config, a: Article, groq: GroqCall -> HttpReply<CompletionBody>) {
    a.title.Null? && NonEmpty(SummaryOf(cfg, a, groq))
  }

  /** Processing the article raises, which ends the run. */
  predicate Raises(cfg: Config, a: Article, groq: GroqCall -> HttpReply<CompletionBody>) {
    SourceRaises(a) || TitleRaises(cfg, a, groq)
  }

  function RaisesFn(cfg: Config, groq: GroqCall -> HttpReply<CompletionBody>): Article -> bool {
    a => Raises(cfg, a, groq)
  }

  /** Some selected article raises. */
  predicate RunRaises(cfg: Config, articles: seq<Article>, groq: GroqCall -> HttpReply<CompletionBody>) {
    AnyStops(articles, RaisesFn(cfg, groq))
  }

  /** The articles the processing loop works on: all of them, or those up
      to and including the first one that raises. */
  function Processed(cfg: Config, articles: seq<Article>, groq: GroqCall -> HttpReply<CompletionBody>): seq<Article> {
    TakeThrough(articles, RaisesFn(cfg, groq))
  }

  /** The loop works on a prefix of the articles. It stops early exactly
      when an article raises: that article is the last one worked on, and
      none before it raises. Otherwise it works on all of them. */
  lemma ProcessedUntilRaise(cfg: Config, articles: seq<Article>, groq: GroqCall -> HttpReply<CompletionBody>)
    ensures var p := Processed(cfg, articles, groq);
      |p| <= |articles| && p == articles[..|p|]
      && (forall k | 0 <= k < |p| - 1 :: !Raises(cfg, articles[k], groq))
      && (RunRaises(cfg, articles, groq) <==> p != [] && Raises(cfg, p[|p| - 1], groq))
      && (!RunRaises(cfg, articles, groq) ==> p == articles)
    ensures RunRaises(cfg, articles, groq) <==> exists k | 0 <= k < |articles| :: Raises(cfg, articles[k], groq)
  {
    var f := RaisesFn(cfg, groq);
    TakeThroughPrefix(articles, f);
    TakeThroughStops(articles, f);
    var p := Processed(cfg, articles, groq);
    forall k | 0 <= k < |p| - 1
      ensures !Raises(cfg, articles[k], groq)
    {
      assert !f(articles[k]);
    }
    if exists k | 0 <= k < |articles| :: Raises(cfg, articles[k], groq) {
      var k :| 0 <= k < |articles| && Raises(cfg, articles[k], groq);
      assert f(articles[k]);
    }
  }

  // ---------------------------------------------------------------------
  // Report blocks
  // ---------------------------------------------------------------------

  const NoTitle := "No Title"
  const NoUrl := "#"
  const GenerationFailed := "[Generation Failed]"
  const BlockRule := "--------------------\n"

  /** `article.get("title", "No Title")` as interpolated. */
  function TitleOf(a: Article): string {
    a.title.Render(NoTitle)
  }

  /** `article.get("url", "#")` as interpolated. */
  function UrlOf(a: Article): string {
    a.url.Render(NoUrl)
  }

  /** `draft or "[Generation Failed]"`: a draft section is never empty. */
  function DraftText(draft: Option<string>): (r: string)
    ensures r != ""
    ensures r == GenerationFailed || (NonEmpty(draft) && r == draft.value)
    ensures !NonEmpty(draft) ==> r == GenerationFailed
  {
    if NonEmpty(draft) then draft.value else GenerationFailed
  }

  /** The opening lines of a block: the linked title and the summary. */
  function BlockHead(title: string, url: string, summary: string): string {
    "*Article:* [" + title + "](" + url + ")\n\n" + "*AI Summary:* " + summary + "\n\n"
  }

  /** The two draft sections of a block. */
  function DraftSections(tweet: string, linkedIn: string): string {
    "*Draft Tweet:*\n" + tweet + "\n\n" + "*Draft LinkedIn Post:*\n" + linkedIn + "\n\n"
  }

  function FormatBlock(title: string, url: string, summary: string, tweet: string, linkedIn: string): string {
    BlockHead(title, url, summary) + DraftSections(tweet, linkedIn) + BlockRule
  }

  /** The block one article contributes: none when its summary failed or
      when processing it raises; otherwise the title, link and summary,
      then both drafts. */
  function ArticleBlock(cfg: Config, a: Article, groq: GroqCall -> HttpReply<CompletionBody>): (r: Option<string>)
    ensures r.Some? <==> SummaryOf(cfg, a, groq).Some? && !Raises(cfg, a, groq)
  {
    var summary := SummaryOf(cfg, a, groq);
    if SourceRaises(a) || !NonEmpty(summary) || a.title.Null? then None
    else
      var title, url := TitleOf(a), UrlOf(a);
      var tweet := GenerateTweetDraft(cfg.groqApiKey, title, summary.value, url, groq);
      var linkedIn := GenerateLinkedInDraft(cfg.groqApiKey, title, summary.value, url, groq);
      Some(FormatBlock(title, url, summary.value, DraftText(tweet), DraftText(linkedIn)))
  }

  /** A block opens with the linked title and the summary and closes with the rule. */
  lemma ArticleBlockShape(cfg: Config, a: Article, groq: GroqCall -> HttpReply<CompletionBody>)
    requires ArticleBlock(cfg, a, groq).Some?
    ensures StartsWith(ArticleBlock(cfg, a, groq).value, BlockHead(TitleOf(a), UrlOf(a), SummaryOf(cfg, a, groq).value))
    ensures EndsWith(ArticleBlock(cfg, a, groq).value, BlockRule)
  {
    var summary := SummaryOf(cfg, a, groq).value;
    var title, url := TitleOf(a), UrlOf(a);
    var tweet := GenerateTweetDraft(cfg.groqApiKey, title, summary, url, groq);
    var linkedIn := GenerateLinkedInDraft(cfg.groqApiKey, title, summary, url, groq);
    ConcatEnds(BlockHead(title, url, summary), DraftSections(DraftText(tweet), DraftText(linkedIn)), BlockRule);
  }

  /** The block of one article as a sequence of zero or one blocks. */
  function BlocksOf(cfg: Config, a: Article, groq: GroqCall -> HttpReply<CompletionBody>): seq<string> {
    match ArticleBlock(cfg, a, groq) case Some(b) => [b] case None => []
  }

  function BlocksFn(cfg: Config, groq: GroqCall -> HttpReply<CompletionBody>): Article -> seq<string> {
    a => BlocksOf(cfg, a, groq)
  }

  /** The blocks of the articles the loop works on, in order, skipping
      failed summaries. */
  function ReportBlocks(cfg: Config, articles: seq<Article>, groq: GroqCall -> HttpReply<CompletionBody>): seq<string> {
    FlatMap(Processed(cfg, articles, groq), BlocksFn(cfg, groq))
  }

  /** Blocks keep the order of the articles; the articles after one that
      raises contribute nothing. */
  lemma ReportBlocksAppend(cfg: Config, xs: seq<Article>, ys: seq<Article>,
                           groq: GroqCall -> HttpReply<CompletionBody>)
    ensures ReportBlocks(cfg, xs + ys, groq)
      == ReportBlocks(cfg, xs, groq) + (if RunRaises(cfg, xs, groq) then [] else ReportBlocks(cfg, ys, groq))
  {
    var stop := RaisesFn(cfg, groq);
    TakeThroughAppend(xs, ys, stop);
    var tail := if AnyStops(xs, stop) then [] else TakeThrough(ys, stop);
    FlatMapAppend(TakeThrough(xs, stop), tail, BlocksFn(cfg, groq));
  }

  /** An article contributes one block when its summary succeeds and
      processing it does not raise, and none otherwise. */
  lemma BlocksOfCount(cfg: Config, a: Article, groq: GroqCall -> HttpReply<CompletionBody>)
    ensures |BlocksFn(cfg, groq)(a)| == if SummaryOf(cfg, a, groq).Some? && !Raises(cfg, a, groq) then 1 else 0
  {
  }

  /** At most one block per article; no summary, no blocks; every summary
      succeeding and no article raising, one block per article. */
  lemma ReportBlocksNeedSummaries(cfg: Config, articles: seq<Article>,
                                  groq: GroqCall -> HttpReply<CompletionBody>)
    ensures |ReportBlocks(cfg, articles, groq)| <= |articles|
    ensures (forall k | 0 <= k < |articles| :: SummaryOf(cfg, articles[k], groq).None?)
            ==> ReportBlocks(cfg, articles, groq) == []
    ensures (forall k | 0 <= k < |articles| :: SummaryOf(cfg, articles[k], groq).Some? && !Raises(cfg, articles[k], groq))
            ==> |ReportBlocks(cfg, articles, groq)| == |articles|
  {
    var p := Processed(cfg, articles, groq);
    TakeThroughPrefix(articles, RaisesFn(cfg, groq));
    BlocksBetween(cfg, p, groq, 0, 1);
    if forall k | 0 <= k < |articles| :: SummaryOf(cfg, articles[k], groq).None? {
      NoSummaryNoBlocks(cfg, articles, groq);
    }
    if forall k | 0 <= k < |articles| :: SummaryOf(cfg, articles[k], groq).Some? && !Raises(cfg, articles[k], groq) {
      EverySummaryOneBlock(cfg, articles, groq);
    }
  }

  lemma NoSummaryNoBlocks(cfg: Config, articles: seq<Article>, groq: GroqCall -> HttpReply<CompletionBody>)
    requires forall k | 0 <= k < |articles| :: SummaryOf(cfg, articles[k], groq).None?
    ensures ReportBlocks(cfg, articles, groq) == []
  {
    var p := Processed(cfg, articles, groq);
    TakeThroughPrefix(articles, RaisesFn(cfg, groq));
    forall k | 0 <= k < |p|
      ensures SummaryOf(cfg, p[k], groq).None?
    {
      assert p[k] == articles[k];
    }
    BlocksBetween(cfg, p, groq, 0, 0);
  }

  lemma EverySummaryOneBlock(cfg: Config, articles: seq<Article>, groq: GroqCall -> HttpReply<CompletionBody>)
    requires forall k | 0 <= k < |articles| :: SummaryOf(cfg, articles[k], groq).Some? && !Raises(cfg, articles[k], groq)
    ensures |ReportBlocks(cfg, articles, groq)| == |articles|
  {
    var f := RaisesFn(cfg, groq);
    TakeThroughStops(articles, f);
    assert !AnyStops(articles, f) by {
      forall k | 0 <= k < |articles|
        ensures !f(articles[k])
      {
      }
    }
    BlocksBetween(cfg, articles, groq, 1, 1);
  }

  /** Bounds on the number of blocks of a run of articles from bounds on
      what each contributes. */
  lemma BlocksBetween(cfg: Config, xs: seq<Article>, groq: GroqCall -> HttpReply<CompletionBody>, lo: nat, hi: nat)
    requires forall k | 0 <= k < |xs| ::
      lo <= (if SummaryOf(cfg, xs[k], groq).Some? && !Raises(cfg, xs[k], groq) then 1 else 0) <= hi
    ensures lo * |xs| <= |FlatMap(xs, BlocksFn(cfg, groq))| <= hi * |xs|
  {
    var f := BlocksFn(cfg, groq);
    forall k | 0 <= k < |xs|
      ensures lo <= |f(xs[k])| <= hi
    {
      BlocksOfCount(cfg, xs[k], groq);
    }
    FlatMapLength(xs, f, lo, hi);
  }

  /** A draft that comes back as a lone double quote is empty after quote
      stripping, so its section shows the placeholder. */
  lemma LoneQuoteShowsPlaceholder(apiKey: Option<string>, model: string, prompt: string, maxTokens: nat,
                                  groq: GroqCall -> HttpReply<CompletionBody>)
    requires QueryGroq(apiKey, GenerationRequest(model, prompt, maxTokens), groq) == Some("\"")
    ensures GenerateSocialPost(apiKey, model, prompt, maxTokens, groq) == Some("")
    ensures DraftText(GenerateSocialPost(apiKey, model, prompt, maxTokens, groq)) == GenerationFailed
  {
  }

  // ---------------------------------------------------------------------
  // Calls to the collaborators
  // ---------------------------------------------------------------------

  /** A call `run_assistant_workflow` makes to one of its collaborators. */
  datatype Call =
    | FetchNews
    | SummarizeText(text: string)
    | DraftTweet(title: string, summary: string, url: string)
    | DraftLinkedIn(title: string, summary: string, url: string)
    | SendToTelegram(message: string)

  /** The calls made for one article: none when its source raises;
      otherwise the summary, then both drafts when the summary succeeded
      (a `null` title raises only after them). */
  function ArticleCalls(cfg: Config, a: Article, groq: GroqCall -> HttpReply<CompletionBody>): seq<Call> {
    var summary := SummaryOf(cfg, a, groq);
    if SourceRaises(a) then []
    else
      [SummarizeText(GetTextFromArticle(a))]
      + (if NonEmpty(summary) then [DraftTweet(TitleOf(a), summary.value, UrlOf(a)),
                                    DraftLinkedIn(TitleOf(a), summary.value, UrlOf(a))]
         else [])
  }

  function CallsFn(cfg: Config, groq: GroqCall -> HttpReply<CompletionBody>): Article -> seq<Call> {
    a => ArticleCalls(cfg, a, groq)
  }

  /** The calls made for the articles the loop works on, in order. */
  function ProcessingCalls(cfg: Config, articles: seq<Article>, groq: GroqCall -> HttpReply<CompletionBody>): seq<Call> {
    FlatMap(Processed(cfg, articles, groq), CallsFn(cfg, groq))
  }

  /** Calls keep the order of the articles; after an article that raises
      no further call is made. */
  lemma ProcessingCallsAppend(cfg: Config, xs: seq<Article>, ys: seq<Article>,
                              groq: GroqCall -> HttpReply<CompletionBody>)
    ensures ProcessingCalls(cfg, xs + ys, groq)
      == ProcessingCalls(cfg, xs, groq) + (if RunRaises(cfg, xs, groq) then [] else ProcessingCalls(cfg, ys, groq))
  {
    var stop := RaisesFn(cfg, groq);
    TakeThroughAppend(xs, ys, stop);
    var tail := if AnyStops(xs, stop) then [] else TakeThrough(ys, stop);
    FlatMapAppend(TakeThrough(xs, stop), tail, CallsFn(cfg, groq));
  }

  /** A call to the completion service: a summary or a draft. */
  predicate IsCompletionCall(c: Call) {
    c.SummarizeText? || c.DraftTweet? || c.DraftLinkedIn?
  }

  /** An article whose source raises costs no call; any other costs one
      summary call, plus two draft calls when the summary succeeded. All of
      them go to the completion service. */
  lemma ArticleCallsShape(cfg: Config, a: Article, groq: GroqCall -> HttpReply<CompletionBody>)
    ensures var calls := CallsFn(cfg, groq)(a);
      (SourceRaises(a) ==> calls == [])
      && (!SourceRaises(a) ==> |calls| == if NonEmpty(SummaryOf(cfg, a, groq)) then 3 else 1)
      && (forall j | 0 <= j < |calls| :: IsCompletionCall(calls[j]))
  {
  }

  /** Processing the articles only calls the completion service (it never
      fetches or notifies), at most three times per article, and at least
      once per article worked on when no source raises. */
  lemma ProcessingCallsShape(cfg: Config, articles: seq<Article>,
                             groq: GroqCall -> HttpReply<CompletionBody>)
    ensures forall k | 0 <= k < |ProcessingCalls(cfg, articles, groq)| ::
      IsCompletionCall(ProcessingCalls(cfg, articles, groq)[k])
    ensures |ProcessingCalls(cfg, articles, groq)| <= 3 * |articles|
    ensures (forall k | 0 <= k < |articles| :: !SourceRaises(articles[k]))
            ==> |Processed(cfg, articles, groq)| <= |ProcessingCalls(cfg, articles, groq)|
  {
    var f := CallsFn(cfg, groq);
    var p := Processed(cfg, articles, groq);
    ProcessedUntilRaise(cfg, articles, groq);
    assert forall k | 0 <= k < |p| :: p[k] == articles[k];
    forall k | 0 <= k < |p|
      ensures 0 <= |f(p[k])| <= 3
      ensures !SourceRaises(p[k]) ==> 1 <= |f(p[k])|
      ensures forall j | 0 <= j < |f(p[k])| :: IsCompletionCall(f(p[k])[j])
    {
      ArticleCallsShape(cfg, p[k], groq);
    }
    FlatMapLength(p, f, 0, 3);
    FlatMapAll(p, f, IsCompletionCall);
    if forall k | 0 <= k < |articles| :: !SourceRaises(articles[k]) {
      FlatMapLength(p, f, 1, 3);
    }
  }

  // ---------------------------------------------------------------------
  // The Telegram message
  // ---------------------------------------------------------------------

  /** The header's emoji as the bytes of main.py decode: the UTF-8 of the
      rocket emoji read as Windows-1252. */
  const Rocket := "\U{F0}\U{178}\U{161}\U{20AC}"
  const MessageHeader := Rocket + " *Daily AI Social Media Drafts* " + Rocket + "\n\n"

  const MaxMessageLen: nat := 4000
  /** The cut point leaves room for the notice. */
  const TruncatedLen: nat := MaxMessageLen - 100
  /** The notice is written already escaped for MarkdownV2. */
  const TruncationNotice := "\n\n... \\[Message Truncated\\]"

  /** Python's `sep.join(parts)`. */
  function Join(parts: seq<string>, sep: string): string {
    if parts == [] then ""
    else if |parts| == 1 then parts[0]
    else parts[0] + sep + Join(parts[1..], sep)
  }

  /** Joining one more part puts the separator before it. */
  lemma {:induction false} JoinSnoc(parts: seq<string>, p: string, sep: string)
    requires parts != []
    ensures Join(parts + [p], sep) == Join(parts, sep) + sep + p
  {
    var ps := parts + [p];
    assert ps[0] == parts[0];
    if |parts| > 1 {
      assert ps[1..] == parts[1..] + [p];
      JoinSnoc(parts[1..], p, sep);
      AppendAssoc(parts[0] + sep, Join(parts[1..], sep), sep + p);
    } else {
      assert ps[1..] == [p];
    }
  }

  /** The report: the header, then the blocks joined by newlines. */
  function ComposeMessage(blocks: seq<string>): (r: string)
    ensures StartsWith(r, MessageHeader)
    ensures blocks == [] ==> r == MessageHeader
    ensures |blocks| == 1 ==> r == MessageHeader + blocks[0]
  {
    MessageHeader + Join(blocks, "\n")
  }

  /** Each further block follows the report so far after a newline. */
  lemma ComposeMessageSnoc(blocks: seq<string>, b: string)
    requires blocks != []
    ensures ComposeMessage(blocks + [b]) == ComposeMessage(blocks) + "\n" + b
  {
    JoinSnoc(blocks, b, "\n");
    AppendAssoc(MessageHeader, Join(blocks, "\n"), "\n" + b);
  }

  /** The length rule of main.py: a message over 4000 characters keeps its
      first 3900 and gets the notice; a shorter one is unchanged. */
  function FitMessage(message: string): (r: string)
    ensures |r| <= MaxMessageLen
    ensures |message| <= MaxMessageLen ==> r == message
    ensures |message| > MaxMessageLen ==>
      |r| == TruncatedLen + |TruncationNotice| && r[..TruncatedLen] == message[..TruncatedLen]
      && EndsWith(r, TruncationNotice)
  {
    if |message| > MaxMessageLen then
      var r := message[..TruncatedLen] + TruncationNotice;
      assert r[..TruncatedLen] == message[..TruncatedLen];
      assert r[|r| - |TruncationNotice|..] == TruncationNotice;
      r
    else message
  }

  /** A text made only of reserved characters doubles in length when escaped. */
  lemma {:induction false} CountAllReserved(s: string)
    requires forall k | 0 <= k < |s| :: IsReserved(s[k])
    ensures CountReserved(s) == |s|
  {
    if s != [] {
      assert forall k | 0 <= k < |s[1..]| :: s[1..][k] == s[k + 1];
      CountAllReserved(s[1..]);
    }
  }

  /** The 4000-character bound holds before escaping, not after: a message
      of 4000 full stops is sent unchanged and escapes to 8000 characters. */
  lemma EscapedMessageMayExceedBound()
    ensures exists m: string ::
      |FitMessage(m)| <= MaxMessageLen < |EscapeMarkdownV2(FitMessage(m))|
  {
    var m := seq(MaxMessageLen, _ => '.');
    assert IsReserved('.');
    CountAllReserved(m);
    assert FitMessage(m) == m;
    assert |EscapeMarkdownV2(FitMessage(m))| == 2 * MaxMessageLen;
  }

  /** Text that is already escaped is escaped again: the backslash is
      copied and the reserved character after it gets a second one. This is
      what happens to the `\[` and `\]` of the truncation notice. */
  lemma EscapedTwice(c: char)
    requires IsReserved(c)
    ensures EscapeMarkdownV2(['\\', c]) == ['\\', '\\', c]
  {
    assert !IsReserved('\\');
    assert ['\\', c][1..] == [c];
    assert [c][1..] == [];
  }

  // ---------------------------------------------------------------------
  // The run
  // ---------------------------------------------------------------------

  datatype Status =
    | Aborted     // no Groq key: nothing is fetched
    | NoArticles  // no fetched article has text: nothing is summarized or sent
    | Raised      // the processing loop raised on an article: nothing is sent
    | Completed

  /** One pass of the processing loop of `run_assistant_workflow`: read the
      source (which raises when it is not an object), summarize the
      article; when the summary fails, skip the article; otherwise draft
      both posts, print the banner (which raises for a `null` title) and
      format the article's block. */
  method ProcessArticle(cfg: Config, article: Article, groq: GroqCall -> HttpReply<CompletionBody>)
    returns (block: seq<string>, calls: seq<Call>, raised: bool)
    ensures block == BlocksOf(cfg, article, groq)
    ensures calls == ArticleCalls(cfg, article, groq)
    ensures raised == Raises(cfg, article, groq)
  {
    BlocksOfArticle(cfg, article, groq);
    var title, url := TitleOf(article), UrlOf(article);
    if article.source.SourceOther? {
      return [], [], true;
    }
    var text := GetTextFromArticle(article);
    var summary := Summarize(cfg.groqApiKey, text, cfg.maxArticleTextForGroq, groq);
    calls := [SummarizeText(text)];
    if !NonEmpty(summary) {
      return [], calls, false;
    }
    var tweet := GenerateTweetDraft(cfg.groqApiKey, title, summary.value, url, groq);
    var linkedIn := GenerateLinkedInDraft(cfg.groqApiKey, title, summary.value, url, groq);
    calls := calls + [DraftTweet(title, summary.value, url), DraftLinkedIn(title, summary.value, url)];
    if article.title.Null? {
      return [], calls, true;
    }
    block, raised := [FormatBlock(title, url, summary.value, DraftText(tweet), DraftText(linkedIn))], false;
  }

  /** The processing loop of `run_assistant_workflow`: the selected articles
      in order, until one raises. */
  method ProcessSelected(cfg: Config, selected: seq<Article>, groq: GroqCall -> HttpReply<CompletionBody>)
    returns (blocks: seq<string>, calls: seq<Call>, raised: bool)
    ensures blocks == ReportBlocks(cfg, selected, groq)
    ensures calls == ProcessingCalls(cfg, selected, groq)
    ensures raised == RunRaises(cfg, selected, groq)
  {
    blocks, calls, raised := [], [], false;
    ghost var stop := RaisesFn(cfg, groq);
    assert selected[..0] == [] && selected[0..] == selected;
    for j := 0 to |selected|
      invariant TakeThrough(selected, stop) == selected[..j] + TakeThrough(selected[j..], stop)
      invariant !AnyStops(selected[..j], stop)
      invariant blocks == FlatMap(selected[..j], BlocksFn(cfg, groq))
      invariant calls == FlatMap(selected[..j], CallsFn(cfg, groq))
    {
      ProcessedPrefixStep(cfg, selected, j, groq);
      var block, articleCalls, articleRaised := ProcessArticle(cfg, selected[j], groq);
      TakeThroughStep(selected, stop, j, articleRaised);
      blocks, calls := blocks + block, calls + articleCalls;
      if articleRaised {
        raised := true;
        return;
      }
    }
    TakeThroughDone(selected, stop);
    assert selected[..|selected|] == selected;
  }

  /** Working on one more article of the selection extends the blocks and
      the calls by that article's. */
  lemma ProcessedPrefixStep(cfg: Config, selected: seq<Article>, j: nat, groq: GroqCall -> HttpReply<CompletionBody>)
    requires j < |selected|
    ensures FlatMap(selected[..j + 1], BlocksFn(cfg, groq))
            == FlatMap(selected[..j], BlocksFn(cfg, groq)) + BlocksOf(cfg, selected[j], groq)
    ensures FlatMap(selected[..j + 1], CallsFn(cfg, groq))
            == FlatMap(selected[..j], CallsFn(cfg, groq)) + ArticleCalls(cfg, selected[j], groq)
  {
    assert selected[..j + 1] == selected[..j] + [selected[j]];
    FlatMapSnoc(selected[..j], selected[j], BlocksFn(cfg, groq));
    FlatMapSnoc(selected[..j], selected[j], CallsFn(cfg, groq));
  }

  /** The block of one article, spelled out as the loop builds it. */
  lemma BlocksOfArticle(cfg: Config, a: Article, groq: GroqCall -> HttpReply<CompletionBody>)
    ensures var summary := SummaryOf(cfg, a, groq);
      BlocksOf(cfg, a, groq)
      == if !SourceRaises(a) && NonEmpty(summary) && !a.title.Null? then
           [FormatBlock(TitleOf(a), UrlOf(a), summary.value,
                        DraftText(GenerateTweetDraft(cfg.groqApiKey, TitleOf(a), summary.value, UrlOf(a), groq)),
                        DraftText(GenerateLinkedInDraft(cfg.groqApiKey, TitleOf(a), summary.value, UrlOf(a), groq)))]
         else []
  {
  }

  /** `run_assistant_workflow`, with the news service, the completion
      service and the Telegram bot as oracles. It answers how the run ended,
      the articles it selected, the report blocks, the message handed to
      the notifier with the notifier's outcome, and every collaborator call
      in order. */
  method RunAssistantWorkflow(cfg: Config, news: NewsQuery -> HttpReply<NewsBody>,
                              groq: GroqCall -> HttpReply<CompletionBody>, deliver: BotRequest -> bool)
    returns (status: Status, selected: seq<Article>, blocks: seq<string>,
             message: Option<string>, delivery: Option<Delivery>, calls: seq<Call>)
    ensures status == Aborted <==> !NonEmpty(cfg.groqApiKey)
    ensures status == Aborted ==> calls == [] && selected == [] && blocks == [] && message.None?
    ensures status != Aborted ==>
      selected == SelectArticles(FetchNewsArticles(cfg.newsApiKey, news), cfg.maxArticlesToProcess)
    ensures status == NoArticles <==> status != Aborted && selected == []
    ensures status == NoArticles ==> calls == [FetchNews] && blocks == [] && message.None?
    ensures status == Raised <==> status != Aborted && selected != [] && RunRaises(cfg, selected, groq)
    ensures status == Raised || status == Completed ==>
      blocks == ReportBlocks(cfg, selected, groq)
      && calls == [FetchNews] + ProcessingCalls(cfg, selected, groq)
                  + (if message.Some? then [SendToTelegram(message.value)] else [])
    ensures message.Some? <==>
      status == Completed && blocks != []
      && NonEmpty(cfg.telegramBotToken) && NonEmpty(cfg.telegramChatId)
    ensures message.Some? ==>
      message.value == FitMessage(ComposeMessage(blocks)) && |message.value| <= MaxMessageLen
    ensures delivery.Some? <==> message.Some?
    ensures message.Some? ==>
      delivery.value == SendTelegramMessage(cfg.telegramBotToken, cfg.telegramChatId, message.value, deliver)
      && delivery.value.Attempted?
  {
    selected, blocks, message, delivery, calls := [], [], None, None, [];
    if !NonEmpty(cfg.groqApiKey) {
      status := Aborted;
      return;
    }

    var articles := FetchNewsArticles(cfg.newsApiKey, news);
    calls := [FetchNews];
    selected := ScanFirst(articles, HasText, cfg.maxArticlesToProcess);
    if selected == [] {
      status := NoArticles;
      return;
    }

    var processing, raised;
    blocks, processing, raised := ProcessSelected(cfg, selected, groq);
    calls := calls + processing;
    if raised {
      status := Raised;
      return;
    }
    status := Completed;

    if blocks != [] && NonEmpty(cfg.telegramBotToken) && NonEmpty(cfg.telegramChatId) {
      var fullMessage := MessageHeader + Join(blocks, "\n");
      if |fullMessage| > MaxMessageLen {
        fullMessage := fullMessage[..MaxMessageLen - 100] + TruncationNotice;
      }
      var sent := SendTelegramMessage(cfg.telegramBotToken, cfg.telegramChatId, fullMessage, deliver);
      message, delivery := Some(fullMessage), Some(sent);
      calls := calls + [SendToTelegram(fullMessage)];
    }
  }
}
