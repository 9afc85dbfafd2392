/** The language-model steps of ai_processing.py: extracting an article's
    text, summarizing it and drafting posts from the summary. The completion
    service is the `post` oracle of `ApiClients.QueryGroq`. */
module AiProcessing {
  import opened Values
  import opened Strings
  import opened ApiClients
  import Settings

  // ---------------------------------------------------------------------
  // Article text extraction
  // ---------------------------------------------------------------------

  /** NewsAPI ends a cut-off `content` with "[+N chars]". */
  const MarkerStart := "[+"
  const MarkerEnd := " chars]"

  /** `article.get("content") or article.get("description") or ""`. */
  function RawText(a: Article): string {
    if a.content.Truthy() then a.content.s
    else if a.description.Truthy() then a.description.s
    else ""
  }

  /** The text with a trailing "[+N chars]" marker cut at its last "[+". */
  function CutMarker(text: string): (r: string)
    ensures StartsWith(text, r)
  {
    if text != "" && Contains(text, MarkerStart) && EndsWith(text, MarkerEnd) then
      text[..RFind(text, MarkerStart)]
    else text
  }

  /** `get_text_from_article`: a whitespace-trimmed slice of the chosen source text. */
  function GetTextFromArticle(a: Article): (r: string)
    ensures Trimmed(r)
    ensures |r| <= |RawText(a)|
  {
    StripIsTrimmed(CutMarker(RawText(a)));
    Strip(CutMarker(RawText(a)))
  }

  /** The extracted text is a contiguous slice of the chosen source text. */
  lemma TextIsSliceOfSource(a: Article)
    ensures Substring(GetTextFromArticle(a), RawText(a))
  {
    var s := RawText(a);
    var c := CutMarker(s);
    StripIsSlice(c);
    var i, j :| SliceInSpace(Strip(c), c, i, j);
    assert c == s[..|c|];
    assert Strip(c) == s[i..j];
  }

  /** With neither field truthy there is no text. */
  lemma NoTextFields(a: Article)
    requires !a.content.Truthy() && !a.description.Truthy()
    ensures GetTextFromArticle(a) == ""
  {
  }

  /** A truthy `content` is chosen even when it is only whitespace: the
      description is then ignored and the text is empty. */
  lemma BlankContentWins(a: Article)
    requires a.content.Str? && a.content.s != ""
    requires forall k | 0 <= k < |a.content.s| :: IsSpace(a.content.s[k])
    ensures GetTextFromArticle(a) == ""
  {
    var w := a.content.s;
    assert IsSpace(w[|w| - 1]) && !IsSpace(']');
    assert !EndsWith(w, MarkerEnd);
    StripAllSpace(w);
  }

  /** The description is used when `content` is falsy. */
  lemma DescriptionFallback(a: Article)
    requires !a.content.Truthy() && a.description.Truthy()
    ensures GetTextFromArticle(a) == Strip(CutMarker(a.description.s))
  {
  }

  /** NewsAPI's marker "[+N chars]" is removed and the text before it is
      stripped; an ellipsis just before the marker stays. */
  lemma {:induction false} NewsApiMarkerRemoved(a: Article, before: string, digits: string)
    requires forall k | 0 <= k < |digits| :: '0' <= digits[k] <= '9'
    requires a.content == Str(before + MarkerStart + digits + MarkerEnd)
    ensures GetTextFromArticle(a) == Strip(before)
    ensures EndsWith(before, "...") ==> EndsWith(GetTextFromArticle(a), "...")
  {
    var text := before + MarkerStart + digits + MarkerEnd;
    var n := |before|;
    assert OccursAt(text, MarkerStart, n) by {
      assert text[n..n + 2] == MarkerStart;
    }
    forall i | n < i <= |text|
      ensures !OccursAt(text, MarkerStart, i)
    {
      if i + 2 <= |text| {
        assert text[i] != '[' by {
          if i < n + 2 + |digits| {
            assert text[i] == (MarkerStart + digits)[i - n];
          } else {
            assert text[i] == MarkerEnd[i - n - 2 - |digits|];
          }
        }
        assert text[i..i + 2][0] == text[i];
      }
    }
    assert EndsWith(text, MarkerEnd);
    RFindIsLast(text, MarkerStart);
    assert RFind(text, MarkerStart) == n;
    assert text[..n] == before;
    if EndsWith(before, "...") {
      EllipsisKept(before);
    }
  }

  /** Stripping keeps a trailing ellipsis. */
  lemma EllipsisKept(s: string)
    requires EndsWith(s, "...")
    ensures EndsWith(Strip(s), "...")
  {
    StripKeepsSuffix(s, "...");
  }

  /** Without the marker condition, the text is the whole source stripped. */
  lemma UnmarkedContentStripped(a: Article)
    requires a.content.Truthy()
    requires !(Contains(a.content.s, MarkerStart) && EndsWith(a.content.s, MarkerEnd))
    ensures GetTextFromArticle(a) == Strip(a.content.s)
  {
    assert RawText(a) == a.content.s;
    assert CutMarker(a.content.s) == a.content.s;
  }

  /** Whitespace after "chars]" defeats the cut: the marker stays in the
      text and only the whitespace is removed. */
  lemma TrailingSpaceKeepsMarker(a: Article, body: string, tail: string)
    requires tail != [] && forall k | 0 <= k < |tail| :: IsSpace(tail[k])
    requires a.content == Str(body + MarkerEnd + tail)
    ensures GetTextFromArticle(a) == Strip(body + MarkerEnd)
    ensures EndsWith(GetTextFromArticle(a), "chars]")
  {
    var kept := body + MarkerEnd;
    var text := kept + tail;
    assert !EndsWith(text, MarkerEnd) by {
      assert text[|text| - 1] == tail[|tail| - 1];
      assert IsSpace(text[|text| - 1]) && !IsSpace(']');
      assert text[|text| - |MarkerEnd|..][|MarkerEnd| - 1] == text[|text| - 1];
    }
    UnmarkedContentStripped(a);
    StripTrailingSpace(kept, tail);
    MarkerEndSurvivesStrip(body);
  }

  lemma MarkerEndSurvivesStrip(body: string)
    ensures EndsWith(Strip(body + MarkerEnd), "chars]")
  {
    var kept := body + MarkerEnd;
    assert kept[|body| + 1..] == "chars]";
    StripKeepsSuffix(kept, "chars]");
  }

  // ---------------------------------------------------------------------
  // Summarization
  // ---------------------------------------------------------------------

  const SummarizerInstruction :=
    "You are an expert news summarization AI. "
    + "Distill complex articles into a clear, factual summary tailored for social media audiences."

  const SummaryPromptHead :=
    "Summarize the following article in 2\U{2013}3 concise sentences, preserving key insights "
    + "and factual accuracy without filler:\n\n---\n"
  const SummaryPromptTail := "\n---"

  const SummaryMaxTokens: nat := 150

  /** The text submitted for summarization: a prefix of the article text
      within the character budget. */
  function BoundedText(text: string, maxLen: nat): (r: string)
    ensures StartsWith(text, r) && |r| <= maxLen
    ensures |text| <= maxLen ==> r == text
    ensures |text| > maxLen ==> |r| == maxLen
  {
    if |text| > maxLen then text[..maxLen] else text
  }

  /** The completion request `summarize_article_with_groq` sends, if any:
      none for empty text. */
  function SummaryRequest(text: string, maxLen: nat): (r: Option<ChatRequest>)
    ensures r.None? <==> text == ""
    ensures r.Some? ==>
      r.value.model == Settings.GroqSummarizationModel
      && r.value.maxTokens == SummaryMaxTokens
      && |r.value.messages| == 2
      && r.value.messages[0] == ChatMessage("system", SummarizerInstruction)
      && r.value.messages[1].role == "user"
      && r.value.messages[1].content
         == SummaryPromptHead + BoundedText(text, maxLen) + SummaryPromptTail
  {
    if text == "" then None
    else
      Some(ChatRequest(
        Settings.GroqSummarizationModel,
        [ChatMessage("system", SummarizerInstruction),
         ChatMessage("user", SummaryPromptHead + BoundedText(text, maxLen) + SummaryPromptTail)],
        SummaryMaxTokens))
  }

  /** `summarize_article_with_groq`: `None` for empty text (nothing is
      sent) and for a missing or empty completion; otherwise the completion
      exactly as received. */
  function Summarize(apiKey: Option<string>, text: string, maxLen: nat,
                     post: GroqCall -> HttpReply<CompletionBody>): (r: Option<string>)
    ensures text == "" ==> r.None?
    ensures r.Some? ==>
      r.value != "" && text != ""
      && r == QueryGroq(apiKey, SummaryRequest(text, maxLen).value, post)
    ensures text != "" && NonEmpty(QueryGroq(apiKey, SummaryRequest(text, maxLen).value, post)) ==>
      r.Some?
  {
    match SummaryRequest(text, maxLen)
    case None => None
    case Some(request) =>
      var summary := QueryGroq(apiKey, request, post);
      if NonEmpty(summary) then summary else None
  }

  // ---------------------------------------------------------------------
  // Draft generation
  // ---------------------------------------------------------------------

  const CopywriterInstruction :=
    "You are an industry-leading AI social media strategist and copywriter. "
    + "Craft engaging, on-brand posts optimized for platform best practices with clear calls to action."

  /** Removes one pair of double quotes wrapping the whole draft. */
  function StripOuterQuotes(draft: string): (r: string)
    ensures |draft| >= 2 && draft[0] == '"' && draft[|draft| - 1] == '"' ==>
      "\"" + r + "\"" == draft
    ensures draft == "\"" ==> r == ""
    ensures !(StartsWith(draft, "\"") && EndsWith(draft, "\"")) ==> r == draft
  {
    if StartsWith(draft, "\"") && EndsWith(draft, "\"") then
      if |draft| == 1 then "" else draft[1..|draft| - 1]
    else draft
  }

  /** Exactly the one outer pair is removed, whatever the draft holds. */
  lemma QuotesRemoved(inner: string)
    ensures StripOuterQuotes("\"" + inner + "\"") == inner
  {
    var d := "\"" + inner + "\"";
    assert d[1..|d| - 1] == inner;
  }

  function GenerationRequest(model: string, prompt: string, maxTokens: nat): ChatRequest {
    ChatRequest(model, [ChatMessage("system", CopywriterInstruction), ChatMessage("user", prompt)], maxTokens)
  }

  /** `generate_social_post_with_groq`: `None` for a missing or empty
      completion, otherwise the completion without its outer quotes. */
  function GenerateSocialPost(apiKey: Option<string>, model: string, prompt: string, maxTokens: nat,
                              post: GroqCall -> HttpReply<CompletionBody>): (r: Option<string>)
    ensures r.Some? <==> NonEmpty(QueryGroq(apiKey, GenerationRequest(model, prompt, maxTokens), post))
    ensures r.Some? ==>
      r.value == StripOuterQuotes(QueryGroq(apiKey, GenerationRequest(model, prompt, maxTokens), post).value)
  {
    var draft := QueryGroq(apiKey, GenerationRequest(model, prompt, maxTokens), post);
    if NonEmpty(draft) then Some(StripOuterQuotes(draft.value)) else None
  }

  /** The article details both draft prompts embed. */
  function ArticleDetails(title: string, summary: string, url: string): string {
    "Title: \"" + title + "\"\nSummary: \"" + summary + "\"\nLink: " + url
  }

  const TweetIntro :=
    "Based on the article below, craft a concise, engaging tweet under 280 characters. "
    + "Use 2\U{2013}3 strategic hashtags, include a clear call to action, and append the article link.\n\n"
  const LinkedInIntro :=
    "Using the details below, draft a professional LinkedIn post of 3\U{2013}4 sentences. "
    + "Highlight key insights, encourage discussion, include 3\U{2013}4 industry hashtags, and add the link.\n\n"

  const TweetMaxTokens: nat := 100
  const LinkedInMaxTokens: nat := 200

  function TweetPrompt(title: string, summary: string, url: string): string {
    TweetIntro + ArticleDetails(title, summary, url) + "\n\nTweet:"
  }

  function LinkedInPrompt(title: string, summary: string, url: string): string {
    LinkedInIntro + ArticleDetails(title, summary, url) + "\n\nLinkedIn Post:"
  }

  /** `generate_tweet_draft_with_groq`. */
  function GenerateTweetDraft(apiKey: Option<string>, title: string, summary: string, url: string,
                              post: GroqCall -> HttpReply<CompletionBody>): Option<string>
  {
    GenerateSocialPost(apiKey, Settings.GroqGenerationModel, TweetPrompt(title, summary, url), TweetMaxTokens, post)
  }

  /** `generate_linkedin_draft_with_groq`. */
  function GenerateLinkedInDraft(apiKey: Option<string>, title: string, summary: string, url: string,
                                 post: GroqCall -> HttpReply<CompletionBody>): Option<string>
  {
    GenerateSocialPost(apiKey, Settings.GroqGenerationModel, LinkedInPrompt(title, summary, url), LinkedInMaxTokens, post)
  }

  /** Both draft prompts carry the title, the summary and the link, right
      after their platform instructions. */
  lemma PromptsEmbedArticle(title: string, summary: string, url: string)
    ensures OccursAt(TweetPrompt(title, summary, url), ArticleDetails(title, summary, url), |TweetIntro|)
    ensures OccursAt(LinkedInPrompt(title, summary, url), ArticleDetails(title, summary, url), |LinkedInIntro|)
  {
    var d := ArticleDetails(title, summary, url);
    assert (TweetIntro + d + "\n\nTweet:")[|TweetIntro|..|TweetIntro| + |d|] == d;
    assert (LinkedInIntro + d + "\n\nLinkedIn Post:")[|LinkedInIntro|..|LinkedInIntro| + |d|] == d;
  }
}
