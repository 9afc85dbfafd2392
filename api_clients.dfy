/** The clients of api_clients.py: the news search, the chat-completion
    query and the Telegram notifier. Every network exchange is an oracle
    supplied by the caller: a function from the request to the reply. */
module ApiClients {
  import opened Values
  import opened Strings
  import Settings

  // ---------------------------------------------------------------------
  // HTTP replies
  // ---------------------------------------------------------------------

  /** The outcome of one HTTP exchange: no response at all (a timeout, a
      connection error or any other exception of the transport), or a
      status code with the body parsed as a JSON object (`None` when the
      body is not JSON or not an object, so that reading it raises). */
  datatype HttpReply<T> = NoResponse | Response(status: int, body: Option<T>)

  /** The statuses for which `requests`' `raise_for_status()` raises. */
  predicate IsHttpError(status: int) {
    400 <= status < 600
  }

  // ---------------------------------------------------------------------
  // News search
  // ---------------------------------------------------------------------

  /** The `source` member of an article as `article.get("source", {})`
      sees it: absent (the default `{}`), a JSON object, or `null` or any
      other value, which has no `.get`. The source's name is only logged. */
  datatype Source = SourceAbsent | SourceObject | SourceOther

  /** A NewsAPI article record. */
  datatype Article = Article(title: Field, url: Field, content: Field, description: Field, source: Source)

  /** The JSON object NewsAPI answers with: its `status` and, when present, its `articles`. */
  datatype NewsBody = NewsBody(status: Field, articles: Option<seq<Article>>)

  /** The query parameters of the search request (the start date is left out). */
  datatype NewsQuery = NewsQuery(q: string, apiKey: string, language: string, sortBy: string, pageSize: nat)

  function NewsQueryFor(apiKey: string): NewsQuery {
    NewsQuery(Settings.NewsKeywords, apiKey, Settings.NewsLanguage, Settings.NewsSortBy, Settings.NewsPageSize)
  }

  /** A reply that passed `raise_for_status()`, parsed, and carries `status == "ok"`. */
  predicate StatusOk(reply: HttpReply<NewsBody>) {
    reply.Response? && !IsHttpError(reply.status) && reply.body.Some?
    && reply.body.value.status == Str("ok")
  }

  /** `fetch_news_articles`: the articles of the search, or `[]` on a missing
      key, on any transport or HTTP failure, and on a status other than "ok". */
  function FetchNewsArticles(apiKey: Option<string>, get: NewsQuery -> HttpReply<NewsBody>): (r: seq<Article>)
    ensures !NonEmpty(apiKey) ==> r == []
    ensures r != [] ==>
      NonEmpty(apiKey) && StatusOk(get(NewsQueryFor(apiKey.value)))
      && get(NewsQueryFor(apiKey.value)).body.value.articles == Some(r)
    ensures NonEmpty(apiKey) && StatusOk(get(NewsQueryFor(apiKey.value)))
            && get(NewsQueryFor(apiKey.value)).body.value.articles.Some? ==>
      r == get(NewsQueryFor(apiKey.value)).body.value.articles.value
  {
    if !NonEmpty(apiKey) then []
    else
      match get(NewsQueryFor(apiKey.value))
      case NoResponse => []
      case Response(status, body) =>
        if IsHttpError(status) then []
        else
          match body
          case None => []
          case Some(data) =>
            if data.status == Str("ok") then
              match data.articles
              case None => []
              case Some(articles) => articles
            else []
  }

  // ---------------------------------------------------------------------
  // Chat completion
  // ---------------------------------------------------------------------

  datatype ChatMessage = ChatMessage(role: string, content: string)

  /** The JSON payload of a completion request (the temperature is left out). */
  datatype ChatRequest = ChatRequest(model: string, messages: seq<ChatMessage>, maxTokens: nat)

  /** What goes over the wire: the bearer credential and the payload. */
  datatype GroqCall = GroqCall(apiKey: string, request: ChatRequest)

  /** The `message` object of a choice; a `content` that is `null` or not a
      string is `Null` (its `.strip()` raises). */
  datatype ReplyMessage = ReplyMessage(content: Field)

  datatype Choice = Choice(message: Option<ReplyMessage>)

  /** The JSON object of a completion reply: `choices` (`None` when absent or
      `null`) and the `error` member, which is only logged. */
  datatype CompletionBody = CompletionBody(choices: Option<seq<Choice>>, error: Option<string>)

  /** The reply's first choice has a message whose content is a string. */
  predicate HasFirstContent(data: CompletionBody) {
    data.choices.Some? && |data.choices.value| > 0
    && data.choices.value[0].message.Some?
    && data.choices.value[0].message.value.content.Str?
  }

  function FirstContent(data: CompletionBody): string
    requires HasFirstContent(data)
  {
    data.choices.value[0].message.value.content.s
  }

  /** The reading of a parsed reply in `query_groq_api`: the
      first choice's content, stripped, or `None`. */
  function InterpretCompletion(data: CompletionBody): (r: Option<string>)
    ensures r.Some? <==> HasFirstContent(data)
    ensures r.Some? ==> r.value == Strip(FirstContent(data)) && Trimmed(r.value)
  {
    match data.choices
    case None => None
    case Some(choices) =>
      if |choices| == 0 then None
      else
        match choices[0].message
        case None => None
        case Some(message) =>
          match message.content
          case Str(content) => StripIsTrimmed(content); Some(Strip(content))
          case _ => None
  }

  /** The HTTP part of `query_groq_api`: a reply without a response, with a
      4xx/5xx status or with a body that does not parse gives `None`. */
  function ReplyContent(reply: HttpReply<CompletionBody>): (r: Option<string>)
    ensures r.Some? <==>
      reply.Response? && !IsHttpError(reply.status) && reply.body.Some?
      && HasFirstContent(reply.body.value)
    ensures r.Some? ==> r == InterpretCompletion(reply.body.value)
  {
    match reply
    case NoResponse => None
    case Response(status, body) =>
      if IsHttpError(status) then None
      else
        match body
        case None => None
        case Some(data) => InterpretCompletion(data)
  }

  /** `query_groq_api`: without a key nothing is sent and the answer is `None`. */
  function QueryGroq(apiKey: Option<string>, request: ChatRequest,
                     post: GroqCall -> HttpReply<CompletionBody>): (r: Option<string>)
    ensures !NonEmpty(apiKey) ==> r.None?
    ensures NonEmpty(apiKey) ==> r == ReplyContent(post(GroqCall(apiKey.value, request)))
    ensures r.Some? ==> Trimmed(r.value)
  {
    if !NonEmpty(apiKey) then None
    else ReplyContent(post(GroqCall(apiKey.value, request)))
  }

  /** The `error` member of a reply never changes the answer. */
  lemma ErrorMemberIgnored(data: CompletionBody, error: Option<string>)
    ensures InterpretCompletion(data.(error := error)) == InterpretCompletion(data)
  {
  }

  // ---------------------------------------------------------------------
  // Telegram MarkdownV2 escaping
  // ---------------------------------------------------------------------

  /** The 18 characters `escape_markdown_v2` prefixes with a backslash. */
  const ReservedChars := "_*[]()~`>#+-=|{}.!"

  predicate IsReserved(c: char) {
    c in ReservedChars
  }

  function EscapeChar(c: char): string {
    if IsReserved(c) then ['\\', c] else [c]
  }

  /** The number of reserved characters in `s`. */
  function CountReserved(s: string): nat {
    if s == [] then 0 else (if IsReserved(s[0]) then 1 else 0) + CountReserved(s[1..])
  }

  /** `escape_markdown_v2`: every reserved character gets one backslash in
      front of it; every other character, the backslash included, is copied. */
  function EscapeMarkdownV2(text: string): (r: string)
    ensures |r| == |text| + CountReserved(text)
    ensures r == [] || !IsReserved(r[0])
  {
    if text == [] then "" else EscapeChar(text[0]) + EscapeMarkdownV2(text[1..])
  }

  /** The reading of an escaped text: a backslash followed by a reserved
      character stands for that character; everything else stands for itself. */
  function Unescape(t: string): string {
    if t == [] then ""
    else if |t| >= 2 && t[0] == '\\' && IsReserved(t[1]) then [t[1]] + Unescape(t[2..])
    else [t[0]] + Unescape(t[1..])
  }

  /** Escaping distributes over concatenation: each character is escaped on
      its own, in order. */
  lemma {:induction false} EscapeConcat(a: string, b: string)
    ensures EscapeMarkdownV2(a + b) == EscapeMarkdownV2(a) + EscapeMarkdownV2(b)
  {
    if a == [] {
      assert a + b == b;
    } else {
      assert (a + b)[1..] == a[1..] + b;
      EscapeConcat(a[1..], b);
    }
  }

  /** Removing the escapes gives back the original text. */
  lemma {:induction false} UnescapeEscape(s: string)
    ensures Unescape(EscapeMarkdownV2(s)) == s
  {
    if s != [] {
      var rest := EscapeMarkdownV2(s[1..]);
      UnescapeEscape(s[1..]);
      if IsReserved(s[0]) {
        assert (['\\', s[0]] + rest)[2..] == rest;
      } else {
        assert ([s[0]] + rest)[1..] == rest;
      }
    }
  }

  /** In the escaped text, every reserved character has a backslash in front of it. */
  lemma {:induction false} ReservedArePreceded(s: string)
    ensures forall k | 0 <= k < |EscapeMarkdownV2(s)| && IsReserved(EscapeMarkdownV2(s)[k]) ::
      k > 0 && EscapeMarkdownV2(s)[k - 1] == '\\'
  {
    if s != [] {
      ReservedArePreceded(s[1..]);
      var head := EscapeChar(s[0]);
      var rest := EscapeMarkdownV2(s[1..]);
      assert EscapeMarkdownV2(s) == head + rest;
      forall k | 0 <= k < |head + rest| && IsReserved((head + rest)[k])
        ensures k > 0 && (head + rest)[k - 1] == '\\'
      {
        if k >= |head| {
          assert (head + rest)[k] == rest[k - |head|];
          if k > |head| {
            assert (head + rest)[k - 1] == rest[k - 1 - |head|];
          }
        }
      }
    }
  }

  /** A text without reserved characters is sent as it is. */
  lemma {:induction false} EscapePlain(s: string)
    requires CountReserved(s) == 0
    ensures EscapeMarkdownV2(s) == s
  {
    if s != [] {
      EscapePlain(s[1..]);
    }
  }

  // ---------------------------------------------------------------------
  // Telegram delivery
  // ---------------------------------------------------------------------

  const MarkdownV2 := "MarkdownV2"

  /** The `send_message` call made on the bot. */
  datatype BotRequest = BotRequest(token: string, chatId: string, text: string, parseMode: string)

  /** What `send_telegram_message` did: nothing, or one delivery attempt
      and whether it went through. */
  datatype Delivery = Skipped | Attempted(request: BotRequest, delivered: bool) {
    /** The boolean `send_telegram_message` returns. */
    predicate Succeeded() {
      Attempted? && delivered
    }
  }

  /** `send_telegram_message`: skips without a token or chat id, otherwise
      hands the escaped text to the bot (`deliver` answers whether it was
      accepted; every error the bot raises is `false`). */
  function SendTelegramMessage(botToken: Option<string>, chatId: Option<string>, messageText: string,
                               deliver: BotRequest -> bool): (d: Delivery)
    ensures d.Skipped? <==> !NonEmpty(botToken) || !NonEmpty(chatId)
    ensures d.Attempted? ==>
      d.request == BotRequest(botToken.value, chatId.value, EscapeMarkdownV2(messageText), MarkdownV2)
      && d.delivered == deliver(d.request)
    ensures d.Attempted? ==> Unescape(d.request.text) == messageText
  {
    if !NonEmpty(botToken) || !NonEmpty(chatId) then Skipped
    else
      var request := BotRequest(botToken.value, chatId.value, EscapeMarkdownV2(messageText), MarkdownV2);
      UnescapeEscape(messageText);
      Attempted(request, deliver(request))
  }
}
