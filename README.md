# SMM AI Assistant — a verified model of its core

The assistant runs once a day and has four steps:

1. It asks NewsAPI for recent articles about artificial intelligence.
2. It keeps the first article whose extracted text is not empty.
3. It asks a Groq chat-completion model for a summary of that article, then for a tweet draft and a LinkedIn draft.
4. It sends one combined report to a Telegram chat, escaped for MarkdownV2.

This project models that core in Dafny and proves what the code promises about it. The model covers:

- text extraction;
- the summary and draft post-processing;
- the reading of completion replies;
- MarkdownV2 escaping;
- the key and status guards of the news and Telegram clients;
- the workflow with its two loops.

The three services are oracles, that is, functions the caller supplies:

- the news search is `NewsQuery -> HttpReply<NewsBody>`;
- the completion service is `GroqCall -> HttpReply<CompletionBody>`;
- the bot is `BotRequest -> bool`.

`HttpReply` is either `NoResponse` or a status code with an optional parsed body. `NoResponse` stands for a timeout, a connection error or any other transport exception. A body of `None` means the body did not parse.

Modules:

- `Values`: the `Option` type, Python truthiness of optional strings, and `Field`. `Field` is a string member of a JSON object that is absent, `null` or a string. Its `Render` gives `.get(key, default)` as an f-string prints it, and its `Truthy` gives the truthiness of `.get(key)`.
- `Strings`: the Python `str` operations the code uses. These are `isspace` (the 29 whitespace code points), `strip`, `in`, `rfind`, `startswith` and `endswith`. `strip` is characterised completely: the result is the unique slice that has no whitespace at its ends and only whitespace outside it.
- `Sequences`: the order-preserving scans the workflow is built from, stated once for any element type:
  - `ScanFirst`, the selection loop, proved against `TakeFirst`;
  - `Filter`;
  - `FlatMap`, with its append and length lemmas;
  - `TakeThrough`, the elements up to and including the first one that stops a loop.
- `Settings`: the constants of config.py and the configuration record.
- `ApiClients`: `fetch_news_articles`, `query_groq_api` (the HTTP-status step and the reading of the reply), `escape_markdown_v2` and `send_telegram_message`.
- `AiProcessing`: `get_text_from_article`, `summarize_article_with_groq`, `generate_social_post_with_groq` and the two draft wrappers.
- `Workflow`: `run_assistant_workflow` as the method `RunAssistantWorkflow`. It uses two loops:
  - the selection loop, `Sequences.ScanFirst` run with the test `HasText`;
  - the processing loop, `ProcessSelected`, whose body is `ProcessArticle`.

Two points of the processing loop raise an exception that nothing inside `run_assistant_workflow` catches, so the run ends there (status `Raised`):

- `article.get("source", {}).get("name", ...)` at main.py:56, when the article's `source` is `null` or not an object. Nothing has been asked of the completion service for that article yet.
- `len(title)` at main.py:80, when the title is JSON `null`. This happens only after a successful summary and both draft calls. The article gets no block, and nothing is sent.

`Processed` is the list of articles the loop works on: all of them, or those up to and including the first one that raises.

The method returns everything the run produces:

- how the run ended;
- the selected articles;
- the report blocks;
- the message and what the notifier did with it;
- the list of collaborator calls, in order.

Each part is tied to a specification function: `SelectArticles`, `ReportBlocks`, `ProcessingCalls`, `ComposeMessage` and `FitMessage`. The lemmas about those functions state the promised properties.

Where the project's documentation and its code differ, the model follows the code:

- The `error` member of a completion reply is only logged. A reply whose first choice carries content is used even when `error` is present (`ErrorMemberIgnored`).
- The header of the message is modelled on the bytes as written in main.py. They are the UTF-8 encoding of the rocket emoji read as Windows-1252: U+00F0 U+0178 U+0161 U+20AC.

## Model

| member | source | states |
|---|---|---|
| Strings.StripIsTrimmed | ai_processing.py:20 | `strip()` leaves no whitespace at either end of the result and never makes the text longer |
| Strings.StripIsSlice | ai_processing.py:20 | the result of `strip()` is a slice of the input with only whitespace outside it |
| Strings.StripUnique | ai_processing.py:20 | any slice without whitespace at its ends and with only whitespace outside it equals `strip()`, so the two properties above determine it |
| Strings.StripIdempotent | api_clients.py:115 | stripping text that was already stripped changes nothing |
| Strings.StripAllSpace | ai_processing.py:20 | a text made only of whitespace strips to the empty string |
| Strings.StripTrailingSpace | ai_processing.py:20 | appending whitespace does not change the result of `strip()` |
| Strings.StripKeepsSuffix | ai_processing.py:20 | a suffix that starts and ends with non-whitespace survives `strip()` |
| Strings.RFind | ai_processing.py:19 | `rfind` answers -1 or an index at which the substring occurs |
| Strings.RFindIsLast | ai_processing.py:18-19 | no occurrence lies above the answer of `rfind`, and the answer is -1 exactly when the substring does not occur, which is what `in` tests |
| Sequences.ScanFirst | main.py:40-46 | the loop that appends each element passing the test and breaks once `len >= max` yields exactly the first `max` passing elements in input order, and keeps one element when `max < 1` |
| Sequences.TakeFirstIsPrefix | main.py:40-46 | the first `n` passing elements are the prefix of length `min(n, #passing)` of the filtered list |
| Sequences.FilterKeeps | main.py:41-44 | every element of the filtered list passes the test, and the list is empty exactly when no element passes |
| Sequences.FilterComplete | main.py:41-44 | every element that passes the test is in the filtered list |
| ApiClients.FetchNewsArticles | api_clients.py:21-63 | `[]` without a key, on a transport or HTTP failure and on a status other than "ok"; with "ok" the returned list is exactly the reply's `articles` (`[]` when that member is absent) |
| ApiClients.InterpretCompletion | api_clients.py:96-123 | an answer exists exactly when `choices` is non-empty and its first message has string content, and the answer is that content stripped |
| ApiClients.ErrorMemberIgnored | api_clients.py:116-123 | the reply's `error` member never changes the answer |
| ApiClients.ReplyContent | api_clients.py:84-94 | no response, a 4xx/5xx status or an unparsable body gives `None`; otherwise the reply is interpreted |
| ApiClients.QueryGroq | api_clients.py:66-94 | without a key nothing is sent and the answer is `None`; with a key the answer is the interpretation of the reply to the request sent with that key, and it has no outer whitespace |
| ApiClients.EscapeMarkdownV2 | api_clients.py:141-147 | the escaped length is the input length plus the number of reserved characters, and the output never begins with a bare reserved character |
| ApiClients.EscapeConcat | api_clients.py:146-147 | escaping works character by character: it distributes over concatenation and keeps order |
| ApiClients.UnescapeEscape | api_clients.py:146-147 | removing the backslash in front of each escaped reserved character gives back the original text |
| ApiClients.ReservedArePreceded | api_clients.py:146-147 | every reserved character in the output has a backslash right before it |
| ApiClients.EscapePlain | api_clients.py:141-147 | a text without reserved characters, the empty text included, is returned unchanged |
| ApiClients.SendTelegramMessage | api_clients.py:150-181 | skipped exactly when the token or the chat id is missing or empty; otherwise one request goes to the bot carrying the escaped text in MarkdownV2 mode, and unescaping that text gives back the message |
| AiProcessing.CutMarker | ai_processing.py:18-19 | the marker cut keeps a prefix of the text |
| AiProcessing.GetTextFromArticle | ai_processing.py:14-20 | the extracted text has no whitespace at either end and is no longer than the chosen source text |
| AiProcessing.TextIsSliceOfSource | ai_processing.py:16-20 | the extracted text is a contiguous slice of the chosen source text |
| AiProcessing.NoTextFields | ai_processing.py:16 | with neither `content` nor `description` truthy the text is empty |
| AiProcessing.BlankContentWins | ai_processing.py:16-20 | a non-empty `content` made only of whitespace is still chosen over `description`, and the text is then empty |
| AiProcessing.DescriptionFallback | ai_processing.py:16-20 | with a falsy `content`, the text comes from `description` |
| AiProcessing.NewsApiMarkerRemoved | ai_processing.py:18-20 | for `before + "[+" + digits + " chars]"` the text is `before` stripped, and an ellipsis ending `before` is kept |
| AiProcessing.EllipsisKept | ai_processing.py:20 | stripping keeps a trailing "..." |
| AiProcessing.UnmarkedContentStripped | ai_processing.py:18-20 | when the marker test fails, the text is the whole `content` stripped |
| AiProcessing.TrailingSpaceKeepsMarker | ai_processing.py:18-20 | whitespace after " chars]" defeats the cut: the marker stays, and only the whitespace goes |
| AiProcessing.BoundedText | ai_processing.py:29-33 | the summarized text is a prefix of at most the budget: the whole text when it fits, otherwise exactly the budget's length |
| AiProcessing.SummaryRequest | ai_processing.py:25-51 | no request for empty text; otherwise the summarization model, 150 tokens, the system instruction, and a user prompt embedding the bounded text |
| AiProcessing.Summarize | ai_processing.py:23-71 | `None` for empty text; a summary is non-empty and is the completion exactly as received; every non-empty completion is returned |
| AiProcessing.StripOuterQuotes | ai_processing.py:99-100 | a draft wrapped in a pair of `"` loses exactly those two characters, a lone `"` becomes empty, and any other draft is unchanged |
| AiProcessing.QuotesRemoved | ai_processing.py:99-100 | exactly one outer pair is removed, whatever the draft holds inside |
| AiProcessing.GenerateSocialPost | ai_processing.py:74-104 | a draft exists exactly when the completion is non-empty, and it is the completion with its outer quotes removed |
| AiProcessing.PromptsEmbedArticle | ai_processing.py:107-131 | both draft prompts carry the title, the summary and the link right after their instructions |
| Workflow.SelectionIsPrefix | main.py:40-46 | the selection is the prefix of the articles with text that the limit allows, and it is never longer than the limit |
| Workflow.WithTextHasText | main.py:41-44 | every article kept has text, there is none only when no article has text, and every article with text is among them |
| Workflow.SkipsArticlesWithoutText | main.py:40-46 | with the configured limit of one, articles without text before the first one with text are passed over |
| Workflow.ProcessedUntilRaise | main.py:53-80 | the loop works on a prefix of the selection; it stops early exactly when some article raises, the article it stops at raises and none before it does, and without a raise it works on every article |
| Workflow.DraftText | main.py:85-86 | a draft section is the draft when it is non-empty and "[Generation Failed]" otherwise, so it is never empty |
| Workflow.ArticleBlock | main.py:54-89 | an article contributes a block exactly when its summary succeeds and processing it does not raise (a source that is not an object, or a `null` title) |
| Workflow.ArticleBlockShape | main.py:82-88 | a block opens with the linked title (defaults "No Title" and "#") and the summary, and closes with the rule |
| Workflow.BlocksOfCount | main.py:54-89 | one block when the summary succeeds and the article does not raise, none otherwise |
| Workflow.ReportBlocksAppend | main.py:53-89 | blocks keep the order of the selection: the blocks of consecutive runs concatenate, and once an article raises the later ones add nothing |
| Workflow.ReportBlocksNeedSummaries | main.py:53-89 | at most one block per article; no block when no summary succeeds; one block per article when every summary succeeds and no article raises |
| Workflow.LoneQuoteShowsPlaceholder | ai_processing.py:96-101 | a completion that is a lone `"` gives an empty draft, which the block shows as "[Generation Failed]" |
| Workflow.ArticleCallsShape | main.py:56-72 | an article whose source raises makes no call; any other makes one summary call, plus two draft calls when the summary succeeded, and all of them go to the completion service |
| Workflow.ProcessingCallsAppend | main.py:53-72 | the calls of consecutive runs of articles concatenate in order, and once an article raises the later ones make none |
| Workflow.ProcessingCallsShape | main.py:53-72 | processing never fetches or notifies; it makes at most three completion calls per article, and at least one per article worked on when no source raises |
| Workflow.JoinSnoc | main.py:93-95 | `"\n".join` of one more block puts the separator, then the block, after the join of the others |
| Workflow.ComposeMessage | main.py:93-95 | the message starts with the header; with no block it is the header alone, and with one block it is the header followed by that block |
| Workflow.ComposeMessageSnoc | main.py:93-95 | each further block comes after the message so far and a newline, so the blocks appear in order, each after a newline |
| Workflow.FitMessage | main.py:96-102 | the result is at most 4000 characters; a message of at most 4000 is unchanged; a longer one keeps its first 3900 characters and ends with the notice |
| Workflow.CountAllReserved | api_clients.py:146-147 | a text made only of reserved characters doubles in length when escaped |
| Workflow.EscapedMessageMayExceedBound | main.py:96-107 | the 4000 bound holds before escaping and not after: some message within the bound escapes to more than 4000 characters |
| Workflow.EscapedTwice | main.py:99-107 | an already-escaped reserved character, such as those in the truncation notice, is escaped again when sent |
| Workflow.ProcessArticle | main.py:53-89 | one pass of the processing loop yields the article's block and calls, and raises exactly when its source is not an object or, after a successful summary, its title is `null` |
| Workflow.ProcessSelected | main.py:52-89 | the processing loop yields the report blocks and the calls of the articles it works on, in order, and raises exactly when some selected article raises |
| Workflow.RunAssistantWorkflow | main.py:30-123 | aborts with no call exactly when the Groq key is missing; otherwise selects `SelectArticles` of the fetched articles, ends after the fetch when none is selected, ends without sending when an article raises, and otherwise processes, composes, fits and sends as detailed below |

`Workflow.RunAssistantWorkflow` states the following:

- The run aborts, with no call at all, exactly when the Groq key is missing or empty.
- Otherwise the selection is `SelectArticles` of the fetched articles.
- An empty selection ends the run after the fetch, with no other call.
- The run ends with `Raised` exactly when some selected article raises. It then has the blocks and calls of the articles up to that one, and it sends nothing.
- A completed run has the specified blocks and makes its calls in this order: the fetch, then the per-article calls, then the send.
- A message exists exactly when there is a block and both Telegram credentials are set.
- The message is the composed report fitted to 4000 characters, and it goes to `send_telegram_message`.

## Left out

- HTTP transport, timeouts and exceptions: each becomes the `NoResponse` reply or a body of `None`. Both clients treat every status outside 400–599 as success, because `raise_for_status` raises only for those. `query_groq_api` also logs a status other than 200 first; `fetch_news_articles` does not.
- The request start date (yesterday, from the clock), the temperatures and the logging: they do not affect any returned value.
- The `print` output of main.py, the `usage` data of a reply, and the source name when the source is an object: these are output only. A source that is not an object is modelled, because reading its name raises.
- What happens to the exception of a `Raised` run outside `run_assistant_workflow`: the scheduler that calls it is not part of this model.
- The scheduler, `time.sleep`, the `__main__` block, and `asyncio.run` with its exception handler: these are process plumbing. The notifier's outcome is returned, but the run only logs it.
- Environment loading with dotenv: the four credentials are parameters of `Settings.FromEnvironment`.
- `articles` present as JSON `null`: the code then iterates over `None` and crashes. The model's `NewsBody.articles` is either absent or a list.
- JSON values of kinds the code does not expect, such as a numeric title (for which `len(title)` would also raise) or a non-list `choices`: every member is a string, `null` or absent. A non-string `content` is `Null`, which makes `.strip()` raise and the answer `None`.
- The oracles are deterministic functions. Asking the completion service twice with the same call gives the same answer, as if the service repeated itself.
- AiProcessing.GenerateTweetDraft and AiProcessing.GenerateLinkedInDraft: no contract of their own. They only pass a prompt and a token cap to `GenerateSocialPost`, whose contract applies, and `PromptsEmbedArticle` states what their prompts carry.
- Sequences.ScanFirst: the selection test is `HasText`, the emptiness of `get_text_from_article`. The loop's local `text` variable is not kept.
- Workflow.EscapedTwice: states the double escape of a reserved character. It does not claim how Telegram then renders the notice, because the MarkdownV2 parser is not part of this model.
