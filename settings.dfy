/** The configuration of config.py: four credentials read from the
    environment and the fixed query and size constants. */
module Settings {
  import opened Values

  /** The configuration handed to every component. A credential that is
      unset in the environment is `None`. */
  datatype Config = Config(
    newsApiKey: Option<string>,
    groqApiKey: Option<string>,
    telegramBotToken: Option<string>,
    telegramChatId: Option<string>,
    maxArticlesToProcess: int,
    maxArticleTextForGroq: nat)

  const GroqSummarizationModel := "llama3-8b-8192"
  const GroqGenerationModel := "llama3-8b-8192"

  const NewsKeywords :=
    "\"artificial intelligence\" OR \"machine learning\" OR \"LLM\" OR \"AI ethics\" OR \"AI regulation\""
  const NewsLanguage := "en"
  const NewsSortBy := "relevancy"
  const NewsPageSize: nat := 10

  const MaxArticlesToProcess := 1
  const MaxArticleTextForGroq: nat := 7000

  /** The configuration the process starts with, given the four environment values. */
  function FromEnvironment(
    newsApiKey: Option<string>, groqApiKey: Option<string>,
    telegramBotToken: Option<string>, telegramChatId: Option<string>): Config
  {
    Config(newsApiKey, groqApiKey, telegramBotToken, telegramChatId,
           MaxArticlesToProcess, MaxArticleTextForGroq)
  }
}
