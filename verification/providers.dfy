/** The three LLM providers: their fixed names and model lists, where their
    API key comes from, and when they count as available. */
module Providers {
  import opened Wrappers
  import opened Reply

  datatype ProviderKind = OpenAI | Anthropic | Gemini

  /** One entry of a provider's `models` list: `{"id": ..., "name": ...}`. */
  datatype ModelInfo = ModelInfo(id: string, name: string)

  /** A provider object: its class and the API key read when it was built. */
  datatype Provider = Provider(kind: ProviderKind, apiKey: Option<string>)

  /** The class attribute `name`. */
  function Name(kind: ProviderKind): string {
    match kind
    case OpenAI => "OpenAI"
    case Anthropic => "Anthropic"
    case Gemini => "Google"
  }

  /** The class attribute `models`. */
  function Models(kind: ProviderKind): seq<ModelInfo> {
    match kind
    case OpenAI => [
      ModelInfo("gpt-4o", "GPT-4o"),
      ModelInfo("gpt-4-turbo", "GPT-4 Turbo"),
      ModelInfo("gpt-4", "GPT-4"),
      ModelInfo("gpt-3.5-turbo", "GPT-3.5 Turbo")]
    case Anthropic => [
      ModelInfo("claude-sonnet-4-20250514", "Claude Sonnet 4"),
      ModelInfo("claude-3-5-sonnet-20241022", "Claude 3.5 Sonnet"),
      ModelInfo("claude-3-5-haiku-20241022", "Claude 3.5 Haiku (Fast)"),
      ModelInfo("claude-3-opus-20240229", "Claude 3 Opus")]
    case Gemini => [
      ModelInfo("gemini-2.0-flash", "Gemini 2.0 Flash"),
      ModelInfo("gemini-1.5-pro", "Gemini 1.5 Pro"),
      ModelInfo("gemini-1.5-flash", "Gemini 1.5 Flash")]
  }

  /** The environment variable each constructor reads its key from. */
  function KeyVariable(kind: ProviderKind): string {
    match kind
    case OpenAI => "OPENAI_API_KEY"
    case Anthropic => "ANTHROPIC_API_KEY"
    case Gemini => "GEMINI_API_KEY"
  }

  /** The process environment, as `os.getenv` sees it. */
  type Environment = map<string, string>

  function GetEnv(env: Environment, variable: string): Option<string> {
    if variable in env then Some(env[variable]) else None
  }

  /** The provider's `__init__`. */
  function NewProvider(kind: ProviderKind, env: Environment): (p: Provider)
    ensures p.kind == kind
    ensures p.apiKey.Some? <==> KeyVariable(kind) in env
    ensures p.apiKey.Some? ==> p.apiKey.value == env[KeyVariable(kind)]
  {
    Provider(kind, GetEnv(env, KeyVariable(kind)))
  }

  /** `bool(self.api_key)`: `None` and the empty string are false. */
  predicate IsAvailable(p: Provider) {
    match p.apiKey
    case None => false
    case Some(key) => key != ""
  }

  /** A freshly built provider is available exactly when its variable is set
      to a non-empty value. */
  lemma NewProviderAvailability(kind: ProviderKind, env: Environment)
    ensures IsAvailable(NewProvider(kind, env)) <==>
      KeyVariable(kind) in env && |env[KeyVariable(kind)]| > 0
  {
  }

  /** The SDK request of each `generate` is not modelled: it is a given
      function from the provider, the user message and the model id to the
      text of the reply. */
  type Completion = (Provider, string, string) -> string

  /** A provider's `generate`: ask the SDK, then trim and parse the reply. */
  function Generate(p: Provider, decode: Decoder, complete: Completion,
                    message: string, model: string): Json
  {
    ReplyToJson(decode, complete(p, message, model))
  }
}
