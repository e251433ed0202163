# A2UI backend: LLM reply cleanup and provider registry

This project models the Python backend module `backend/llm_providers.py` of
A2UI, a declarative JSON protocol in which an AI agent describes a user
interface. The backend asks one of three LLM providers (OpenAI, Anthropic,
Google Gemini) for an A2UI JSON reply. Its logic has two parts, both modelled here:

* **Reply cleanup** (`_parse_response`, one identical copy per provider class).
  The trimmed reply text may be wrapped in a Markdown code fence (three
  backticks). If it starts with one, the routine splits the text on `"\n"` and
  always drops the first line, whatever language tag it carries. It drops the
  last line only when that line is exactly three backticks, then re-joins the
  remaining lines with `"\n"`. The result goes to `json.loads`. If that raises
  `json.JSONDecodeError`, the reply becomes `{"text": content}`. Other errors
  from `json.loads` are not caught.
* **Provider registry** (`LLMService`). This is an insertion-ordered dict
  `openai`, `anthropic`, `gemini`. A provider is available when its API key is
  set and non-empty. `get_available_providers` lists the available providers
  in registry order. `get_provider` returns a provider only when it is
  registered and available. `generate` raises `ValueError` otherwise.

Modules, one per concern:

| file | module | contents |
|---|---|---|
| `wrappers.dfy` | `Wrappers` | `Option` (Python `None`-or-value), `Result` (value or raised error) |
| `lines.dfy` | `Lines` | `str.split("\n")`, `"\n".join`, index-free first/last-line definitions, and the lemmas linking them |
| `fence.dfy` | `CodeFence` | fence stripping, its reference definition, substring and round-trip lemmas |
| `reply.dfy` | `Reply` | JSON values, the abstract decoder, `str.strip()`, `_parse_response` |
| `providers.dfy` | `Providers` | provider constants, construction from the environment, `is_available`, `generate` |
| `service.dfy` | `Service` | `LLMService`: registry, listing, lookup, dispatch |

The modelling choices:

* `json.loads` is a parameter `decode: string -> Option<Json>`. `None` stands for `JSONDecodeError`.
* `os.getenv` reads a `map<string, string>`; a missing variable gives `None`.
* The SDK request is a parameter `complete(provider, message, model)` that returns the reply text. It stands for the text that one particular call received. The real call samples at `temperature=0.7`, so two calls with the same arguments need not agree, whereas `complete` always gives the same answer.
* `str.strip()` removes exactly the characters for which Python's `str.isspace` holds.
* Python's `lines[1:-1]` on a one-element list is empty. The model spells this case out.

## Model

| member | source | states |
|---|---|---|
| Lines.JoinSplit | backend/llm_providers.py:167-168 | `"\n".join(s.split("\n"))` gives back `s` for every string |
| Lines.SplitJoin | backend/llm_providers.py:167-168 | splitting the join of one or more newline-free lines gives back those lines |
| Lines.SplitAppend | backend/llm_providers.py:167 | splitting `a + "\n" + b` gives the lines of `a` followed by the lines of `b` |
| Lines.Split | backend/llm_providers.py:167 | `split("\n")` returns at least one line, and no line contains a newline |
| CodeFence.StripFenceMatchesReference | backend/llm_providers.py:166-168 | fence stripping equals "text after the first newline, minus its last line when that line is the fence", stated without splitting |
| CodeFence.StripFenceIsInfix | backend/llm_providers.py:166-168 | the stripped content is a contiguous substring of the input, never longer, and strictly shorter when a fence was present |
| CodeFence.FencedBlockRoundTrip | backend/llm_providers.py:166-168 | a complete code block with any newline-free language tag strips to exactly its body |
| CodeFence.UnclosedBlockRoundTrip | backend/llm_providers.py:168 | a block without a closing fence keeps every line after the opening one, if the last of them is not the fence |
| CodeFence.OpeningLineOnly | backend/llm_providers.py:166-168 | a reply that is only the opening fence line strips to the empty string |
| Reply.TrimStart | backend/llm_providers.py:160 | leading whitespace is removed, only whitespace is removed, and the result does not start with whitespace |
| Reply.TrimEnd | backend/llm_providers.py:160 | trailing whitespace is removed, only whitespace is removed, and the result does not end with whitespace |
| Reply.TrimSpec | backend/llm_providers.py:160 | `strip()` yields a substring with whitespace-only text on each side and no whitespace at either end |
| Reply.TrimSurrounded | backend/llm_providers.py:160 | whitespace around a text with non-whitespace ends is exactly what `strip()` removes |
| Reply.ParseResponse | backend/llm_providers.py:163-174 | let `body` be the text after the first line, minus a last line that is exactly three backticks (or the content itself when unfenced); the result is the decoded `body` when the decoder accepts it, and otherwise `{"text": body}`, where `body` is a contiguous substring of the content |
| Reply.ParseFallback | backend/llm_providers.py:170-174 | a rejected reply becomes a one-member object whose `"text"` value is a substring of the content, and is all of it when there was no fence |
| Reply.FencedReplyDecodesBody | backend/llm_providers.py:160-174 | a whitespace-padded fenced reply is decoded from exactly the block body, or falls back to `{"text": body}` |
| Providers.NewProvider | backend/llm_providers.py:139-140 | a provider's key is present exactly when its environment variable is set, and then equals its value |
| Providers.NewProviderAvailability | backend/llm_providers.py:142-143 | a provider is available exactly when its key variable is set to a non-empty string |
| Service.NewService | backend/llm_providers.py:268-273 | the registry never holds a key twice |
| Service.AvailableIndices | backend/llm_providers.py:275-285 | the listed registry positions are increasing and available, and every available position is listed |
| Service.AvailableSummariesIndexed | backend/llm_providers.py:275-285 | the listing is the id, name and models of the entries at exactly those positions, in registry order |
| Service.GetAvailableProviders | backend/llm_providers.py:275-285 | the loop builds exactly the filtered, order-preserving listing |
| Service.NewServiceListing | backend/llm_providers.py:268-285 | for the fixed registry, the listing holds the available ones of openai, anthropic and gemini, in that order, with their names and models |
| Service.Lookup | backend/llm_providers.py:289 | `dict.get` finds a provider only under its own key, and finds nothing only when the key is absent |
| Service.GetProvider | backend/llm_providers.py:287-292 | a returned provider is registered under the id and is available |
| Service.GetProviderSpec | backend/llm_providers.py:287-292 | `get_provider` returns a provider exactly when the id is registered and its provider is available |
| Service.AvailableListingMatchesLookup | backend/llm_providers.py:275-292 | an id is in the listing exactly when `get_provider` returns a provider for it |
| Service.Generate | backend/llm_providers.py:294-300 | a failure carries the message `Provider '<id>' is not available`; a success is the reply of a provider registered under the id and available |
| Service.GenerateFailsIffUnavailable | backend/llm_providers.py:294-298 | `generate` raises the not-available `ValueError` exactly when no registered entry under the id is available |

The three `_parse_response` copies (lines 163-174, 211-220 and 253-262) are
identical code; only the first carries comments. Because the code is
identical, one function, `Reply.ParseResponse`, models all three.
Likewise, one `Providers.NewProvider` models the three `__init__`s (lines
139-140, 188-189, 233-234), and one `Providers.IsAvailable` models the three
`is_available`s (lines 142-143, 191-192, 236-237).

## Left out

- Service.Generate: its `Failure` holds only the not-available `ValueError`. Two other kinds of exception also escape `generate` and are not modelled: exceptions raised by the SDK request (for example, a key that is set but invalid), and errors from `json.loads` other than `JSONDecodeError`. `complete` is total in the model.
- Strings are sequences of Unicode scalar values. A Python `str` may also hold a lone surrogate, which this domain excludes. No operation here treats such a character differently from any other non-whitespace, non-newline character.
- Reply.ParseResponse: total in the model, whereas `_parse_response` catches only `json.JSONDecodeError`. Other errors from `json.loads` propagate out of `_parse_response` and `generate`. Examples are `RecursionError` on deeply nested input and `ValueError` on an over-long integer literal. The abstract decoder has no raising outcome for them.

- SDK calls inside each provider's `generate` (`openai`, `anthropic`, `google.generativeai`): network clients. The model takes the reply text from a `complete` parameter.
- The `async`/`await` structure: it has no effect on the results.
- `temperature`, `max_tokens`, the system prompt argument and the default `model` parameter values: these are only passed to the SDK. `LLMService.generate` always passes a model explicitly.
- The `A2UI_SCHEMA` and `SYSTEM_PROMPT` text: prompt content with no behaviour.
- `json.loads` is abstract. The model does not re-implement the JSON grammar, and numbers are kept as their literal text rather than Python `int`/`float`.
- Environment access is a given map. The module-level `llm_service` instance is `Service.NewService` applied to that map.
- `LLMProvider` is an abstract base class with no behaviour of its own.
- `backend/app.py`: FastAPI routing, CORS, uvicorn startup and the empty-message 400 check. The helpers it calls (`get_a2ui_response`, `get_openai_completion`) are not part of this model.
- The TypeScript protocol core (response validation, update application, binding and condition evaluation) and the React/Lit renderers are not part of this model.
