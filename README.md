# Nyaysathi analysis request path, modelled in Dafny

Nyaysathi is a legal-document assistant with a FastAPI backend. This project
models the backend's analysis request path:

- **`/analyze`** (`backend/app.py`). It refuses a missing or empty text and
  dispatches on `mode` (`summarize`, `simplify`, `qa`). For each mode it cuts
  the text to a fixed leading slice, fills one prompt template and calls
  `generate` with fixed generation options.
- **The three endpoints backed by the Gemini helper client**: `/enhance-summary`,
  `/risk-analysis` and `/translate-hindi`. Only `/enhance-summary` checks for
  text first. `/enhance-summary` (2000 characters) and `/translate-hindi` (1000
  characters) cut the text; `/risk-analysis` forwards it as it is. Each maps an
  empty answer to an error record.
- **The fixed `/google-ai-status` record.**
- **`generate`** (`backend/ollama_client.py`). Despite the file's name, it talks
  to the Gemini REST API. It checks that an API key is set, builds the URL,
  builds the JSON payload, translates the caller's options into Gemini's
  `generationConfig`, sends one POST, and projects the reply onto the stripped
  text of its first part.

Files:

- `py_values.dfy` (module `PyValues`): the Python values involved. These are
  `Option`, `Result`, the exception kinds that can escape (`PyError`), and decoded
  JSON (`Value`). It also has `dict.get(key, default)` (`Get`) and `x[0]` (`First`).
- `py_str.dfy` (module `PyStr`): `s[:n]` (`Prefix`) and `s.strip()` (`Strip`).
  `Strip` uses CPython's whitespace set.
- `ollama_client.dfy` (module `OllamaClient`): `generate`.
- `app.dfy` (module `App`): the request body with its defaults, and the
  handlers.

Outside effects are parameters:

- The HTTP client is `post: HttpRequest -> HttpOutcome`. An outcome is a
  response (status code plus a body that may fail to decode as JSON), a
  timeout, a connection failure, or any other failure of the client.
- The environment's `GEMINI_API_KEY` is an `Option<string>`.
- The prompt templates are `render: Fill -> string`. A `Fill` records which
  template is used and what goes into its `content` and `question` slots.
- The Gemini helper client's three calls are functions from the text they
  receive to an optional answer.

A handler ends either in the JSON object it returns (`Respond`) or in the
exception that escapes it (`Raise`). An escaping exception is what FastAPI turns
into a 500 response.

Behaviour of the code worth noting:

- `/risk-analysis` does not truncate its text and does not check that there is
  one.
- A present but empty `candidates` or `parts` list raises `IndexError`. It does
  not yield the empty text.
- There is no backend selection: `/analyze` always calls Gemini. It passes the
  body's `model` (default `"llama3.2"`) as the Gemini model name in the URL.
- Error records are plain `{"error": ...}` objects returned with a success
  status. They are not typed error kinds.
- `raise_for_status` fails for statuses 400 to 599, which is the HTTP client's
  rule. The model does not use a "non-2xx" rule.

## Model

| member | source | states |
|---|---|---|
| PyStr.Prefix | backend/app.py:49 | `text[:n]` is the prefix of `text` of length `min(len(text), n)` |
| PyStr.PrefixAgrees | backend/app.py:49 | `text[:n]` depends only on the first `n` characters |
| PyStr.LStrip | backend/ollama_client.py:45 | the left strip removes a whitespace-only prefix and stops at a non-whitespace character |
| PyStr.RStrip | backend/ollama_client.py:45 | the right strip removes a whitespace-only suffix and stops at a non-whitespace character |
| PyStr.Strip | backend/ollama_client.py:45 | `strip()` never returns text that starts or ends with whitespace, and never lengthens it |
| PyStr.LStripAt | backend/ollama_client.py:45 | the left strip ends exactly at the first non-whitespace character |
| PyStr.RStripAt | backend/ollama_client.py:45 | the right strip ends exactly after the last non-whitespace character |
| PyStr.StripAt | backend/ollama_client.py:45 | `strip()` is the unique slice with only whitespace around it and no whitespace at its ends |
| PyStr.StripAllSpace | backend/ollama_client.py:45 | whitespace-only text strips to the empty string |
| PyStr.StripIdempotent | backend/ollama_client.py:45 | stripping a second time changes nothing |
| PyValues.Get | backend/ollama_client.py:41-44 | `.get(key, default)` works only on a dict; it returns the value when the key is present and the default only when the key is absent |
| PyValues.First | backend/ollama_client.py:41-43 | `[0]` gives the first element of a non-empty list; it raises `IndexError` exactly on an empty list or string |
| OllamaClient.RequestUrlDetermines | backend/ollama_client.py:14 | the URL `GEMINI_URL/{model}:generateContent?key={key}` determines the model and the key it was built from (for model names without a colon) |
| OllamaClient.SplitAtColon | backend/ollama_client.py:14 | a colon-free segment followed by a colon-led tag can be split off uniquely |
| OllamaClient.GenerationConfig | backend/ollama_client.py:24-31 | `temperature` is copied when present, `num_predict` becomes `maxOutputTokens`, and no other key appears |
| OllamaClient.Payload | backend/ollama_client.py:17-31 | the body has exactly one `contents` entry with one part carrying the prompt unchanged; `generationConfig` is present iff the options contain `temperature` or `num_predict` |
| OllamaClient.BuildPayload | backend/ollama_client.py:17-31 | the key-by-key, in-place construction yields exactly `Payload` |
| OllamaClient.StripText | backend/ollama_client.py:45 | `.strip()` succeeds exactly on a string and returns trimmed text |
| OllamaClient.PartText | backend/ollama_client.py:43-45 | the text read from a `parts` list is trimmed |
| OllamaClient.CandidateText | backend/ollama_client.py:41-45 | the text read from a `candidates` list is trimmed |
| OllamaClient.ResponseText | backend/ollama_client.py:40-46 | the projected text never starts or ends with whitespace |
| OllamaClient.ResponseTextFirstPart | backend/ollama_client.py:40-46 | in a well-formed reply the result is the first part's text of the first candidate, stripped |
| OllamaClient.ResponseTextIgnoresLaterCandidates | backend/ollama_client.py:41 | candidates after the first never affect the result |
| OllamaClient.ResponseTextIgnoresLaterParts | backend/ollama_client.py:43 | parts after the first never affect the result, whatever other keys and candidates the reply holds |
| OllamaClient.ResponseTextNoCandidates | backend/ollama_client.py:41 | a reply without `candidates` yields `""`, whatever else it holds |
| OllamaClient.ResponseTextNoContent | backend/ollama_client.py:42 | a first candidate without `content` (a blocked reply) yields `""`, whatever other keys and candidates there are |
| OllamaClient.ResponseTextNoParts | backend/ollama_client.py:43 | a first candidate's content without `parts` yields `""` |
| OllamaClient.ResponseTextNoText | backend/ollama_client.py:44 | a first part without `text` yields `""` |
| OllamaClient.ResponseTextEmptyCandidatesRaises | backend/ollama_client.py:41 | a present but empty `candidates` list raises `IndexError` |
| OllamaClient.ResponseTextEmptyPartsRaises | backend/ollama_client.py:43 | a present but empty `parts` list in the first candidate raises `IndexError`, whatever else the reply holds |
| OllamaClient.Generate | backend/ollama_client.py:10-46 | without a key it fails with `MissingApiKey`; with a key it fails on timeout, on connection failure, on any other client failure, on status 400-599 and on an undecodable body; otherwise it returns the projected text, which is trimmed |
| OllamaClient.GenerateChecksKeyFirst | backend/ollama_client.py:11-12 | without a key the result does not depend on the HTTP client: nothing is sent |
| OllamaClient.GenerateSendsOneRequest | backend/ollama_client.py:14-35 | with a key the result depends only on the HTTP client's answer to the one request `Request(...)` |
| App.ModeTemplate | backend/app.py:48-62 | a template is chosen exactly for the three declared modes |
| App.AnalyzePlan | backend/app.py:43-64 | empty or missing text gives "text required" for every mode; an undeclared mode gives "unsupported mode"; otherwise one call with the mode's template, a prefix of length `min(len, limit)`, the mode's options and the body's model, with a question slot only for qa |
| App.AnalyzeQaQuestion | backend/app.py:59-60 | an absent or empty qa question becomes `""`; any other question is passed on unchanged |
| App.AnalyzeIgnoresTextBeyondLimit | backend/app.py:48-62 | characters beyond the mode's limit (120000 / 16000 / 120000) never affect the call |
| App.AnalyzeShortTextWhole | backend/app.py:48-62 | a text within the mode's limit is passed on whole |
| App.AnalyzeDefaultModel | backend/app.py:33 | a body without `model` is forwarded with the model `"llama3.2"` |
| App.AnalyzeRequest | backend/app.py:44-62 | an HTTP request is due exactly when the text is non-empty, the mode is declared and a key is set |
| App.Analyze | backend/app.py:43-64 | empty text gives "text required" and an undeclared mode "unsupported mode", as planned; otherwise the answer is `{"result": out}` for the text `generate` returns, which is trimmed, and any exception `generate` raises escapes unchanged |
| App.AnalyzeContactsOnlyItsRequest | backend/app.py:44-62 | `/analyze` depends on the HTTP client only through `AnalyzeRequest`; with empty text it does not contact it at all |
| App.AnalyzeRequestOptions | backend/app.py:50-61 | the request goes to the body's model with a 60 s timeout; its `generationConfig` is (0.3, 512) for summarize, (0.3, 400) for simplify and (0.2, 384) for qa |
| App.OptionsTranslated | backend/ollama_client.py:24-31 | the options dict of `/analyze` becomes `{temperature, maxOutputTokens}` with the same values |
| App.EnhanceSummary | backend/app.py:66-74 | empty text gives "text required"; a truthy answer on the first 2000 characters is returned with `powered_by`; an empty answer gives "Google AI Studio not available"; it never raises |
| App.EnhanceSummaryConsultsOnlyPrefix | backend/app.py:68-70 | the helper client is consulted only on the first 2000 characters, and not at all without text |
| App.EnhanceSummaryIgnoresTextBeyondLimit | backend/app.py:70 | texts that agree on their first 2000 characters get the same answer |
| App.RiskAnalysis | backend/app.py:76-82 | the text goes through whole, even when it is missing; a truthy answer is returned with `powered_by`; otherwise "Risk analysis unavailable" |
| App.RiskAnalysisHasNoTextGuard | backend/app.py:78 | without any text, the helper client's answer to a missing text is still returned as a risk analysis |
| App.TranslateHindi | backend/app.py:84-90 | a missing text raises `TypeError`; otherwise the first 1000 characters are translated; an empty answer gives "Translation unavailable" |
| App.TranslateHindiConsultsOnlyPrefix | backend/app.py:86 | the helper client is consulted only on the first 1000 characters |
| App.TranslateHindiIgnoresTextBeyondLimit | backend/app.py:86 | texts that agree on their first 1000 characters get the same answer |
| App.GoogleAiStatus | backend/app.py:92-99 | exactly four keys: the availability flag as given, the fixed service and model names, and `billing_required` false |

## Left out

- `/upload`, `/health`, the FastAPI app, the CORS middleware and `load_dotenv`
  are left out. They are framework plumbing, or they delegate to
  `backend/extract.py`, which is not part of this model.
- Request-body validation is left out. The body's type declares `mode` as one of
  three literals, so the framework answers 422 for any other mode before a
  handler runs. The model keeps `mode` a plain string, so the handler's own
  "unsupported mode" branch stays visible.
- Template text and `str.format` are left out. `backend/prompts.py` is not part
  of this model, so templates are the opaque `render` parameter.
- The Gemini helper client (`backend/gemini_client.py`) is not part of this
  model. Each of its calls is a parameter returning an optional string. Any
  exception it might raise is not modelled.
- The HTTP call, `resp.json()` and `os.getenv` are I/O. They are parameters: the
  HTTP outcome, and the key as an `Option<string>`. The 60-second timeout is a
  field of the request. The clock that enforces it is not modelled.
- The default `model` argument of `generate` (`GEMINI_MODEL`) is left out.
  Every caller on this path passes the body's `model`, so the default is never
  used.
- The HTTP client's failures other than a timeout and a connection failure are
  one outcome, `RequestFailed`. They are not told apart by kind.
- Floats are not computed anywhere on this path. They are kept as decimal
  literals (`0.3` is `JFloat(3, -1)`).
- Async execution is left out. The handlers have no concurrency logic.
- Python strings may hold lone surrogate code points. Dafny characters are
  Unicode scalar values, so such strings are not represented.
- OllamaClient.RequestUrlDetermines: stated only for model names without a
  colon. With a colon in the model name, two different (model, key) pairs can
  give the same URL.
