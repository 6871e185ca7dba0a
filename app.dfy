/** The analysis endpoints of the API: `/analyze` (summarize, simplify, qa),
    which prepares a prompt and calls `generate`, and the three endpoints backed
    by the Gemini helper client, plus the fixed `/google-ai-status` record.
    Each handler maps a request body to the JSON object it returns, or to the
    exception that escapes it. Prompt templates, the Gemini helper client and
    the HTTP client are parameters: their code is not part of this model. */
module App {
  import opened PyValues
  import opened PyStr
  import OllamaClient

  const DefaultModel: string := "llama3.2"
  const SummarizeLimit: nat := 120000
  const SimplifyLimit: nat := 16000
  const QaLimit: nat := 120000
  const EnhanceLimit: nat := 2000
  const TranslateLimit: nat := 1000
  const PoweredBy: string := "Google Gemini AI"

  /** The request body every endpoint accepts. An absent field is `None`. */
  datatype AnalyzeBody = AnalyzeBody(mode: string, text: Option<string>, question: Option<string>, model: Option<string>)

  /** A body in which only `mode` was sent: the other fields take their declared defaults. */
  function BodyWithDefaults(mode: string): AnalyzeBody {
    AnalyzeBody(mode, None, None, Some(DefaultModel))
  }

  /** The modes the body's type declares; any other value is refused before a handler runs. */
  predicate DeclaredMode(mode: string) {
    mode == "summarize" || mode == "simplify" || mode == "qa"
  }

  /** Python truthiness of an optional string: neither `None` nor empty. */
  predicate Truthy(s: Option<string>) {
    s.Some? && s.value != ""
  }

  /** How an optional string prints inside an f-string. */
  function Str(s: Option<string>): string {
    match s
    case None => "None"
    case Some(v) => v
  }

  /** The three prompt templates of `/analyze`. Their text is not part of this model. */
  datatype Template = SummarizeTemplate | SimplifyTemplate | QaTemplate

  /** The arguments given to a template's `format`: the content slot, and the
      question slot for the qa template only. */
  datatype Fill = Fill(template: Template, content: string, question: Option<string>)

  /** The arguments `/analyze` passes to `generate`, with the prompt still unrendered. */
  datatype GenerateCall = GenerateCall(fill: Fill, model: Option<string>, options: map<string, Value>)

  /** What `/analyze` decides before any backend is contacted. */
  datatype Plan = Reply(body: map<string, Value>) | Call(call: GenerateCall)

  /** What a handler ends with: the JSON object it returns, or the exception it lets escape. */
  datatype Outcome = Respond(body: map<string, Value>) | Raise(error: PyError)

  function ErrorBody(message: string): map<string, Value> {
    map["error" := JString(message)]
  }

  function ModeTemplate(mode: string): (t: Option<Template>)
    ensures t.Some? <==> DeclaredMode(mode)
  {
    if mode == "summarize" then Some(SummarizeTemplate)
    else if mode == "simplify" then Some(SimplifyTemplate)
    else if mode == "qa" then Some(QaTemplate)
    else None
  }

  /** How many leading characters of the text each template receives. */
  function ContentLimit(t: Template): nat {
    match t
    case SummarizeTemplate => SummarizeLimit
    case SimplifyTemplate => SimplifyLimit
    case QaTemplate => QaLimit
  }

  /** The options dict `/analyze` passes with a temperature given in tenths. */
  function Options(temperatureTenths: int, numPredict: int): map<string, Value> {
    map["temperature" := JFloat(temperatureTenths, -1), "num_predict" := JInt(numPredict)]
  }

  /** The generation options each template is sent with. */
  function TemplateOptions(t: Template): map<string, Value> {
    match t
    case SummarizeTemplate => Options(3, 512)
    case SimplifyTemplate => Options(3, 400)
    case QaTemplate => Options(2, 384)
  }

  /** The decision `/analyze` takes: an error record when the text is missing
      or empty (whatever the mode) or the mode is unknown, otherwise one call of
      `generate` with a leading slice of the text, the body's model and the
      options of the mode. */
  function AnalyzePlan(body: AnalyzeBody): (plan: Plan)
    ensures !Truthy(body.text) ==> plan == Reply(ErrorBody("text required"))
    ensures Truthy(body.text) && !DeclaredMode(body.mode) ==> plan == Reply(ErrorBody("unsupported mode"))
    ensures plan.Call? <==> Truthy(body.text) && DeclaredMode(body.mode)
    ensures plan.Call? ==>
      var call, text := plan.call, body.text.value;
      && Some(call.fill.template) == ModeTemplate(body.mode)
      && |call.fill.content| == Min(|text|, ContentLimit(call.fill.template))
      && call.fill.content == text[..|call.fill.content|]
      && call.options == TemplateOptions(call.fill.template)
      && call.model == body.model
      && (call.fill.question.Some? <==> call.fill.template == QaTemplate)
  {
    if !Truthy(body.text) then Reply(ErrorBody("text required"))
    else if body.mode == "summarize" then
      Call(GenerateCall(Fill(SummarizeTemplate, Prefix(body.text.value, SummarizeLimit), None), body.model, Options(3, 512)))
    else if body.mode == "simplify" then
      Call(GenerateCall(Fill(SimplifyTemplate, Prefix(body.text.value, SimplifyLimit), None), body.model, Options(3, 400)))
    else if body.mode == "qa" then
      var q := if Truthy(body.question) then body.question.value else "";
      Call(GenerateCall(Fill(QaTemplate, Prefix(body.text.value, QaLimit), Some(q)), body.model, Options(2, 384)))
    else Reply(ErrorBody("unsupported mode"))
  }

  /** The qa question is the body's question, and an absent or empty one
      becomes the empty string instead of an error. */
  lemma AnalyzeQaQuestion(body: AnalyzeBody)
    requires body.mode == "qa" && Truthy(body.text)
    ensures AnalyzePlan(body).Call?
    ensures AnalyzePlan(body).call.fill.question == Some(if body.question.Some? then body.question.value else "")
  {
  }

  /** Text beyond the mode's limit never reaches the prompt: two texts that
      agree on their leading characters lead to the same call. */
  lemma AnalyzeIgnoresTextBeyondLimit(body: AnalyzeBody, other: string)
    requires Truthy(body.text) && DeclaredMode(body.mode) && other != ""
    requires Prefix(other, ContentLimit(ModeTemplate(body.mode).value)) == Prefix(body.text.value, ContentLimit(ModeTemplate(body.mode).value))
    ensures AnalyzePlan(body.(text := Some(other))) == AnalyzePlan(body)
  {
  }

  /** A text no longer than the mode's limit is passed on whole. */
  lemma AnalyzeShortTextWhole(body: AnalyzeBody)
    requires Truthy(body.text) && DeclaredMode(body.mode)
    requires |body.text.value| <= ContentLimit(ModeTemplate(body.mode).value)
    ensures AnalyzePlan(body).call.fill.content == body.text.value
  {
  }

  /** A body that leaves `model` out is answered by the model named "llama3.2". */
  lemma AnalyzeDefaultModel(mode: string, text: string)
    requires DeclaredMode(mode) && text != ""
    ensures AnalyzePlan(BodyWithDefaults(mode).(text := Some(text))).call.model == Some("llama3.2")
  {
  }

  /** The HTTP request `/analyze` ends up sending, if any. */
  function AnalyzeRequest(body: AnalyzeBody, apiKey: Option<string>, render: Fill -> string): (request: Option<OllamaClient.HttpRequest>)
    ensures request.Some? <==> AnalyzePlan(body).Call? && OllamaClient.HasKey(apiKey)
  {
    match AnalyzePlan(body)
    case Reply(_) => None
    case Call(call) =>
      if OllamaClient.HasKey(apiKey)
      then Some(OllamaClient.Request(render(call.fill), Str(call.model), apiKey.value, Some(call.options)))
      else None
  }

  /** `/analyze` with the API key from the environment, the template renderer
      and the HTTP client. */
  function Analyze(body: AnalyzeBody, apiKey: Option<string>, render: Fill -> string,
                   post: OllamaClient.HttpRequest -> OllamaClient.HttpOutcome): (r: Outcome)
    ensures !Truthy(body.text) ==> r == Respond(ErrorBody("text required"))
    ensures r.Raise? ==> AnalyzePlan(body).Call?
    ensures r.Respond? && AnalyzePlan(body).Call? ==> r.body.Keys == {"result"} && r.body["result"].JString?
    ensures r.Respond? && "result" in r.body ==> r.body["result"].JString? && Trimmed(r.body["result"].s)
    ensures AnalyzePlan(body).Reply? ==> r == Respond(AnalyzePlan(body).body)
    ensures AnalyzePlan(body).Call? ==>
      var call := AnalyzePlan(body).call;
      var out := OllamaClient.Generate(apiKey, render(call.fill), Str(call.model), Some(call.options), post);
      && (out.Ok? ==> r == Respond(map["result" := JString(out.value)]))
      && (out.Err? ==> r == Raise(out.error))
  {
    match AnalyzePlan(body)
    case Reply(reply) => Respond(reply)
    case Call(call) =>
      match OllamaClient.Generate(apiKey, render(call.fill), Str(call.model), Some(call.options), post)
      case Ok(out) => Respond(map["result" := JString(out)])
      case Err(e) => Raise(e)
  }

  /** `/analyze` contacts the backend with `AnalyzeRequest` and nothing else:
      when no request is due (missing text, unknown mode, no key) the answer does
      not depend on the HTTP client at all, otherwise only on its answer to that
      one request. */
  lemma AnalyzeContactsOnlyItsRequest(body: AnalyzeBody, apiKey: Option<string>, render: Fill -> string,
                                      post1: OllamaClient.HttpRequest -> OllamaClient.HttpOutcome,
                                      post2: OllamaClient.HttpRequest -> OllamaClient.HttpOutcome)
    requires AnalyzeRequest(body, apiKey, render).Some?
        ==> post1(AnalyzeRequest(body, apiKey, render).value) == post2(AnalyzeRequest(body, apiKey, render).value)
    ensures Analyze(body, apiKey, render, post1) == Analyze(body, apiKey, render, post2)
  {
    if AnalyzePlan(body).Call? && OllamaClient.HasKey(apiKey) {
      var call := AnalyzePlan(body).call;
      OllamaClient.GenerateSendsOneRequest(apiKey, render(call.fill), Str(call.model), Some(call.options), post1, post2);
    }
  }

  /** The request `/analyze` sends goes to the body's model (or the default
      "llama3.2") and carries the mode's temperature and output-token limit as
      Gemini's `temperature` and `maxOutputTokens`. */
  lemma AnalyzeRequestOptions(body: AnalyzeBody, apiKey: Option<string>, render: Fill -> string)
    requires AnalyzeRequest(body, apiKey, render).Some?
    ensures var request := AnalyzeRequest(body, apiKey, render).value;
      && request.url == OllamaClient.RequestUrl(Str(body.model), apiKey.value)
      && request.timeoutSeconds == 60
      && "generationConfig" in request.payload.fields
      && request.payload.fields["generationConfig"] == JObject(
           if body.mode == "summarize" then map["temperature" := JFloat(3, -1), "maxOutputTokens" := JInt(512)]
           else if body.mode == "simplify" then map["temperature" := JFloat(3, -1), "maxOutputTokens" := JInt(400)]
           else map["temperature" := JFloat(2, -1), "maxOutputTokens" := JInt(384)])
  {
    var call := AnalyzePlan(body).call;
    if body.mode == "summarize" {
      OptionsTranslated(3, 512);
    } else if body.mode == "simplify" {
      OptionsTranslated(3, 400);
    } else {
      OptionsTranslated(2, 384);
    }
  }

  lemma OptionsTranslated(temperatureTenths: int, numPredict: int)
    ensures OllamaClient.GenerationConfig(Some(Options(temperatureTenths, numPredict)))
         == map["temperature" := JFloat(temperatureTenths, -1), "maxOutputTokens" := JInt(numPredict)]
  {
  }

  /** `/enhance-summary`: refuses a missing or empty text without contacting the
      helper client, forwards at most the first 2000 characters, and reports an
      empty or missing answer as unavailability. */
  function EnhanceSummary(body: AnalyzeBody, enhance: string -> Option<string>): (r: Outcome)
    ensures r.Respond?
    ensures !Truthy(body.text) ==> r == Respond(ErrorBody("text required"))
    ensures Truthy(body.text) ==>
      var out := enhance(Prefix(body.text.value, EnhanceLimit));
      && ("enhanced_summary" in r.body <==> Truthy(out))
      && (Truthy(out) ==> r.body == map["enhanced_summary" := JString(out.value), "powered_by" := JString(PoweredBy)])
      && (!Truthy(out) ==> r.body == ErrorBody("Google AI Studio not available"))
  {
    if !Truthy(body.text) then Respond(ErrorBody("text required"))
    else
      var enhanced := enhance(Prefix(body.text.value, EnhanceLimit));
      if Truthy(enhanced)
      then Respond(map["enhanced_summary" := JString(enhanced.value), "powered_by" := JString(PoweredBy)])
      else Respond(ErrorBody("Google AI Studio not available"))
  }

  /** `/enhance-summary` consults the helper client on the leading 2000
      characters only, and not at all without text. */
  lemma EnhanceSummaryConsultsOnlyPrefix(body: AnalyzeBody, enhance1: string -> Option<string>, enhance2: string -> Option<string>)
    requires Truthy(body.text) ==> enhance1(Prefix(body.text.value, EnhanceLimit)) == enhance2(Prefix(body.text.value, EnhanceLimit))
    ensures EnhanceSummary(body, enhance1) == EnhanceSummary(body, enhance2)
  {
  }

  /** Two texts that agree on their first 2000 characters get the same answer
      from `/enhance-summary`. */
  lemma EnhanceSummaryIgnoresTextBeyondLimit(body: AnalyzeBody, other: string, enhance: string -> Option<string>)
    requires body.text.Some? && |body.text.value| >= EnhanceLimit && |other| >= EnhanceLimit
    requires other[..EnhanceLimit] == body.text.value[..EnhanceLimit]
    ensures EnhanceSummary(body.(text := Some(other)), enhance) == EnhanceSummary(body, enhance)
  {
    PrefixAgrees(other, body.text.value, EnhanceLimit);
  }

  /** `/risk-analysis`: forwards the text as it is, even when it is missing or
      empty, and reports an empty or missing answer as unavailability. */
  function RiskAnalysis(body: AnalyzeBody, analyse: Option<string> -> Option<string>): (r: Outcome)
    ensures r.Respond?
    ensures "risk_analysis" in r.body <==> Truthy(analyse(body.text))
    ensures Truthy(analyse(body.text)) ==> r.body == map["risk_analysis" := JString(analyse(body.text).value), "powered_by" := JString(PoweredBy)]
    ensures !Truthy(analyse(body.text)) ==> r.body == ErrorBody("Risk analysis unavailable")
  {
    var result := analyse(body.text);
    if Truthy(result)
    then Respond(map["risk_analysis" := JString(result.value), "powered_by" := JString(PoweredBy)])
    else Respond(ErrorBody("Risk analysis unavailable"))
  }

  /** Unlike `/analyze` and `/enhance-summary`, `/risk-analysis` has no text
      guard: without text it still answers with whatever the helper client makes
      of the missing text. */
  lemma RiskAnalysisHasNoTextGuard(mode: string, analyse: Option<string> -> Option<string>)
    requires Truthy(analyse(None))
    ensures RiskAnalysis(BodyWithDefaults(mode), analyse).body["risk_analysis"] == JString(analyse(None).value)
  {
  }

  /** `/translate-hindi`: slices the text to 1000 characters without checking it
      first, so a missing text raises `TypeError`; an empty or missing answer is
      reported as unavailability. */
  function TranslateHindi(body: AnalyzeBody, translate: string -> Option<string>): (r: Outcome)
    ensures r.Raise? <==> body.text.None?
    ensures r.Raise? ==> r.error == TypeError
    ensures body.text.Some? ==>
      var out := translate(Prefix(body.text.value, TranslateLimit));
      && (Truthy(out) ==> r.body == map["hindi_translation" := JString(out.value), "powered_by" := JString(PoweredBy)])
      && (!Truthy(out) ==> r.body == ErrorBody("Translation unavailable"))
  {
    match body.text
    case None => Raise(TypeError)
    case Some(text) =>
      var result := translate(Prefix(text, TranslateLimit));
      if Truthy(result)
      then Respond(map["hindi_translation" := JString(result.value), "powered_by" := JString(PoweredBy)])
      else Respond(ErrorBody("Translation unavailable"))
  }

  /** `/translate-hindi` consults the helper client on the leading 1000
      characters only. */
  lemma TranslateHindiConsultsOnlyPrefix(body: AnalyzeBody, translate1: string -> Option<string>, translate2: string -> Option<string>)
    requires body.text.Some? ==> translate1(Prefix(body.text.value, TranslateLimit)) == translate2(Prefix(body.text.value, TranslateLimit))
    ensures TranslateHindi(body, translate1) == TranslateHindi(body, translate2)
  {
  }

  /** Two texts that agree on their first 1000 characters get the same answer
      from `/translate-hindi`. */
  lemma TranslateHindiIgnoresTextBeyondLimit(body: AnalyzeBody, other: string, translate: string -> Option<string>)
    requires body.text.Some? && |body.text.value| >= TranslateLimit && |other| >= TranslateLimit
    requires other[..TranslateLimit] == body.text.value[..TranslateLimit]
    ensures TranslateHindi(body.(text := Some(other)), translate) == TranslateHindi(body, translate)
  {
    PrefixAgrees(other, body.text.value, TranslateLimit);
  }

  /** `/google-ai-status`: a fixed record apart from the helper client's availability flag. */
  function GoogleAiStatus(available: bool): (status: map<string, Value>)
    ensures status.Keys == {"google_ai_available", "service", "model", "billing_required"}
    ensures status["google_ai_available"] == JBool(available)
    ensures status["billing_required"] == JBool(false)
    ensures status["service"] == JString("Google AI Studio (Free Tier)") && status["model"] == JString("Gemini 1.5 Flash")
  {
    map[
      "google_ai_available" := JBool(available),
      "service" := JString("Google AI Studio (Free Tier)"),
      "model" := JString("Gemini 1.5 Flash"),
      "billing_required" := JBool(false)
    ]
  }
}
