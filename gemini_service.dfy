/** The answering-service bridge: the request and response records, the
    service's construction check, the prompt it builds and the mapping from the
    outcome of the external call to an `AiResponse`. The HTTP call itself is a
    parameter `api` from the prompt to the reply it produces. */
module Gemini {
  import opened Wrappers

  /** `AiRequest`; `RequireAnswer` defaults to true. */
  datatype AiRequest = AiRequest(question: string, context: Option<string>, userId: Option<string>, requireAnswer: bool)

  const DefaultAiRequest := AiRequest("", None, None, true)

  /** `AiResponse` without its timestamp. */
  datatype AiResponse = AiResponse(answer: string, success: bool, errorMessage: Option<string>, modelUsed: Option<string>)

  const DefaultAiResponse := AiResponse("", false, None, None)

  /** `GeminiSettings` without its floating-point temperature. */
  datatype GeminiSettings = GeminiSettings(apiKey: string, modelName: string, maxTokens: int)

  const DefaultSettings := GeminiSettings("", "gemini-1.5-flash", 1000)

  datatype GeminiAiService = GeminiAiService(settings: GeminiSettings)

  const MissingKeyMessage := "Gemini API key is not configured"

  /** The constructor throws when no API key is configured. */
  function NewGeminiAiService(settings: GeminiSettings): (r: Result<GeminiAiService, string>)
    ensures r.Failure? <==> settings.apiKey == ""
    ensures r.Failure? ==> r.error == MissingKeyMessage
    ensures r.Success? ==> r.value.settings == settings
  {
    if settings.apiKey == "" then Failure(MissingKeyMessage) else Success(GeminiAiService(settings))
  }

  const BaseInstruction := "You are a helpful AI assistant. Please provide a clear and concise answer to the following question."
  const ContextLabel := "\n\nContext: "
  const DirectAnswerDirective := "\n\nPlease provide a direct answer to the question."
  const UncertaintyDirective := "\n\nIf you cannot provide a definitive answer, please indicate that clearly."
  const QuestionLabel := "\n\nQuestion: "

  function Directive(requireAnswer: bool): string
  {
    if requireAnswer then DirectAnswerDirective else UncertaintyDirective
  }

  /** The prompt: the base instruction, the context block when there is a
      context, the directive chosen by `requireAnswer`, then the question. */
  function BuildPrompt(request: AiRequest): (p: string)
    ensures |BaseInstruction| <= |p| && p[..|BaseInstruction|] == BaseInstruction
    ensures var q := QuestionLabel + request.question;
            |q| <= |p| && p[|p| - |q|..] == q
    ensures var q := QuestionLabel + request.question;
            var d := Directive(request.requireAnswer);
            |BaseInstruction| + |d| + |q| <= |p| && p[|p| - |q| - |d|..|p| - |q|] == d
    ensures !NullOrEmpty(request.context) ==>
              var c := ContextLabel + request.context.value;
              |p| == |BaseInstruction| + |c| + |Directive(request.requireAnswer)| + |QuestionLabel + request.question|
              && p[|BaseInstruction|..|BaseInstruction| + |c|] == c
    ensures NullOrEmpty(request.context) ==>
              |p| == |BaseInstruction| + |Directive(request.requireAnswer)| + |QuestionLabel + request.question|
  {
    var c := if NullOrEmpty(request.context) then "" else ContextLabel + request.context.value;
    var p := BaseInstruction + c + Directive(request.requireAnswer) + (QuestionLabel + request.question);
    ConcatParts(BaseInstruction, c, Directive(request.requireAnswer), QuestionLabel + request.question);
    p
  }

  /** Where each of four concatenated parts sits in the whole. */
  lemma ConcatParts(a: string, b: string, c: string, d: string)
    ensures var p := a + b + c + d;
            && |p| == |a| + |b| + |c| + |d|
            && p[..|a|] == a
            && p[|a|..|a| + |b|] == b
            && p[|p| - |d| - |c|..|p| - |d|] == c
            && p[|p| - |d|..] == d
  {
    var p := a + b + c + d;
    assert p[..|a|] == a;
    assert p[|a|..|a| + |b|] == b;
    assert p[|p| - |d| - |c|..|p| - |d|] == c;
    assert p[|p| - |d|..] == d;
  }

  /** What the external call can come back with: a 2xx reply (with the text of the
      first candidate's first part, if the reply has one), a non-2xx status with
      its body, or an exception (transport failure, timeout, malformed JSON). */
  datatype ApiReply =
    | Replied(text: Option<string>)
    | ErrorStatus(status: string, body: string)
    | Threw(message: string)

  const NoResponseText := "No response generated"

  /** `CallGeminiApiAsync`: the answer text, or the message of the exception it throws. */
  function CallGeminiApi(reply: ApiReply): (r: Result<string, string>)
    ensures r.Success? <==> reply.Replied?
    ensures reply.Replied? && reply.text.Some? ==> r == Success(reply.text.value)
    ensures reply == Replied(None) ==> r == Success(NoResponseText)
    ensures reply.ErrorStatus? ==> r == Failure("Gemini API error: " + reply.status + " - " + reply.body)
    ensures reply.Threw? ==> r == Failure(reply.message)
  {
    match reply
    case Replied(text) => Success(text.GetOr(NoResponseText))
    case ErrorStatus(status, body) => Failure("Gemini API error: " + status + " - " + body)
    case Threw(message) => Failure(message)
  }

  const EmptyQuestionMessage := "Question cannot be empty"
  const ServiceErrorPrefix := "AI service error: "

  /** `GetAnswerAsync`: never throws. An empty question is answered without calling
      `api`; otherwise `api` gets the built prompt, a reply becomes a success carrying
      the model name, and every failure becomes "AI service error: " + its message. */
  function GetAnswer(service: GeminiAiService, request: AiRequest, api: string -> ApiReply): (r: AiResponse)
    ensures request.question == "" ==> r == AiResponse("", false, Some(EmptyQuestionMessage), None)
    ensures r.success <==> request.question != "" && api(BuildPrompt(request)).Replied?
    ensures r.success ==>
              && r.modelUsed == Some(service.settings.modelName)
              && r.errorMessage == None
              && r.answer == api(BuildPrompt(request)).text.GetOr(NoResponseText)
    ensures request.question != "" && !r.success ==>
              var failure := CallGeminiApi(api(BuildPrompt(request)));
              failure.Failure? && r == AiResponse("", false, Some(ServiceErrorPrefix + failure.error), None)
  {
    if request.question == "" then
      DefaultAiResponse.(success := false, errorMessage := Some(EmptyQuestionMessage))
    else
      match CallGeminiApi(api(BuildPrompt(request)))
      case Success(text) => DefaultAiResponse.(answer := text, success := true, modelUsed := Some(service.settings.modelName))
      case Failure(message) => DefaultAiResponse.(success := false, errorMessage := Some(ServiceErrorPrefix + message))
  }

  /** The two directives differ, so the prompt records which one the request asked for. */
  lemma DirectiveDistinguishesPrompts(request: AiRequest)
    ensures BuildPrompt(request) != BuildPrompt(request.(requireAnswer := !request.requireAnswer))
  {
    assert |DirectAnswerDirective| != |UncertaintyDirective|;
  }
}
