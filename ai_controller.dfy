/** `AiController`: request validation in front of the answering service and the
    mapping of its `AiResponse` to an HTTP result. The injected service is a
    parameter: for a request it yields the service's response, or the message of
    the exception it threw. */
module AiApi {
  import opened Wrappers
  import opened Http
  import opened Gemini

  /** The anonymous objects the actions return (timestamps left out). */
  datatype AiBody =
    | MessageBody(message: string)
    | AnswerBody(answer: string, success: bool, modelUsed: Option<string>)
    | FailureBody(failure: Option<string>, success: bool)
    | ServerErrorBody(message: string, error: string)

  const BodyRequiredMessage := "Request body is required"
  const QuestionRequiredMessage := "Question is required"
  const InternalErrorMessage := "Internal server error"

  /** The part both actions share once the request is accepted: Ok for a successful
      response, BadRequest with the service's error for a failed one, 500 for a throw. */
  function Respond(outcome: Result<AiResponse, string>): (r: Response<AiBody>)
    ensures outcome.Success? && outcome.value.success ==>
              r == Response(OkStatus, AnswerBody(outcome.value.answer, true, outcome.value.modelUsed))
    ensures outcome.Success? && !outcome.value.success ==>
              r == Response(BadRequestStatus, FailureBody(outcome.value.errorMessage, false))
    ensures outcome.Failure? ==> r == Response(ServerErrorStatus, ServerErrorBody(InternalErrorMessage, outcome.error))
  {
    match outcome
    case Failure(message) => Response(ServerErrorStatus, ServerErrorBody(InternalErrorMessage, message))
    case Success(response) =>
      if response.success then Response(OkStatus, AnswerBody(response.answer, true, response.modelUsed))
      else Response(BadRequestStatus, FailureBody(response.errorMessage, false))
  }

  /** `POST ai/ask`: a missing body or an empty question is refused before the service
      is consulted; otherwise the request, with `UserId` set to the authenticated name,
      goes to the service. */
  function AskQuestion(request: Option<AiRequest>, userName: Option<string>,
                       service: AiRequest -> Result<AiResponse, string>): (r: Response<AiBody>)
    ensures request.None? ==> r == Response(BadRequestStatus, MessageBody(BodyRequiredMessage))
    ensures request.Some? && request.value.question == "" ==>
              r == Response(BadRequestStatus, MessageBody(QuestionRequiredMessage))
    ensures request.Some? && request.value.question != "" ==>
              r == Respond(service(request.value.(userId := userName)))
  {
    if request.None? then Response(BadRequestStatus, MessageBody(BodyRequiredMessage))
    else if request.value.question == "" then Response(BadRequestStatus, MessageBody(QuestionRequiredMessage))
    else
      var stamped := request.value.(userId := userName);
      Respond(service(stamped))
  }

  /** `POST ai/ask-public`: the same checks, and the request goes to the service as it came. */
  function AskQuestionPublic(request: Option<AiRequest>, service: AiRequest -> Result<AiResponse, string>): (r: Response<AiBody>)
    ensures request.None? ==> r == Response(BadRequestStatus, MessageBody(BodyRequiredMessage))
    ensures request.Some? && request.value.question == "" ==>
              r == Response(BadRequestStatus, MessageBody(QuestionRequiredMessage))
    ensures request.Some? && request.value.question != "" ==> r == Respond(service(request.value))
  {
    if request.None? then Response(BadRequestStatus, MessageBody(BodyRequiredMessage))
    else if request.value.question == "" then Response(BadRequestStatus, MessageBody(QuestionRequiredMessage))
    else Respond(service(request.value))
  }

  /** The service as the application registers it: `GeminiAiService.GetAnswerAsync`, which never throws. */
  function GeminiBackend(service: GeminiAiService, api: string -> ApiReply): AiRequest -> Result<AiResponse, string>
  {
    (q: AiRequest) => Success(GetAnswer(service, q, api))
  }

  /** Wired to the Gemini service, which never throws: neither action ends in a 500, an
      accepted request is answered Ok exactly when the external call replied, and the
      authenticated name stamped into `UserId` does not change the outcome. */
  lemma GeminiBackedActions(request: AiRequest, userName: Option<string>, service: GeminiAiService, api: string -> ApiReply)
    ensures var backend := GeminiBackend(service, api);
            && AskQuestion(Some(request), userName, backend) == AskQuestionPublic(Some(request), backend)
            && AskQuestionPublic(Some(request), backend).status != ServerErrorStatus
            && (AskQuestionPublic(Some(request), backend).status == OkStatus <==>
                  request.question != "" && api(BuildPrompt(request)).Replied?)
  {
    assert BuildPrompt(request.(userId := userName)) == BuildPrompt(request);
  }
}
