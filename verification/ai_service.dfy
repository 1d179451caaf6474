/** The frontend's AI client (`askAi`): one `POST {base}/ai/ask` with the
    question and the airport as JSON, and the choice of what the caller
    gets back: the parsed body when the response is ok, otherwise an error
    whose message is the body's `detail` when there is one. */
module AiService {
  import opened Wrappers
  import opened Text

  const AskPath := "/ai/ask"
  const Unreachable := "Unable to reach the AI assistant."

  /** The request `askAi` sends. */
  datatype AskRequest = AskRequest(path: string, question: string, airport: string)

  function Request(question: string, airport: string): (r: AskRequest)
    ensures r.path == AskPath && r.question == question && r.airport == airport
  {
    AskRequest(AskPath, question, airport)
  }

  /** A response body: either it does not parse as JSON (with the parser's
      message), or it is an object whose `detail` and `answer` members are
      read (missing members are `None`). */
  datatype Body = Unparsable(message: string) | Json(detail: Option<string>, answer: Option<string>)

  /** How the request went: `fetch` itself rejected, or a response came back. */
  datatype Reply = NetworkError(message: string) | Response(ok: bool, body: Body)

  /** What the caller's `await` produces: the parsed body, or a thrown error. */
  datatype AskOutcome = Answered(answer: Option<string>) | Rejected(message: string)

  /** `askAi`'s outcome for each reply. */
  function AskAi(reply: Reply): (o: AskOutcome)
    ensures reply.NetworkError? ==> o == Rejected(reply.message)
    ensures reply.Response? && reply.ok ==>
      (reply.body.Json? ==> o == Answered(reply.body.answer)) &&
      (reply.body.Unparsable? ==> o == Rejected(reply.body.message))
    ensures reply.Response? && !reply.ok ==> o.Rejected? && o.message == ErrorMessage(reply.body)
  {
    match reply
    case NetworkError(message) => Rejected(message)
    case Response(ok, body) =>
      if !ok then Rejected(ErrorMessage(body))
      else match body
        case Unparsable(message) => Rejected(message)
        case Json(_, answer) => Answered(answer)
  }

  /** The message of a non-ok response: its `detail` when the body parses
      and the detail is non-empty, the fixed fallback otherwise. */
  function ErrorMessage(body: Body): (m: string)
    ensures m != ""
    ensures body.Json? && Truthy(body.detail) ==> m == body.detail.value
    ensures !(body.Json? && Truthy(body.detail)) ==> m == Unreachable
  {
    if body.Json? && Truthy(body.detail) then body.detail.value else Unreachable
  }
}
