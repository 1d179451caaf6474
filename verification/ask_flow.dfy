/** One question end to end: the chat panel's request, the endpoint's
    result, the HTTP reply that carries it, the AI client's outcome, and
    what the panel then shows. */
module AskFlow {
  import opened Wrappers
  import opened Text
  import AiRouter
  import AiService
  import ChatPanel

  /** The endpoint's result for a request the panel sent. */
  function Serve(
    req: AiService.AskRequest, lookupFailure: Option<AiRouter.HttpError>,
    apiKey: Option<string>, generation: AiRouter.Generation)
    : Result<string, AiRouter.HttpError>
  {
    AiRouter.Ask(Some(req.question), Some(req.airport), lookupFailure, apiKey, generation)
  }

  /** The reply the browser receives: a 200 with `{"answer": ...}`, or an
      error status with `{"detail": ...}`. A validation error's detail is a
      list, which the browser turns into the text `structured`. */
  function ReplyOf(r: Result<string, AiRouter.HttpError>, structured: string): (reply: AiService.Reply)
    ensures r.Ok? ==> reply == AiService.Response(true, AiService.Json(None, Some(r.value)))
    ensures r.Err? ==> reply.Response? && !reply.ok && reply.body.Json?
    ensures r.Err? && r.error.detail.Some? ==> reply.body.detail == r.error.detail
  {
    match r
    case Ok(answer) => AiService.Response(true, AiService.Json(None, Some(answer)))
    case Err(e) => AiService.Response(false, AiService.Json(Some(e.detail.GetOr(structured)), None))
  }

  /** A question the panel sends is accepted by the endpoint's validation
      exactly when its trimmed text is at most 1000 characters long. */
  lemma PanelRequestsValidIffShort(s: ChatPanel.State)
    requires JsTrim(s.draft) != "" && !s.isSending
    ensures var req := ChatPanel.Submit(s).request.value;
      AiRouter.Validate(Some(req.question), Some(req.airport)).Ok? <==> |JsTrim(s.draft)| <= AiRouter.MaxQuestion
  {
  }

  /** A successful answer is shown verbatim as the assistant's message:
      it is trimmed and non-empty, so "No response." never replaces it. */
  lemma AnswerIsShownVerbatim(
    s: ChatPanel.State, lookupFailure: Option<AiRouter.HttpError>, apiKey: Option<string>,
    generation: AiRouter.Generation, structured: string)
    requires ChatPanel.Good(s) && ChatPanel.CanSend(s)
    requires Serve(ChatPanel.Submit(s).request.value, lookupFailure, apiKey, generation).Ok?
    ensures var sent := ChatPanel.Submit(s);
      var answer := Serve(sent.request.value, lookupFailure, apiKey, generation).value;
      var outcome := AiService.AskAi(ReplyOf(Serve(sent.request.value, lookupFailure, apiKey, generation), structured));
      var shown := ChatPanel.Receive(sent.state, outcome);
      && shown.messages == s.messages + [ChatPanel.Message(ChatPanel.User, JsTrim(s.draft)),
                                         ChatPanel.Message(ChatPanel.Assistant, answer)]
      && shown.error.None? && !shown.isSending
  {
    var sent := ChatPanel.Submit(s);
    var answer := Serve(sent.request.value, lookupFailure, apiKey, generation).value;
    assert answer != "";
    assert Or(Some(answer), ChatPanel.NoResponse) == answer;
  }

  /** A failed request adds no message: the question stays last and the
      endpoint's detail (or the browser's text for a validation error) is
      the error shown, the client's fallback standing in for an empty one.
      The endpoint's own errors always carry a non-empty detail. */
  lemma FailureIsShownAsError(
    s: ChatPanel.State, lookupFailure: Option<AiRouter.HttpError>, apiKey: Option<string>,
    generation: AiRouter.Generation, structured: string)
    requires ChatPanel.Good(s) && ChatPanel.CanSend(s) && structured != ""
    requires Serve(ChatPanel.Submit(s).request.value, lookupFailure, apiKey, generation).Err?
    ensures var sent := ChatPanel.Submit(s);
      var e := Serve(sent.request.value, lookupFailure, apiKey, generation).error;
      var outcome := AiService.AskAi(ReplyOf(Serve(sent.request.value, lookupFailure, apiKey, generation), structured));
      var shown := ChatPanel.Receive(sent.state, outcome);
      && shown.messages == s.messages + [ChatPanel.Message(ChatPanel.User, JsTrim(s.draft))]
      && shown.error == Some(if e.detail.GetOr(structured) != "" then e.detail.GetOr(structured) else AiService.Unreachable)
      && (lookupFailure.None? ==> shown.error == Some(e.detail.GetOr(structured)))
      && !shown.isSending
  {
    var sent := ChatPanel.Submit(s);
    var e := Serve(sent.request.value, lookupFailure, apiKey, generation).error;
    if lookupFailure.None? {
      assert e.detail.Some? ==> e.detail.value != "";
    }
  }
}
