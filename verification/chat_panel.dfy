/** The assistant chat (`ChatPanel`) as a state machine. The panel keeps
    the conversation, the `input` state the Send button watches, the text
    actually in the (uncontrolled) textarea, a sending flag and an error.
    Sending trims the textarea's text, appends it as the user's message,
    empties the box and asks the AI client; the answer is appended (or "No
    response."), a failure becomes the error. Clear restores the greeting. */
module ChatPanel {
  import opened Wrappers
  import opened Text
  import AiService
  import opened Revision
  import EventRun

  datatype Role = User | Assistant
  datatype Message = Message(role: Role, text: string)

  const InitialMessage := Message(Assistant, "Ask me about the latest ORD flights, gates, or trends.")
  const NoResponse := "No response."
  const Airport := "ORD"

  datatype State = State(
    messages: seq<Message>,
    /** the `input` state, read by the Send button */
    input: string,
    /** the textarea's own value, read when the form is submitted */
    draft: string,
    isSending: bool,
    error: Option<string>)

  const Initial := State([InitialMessage], "", "", false, None)

  /** The Send button is enabled: the watched input has non-blank text and
      nothing is being sent. */
  predicate CanSend(s: State): (enabled: bool)
    ensures enabled <==> !AllSpace(s.input, JavaScript) && !s.isSending
    ensures enabled ==> s.input != ""
  {
    StripEmptyIffAllSpace(s.input, JavaScript);
    JsTrim(s.input) != "" && !s.isSending
  }

  /** Typing: both change handlers copy the textarea into `input`. */
  function Typed(s: State, text: string): (r: State)
    ensures r.input == text && r.draft == text
    ensures r.messages == s.messages && r.isSending == s.isSending && r.error == s.error
  {
    s.(input := text, draft := text)
  }

  datatype Submitted = Submitted(state: State, request: Option<AiService.AskRequest>)

  /** `handleSubmit`: a blank textarea or a send in progress does nothing;
      otherwise the trimmed text becomes the user's message and the request. */
  function Submit(s: State): (r: Submitted)
    ensures JsTrim(s.draft) == "" || s.isSending ==> r == Submitted(s, None)
    ensures JsTrim(s.draft) != "" && !s.isSending ==>
      && r.state == State(s.messages + [Message(User, JsTrim(s.draft))], "", "", true, None)
      && r.request == Some(AiService.Request(JsTrim(s.draft), Airport))
  {
    var question := JsTrim(s.draft);
    if question == "" || s.isSending then Submitted(s, None)
    else
      Submitted(
        State(s.messages + [Message(User, question)], "", "", true, None),
        Some(AiService.Request(question, Airport)))
  }

  /** The awaited call settling: the answer is appended (an empty or missing
      one as "No response."), a rejection's message becomes the error; the
      sending flag drops. Only a send in progress can settle. */
  function Receive(s: State, outcome: AiService.AskOutcome): (r: State)
    ensures !s.isSending ==> r == s
    ensures s.isSending && outcome.Answered? ==>
      r == s.(messages := s.messages + [Message(Assistant, Or(outcome.answer, NoResponse))], isSending := false)
    ensures s.isSending && outcome.Rejected? ==>
      r == s.(error := Some(Or(Some(outcome.message), AiService.Unreachable)), isSending := false)
  {
    if !s.isSending then s
    else match outcome
      case Answered(answer) =>
        s.(messages := s.messages + [Message(Assistant, Or(answer, NoResponse))], isSending := false)
      case Rejected(message) =>
        s.(error := Some(Or(Some(message), AiService.Unreachable)), isSending := false)
  }

  /** `handleClear` as written: the conversation, `input` and the error are
      reset, but the textarea is not bound to `input` and keeps its text. */
  function ClearAsWritten(s: State): (r: State)
    ensures r.messages == [InitialMessage] && r.input == "" && r.error.None?
    ensures r.draft == s.draft && r.isSending == s.isSending
  {
    s.(messages := [InitialMessage], input := "", error := None)
  }

  /** After typing a question and pressing Clear, the question is still in
      the box and would be sent on submit, yet the Send button is disabled. */
  lemma ClearLeavesDisabledDraft()
    ensures var s := Step(Step(Initial, Type("gates?"), AsWritten).state, ClearClicked, AsWritten).state;
      && s.draft == "gates?"
      && Submit(s).request.Some?
      && !CanSend(s)
  {
    var s := Step(Step(Initial, Type("gates?"), AsWritten).state, ClearClicked, AsWritten).state;
    assert [] + "gates?" + [] == "gates?";
    StripUnique([], "gates?", [], JavaScript);
    assert s.input == "" && JsTrim("") == "";
  }

  /** Clear emptying the textarea as well, as submitting already does. */
  function Clear(s: State): (r: State)
    ensures r.messages == [InitialMessage] && r.input == "" && r.draft == "" && r.error.None?
    ensures r.isSending == s.isSending
    ensures !s.isSending ==> r == Initial
  {
    s.(messages := [InitialMessage], input := "", draft := "", error := None)
  }

  /** What the user can do, and the AI client settling. */
  datatype Event =
    | Type(text: string)
    | SendClicked
    | ClearClicked
    | Settled(outcome: AiService.AskOutcome)

  /** `handleClear` of the given version. */
  function ClearFor(handler: Handler, s: State): State {
    match handler
    case AsWritten => ClearAsWritten(s)
    case Corrected => Clear(s)
  }

  /** One event; the Send and Clear buttons do nothing while disabled. Clear
      runs the given version of `handleClear`. */
  function Step(s: State, e: Event, handler: Handler): (r: Submitted)
    ensures e.SendClicked? && CanSend(s) ==> r == Submit(s)
    ensures e.SendClicked? && !CanSend(s) ==> r.state == s
    ensures !(e.SendClicked? && CanSend(s)) ==> r.request.None?
    ensures e.Type? ==> r.state == Typed(s, e.text)
    ensures e.ClearClicked? ==> r.state == (if s.isSending then s else ClearFor(handler, s))
    ensures e.Settled? ==> r.state == Receive(s, e.outcome)
  {
    match e
    case Type(text) => Submitted(Typed(s, text), None)
    case SendClicked => if CanSend(s) then Submit(s) else Submitted(s, None)
    case ClearClicked => Submitted(if s.isSending then s else ClearFor(handler, s), None)
    case Settled(outcome) => Submitted(Receive(s, outcome), None)
  }

  datatype Trace = Trace(state: State, requests: seq<AiService.AskRequest>)

  function RequestsOf(r: Option<AiService.AskRequest>): seq<AiService.AskRequest> {
    if r.Some? then [r.value] else []
  }

  /** The events in order: the final state and the requests sent. */
  function Run(s: State, events: seq<Event>, handler: Handler): (t: Trace)
    ensures |t.requests| <= |events|
    decreases |events|
  {
    if |events| == 0 then Trace(s, [])
    else
      var step := Step(s, events[0], handler);
      var rest := Run(step.state, events[1..], handler);
      Trace(rest.state, RequestsOf(step.request) + rest.requests)
  }

  /** Running two stretches of events one after the other is running them
      together: the second starts where the first ended, and the requests
      are the first's followed by the second's. */
  lemma RunAppend(s: State, a: seq<Event>, b: seq<Event>, handler: Handler)
    ensures var first := Run(s, a, handler);
      var second := Run(first.state, b, handler);
      Run(s, a + b, handler) == Trace(second.state, first.requests + second.requests)
  {
    var first := Run(s, a, handler);
    RunIsFold(s, a, handler);
    RunIsFold(first.state, b, handler);
    RunIsFold(s, a + b, handler);
    EventRun.FoldAppend(Moves(handler), s, a, b);
  }

  /** One event as the generic step: the next state and the requests sent. */
  function Moves(handler: Handler): (State, Event) -> (State, seq<AiService.AskRequest>) {
    (st: State, e: Event) => (Step(st, e, handler).state, RequestsOf(Step(st, e, handler).request))
  }

  /** `Run` is the generic run of `Step`. */
  lemma {:induction false} RunIsFold(s: State, events: seq<Event>, handler: Handler)
    ensures var f := EventRun.Fold(Moves(handler), s, events);
      Run(s, events, handler) == Trace(f.0, f.1)
    decreases |events|
  {
    if |events| > 0 {
      RunIsFold(Step(s, events[0], handler).state, events[1..], handler);
    }
  }

  /** The panel's invariant: the greeting opens the conversation, every
      later message is non-empty, user messages are trimmed, an assistant
      reply always follows a user message, a send in progress waits on the
      last (user) message with no error shown, a shown error is non-empty,
      and the watched input is the box's text unless Clear has emptied it. */
  predicate Good(s: State) {
    && |s.messages| >= 1
    && s.messages[0] == InitialMessage
    && (forall i :: 1 <= i < |s.messages| ==> s.messages[i].text != "")
    && (forall i :: 1 <= i < |s.messages| && s.messages[i].role == User ==>
          NoEdgeSpace(s.messages[i].text, JavaScript))
    && (forall i :: 1 <= i < |s.messages| && s.messages[i].role == Assistant ==>
          s.messages[i - 1].role == User)
    && (s.isSending ==> |s.messages| >= 2 && s.messages[|s.messages| - 1].role == User && s.error.None?)
    && (s.error.Some? ==> s.error.value != "")
    && (s.input == s.draft || s.input == "")
  }

  /** The invariant of the given version: the corrected Clear also keeps
      the box and the watched input equal. */
  predicate GoodFor(s: State, handler: Handler) {
    Good(s) && (handler.Corrected? ==> s.input == s.draft)
  }

  lemma AppendKeepsGood(s: State, m: Message)
    requires Good(s) && m.text != ""
    requires m.role == User ==> NoEdgeSpace(m.text, JavaScript)
    requires m.role == Assistant ==> s.messages[|s.messages| - 1].role == User
    ensures var ms := s.messages + [m];
      && |ms| >= 2 && ms[0] == InitialMessage
      && (forall i :: 1 <= i < |ms| ==> ms[i].text != "")
      && (forall i :: 1 <= i < |ms| && ms[i].role == User ==> NoEdgeSpace(ms[i].text, JavaScript))
      && (forall i :: 1 <= i < |ms| && ms[i].role == Assistant ==> ms[i - 1].role == User)
  {
    var ms := s.messages + [m];
    assert forall i :: 0 <= i < |s.messages| ==> ms[i] == s.messages[i];
  }

  lemma StepKeepsGood(s: State, e: Event, handler: Handler)
    requires GoodFor(s, handler)
    ensures GoodFor(Step(s, e, handler).state, handler)
  {
    match e
    case Type(text) =>
    case SendClicked =>
      if CanSend(s) {
        var q := JsTrim(s.draft);
        AppendKeepsGood(s, Message(User, q));
      }
    case ClearClicked =>
    case Settled(outcome) =>
      if s.isSending && outcome.Answered? {
        AppendKeepsGood(s, Message(Assistant, Or(outcome.answer, NoResponse)));
      }
  }

  /** Every state reached from a good one is good, and every request asks
      about ORD with a trimmed, non-empty question. */
  lemma {:induction false} RunKeepsGood(s: State, events: seq<Event>, handler: Handler)
    requires GoodFor(s, handler)
    ensures GoodFor(Run(s, events, handler).state, handler)
    ensures forall i :: 0 <= i < |Run(s, events, handler).requests| ==>
      && Run(s, events, handler).requests[i].airport == Airport
      && Run(s, events, handler).requests[i].question != ""
      && NoEdgeSpace(Run(s, events, handler).requests[i].question, JavaScript)
    decreases |events|
  {
    if |events| > 0 {
      StepKeepsGood(s, events[0], handler);
      RunKeepsGood(Step(s, events[0], handler).state, events[1..], handler);
    }
  }

  /** As written, an enabled Send button always sends: a non-blank watched
      input is the box's text. The converse fails (`ClearLeavesDisabledDraft`). */
  lemma SendEnabledThenSubmitSends(s: State)
    requires Good(s)
    ensures CanSend(s) ==> Submit(s).request.Some?
  {
    if CanSend(s) {
      assert s.input == s.draft;
    }
  }

  /** With the corrected Clear, the button and the handler agree: Send is
      enabled exactly when submitting sends something. */
  lemma SendEnabledIffSubmitSends(s: State)
    requires GoodFor(s, Corrected)
    ensures CanSend(s) <==> Submit(s).request.Some?
  {
  }

  /** One exchange: the question and the answer are appended, in order,
      and the panel is ready for the next question. */
  lemma Exchange(s: State, text: string, answer: string, handler: Handler)
    requires Good(s) && !s.isSending && JsTrim(text) != "" && answer != ""
    ensures var asked := Step(Step(s, Type(text), handler).state, SendClicked, handler).state;
      var done := Step(asked, Settled(AiService.Answered(Some(answer))), handler).state;
      && done.messages == s.messages + [Message(User, JsTrim(text)), Message(Assistant, answer)]
      && !done.isSending && done.error.None? && done.draft == ""
  {
    var asked := Step(Step(s, Type(text), handler).state, SendClicked, handler).state;
    assert asked.messages == s.messages + [Message(User, JsTrim(text))];
  }

  lemma InitialIsGood()
    ensures GoodFor(Initial, AsWritten) && GoodFor(Initial, Corrected)
  {
  }
}
