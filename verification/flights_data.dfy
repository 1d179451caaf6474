/** The dashboard's data hook (`useFlightsData`) as a state machine. A fetch
    starts by marking the hook as refreshing and sending one request for
    the ORD board; when the reply settles, the lists, the update time and
    the error are set from it and the refreshing flag drops. The mount and
    the hourly poll ask with the limit captured at mount (25); the card's
    "Fetch now" asks with no limit, so the live one is used.

    Time is an input (`at` of a settled reply); the timer, the network and
    React's scheduling are left to the caller, which decides the order of
    events. */
module FlightsData {
  import opened Wrappers
  import opened Text
  import opened Schemas
  import opened JsNumber
  import ManualFetchCard
  import opened Revision
  import EventRun

  const Airport := "ORD"
  const InitialLimit: real := 25.0
  const FetchFailed := "Unable to fetch Aviationstack data."
  const LoadFailed := "Failed to load data."

  datatype State = State(
    departures: seq<Flight>,
    arrivals: seq<Flight>,
    lastUpdated: Option<int>,
    error: Option<string>,
    isRefreshing: bool,
    limit: Number,
    /** the limit captured once at mount (`initialLimitRef`) */
    initialLimit: Number)

  const Initial := State([], [], None, None, false, Num(InitialLimit), Num(InitialLimit))

  /** `GET /flights/{airport}?limit=...` as the hook sends it. */
  datatype FlightsRequest = FlightsRequest(airport: string, limit: Number)

  /** How a request settles: the fetch or the JSON parse throws with a
      message, the response is not ok, or the body is read. */
  datatype Reply =
    | Thrown(message: string)
    | NotOk
    | Loaded(departures: Option<seq<Flight>>, arrivals: Option<seq<Flight>>)

  /** `fetchData`'s limit: the requested one when it is a number other
      than NaN, the live limit otherwise. */
  function ResolveLimit(requested: Option<Number>, live: Number): (n: Number)
    ensures requested.Some? && requested.value.Num? ==> n == requested.value
    ensures !(requested.Some? && requested.value.Num?) ==> n == live
    ensures live.Num? ==> n.Num?
  {
    if requested.Some? && requested.value.Num? then requested.value else live
  }

  /** Starting a fetch: only the refreshing flag changes, and the request
      carries the resolved limit. */
  function Begin(s: State, requested: Option<Number>): (r: (State, FlightsRequest))
    ensures r.0 == s.(isRefreshing := true)
    ensures r.1 == FlightsRequest(Airport, ResolveLimit(requested, s.limit))
  {
    (s.(isRefreshing := true), FlightsRequest(Airport, ResolveLimit(requested, s.limit)))
  }

  /** The error message a failed fetch leaves, never empty. */
  function FailureMessage(reply: Reply): (m: string)
    requires !reply.Loaded?
    ensures m != ""
    ensures reply.NotOk? ==> m == FetchFailed
    ensures reply.Thrown? && reply.message != "" ==> m == reply.message
    ensures reply.Thrown? && reply.message == "" ==> m == LoadFailed
  {
    match reply
    case NotOk => FetchFailed
    case Thrown(message) => Or(Some(message), LoadFailed)
  }

  /** A reply settling. A loaded body replaces both lists (a missing list
      reads as empty), stamps the time and clears the error; a failure keeps
      the lists and the time and records a message. Either way the
      refreshing flag drops and the limits stay. */
  function Settle(s: State, reply: Reply, at: int): (r: State)
    ensures !r.isRefreshing
    ensures r.limit == s.limit && r.initialLimit == s.initialLimit
    ensures reply.Loaded? ==>
      && r.departures == reply.departures.GetOr([])
      && r.arrivals == reply.arrivals.GetOr([])
      && r.lastUpdated == Some(at)
      && r.error.None?
    ensures !reply.Loaded? ==>
      && r.departures == s.departures
      && r.arrivals == s.arrivals
      && r.lastUpdated == s.lastUpdated
      && r.error == Some(FailureMessage(reply))
  {
    match reply
    case Loaded(departures, arrivals) =>
      s.(departures := departures.GetOr([]), arrivals := arrivals.GetOr([]),
         lastUpdated := Some(at), error := None, isRefreshing := false)
    case _ =>
      s.(error := Some(FailureMessage(reply)), isRefreshing := false)
  }

  /** What can happen to the hook: the mount effect, a poll tick, a click on
      "Fetch now", text typed into the limit field, a reply settling. */
  datatype Event =
    | Mount
    | Tick
    | FetchNow
    | LimitTyped(text: string)
    | Settled(reply: Reply, at: int)

  datatype StepResult = StepResult(state: State, request: Option<FlightsRequest>)

  /** One event. The card's button is disabled while refreshing, so a click
      then does nothing; the field's text goes through the card's change
      handler: as written, a cleared field gives 0, corrected, it gives 25. */
  function Step(s: State, e: Event, literal: Literal, handler: Handler): (r: StepResult)
    ensures e.Mount? || e.Tick? ==> r.request == Some(FlightsRequest(Airport, ResolveLimit(Some(s.initialLimit), s.limit)))
    ensures e.FetchNow? ==> r.request == (if s.isRefreshing then None else Some(FlightsRequest(Airport, s.limit)))
    ensures e.LimitTyped? || e.Settled? ==> r.request.None?
    ensures r.state.initialLimit == s.initialLimit
    ensures e.LimitTyped? ==> r.state == s.(limit := ManualFetchCard.LimitFor(handler, e.text, literal))
    ensures e.FetchNow? && s.isRefreshing ==> r.state == s
    ensures e.Mount? || e.Tick? || (e.FetchNow? && !s.isRefreshing) ==> r.state == s.(isRefreshing := true)
    ensures e.Settled? ==> r.state == Settle(s, e.reply, e.at)
  {
    match e
    case Mount =>
      var (s', req) := Begin(s, Some(s.initialLimit));
      StepResult(s', Some(req))
    case Tick =>
      var (s', req) := Begin(s, Some(s.initialLimit));
      StepResult(s', Some(req))
    case FetchNow =>
      if !ManualFetchCard.FetchEnabled(s.isRefreshing) then StepResult(s, None)
      else
        var (s', req) := Begin(s, None);
        StepResult(s', Some(req))
    case LimitTyped(text) =>
      StepResult(s.(limit := ManualFetchCard.LimitFor(handler, text, literal)), None)
    case Settled(reply, at) =>
      StepResult(Settle(s, reply, at), None)
  }

  datatype Trace = Trace(state: State, requests: seq<FlightsRequest>)

  function RequestsOf(r: Option<FlightsRequest>): seq<FlightsRequest> {
    if r.Some? then [r.value] else []
  }

  /** The events in order: the final state and the requests sent. */
  function Run(s: State, events: seq<Event>, literal: Literal, handler: Handler): (t: Trace)
    ensures |t.requests| <= |events|
    decreases |events|
  {
    if |events| == 0 then Trace(s, [])
    else
      var step := Step(s, events[0], literal, handler);
      var rest := Run(step.state, events[1..], literal, handler);
      Trace(rest.state, RequestsOf(step.request) + rest.requests)
  }

  /** Running two stretches of events one after the other is running them
      together: the second starts where the first ended, and the requests
      are the first's followed by the second's. */
  lemma RunAppend(s: State, a: seq<Event>, b: seq<Event>, literal: Literal, handler: Handler)
    ensures var first := Run(s, a, literal, handler);
      var second := Run(first.state, b, literal, handler);
      Run(s, a + b, literal, handler) == Trace(second.state, first.requests + second.requests)
  {
    var first := Run(s, a, literal, handler);
    RunIsFold(s, a, literal, handler);
    RunIsFold(first.state, b, literal, handler);
    RunIsFold(s, a + b, literal, handler);
    EventRun.FoldAppend(Moves(literal, handler), s, a, b);
  }

  /** One event as the generic step: the next state and the requests sent. */
  function Moves(literal: Literal, handler: Handler): (State, Event) -> (State, seq<FlightsRequest>) {
    (st: State, e: Event) => (Step(st, e, literal, handler).state, RequestsOf(Step(st, e, literal, handler).request))
  }

  /** `Run` is the generic run of `Step`. */
  lemma {:induction false} RunIsFold(s: State, events: seq<Event>, literal: Literal, handler: Handler)
    ensures var f := EventRun.Fold(Moves(literal, handler), s, events);
      Run(s, events, literal, handler) == Trace(f.0, f.1)
    decreases |events|
  {
    if |events| > 0 {
      RunIsFold(Step(s, events[0], literal, handler).state, events[1..], literal, handler);
    }
  }

  /** What holds in every reachable state: both limits are numbers, the
      captured one is 25, a recorded error is never empty, and no flight is
      listed before the first successful load. */
  predicate Good(s: State) {
    && s.limit.Num?
    && s.initialLimit == Num(InitialLimit)
    && (s.error.Some? ==> s.error.value != "")
    && (s.lastUpdated.None? ==> s.departures == [] && s.arrivals == [])
  }

  lemma StepKeepsGood(s: State, e: Event, literal: Literal, handler: Handler)
    requires Good(s)
    ensures Good(Step(s, e, literal, handler).state)
    ensures var req := Step(s, e, literal, handler).request;
      req.Some? ==> req.value.airport == Airport && req.value.limit.Num?
  {
  }

  /** From a good state every run stays good, and every request it sends
      asks for ORD with a limit that is a number. */
  lemma {:induction false} RunKeepsGood(s: State, events: seq<Event>, literal: Literal, handler: Handler)
    requires Good(s)
    ensures Good(Run(s, events, literal, handler).state)
    ensures forall i :: 0 <= i < |Run(s, events, literal, handler).requests| ==>
      Run(s, events, literal, handler).requests[i].airport == Airport &&
      Run(s, events, literal, handler).requests[i].limit.Num?
    decreases |events|
  {
    if |events| > 0 {
      var step := Step(s, events[0], literal, handler);
      StepKeepsGood(s, events[0], literal, handler);
      RunKeepsGood(step.state, events[1..], literal, handler);
    }
  }

  /** The mount and every poll ask for 25 flights, whatever limit the user
      has typed since. */
  lemma PollIgnoresTypedLimit(s: State, literal: Literal, handler: Handler)
    requires Good(s)
    ensures Step(s, Tick, literal, handler).request == Some(FlightsRequest(Airport, Num(InitialLimit)))
    ensures Step(s, Mount, literal, handler).request == Some(FlightsRequest(Airport, Num(InitialLimit)))
  {
  }

  /** A failed fetch after a successful one leaves the loaded flights and
      their time on screen, next to the error. */
  lemma FailureKeepsLastBoard(s: State, deps: seq<Flight>, arrs: seq<Flight>, at: int, failure: Reply, later: int)
    requires !failure.Loaded?
    ensures var loaded := Settle(s, Loaded(Some(deps), Some(arrs)), at);
      var failed := Settle(loaded, failure, later);
      && failed.departures == deps && failed.arrivals == arrs
      && failed.lastUpdated == Some(at)
      && failed.error.Some? && failed.error.value != ""
  {
  }

  /** Typing a limit and clicking "Fetch now" when idle sends the limit the
      card's handler made of the text. */
  lemma FetchNowSendsTypedLimit(s: State, text: string, literal: Literal, handler: Handler)
    requires !s.isRefreshing
    ensures var typed := Step(s, LimitTyped(text), literal, handler).state;
      Step(typed, FetchNow, literal, handler).request ==
        Some(FlightsRequest(Airport, ManualFetchCard.LimitFor(handler, text, literal)))
  {
  }

  /** Clearing the field and clicking "Fetch now": as written the request
      asks for 0 flights, which the flights route refuses; with the
      corrected handler it asks for 25, which the route accepts. */
  lemma ClearedFieldThenFetchNow(s: State, literal: Literal)
    requires !s.isRefreshing
    ensures var typed := Step(s, LimitTyped(""), literal, AsWritten).state;
      var req := Step(typed, FetchNow, literal, AsWritten).request;
      req == Some(FlightsRequest(Airport, Num(0.0))) && !ManualFetchCard.RouteAccepts(req.value.limit)
    ensures var typed := Step(s, LimitTyped(""), literal, Corrected).state;
      var req := Step(typed, FetchNow, literal, Corrected).request;
      req == Some(FlightsRequest(Airport, Num(InitialLimit))) && ManualFetchCard.RouteAccepts(req.value.limit)
  {
    ManualFetchCard.ClearedFieldGivesZero(literal);
    assert JsTrim("") == "";
  }

  /** The initial state is good, so every state reached from it is. */
  lemma InitialIsGood()
    ensures Good(Initial)
  {
  }
}
