/** The dashboard's derived metrics (`useFlightSummary`): how many
    departures and arrivals are scheduled in the next 24 hours, the
    two-element series handed to the chart and the map, and the latest 20
    flights of both lists merged, tagged and sorted newest first.

    Date parsing is an input: `parse` stands for `new Date(s).getTime()`,
    with `None` for NaN. */
module FlightSummary {
  import opened Wrappers
  import opened Text
  import opened Schemas
  import StableSort

  /** Length of the look-ahead window in milliseconds. */
  const DayMs: int := 24 * 60 * 60 * 1000

  /** How many merged flights the latest-flights list keeps. */
  const LatestLimit: nat := 20

  type Parser = string -> Option<int>

  function Min(a: int, b: int): int {
    if a <= b then a else b
  }

  // ------------------------------------------------------ next 24 hours

  /** The flight has a scheduled time that parses and lies in
      `[now, now + DayMs]`, both ends included. */
  predicate InNext24h(f: Flight, now: int, parse: Parser) {
    && Truthy(f.scheduled)
    && parse(f.scheduled.value).Some?
    && now <= parse(f.scheduled.value).value <= now + DayMs
  }

  /** The flights of `flights` inside the window, in their order. */
  function Next24h(flights: seq<Flight>, now: int, parse: Parser): (r: seq<Flight>)
    ensures |r| <= |flights|
    ensures forall i :: 0 <= i < |r| ==> r[i] in flights && InNext24h(r[i], now, parse)
    ensures forall i :: 0 <= i < |flights| && InNext24h(flights[i], now, parse) ==> flights[i] in r
    decreases |flights|
  {
    if |flights| == 0 then []
    else
      var rest := Next24h(flights[1..], now, parse);
      if InNext24h(flights[0], now, parse) then [flights[0]] + rest else rest
  }

  /** Filtering a concatenation filters each part. */
  lemma {:induction false} Next24hAppend(a: seq<Flight>, b: seq<Flight>, now: int, parse: Parser)
    ensures Next24h(a + b, now, parse) == Next24h(a, now, parse) + Next24h(b, now, parse)
    decreases |a|
  {
    if |a| > 0 {
      assert (a + b)[1..] == a[1..] + b;
      Next24hAppend(a[1..], b, now, parse);
    } else {
      assert a + b == b;
    }
  }

  /** The count reaches the list's length exactly when every flight is in
      the window, and is zero exactly when none is. */
  lemma {:induction false} Next24hExtremes(flights: seq<Flight>, now: int, parse: Parser)
    ensures |Next24h(flights, now, parse)| == |flights| <==>
      forall i :: 0 <= i < |flights| ==> InNext24h(flights[i], now, parse)
    ensures |Next24h(flights, now, parse)| == 0 <==>
      forall i :: 0 <= i < |flights| ==> !InNext24h(flights[i], now, parse)
    decreases |flights|
  {
    if |flights| > 0 {
      var tail := flights[1..];
      Next24hExtremes(tail, now, parse);
      assert forall i :: 1 <= i < |flights| ==> flights[i] == tail[i - 1];
      assert forall i :: 0 <= i < |tail| ==> tail[i] == flights[i + 1];
    }
  }

  datatype SummaryDatum = SummaryDatum(name: string, value: nat)

  datatype Counts = Counts(
    departuresNext24h: nat,
    arrivalsNext24h: nat,
    totalFlightsNext24h: nat,
    summaryData: seq<SummaryDatum>)

  /** The window counts, taken against one `now`, and the chart series:
      departures first, arrivals second. */
  function CountsOf(departures: seq<Flight>, arrivals: seq<Flight>, now: int, parse: Parser): (c: Counts)
    ensures c.departuresNext24h == |Next24h(departures, now, parse)| <= |departures|
    ensures c.arrivalsNext24h == |Next24h(arrivals, now, parse)| <= |arrivals|
    ensures c.totalFlightsNext24h == c.departuresNext24h + c.arrivalsNext24h
    ensures c.totalFlightsNext24h == |Next24h(departures + arrivals, now, parse)|
    ensures c.summaryData == [SummaryDatum("Departures", c.departuresNext24h),
                              SummaryDatum("Arrivals", c.arrivalsNext24h)]
  {
    var departuresNext24h := |Next24h(departures, now, parse)|;
    var arrivalsNext24h := |Next24h(arrivals, now, parse)|;
    Next24hAppend(departures, arrivals, now, parse);
    Counts(
      departuresNext24h,
      arrivalsNext24h,
      departuresNext24h + arrivalsNext24h,
      [SummaryDatum("Departures", departuresNext24h), SummaryDatum("Arrivals", arrivalsNext24h)])
  }

  // ----------------------------------------------------- latest flights

  datatype FlightType = Departure | Arrival {
    function Label(): string {
      match this
      case Departure => "Departure"
      case Arrival => "Arrival"
    }
  }

  /** A flight with its direction and its scheduled time as a number. */
  datatype TaggedFlight = TaggedFlight(flight: Flight, kind: FlightType, scheduledTime: int)

  /** The numeric scheduled time: 0 when it is missing or empty, the parse
      otherwise (`None` for NaN). */
  function ResolvedTime(f: Flight, parse: Parser): (t: Option<int>)
    ensures !Truthy(f.scheduled) ==> t == Some(0)
    ensures Truthy(f.scheduled) ==> t == parse(f.scheduled.value)
  {
    if Truthy(f.scheduled) then parse(f.scheduled.value) else Some(0)
  }

  /** No scheduled time of `flights` parses to NaN. */
  predicate Resolvable(flights: seq<Flight>, parse: Parser) {
    forall i :: 0 <= i < |flights| ==> ResolvedTime(flights[i], parse).Some?
  }

  function Tag(flights: seq<Flight>, kind: FlightType, parse: Parser): (r: seq<TaggedFlight>)
    requires Resolvable(flights, parse)
    ensures |r| == |flights|
    ensures forall i :: 0 <= i < |r| ==>
      r[i] == TaggedFlight(flights[i], kind, ResolvedTime(flights[i], parse).value)
  {
    seq(|flights|, i requires 0 <= i < |flights| =>
      TaggedFlight(flights[i], kind, ResolvedTime(flights[i], parse).value))
  }

  /** All departures tagged, then all arrivals tagged. */
  function Combined(departures: seq<Flight>, arrivals: seq<Flight>, parse: Parser): (c: seq<TaggedFlight>)
    requires Resolvable(departures, parse) && Resolvable(arrivals, parse)
    ensures |c| == |departures| + |arrivals|
    ensures forall i :: 0 <= i < |departures| ==>
      c[i] == TaggedFlight(departures[i], Departure, ResolvedTime(departures[i], parse).value)
    ensures forall j :: 0 <= j < |arrivals| ==>
      c[|departures| + j] == TaggedFlight(arrivals[j], Arrival, ResolvedTime(arrivals[j], parse).value)
  {
    Tag(departures, Departure, parse) + Tag(arrivals, Arrival, parse)
  }

  function TimesOf(c: seq<TaggedFlight>): (keys: seq<int>)
    ensures |keys| == |c|
    ensures forall i :: 0 <= i < |c| ==> keys[i] == c[i].scheduledTime
  {
    seq(|c|, i requires 0 <= i < |c| => c[i].scheduledTime)
  }

  /** The positions in the merged list of the flights the latest list shows:
      the first `LatestLimit` of the stable newest-first order. */
  function LatestPositions(departures: seq<Flight>, arrivals: seq<Flight>, parse: Parser): (pos: seq<nat>)
    requires Resolvable(departures, parse) && Resolvable(arrivals, parse)
    ensures var c := Combined(departures, arrivals, parse);
      && |pos| == Min(LatestLimit, |c|)
      && (forall p :: 0 <= p < |pos| ==> pos[p] < |c|)
      && (forall p, q :: 0 <= p < q < |pos| ==> c[pos[p]].scheduledTime >= c[pos[q]].scheduledTime)
      && (forall p, q :: 0 <= p < q < |pos| && c[pos[p]].scheduledTime == c[pos[q]].scheduledTime ==>
            pos[p] < pos[q])
      && (forall i, p :: 0 <= i < |c| && i !in pos && 0 <= p < |pos| ==>
            StableSort.Before(TimesOf(c), pos[p], i))
  {
    var c := Combined(departures, arrivals, parse);
    var order := StableSort.Sort(TimesOf(c));
    var pos := order[..Min(LatestLimit, |c|)];
    TopK(TimesOf(c), order, |pos|);
    pos
  }

  /** Every flight kept in a prefix of the stable order is listed before
      every flight left out: it is newer, or equally new and earlier in the
      input. */
  lemma TopK(keys: seq<int>, order: seq<nat>, k: nat)
    requires order == StableSort.Sort(keys) && k <= |order|
    ensures forall i, p :: 0 <= i < |keys| && i !in order[..k] && 0 <= p < k ==>
      StableSort.Before(keys, order[p], i)
  {
    PrefixMembers(order, k);
    forall i, p | 0 <= i < |keys| && i !in order[..k] && 0 <= p < k
      ensures StableSort.Before(keys, order[p], i)
    {
      assert i in order;
      var q :| 0 <= q < |order| && order[q] == i;
      assert p < q;
    }
  }

  /** The first `k` entries of a list are members of its `k`-prefix. */
  lemma PrefixMembers(order: seq<nat>, k: nat)
    requires k <= |order|
    ensures forall q :: 0 <= q < k ==> order[q] in order[..k]
  {
    forall q | 0 <= q < k
      ensures order[q] in order[..k]
    {
      assert order[..k][q] == order[q];
    }
  }

  /** `latestFlights`: at most 20 flights of both lists, each tagged with
      the list it came from, newest first. */
  function LatestFlights(departures: seq<Flight>, arrivals: seq<Flight>, parse: Parser): (r: seq<TaggedFlight>)
    requires Resolvable(departures, parse) && Resolvable(arrivals, parse)
    ensures |r| == Min(LatestLimit, |departures| + |arrivals|)
    ensures forall p, q :: 0 <= p < q < |r| ==> r[p].scheduledTime >= r[q].scheduledTime
    ensures forall p :: 0 <= p < |r| ==>
      r[p] == Combined(departures, arrivals, parse)[LatestPositions(departures, arrivals, parse)[p]]
  {
    var c := Combined(departures, arrivals, parse);
    var pos := LatestPositions(departures, arrivals, parse);
    seq(|pos|, p requires 0 <= p < |pos| => c[pos[p]])
  }

  /** Every entry of the latest list is an input flight, unchanged, tagged
      Departure exactly when it came from the departures, and carrying its
      resolved time (0 when it had none). */
  lemma LatestEntriesAreTaggedInputs(departures: seq<Flight>, arrivals: seq<Flight>, parse: Parser, p: nat)
    requires Resolvable(departures, parse) && Resolvable(arrivals, parse)
    requires p < Min(LatestLimit, |departures| + |arrivals|)
    ensures var e := LatestFlights(departures, arrivals, parse)[p];
      var i := LatestPositions(departures, arrivals, parse)[p];
      && (e.kind == Departure <==> i < |departures|)
      && (i < |departures| ==> e.flight == departures[i])
      && (i >= |departures| ==> e.flight == arrivals[i - |departures|])
      && Some(e.scheduledTime) == ResolvedTime(e.flight, parse)
      && (!Truthy(e.flight.scheduled) ==> e.scheduledTime == 0)
  {
    var i := LatestPositions(departures, arrivals, parse)[p];
    if i >= |departures| {
      var j := i - |departures|;
      assert i == |departures| + j;
    }
  }

  /** Among flights with the same time, every departure is listed before
      every arrival, and each list keeps its own order. */
  lemma LatestTiesKeepInputOrder(departures: seq<Flight>, arrivals: seq<Flight>, parse: Parser, p: nat, q: nat)
    requires Resolvable(departures, parse) && Resolvable(arrivals, parse)
    requires p < q < Min(LatestLimit, |departures| + |arrivals|)
    ensures var r := LatestFlights(departures, arrivals, parse);
      var pos := LatestPositions(departures, arrivals, parse);
      r[p].scheduledTime == r[q].scheduledTime ==> pos[p] < pos[q]
    ensures var r := LatestFlights(departures, arrivals, parse);
      r[p].scheduledTime == r[q].scheduledTime ==> (r[p].kind == Arrival ==> r[q].kind == Arrival)
  {
    LatestEntriesAreTaggedInputs(departures, arrivals, parse, p);
    LatestEntriesAreTaggedInputs(departures, arrivals, parse, q);
  }
}
