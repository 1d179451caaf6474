/** The backend's Aviationstack flight service: status mapping, airport-code
    normalisation, the keyed upsert into the external-flights table, the
    import that stores every fetched item, and the projection of a raw item
    onto the board schema.

    The upstream HTTP API is an input: `feeds` maps each query the service
    would send to the response it gets back. The database table is a map
    from `flight_key` (a unique column) to the stored record. */
module FlightsService {
  import opened Wrappers
  import opened Text
  import PyInt
  import opened Enums
  import opened Schemas

  // ------------------------------------------------------------ raw items

  datatype FlightBlock = FlightBlock(iata: Option<string>, icao: Option<string>)

  datatype AirlineBlock = AirlineBlock(name: Option<string>, iata: Option<string>, icao: Option<string>)

  datatype EndpointBlock = EndpointBlock(
    iata: Option<string>,
    scheduled: Option<string>,
    terminal: Option<string>,
    gate: Option<string>)

  /** One element of Aviationstack's `data` array. A block that is missing
      or null reads as a block whose fields are all missing. */
  datatype Item = Item(
    flight: Option<FlightBlock>,
    airline: Option<AirlineBlock>,
    departure: Option<EndpointBlock>,
    arrival: Option<EndpointBlock>,
    flightStatus: Option<string>)

  function FlightOf(item: Item): FlightBlock {
    item.flight.GetOr(FlightBlock(None, None))
  }

  function AirlineOf(item: Item): AirlineBlock {
    item.airline.GetOr(AirlineBlock(None, None, None))
  }

  function DepartureOf(item: Item): EndpointBlock {
    item.departure.GetOr(EndpointBlock(None, None, None, None))
  }

  function ArrivalOf(item: Item): EndpointBlock {
    item.arrival.GetOr(EndpointBlock(None, None, None, None))
  }

  // ------------------------------------------------------ status mapping

  const DepartedWords: set<string> := {"active", "en-route", "enroute"}
  const DelayedWords: set<string> := {"incident", "diverted", "delayed"}

  /** Maps Aviationstack's free-form `flight_status` onto the status
      enumeration, ignoring case; missing, empty and unknown values read as
      scheduled, and boarding is never produced. */
  function StatusFromAviationstack(raw: Option<string>): (r: FlightStatus)
    ensures r != Boarding
    ensures r == Departed <==> raw.Some? && Lower(raw.value) in DepartedWords
    ensures r == Arrived <==> raw.Some? && Lower(raw.value) == "landed"
    ensures r == Cancelled <==> raw.Some? && Lower(raw.value) == "cancelled"
    ensures r == Delayed <==> raw.Some? && Lower(raw.value) in DelayedWords
    ensures !Truthy(raw) ==> r == Scheduled
  {
    if !Truthy(raw) then Scheduled
    else
      var status := Lower(raw.value);
      if status in {"scheduled"} then Scheduled
      else if status in DepartedWords then Departed
      else if status in {"landed"} then Arrived
      else if status in {"cancelled"} then Cancelled
      else if status in DelayedWords then Delayed
      else Scheduled
  }

  /** The mapping does not depend on the case of the raw status. */
  lemma StatusIgnoresCase(s: string)
    ensures StatusFromAviationstack(Some(Upper(s))) == StatusFromAviationstack(Some(s))
    ensures StatusFromAviationstack(Some(Lower(s))) == StatusFromAviationstack(Some(s))
  {
    LowerIgnoresCase(s);
  }

  // ----------------------------------------------- airport normalisation

  /** An airport code as stored: the stripped, upper-cased input when that
      has exactly three characters, and "UNK" otherwise. */
  function NormalizeIata(code: Option<string>): (r: string)
    ensures |r| == 3
    ensures forall i :: 0 <= i < |r| ==> !IsAsciiLower(r[i])
    ensures Truthy(code) && |PyStrip(code.value)| == 3 ==> r == Upper(PyStrip(code.value))
    ensures !(Truthy(code) && |PyStrip(code.value)| == 3) ==> r == "UNK"
  {
    if !Truthy(code) then "UNK"
    else
      var value := Upper(PyStrip(code.value));
      UpperIsUpper(PyStrip(code.value));
      if |value| == 3 then value else "UNK"
  }

  lemma UpperKeepsEdges(s: string)
    requires NoEdgeSpace(s, Python)
    ensures NoEdgeSpace(Upper(s), Python)
  {
  }

  /** Normalising a normalised code gives it back. */
  lemma NormalizeIataIdempotent(code: Option<string>)
    ensures NormalizeIata(Some(NormalizeIata(code))) == NormalizeIata(code)
  {
    if Truthy(code) && |PyStrip(code.value)| == 3 {
      var stripped := PyStrip(code.value);
      var r := Upper(stripped);
      UpperKeepsEdges(stripped);
      assert [] + r + [] == r;
      StripUnique([], r, [], Python);
      UpperIsUpper(stripped);
      assert Upper(PyStrip(r)) == r;
    } else {
      NormalizeIataOfCode("UNK");
    }
  }

  // ------------------------------------------------------------- the table

  const Source := "aviationstack"
  const KeyPrefix := "aviationstack:"

  /** A row of the external-flights table (ids and timestamps left out). */
  datatype ExternalFlight = ExternalFlight(
    source: string,
    flightKey: string,
    flightNumber: string,
    airlineCode: string,
    status: string,
    origin: string,
    destination: string,
    payload: Item)

  /** The table, indexed by its unique `flight_key` column. */
  type Table = map<string, ExternalFlight>

  /** Every row sits under its own key, and that key is the source prefix
      followed by the row's flight number. */
  ghost predicate WellFormed(t: Table) {
    forall k :: k in t ==>
      && t[k].flightKey == k
      && k == KeyPrefix + t[k].flightNumber
      && t[k].source == Source
  }

  /** In a well-formed table no two rows share a flight number. */
  lemma WellFormedNumbersUnique(t: Table, k1: string, k2: string)
    requires WellFormed(t)
    requires k1 in t && k2 in t && k1 != k2
    ensures t[k1].flightNumber != t[k2].flightNumber
  {
  }

  /** The item carries a flight number: its IATA or ICAO code is non-empty. */
  predicate HasFlightNumber(item: Item) {
    Truthy(FlightOf(item).iata) || Truthy(FlightOf(item).icao)
  }

  /** The flight number as stored: IATA preferred over ICAO, upper-cased;
      empty when the item has neither. */
  function FlightNumber(item: Item): (r: string)
    ensures r != "" <==> HasFlightNumber(item)
    ensures Truthy(FlightOf(item).iata) ==> r == Upper(FlightOf(item).iata.value)
    ensures !Truthy(FlightOf(item).iata) && Truthy(FlightOf(item).icao) ==>
      r == Upper(FlightOf(item).icao.value)
    ensures forall i :: 0 <= i < |r| ==> !IsAsciiLower(r[i])
  {
    UpperIsUpper(Or(FlightOf(item).iata, Or(FlightOf(item).icao, "")));
    Upper(Or(FlightOf(item).iata, Or(FlightOf(item).icao, "")))
  }

  /** The row key: the source's prefix followed by the flight number, so
      two items share a row exactly when they share a flight number. */
  function FlightKey(item: Item): (key: string)
    ensures KeyPrefix <= key && key[|KeyPrefix|..] == FlightNumber(item)
  {
    KeyPrefix + FlightNumber(item)
  }

  lemma FlightKeyIffNumber(a: Item, b: Item)
    ensures FlightKey(a) == FlightKey(b) <==> FlightNumber(a) == FlightNumber(b)
  {
    if FlightKey(a) == FlightKey(b) {
      assert FlightKey(a)[|KeyPrefix|..] == FlightKey(b)[|KeyPrefix|..];
    }
  }

  /** The airline code as stored: IATA, else ICAO, else "UNK", upper-cased;
      never empty and never lower-case. */
  function AirlineCode(item: Item): (r: string)
    ensures r != ""
    ensures Truthy(AirlineOf(item).iata) ==> r == Upper(AirlineOf(item).iata.value)
    ensures !Truthy(AirlineOf(item).iata) && Truthy(AirlineOf(item).icao) ==>
      r == Upper(AirlineOf(item).icao.value)
    ensures !Truthy(AirlineOf(item).iata) && !Truthy(AirlineOf(item).icao) ==> r == "UNK"
    ensures forall i :: 0 <= i < |r| ==> !IsAsciiLower(r[i])
  {
    UpperIsUpper(Or(AirlineOf(item).iata, Or(AirlineOf(item).icao, "UNK")));
    Upper(Or(AirlineOf(item).iata, Or(AirlineOf(item).icao, "UNK")))
  }

  /** The fields a store writes on both insert and update agree with `item`. */
  ghost predicate Describes(row: ExternalFlight, item: Item) {
    && row.status == StatusFromAviationstack(item.flightStatus).Value()
    && row.airlineCode == AirlineCode(item)
    && row.origin == NormalizeIata(DepartureOf(item).iata)
    && row.destination == NormalizeIata(ArrivalOf(item).iata)
    && row.payload == item
  }

  /** The status note a store returns alongside `stored`. */
  datatype StoreNote = Done | MissingFlightNumber {
    function Text(): string {
      match this
      case Done => "ok"
      case MissingFlightNumber => "missing_flight_number"
    }
  }

  datatype StoreResult = StoreResult(table: Table, stored: bool, note: StoreNote)

  /** `store_aviationstack_item`: inserts or updates the row keyed by the
      item's flight number; `stored` tells whether a row was created. */
  function StoreItem(t: Table, item: Item): (r: StoreResult)
    ensures r.note == MissingFlightNumber <==> !HasFlightNumber(item)
    ensures !HasFlightNumber(item) ==> r.table == t && !r.stored
    ensures HasFlightNumber(item) ==>
      && FlightKey(item) in r.table
      && r.table == t[FlightKey(item) := r.table[FlightKey(item)]]
      && r.stored == (FlightKey(item) !in t)
      && Describes(r.table[FlightKey(item)], item)
  {
    var number := FlightNumber(item);
    if number == "" then StoreResult(t, false, MissingFlightNumber)
    else
      var airline := AirlineCode(item);
      var origin := NormalizeIata(DepartureOf(item).iata);
      var destination := NormalizeIata(ArrivalOf(item).iata);
      var status := StatusFromAviationstack(item.flightStatus).Value();
      var key := KeyPrefix + number;
      if key in t then
        var row := t[key].(status := status, airlineCode := airline, origin := origin,
                           destination := destination, payload := item);
        StoreResult(t[key := row], false, Done)
      else
        var row := ExternalFlight(Source, key, number, airline, status, origin, destination, item);
        StoreResult(t[key := row], true, Done)
  }

  /** Storing an item whose key is absent creates exactly one row, which
      carries the source, the key and the flight number. */
  lemma StoreInsertsWhenAbsent(t: Table, item: Item)
    requires HasFlightNumber(item) && FlightKey(item) !in t
    ensures var r := StoreItem(t, item);
      && r.stored && r.note == Done
      && r.table.Keys == t.Keys + {FlightKey(item)}
      && |r.table| == |t| + 1
      && (forall k :: k in t ==> r.table[k] == t[k])
      && r.table[FlightKey(item)].source == Source
      && r.table[FlightKey(item)].flightKey == FlightKey(item)
      && r.table[FlightKey(item)].flightNumber == FlightNumber(item)
  {
    var r := StoreItem(t, item);
    assert r.table.Keys == t.Keys + {FlightKey(item)};
  }

  /** Storing an item whose key is present creates nothing and rewrites only
      the status, airline code, origin, destination and payload of that row. */
  lemma StoreUpdatesWhenPresent(t: Table, item: Item)
    requires HasFlightNumber(item) && FlightKey(item) in t
    ensures var r := StoreItem(t, item);
      var key := FlightKey(item);
      && !r.stored && r.note == Done
      && r.table.Keys == t.Keys
      && |r.table| == |t|
      && (forall k :: k in t && k != key ==> r.table[k] == t[k])
      && r.table[key] == t[key].(
           status := StatusFromAviationstack(item.flightStatus).Value(),
           airlineCode := AirlineCode(item),
           origin := NormalizeIata(DepartureOf(item).iata),
           destination := NormalizeIata(ArrivalOf(item).iata),
           payload := item)
  {
    var r := StoreItem(t, item);
    assert r.table.Keys == t.Keys;
  }

  /** A store keeps the table well-formed. */
  lemma StorePreservesWellFormed(t: Table, item: Item)
    requires WellFormed(t)
    ensures WellFormed(StoreItem(t, item).table)
  {
  }

  /** Storing the same item twice creates the row the first time at most,
      never the second time, and the second store changes nothing. */
  lemma StoreTwice(t: Table, item: Item)
    requires HasFlightNumber(item)
    ensures var first := StoreItem(t, item);
      var second := StoreItem(first.table, item);
      && first.stored == (FlightKey(item) !in t)
      && !second.stored
      && second.note == Done
      && second.table == first.table
  {
    var first := StoreItem(t, item);
    var second := StoreItem(first.table, item);
    var key := FlightKey(item);
    assert second.table[key] == first.table[key];
  }

  /** A three-letter upper-case code is already normalised. */
  lemma NormalizeIataOfCode(code: string)
    requires |code| == 3
    requires forall i :: 0 <= i < 3 ==> IsAsciiUpper(code[i])
    ensures NormalizeIata(Some(code)) == code
  {
    assert !IsPySpace(code[0]) && !IsPySpace(code[2]);
    assert [] + code + [] == code;
    StripUnique([], code, [], Python);
    assert PyStrip(code) == code;
    assert Upper(code) == code;
  }

  /** The stored row of the repository's own end-to-end test. */
  lemma StoreExample()
    ensures var item := Item(
        Some(FlightBlock(Some("AA101"), None)),
        Some(AirlineBlock(Some("American Airlines"), Some("AA"), None)),
        Some(EndpointBlock(Some("ORD"), Some("2026-01-15T10:00:00+00:00"), None, None)),
        Some(EndpointBlock(Some("LAX"), Some("2026-01-15T12:30:00+00:00"), None, None)),
        Some("scheduled"));
      var r := StoreItem(map[], item);
      && r.stored && r.note == Done
      && "aviationstack:AA101" in r.table
      && r.table["aviationstack:AA101"].origin == "ORD"
      && r.table["aviationstack:AA101"].destination == "LAX"
      && r.table["aviationstack:AA101"].airlineCode == "AA"
      && r.table["aviationstack:AA101"].status == "SCHEDULED"
  {
    var item := Item(
      Some(FlightBlock(Some("AA101"), None)),
      Some(AirlineBlock(Some("American Airlines"), Some("AA"), None)),
      Some(EndpointBlock(Some("ORD"), Some("2026-01-15T10:00:00+00:00"), None, None)),
      Some(EndpointBlock(Some("LAX"), Some("2026-01-15T12:30:00+00:00"), None, None)),
      Some("scheduled"));
    assert Upper("AA101") == "AA101";
    assert FlightNumber(item) == "AA101";
    assert FlightKey(item) == "aviationstack:AA101";
    assert Upper("AA") == "AA";
    assert AirlineCode(item) == "AA";
    NormalizeIataOfCode("ORD");
    NormalizeIataOfCode("LAX");
    assert Lower("scheduled") == "scheduled";
    assert StatusFromAviationstack(Some("scheduled")) == Scheduled;
  }

  // -------------------------------------------------------------- import

  /** The table after storing every item of `data` in order. */
  function StoreAll(t: Table, data: seq<Item>): Table
    decreases |data|
  {
    if |data| == 0 then t
    else StoreItem(StoreAll(t, data[..|data| - 1]), data[|data| - 1]).table
  }

  /** The key a store of `item` adds to the table, if any. */
  function NewKeys(item: Item): set<string> {
    if HasFlightNumber(item) then {FlightKey(item)} else {}
  }

  /** The keys of the items of `data` that carry a flight number. */
  function KeysOf(data: seq<Item>): set<string>
    decreases |data|
  {
    if |data| == 0 then {}
    else
      var last := data[|data| - 1];
      KeysOf(data[..|data| - 1]) + NewKeys(last)
  }

  /** The number of items of `data` that carry a flight number. */
  function NumberedCount(data: seq<Item>): (n: nat)
    ensures n <= |data|
    decreases |data|
  {
    if |data| == 0 then 0
    else NumberedCount(data[..|data| - 1]) + (if HasFlightNumber(data[|data| - 1]) then 1 else 0)
  }

  /** What one store contributes to the import's counts. */
  lemma StoreStep(t: Table, item: Item)
    ensures var r := StoreItem(t, item);
      && r.table.Keys == t.Keys + NewKeys(item)
      && |r.table| == |t| + (if r.stored then 1 else 0)
      && (r.stored ==> HasFlightNumber(item))
      && (WellFormed(t) ==> WellFormed(r.table))
  {
    if WellFormed(t) {
      StorePreservesWellFormed(t, item);
    }
    if HasFlightNumber(item) {
      if FlightKey(item) in t {
        StoreUpdatesWhenPresent(t, item);
      } else {
        StoreInsertsWhenAbsent(t, item);
      }
    }
  }

  /** The folds over a prefix one item longer take one more step. */
  lemma StoreAllSnoc(t: Table, data: seq<Item>, i: nat)
    requires i < |data|
    ensures StoreAll(t, data[..i + 1]) == StoreItem(StoreAll(t, data[..i]), data[i]).table
    ensures NumberedCount(data[..i + 1]) == NumberedCount(data[..i]) + (if HasFlightNumber(data[i]) then 1 else 0)
  {
    assert data[..i + 1][..i] == data[..i];
  }

  /** Storing a sequence of items adds exactly the keys of its numbered items. */
  lemma {:induction false} StoreAllKeys(t: Table, data: seq<Item>)
    ensures StoreAll(t, data).Keys == t.Keys + KeysOf(data)
    decreases |data|
  {
    if |data| > 0 {
      var init := data[..|data| - 1];
      StoreAllKeys(t, init);
      StoreStep(StoreAll(t, init), data[|data| - 1]);
    }
  }

  /** Storing a sequence of items keeps the table well-formed. */
  lemma {:induction false} StoreAllWellFormed(t: Table, data: seq<Item>)
    ensures WellFormed(t) ==> WellFormed(StoreAll(t, data))
    decreases |data|
  {
    if |data| > 0 && WellFormed(t) {
      var init := data[..|data| - 1];
      StoreAllWellFormed(t, init);
      StorePreservesWellFormed(StoreAll(t, init), data[|data| - 1]);
    }
  }

  /** The counting loop's state after its first `i` items: the table is the
      fold of their stores, `upserts` counts the numbered ones, and the
      table has grown by exactly `created` rows. */
  ghost predicate Tallied(t: Table, data: seq<Item>, i: nat, table: Table, created: nat, upserts: nat) {
    && i <= |data|
    && table == StoreAll(t, data[..i])
    && upserts == NumberedCount(data[..i])
    && created <= upserts
    && |table| == |t| + created
  }

  /** One turn of the counting loop keeps the tally. */
  lemma TallyStep(t: Table, data: seq<Item>, i: nat, table: Table, created: nat, upserts: nat)
    requires i < |data| && Tallied(t, data, i, table, created, upserts)
    ensures var r := StoreItem(table, data[i]);
      Tallied(t, data, i + 1, r.table,
              created + (if r.stored then 1 else 0), upserts + (if r.note == Done then 1 else 0))
  {
    StoreAllSnoc(t, data, i);
    StoreStep(table, data[i]);
  }

  /** The counting loop of the import: stores every item, counting the rows
      created and the items upserted; items without a flight number are
      skipped. `created` is exactly the number of keys the table gained. */
  method StoreItems(t: Table, data: seq<Item>) returns (t': Table, created: nat, upserts: nat)
    ensures t' == StoreAll(t, data)
    ensures t'.Keys == t.Keys + KeysOf(data)
    ensures upserts == NumberedCount(data)
    ensures created <= upserts <= |data|
    ensures |t'| == |t| + created
    ensures WellFormed(t) ==> WellFormed(t')
  {
    t', created, upserts := t, 0, 0;
    var i := 0;
    assert data[..0] == [];
    while i < |data|
      invariant Tallied(t, data, i, t', created, upserts)
    {
      var r := StoreItem(t', data[i]);
      TallyStep(t, data, i, t', created, upserts);
      t' := r.table;
      created := created + (if r.stored then 1 else 0);
      upserts := upserts + (if r.note == Done then 1 else 0);
      i := i + 1;
    }
    assert data[..|data|] == data;
    StoreAllKeys(t, data);
    StoreAllWellFormed(t, data);
  }

  /** One request to the Aviationstack flights endpoint. */
  datatype FeedQuery = FeedQuery(limit: int, depIata: Option<string>, arrIata: Option<string>)

  /** What a request yields: a raised HTTP status, or a JSON body with an
      optional `error` member and an optional `data` list. */
  datatype Feed = StatusError(code: int) | Body(error: Option<string>, data: Option<seq<Item>>)

  /** The errors the service raises: an HTTPException with its status code
      and detail, or the upstream status error passed through. */
  datatype ServiceError =
    | HttpException(code: int, detail: string)
    | UpstreamStatus(code: int)
    /** `int()` raised ValueError on the configured page size */
    | InvalidLimit(text: string)

  /** The page size used when `AVIATIONSTACK_LIMIT` is unset. */
  const DefaultLimitText := "50"

  const KeyNotConfigured := "AVIATIONSTACK_KEY is not configured"

  /** Checks one response: a status error or a truthy `error` member fails;
      otherwise the `data` list, missing or null read as empty. */
  function FeedData(f: Feed): (r: Result<seq<Item>, ServiceError>)
    ensures f.StatusError? ==> r == Err(UpstreamStatus(f.code))
    ensures f.Body? && Truthy(f.error) ==> r == Err(HttpException(400, f.error.value))
    ensures f.Body? && !Truthy(f.error) ==> r == Ok(f.data.GetOr([]))
  {
    match f
    case StatusError(code) => Err(UpstreamStatus(code))
    case Body(error, data) =>
      if Truthy(error) then Err(HttpException(400, error.value)) else Ok(data.GetOr([]))
  }

  /** The import's page size: a non-zero override, else `int()` of the
      `AVIATIONSTACK_LIMIT` text ("50" when unset), which raises ValueError
      on text that is not an integer or has too many digits. */
  function ImportLimit(limitOverride: Option<int>, configured: Option<string>): (r: Result<int, ServiceError>)
    ensures limitOverride.Some? && limitOverride.value != 0 ==> r == Ok(limitOverride.value)
    ensures (limitOverride.None? || limitOverride.value == 0) && configured.None? ==> r == Ok(50)
    ensures (limitOverride.None? || limitOverride.value == 0) && configured.Some? ==>
      && (AllSpace(configured.value, Python) ==> r == Err(InvalidLimit(configured.value)))
      && (PyInt.DigitCount(PyStrip(configured.value)) > PyInt.MaxStrDigits ==> r == Err(InvalidLimit(configured.value)))
      && (r.Ok? <==> PyInt.ParseInt(configured.value).Some?)
      && (r.Ok? ==> r.value == PyInt.ParseInt(configured.value).value)
  {
    if limitOverride.Some? && limitOverride.value != 0 then Ok(limitOverride.value)
    else
      var text := configured.GetOr(DefaultLimitText);
      DefaultLimitIsFifty();
      match PyInt.ParseInt(text)
      case Some(n) => Ok(n)
      case None => Err(InvalidLimit(text))
  }

  /** The page size used when the variable is unset reads as 50. */
  lemma DefaultLimitIsFifty()
    ensures PyInt.ParseInt(DefaultLimitText) == Some(50)
  {
    var t := DefaultLimitText;
    assert [] + t + [] == t;
    StripUnique([], t, [], Python);
    assert t[1..] == "0" && PyInt.DigitCount(t) == 2;
    assert t[..1] == "5" && PyInt.DigitsValue(t) == 50;
    assert PyInt.IsDigitGroups(t);
    assert PyInt.ReadNumber(t) == Some(50);
    assert PyStrip(t) == t;
  }

  /** A variable holding an integer, with any whitespace around it, sets
      the page size to that integer when no override is given, unless the
      integer has more digits than `int()` accepts. */
  lemma ConfiguredLimitReadsBack(n: int, before: string, after: string)
    requires AllSpace(before, Python) && AllSpace(after, Python)
    ensures var text := before + PyInt.Decimal(n) + after;
      ImportLimit(None, Some(text)) == if PyInt.Readable(n) then Ok(n) else Err(InvalidLimit(text))
  {
    PyInt.ParseDecimal(n, before, after);
  }

  /** The queries the import sends: departures then arrivals of the
      upper-cased configured airport, or one unfiltered query without one. */
  function ImportQueries(limit: int, airport: Option<string>): (qs: seq<FeedQuery>)
    ensures Truthy(airport) ==> qs == [FeedQuery(limit, Some(Upper(airport.value)), None),
                                       FeedQuery(limit, None, Some(Upper(airport.value)))]
    ensures !Truthy(airport) ==> qs == [FeedQuery(limit, None, None)]
  {
    if Truthy(airport) then
      var code := Upper(airport.value);
      [FeedQuery(limit, Some(code), None), FeedQuery(limit, None, Some(code))]
    else [FeedQuery(limit, None, None)]
  }

  /** Page `i` of `qs` is the first that fails, and fails with `e`. */
  predicate FirstFailure(qs: seq<FeedQuery>, feeds: FeedQuery -> Feed, i: int, e: ServiceError) {
    && 0 <= i < |qs|
    && FeedData(feeds(qs[i])) == Err(e)
    && forall j :: 0 <= j < i ==> FeedData(feeds(qs[j])).Ok?
  }

  /** Fetches the pages of `qs` in order and concatenates their data; the
      first page that fails stops the fetch with its error. */
  function FetchPages(qs: seq<FeedQuery>, feeds: FeedQuery -> Feed): (r: Result<seq<Item>, ServiceError>)
    ensures r.Ok? <==> forall i :: 0 <= i < |qs| ==> FeedData(feeds(qs[i])).Ok?
    ensures r.Err? ==> exists i :: FirstFailure(qs, feeds, i, r.error)
    decreases |qs|
  {
    if |qs| == 0 then Ok([])
    else
      match FeedData(feeds(qs[0]))
      case Err(e) =>
        assert FirstFailure(qs, feeds, 0, e);
        Err(e)
      case Ok(page) =>
        match FetchPages(qs[1..], feeds)
        case Err(e) =>
          FirstFailureShifts(qs, feeds, e);
          Err(e)
        case Ok(rest) => Ok(page + rest)
  }

  /** A first failing page of the tail, behind a good head, is a first
      failing page of the whole list. */
  lemma FirstFailureShifts(qs: seq<FeedQuery>, feeds: FeedQuery -> Feed, e: ServiceError)
    requires |qs| >= 1 && FeedData(feeds(qs[0])).Ok?
    requires exists i :: FirstFailure(qs[1..], feeds, i, e)
    ensures exists i :: FirstFailure(qs, feeds, i, e)
  {
    var i :| FirstFailure(qs[1..], feeds, i, e);
    assert FeedData(feeds(qs[i + 1])) == Err(e);
    forall j | 0 <= j < i + 1
      ensures FeedData(feeds(qs[j])).Ok?
    {
      if j > 0 { assert qs[j] == qs[1..][j - 1]; }
    }
    assert FirstFailure(qs, feeds, i + 1, e);
  }

  /** Fetching two lists of queries one after the other is fetching their
      concatenation: an error of the first list stops before the second, and
      otherwise the data are concatenated in query order. */
  lemma {:induction false} FetchPagesAppend(a: seq<FeedQuery>, b: seq<FeedQuery>, feeds: FeedQuery -> Feed)
    ensures FetchPages(a + b, feeds) ==
      match FetchPages(a, feeds)
      case Err(e) => Err(e)
      case Ok(first) =>
        match FetchPages(b, feeds)
        case Err(e) => Err(e)
        case Ok(second) => Ok(first + second)
    decreases |a|
  {
    if |a| == 0 {
      assert a + b == b;
      if FetchPages(b, feeds).Ok? {
        assert [] + FetchPages(b, feeds).value == FetchPages(b, feeds).value;
      }
    } else {
      assert (a + b)[0] == a[0] && (a + b)[1..] == a[1..] + b;
      FetchPagesAppend(a[1..], b, feeds);
      if FeedData(feeds(a[0])).Ok? && FetchPages(a[1..], feeds).Ok? && FetchPages(b, feeds).Ok? {
        var page := FeedData(feeds(a[0])).value;
        var rest := FetchPages(a[1..], feeds).value;
        var second := FetchPages(b, feeds).value;
        assert page + (rest + second) == (page + rest) + second;
      }
    }
  }

  /** A single page is fetched as it is checked. */
  lemma FetchOnePage(q: FeedQuery, feeds: FeedQuery -> Feed)
    ensures FetchPages([q], feeds) == FeedData(feeds(q))
  {
    if FeedData(feeds(q)).Ok? {
      assert FeedData(feeds(q)).value + [] == FeedData(feeds(q)).value;
    }
  }

  /** With a configured airport the import reads the departures page, and
      only when it succeeds the arrivals page; the items are the departures
      followed by the arrivals. */
  lemma ImportPagesOfAirport(limit: int, airport: Option<string>, feeds: FeedQuery -> Feed)
    requires Truthy(airport)
    ensures var qs := ImportQueries(limit, airport);
      var deps := FeedData(feeds(qs[0]));
      var arrs := FeedData(feeds(qs[1]));
      && (deps.Err? ==> FetchPages(qs, feeds) == Err(deps.error))
      && (deps.Ok? && arrs.Err? ==> FetchPages(qs, feeds) == Err(arrs.error))
      && (deps.Ok? && arrs.Ok? ==> FetchPages(qs, feeds) == Ok(deps.value + arrs.value))
  {
    var qs := ImportQueries(limit, airport);
    assert qs == [qs[0]] + [qs[1]];
    FetchPagesAppend([qs[0]], [qs[1]], feeds);
    FetchOnePage(qs[0], feeds);
    FetchOnePage(qs[1], feeds);
  }

  datatype ImportOutcome =
    | Imported(table: Table, created: nat, fetched: nat, upserts: nat)
    | Failed(error: ServiceError)

  /** `import_aviationstack_flights`: fetches one or two pages and stores
      every item. `fetched` counts every item received, numbered or not. */
  method ImportFlights(
    t: Table, apiKey: Option<string>, limitOverride: Option<int>, configuredLimit: Option<string>,
    airport: Option<string>, feeds: FeedQuery -> Feed)
    returns (r: ImportOutcome)
    ensures !Truthy(apiKey) ==> r == Failed(HttpException(400, KeyNotConfigured))
    ensures var limit := ImportLimit(limitOverride, configuredLimit);
      Truthy(apiKey) && limit.Err? ==> r == Failed(limit.error)
    ensures var limit := ImportLimit(limitOverride, configuredLimit);
      limit.Ok? ==>
      var pages := FetchPages(ImportQueries(limit.value, airport), feeds);
      && (Truthy(apiKey) && pages.Err? ==> r == Failed(pages.error))
      && (Truthy(apiKey) && pages.Ok? ==>
            && r.Imported?
            && r.fetched == |pages.value|
            && r.table == StoreAll(t, pages.value)
            && r.upserts == NumberedCount(pages.value))
    ensures r.Imported? ==> r.created <= r.upserts <= r.fetched
    ensures r.Imported? ==> |r.table| == |t| + r.created
    ensures r.Imported? && WellFormed(t) ==> WellFormed(r.table)
  {
    if !Truthy(apiKey) {
      return Failed(HttpException(400, KeyNotConfigured));
    }
    var limit := ImportLimit(limitOverride, configuredLimit);
    if limit.Err? {
      return Failed(limit.error);
    }
    var pages := FetchPages(ImportQueries(limit.value, airport), feeds);
    if pages.Err? {
      return Failed(pages.error);
    }
    var table, created, upserts := StoreItems(t, pages.value);
    r := Imported(table, created, |pages.value|, upserts);
  }

  // ------------------------------------------------------- airport board

  /** `map_item`: projects a raw item onto the board schema, filling every
      required field with a fallback; scheduled time, terminal and gate come
      from the departure block for "departure" and from the arrival block
      otherwise. */
  function MapItem(item: Item, direction: string): (f: Flight)
    ensures f.flightNumber == Or(FlightOf(item).iata, Or(FlightOf(item).icao, "UNKNOWN"))
    ensures f.airline == Or(AirlineOf(item).name, Or(AirlineOf(item).iata, Or(AirlineOf(item).icao, "Unknown")))
    ensures f.status == Or(item.flightStatus, "unknown")
    ensures f.origin == Or(DepartureOf(item).iata, "UNK")
    ensures f.destination == Or(ArrivalOf(item).iata, "UNK")
    ensures var block := if direction == "departure" then DepartureOf(item) else ArrivalOf(item);
      f.scheduled == block.scheduled && f.terminal == block.terminal && f.gate == block.gate
    ensures f.flightNumber != "" && f.airline != "" && f.status != ""
    ensures f.origin != "" && f.destination != ""
  {
    var block := if direction == "departure" then DepartureOf(item) else ArrivalOf(item);
    Flight(
      Or(FlightOf(item).iata, Or(FlightOf(item).icao, "UNKNOWN")),
      Or(AirlineOf(item).name, Or(AirlineOf(item).iata, Or(AirlineOf(item).icao, "Unknown"))),
      Or(item.flightStatus, "unknown"),
      Or(DepartureOf(item).iata, "UNK"),
      Or(ArrivalOf(item).iata, "UNK"),
      block.scheduled,
      block.terminal,
      block.gate)
  }

  /** The board entry of an item and the row stored for it agree: the row's
      flight number, status, origin and destination are what normalising the
      entry's fields gives. */
  lemma MapItemAgreesWithStore(t: Table, item: Item, direction: string)
    requires WellFormed(t)
    requires HasFlightNumber(item)
    ensures var f := MapItem(item, direction);
      var row := StoreItem(t, item).table[FlightKey(item)];
      && row.flightNumber == Upper(f.flightNumber)
      && row.status == StatusFromAviationstack(Some(f.status)).Value()
      && row.origin == NormalizeIata(Some(f.origin))
      && row.destination == NormalizeIata(Some(f.destination))
  {
    StoredNumber(t, item);
    StatusFallbackAgrees(item.flightStatus);
    CodeFallbackAgrees(DepartureOf(item).iata);
    CodeFallbackAgrees(ArrivalOf(item).iata);
  }

  /** The row stored for a numbered item carries the item's flight number,
      whether it was inserted or updated. */
  lemma StoredNumber(t: Table, item: Item)
    requires WellFormed(t)
    requires HasFlightNumber(item)
    ensures StoreItem(t, item).table[FlightKey(item)].flightNumber == FlightNumber(item)
  {
    var key := FlightKey(item);
    if key in t {
      assert key[|KeyPrefix|..] == t[key].flightNumber;
      assert key[|KeyPrefix|..] == FlightNumber(item);
    }
  }

  /** The board's "unknown" status maps as a missing status does. */
  lemma StatusFallbackAgrees(raw: Option<string>)
    ensures StatusFromAviationstack(Some(Or(raw, "unknown"))) == StatusFromAviationstack(raw)
  {
    assert Lower("unknown") == "unknown";
  }

  /** The board's "UNK" code normalises as a missing code does. */
  lemma CodeFallbackAgrees(code: Option<string>)
    ensures NormalizeIata(Some(Or(code, "UNK"))) == NormalizeIata(code)
  {
    if !Truthy(code) {
      NormalizeIataOfCode("UNK");
    }
  }


  /** The board entries of a page of items, in page order. */
  function MapAll(items: seq<Item>, direction: string): (fs: seq<Flight>)
    ensures |fs| == |items|
    ensures forall i :: 0 <= i < |items| ==> fs[i] == MapItem(items[i], direction)
  {
    seq(|items|, i requires 0 <= i < |items| => MapItem(items[i], direction))
  }

  /** The airport code the board is fetched for: stripped, then upper-cased. */
  function BoardCode(airport: string): (code: string)
    ensures |code| == |PyStrip(airport)| <= |airport|
    ensures Lower(code) == Lower(PyStrip(airport))
    ensures forall i :: 0 <= i < |code| ==> !IsAsciiLower(code[i])
    ensures NoEdgeSpace(code, Python)
  {
    var stripped := PyStrip(airport);
    UpperIsUpper(stripped);
    UpperKeepsEdges(stripped);
    LowerIgnoresCase(stripped);
    Upper(stripped)
  }

  /** Normalising an already normalised code changes nothing, so a board
      fetched for the code it reports asks for the same rows. */
  lemma BoardCodeIdempotent(airport: string)
    ensures BoardCode(BoardCode(airport)) == BoardCode(airport)
  {
    var code := BoardCode(airport);
    if code != [] {
      assert [] + code + [] == code;
      StripUnique([], code, [], Python);
    }
    UpperIsUpper(PyStrip(airport));
  }

  /** `fetch_aviationstack_airport`: the live board of one airport, the
      departures page asked for first and its error reported first. */
  function FetchAirport(airport: string, limit: int, apiKey: Option<string>, feeds: FeedQuery -> Feed)
    : (r: Result<AirportResponse, ServiceError>)
    ensures !Truthy(apiKey) ==> r == Err(HttpException(400, KeyNotConfigured))
    ensures var code := BoardCode(airport);
      var deps := FeedData(feeds(FeedQuery(limit, Some(code), None)));
      var arrs := FeedData(feeds(FeedQuery(limit, None, Some(code))));
      && (r.Ok? <==> Truthy(apiKey) && deps.Ok? && arrs.Ok?)
      && (Truthy(apiKey) && deps.Err? ==> r == Err(deps.error))
      && (Truthy(apiKey) && deps.Ok? && arrs.Err? ==> r == Err(arrs.error))
      && (r.Ok? ==>
            && r.value.airport == code
            && |r.value.departures| == |deps.value|
            && |r.value.arrivals| == |arrs.value|
            && (forall i :: 0 <= i < |deps.value| ==>
                  r.value.departures[i] == MapItem(deps.value[i], "departure"))
            && (forall i :: 0 <= i < |arrs.value| ==>
                  r.value.arrivals[i] == MapItem(arrs.value[i], "arrival")))
  {
    if !Truthy(apiKey) then Err(HttpException(400, KeyNotConfigured))
    else
      var code := BoardCode(airport);
      match FeedData(feeds(FeedQuery(limit, Some(code), None)))
      case Err(e) => Err(e)
      case Ok(deps) =>
        match FeedData(feeds(FeedQuery(limit, None, Some(code))))
        case Err(e) => Err(e)
        case Ok(arrs) =>
          Ok(AirportResponse(code, MapAll(deps, "departure"), MapAll(arrs, "arrival")))
  }
}
