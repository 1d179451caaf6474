# Airport ops board: a Dafny model of its rules

The airport-ops repository shows live arrivals and departures for Chicago
O'Hare (ORD). Its FastAPI backend pulls flights from the Aviationstack API
into an external-flights table and serves airport boards. A Gemini-backed
assistant answers questions about the flights. A React dashboard polls the
board, derives next-24-hour counts and a "latest 20" list, and hosts a chat
panel.

This project models the pure rules inside that glue. Each rule is a
function over immutable data, with contracts and lemmas that state what it
guarantees:

- `FlightsService` (`flights_service.dfy`) covers the backend flight service:
  - the status mapping and the IATA-code normalisation;
  - the keyed upsert into the table, modelled as a map from `flight_key` to row;
  - the import's counting loop;
  - the live airport board with its `map_item` projection.
- `FlightSummary` (`flight_summary.dfy`, using the stable sort of
  `stable_sort.dfy`) covers the dashboard's derived metrics.
- `FlightsData` and `ManualFetchCard` (`flights_data.dfy`,
  `manual_fetch_card.dfy`, `js_number.dfy`) model the data hook as a state
  machine: a fetch begins, then settles, and the limit comes from the card.
- `ChatPanel` and `AiService` (`chat_panel.dfy`, `ai_service.dfy`) model the
  chat panel as a state machine, together with the AI client's choice of
  outcome and message.
- `AiRouter` (`ai_router.dfy`) covers the assistant endpoint:
  - the request bounds;
  - the API-key check;
  - the classification of Gemini errors;
  - answer trimming.
- `AskFlow` (`ask_flow.dfy`) composes the panel, the client and the endpoint
  for one question.
- `Cors` (`cors.dfy`) covers the CORS origin list and the local-origin
  fallback pattern, which is characterised exactly.
- `Wrappers`, `Text`, `PyInt`, `Enums` and `Schemas` hold the shared types
  and the ASCII string operations:
  - Python `strip`/`upper`/`lower`/`split`/`in`;
  - `int()` of a string, including CPython's default limit of 4300 digits;
  - JavaScript `trim`.
- `Revision` (`revision.dfy`) names the two versions of a handler with a
  defect (see "## Findings"). Both state machines take the version as a
  parameter. `AsWritten` is the program, and `Corrected` applies the fix.
- `EventRun` (`event_run.dfy`) is the generic run of a state machine over a
  list of events. Both state machines' runs are shown equal to it.

Every environment variable, clock reading, date parse and HTTP response is
a parameter of the model. Examples are `apiKey`, `now`, `parse`, `feeds`,
`reply` and `generation`.

## Model

| member | source | states |
|---|---|---|
| FlightsService.StatusFromAviationstack | airport_ops_api/app/services/flights_service.py:11-25 | A missing or empty status gives SCHEDULED. Each synonym group maps to its status, compared in lower case (DEPARTED, ARRIVED, CANCELLED and DELAYED are each an if-and-only-if). Anything else gives SCHEDULED. BOARDING is never produced. |
| FlightsService.StatusIgnoresCase | airport_ops_api/app/services/flights_service.py:14 | Upper-casing or lower-casing the raw status does not change the mapped status. |
| Enums.ValueInjective | airport_ops_api/app/enums.py:9-15 | Distinct statuses are stored as distinct strings. |
| FlightsService.NormalizeIata | airport_ops_api/app/services/flights_service.py:28-32 | The result always has 3 characters and no lower-case letter. It is the stripped, upper-cased code when that has length 3, otherwise "UNK". |
| FlightsService.NormalizeIataIdempotent | airport_ops_api/app/services/flights_service.py:28-32 | Normalising a normalised code returns it unchanged. |
| FlightsService.NormalizeIataOfCode | airport_ops_api/app/services/flights_service.py:28-32 | A three-letter upper-case code is already normalised. |
| FlightsService.WellFormedNumbersUnique | airport_ops_api/app/models.py:14 | In a table whose rows sit under "aviationstack:" + their number, no two rows share a flight number. |
| FlightsService.FlightNumber | airport_ops_api/app/services/flights_service.py:43-45 | The stored flight number is the upper-cased IATA code when that is truthy, otherwise the upper-cased ICAO code. It is non-empty exactly when one of them is truthy, and has no lower-case letter. |
| FlightsService.FlightKey | airport_ops_api/app/services/flights_service.py:52 | The key is "aviationstack:" followed by the flight number. |
| FlightsService.FlightKeyIffNumber | airport_ops_api/app/services/flights_service.py:52-57 | Two items look up the same row exactly when their flight numbers are equal. |
| FlightsService.AirlineCode | airport_ops_api/app/services/flights_service.py:47 | The airline code is the upper-cased IATA code, else the upper-cased ICAO code, else "UNK". It is never empty and has no lower-case letter. |
| FlightsService.StoreItem | airport_ops_api/app/services/flights_service.py:35-82 | Without a flight number the note is "missing_flight_number", the table is unchanged and nothing is stored. Otherwise only the item's key changes, `stored` is true exactly when that key was absent, and the row carries the mapped status, airline code, normalised origin and destination, and the payload. |
| FlightsService.StoreInsertsWhenAbsent | airport_ops_api/app/services/flights_service.py:66-79 | For an absent key, one row is added with source, key and number set. The key set grows by that key, the size grows by one, and every other row is unchanged. |
| FlightsService.StoreUpdatesWhenPresent | airport_ops_api/app/services/flights_service.py:59-65 | For a present key, nothing is created and the keys and size are unchanged. Only that row's status, airline code, origin, destination and payload are rewritten. |
| FlightsService.StorePreservesWellFormed | airport_ops_api/app/services/flights_service.py:52-79 | A store keeps every row under its own key "aviationstack:" + number, with the source set. |
| FlightsService.StoreTwice | airport_ops_api/app/services/flights_service.py:52-82 | Storing the same item again creates nothing and changes nothing. |
| FlightsService.StoreExample | airport_ops_api/tests/test_flights_flow.py:5-29 | The test's AA101 item is stored under "aviationstack:AA101" with origin ORD, destination LAX, airline AA and status SCHEDULED. |
| FlightsService.StoreStep | airport_ops_api/app/services/flights_service.py:152-158 | One store adds exactly the item's key, if it has one. The table grows by one exactly when a row was created. |
| FlightsService.StoreAllKeys | airport_ops_api/app/services/flights_service.py:152-158 | Storing a sequence of items adds exactly the keys of its numbered items. |
| FlightsService.StoreAllWellFormed | airport_ops_api/app/services/flights_service.py:152-158 | Storing a sequence of items keeps the table well-formed. |
| FlightsService.StoreItems | airport_ops_api/app/services/flights_service.py:149-160 | The loop's table is the fold of stores. Its keys are the old keys plus the items' keys. `upserts` counts the numbered items, `created` ≤ `upserts` ≤ the number of items, and the table grows by exactly `created`. |
| FlightsService.NumberedCount | airport_ops_api/app/services/flights_service.py:152-158 | The number of items with a flight number is at most the number of items. |
| FlightsService.FeedData | airport_ops_api/app/services/flights_service.py:108-117 | An upstream status error is passed through. A truthy `error` member gives a 400 carrying it. Otherwise the `data` list is read, and a missing or null list reads as empty. |
| FlightsService.ImportLimit | airport_ops_api/app/services/flights_service.py:95 | A non-zero override wins. Otherwise `AVIATIONSTACK_LIMIT` is read with `int()`, or "50" when unset. A blank or non-integer value fails with ValueError, and so does an integer of more than 4300 digits. Any other integer text gives its value. |
| FlightsService.DefaultLimitIsFifty | airport_ops_api/app/services/flights_service.py:95 | The default text "50" used when the variable is unset reads as 50. |
| FlightsService.ConfiguredLimitReadsBack | airport_ops_api/app/services/flights_service.py:95 | A variable holding an integer of at most 4300 digits, with any whitespace around it, sets the page size to that integer. A longer integer fails with ValueError. |
| PyInt.ParseInt | airport_ops_api/app/services/flights_service.py:95 | `int()` of blank text raises, and so does a text of more than 4300 digits. Any text it accepts is, once stripped, non-empty and made only of digits, signs and underscores. |
| PyInt.ParseDecimal | airport_ops_api/app/services/flights_service.py:95 | `int(str(n)) == n` for every integer of at most 4300 digits, with any whitespace around it. A longer rendering raises ValueError. |
| FlightsService.ImportQueries | airport_ops_api/app/services/flights_service.py:96-148 | With a configured airport, the departures query goes first and the arrivals query second, both for the upper-cased code. Without one, a single unfiltered query is sent. |
| FlightsService.FetchPages | airport_ops_api/app/services/flights_service.py:101-148 | The pages succeed exactly when every page does. A failure is the error of the first page that fails, and every earlier page succeeded. |
| FlightsService.FetchPagesAppend | airport_ops_api/app/services/flights_service.py:101-133 | Fetching two lists of queries in turn is fetching their concatenation. An error in the first list stops before the second, and otherwise the data are concatenated in query order. |
| FlightsService.FetchOnePage | airport_ops_api/app/services/flights_service.py:135-148 | A single query's result is its checked page. |
| FlightsService.ImportPagesOfAirport | airport_ops_api/app/services/flights_service.py:101-133 | With an airport configured, a departures error is raised before the arrivals request. Otherwise an arrivals error is raised. Otherwise the items are the departures followed by the arrivals. |
| FlightsService.ImportFlights | airport_ops_api/app/services/flights_service.py:85-160 | A missing key gives 400 "AVIATIONSTACK_KEY is not configured". Next, an unreadable limit gives its ValueError, and a failing page gives its error. Otherwise `fetched` counts every item received, the table is the fold of stores, `upserts` counts the numbered items, `created` ≤ `upserts` ≤ `fetched`, the table grows by `created`, and well-formedness is kept. |
| FlightsService.MapItem | airport_ops_api/app/services/flights_service.py:200-233 | Each field falls back as follows: flight number iata→icao→"UNKNOWN"; airline name→iata→icao→"Unknown"; status raw→"unknown"; origin and destination raw IATA→"UNK", not normalised. Scheduled time, terminal and gate come from the departure block exactly for "departure". The required fields are never empty. |
| FlightsService.MapItemAgreesWithStore | airport_ops_api/app/services/flights_service.py:43-50 | A board entry and the row stored for the same item agree. The row's number, status, origin and destination are the normalised forms of the entry's fields. |
| FlightsService.BoardCode | airport_ops_api/app/services/flights_service.py:171 | The board's airport code is the stripped input up to case: same length and same lower-cased form. It has no lower-case letter and no surrounding whitespace. |
| FlightsService.BoardCodeIdempotent | airport_ops_api/app/services/flights_service.py:171 | Normalising the reported code again gives the same code. |
| FlightsService.MapAll | airport_ops_api/app/services/flights_service.py:235-241 | Each page is projected item by item, in order. |
| FlightsService.FetchAirport | airport_ops_api/app/services/flights_service.py:163-243 | A missing key gives 400. The board is returned exactly when both pages succeed. A departures error is reported before an arrivals error. The board carries the normalised code and both pages projected element by element. |
| FlightSummary.Next24h | frontend/src/hooks/useFlightSummary.js:7-15 | A flight is kept exactly when its scheduled time is present, parses, and lies in [now, now + 86,400,000], both ends included. The result is never longer than the input. |
| FlightSummary.Next24hAppend | frontend/src/hooks/useFlightSummary.js:7-27 | The window filter of a concatenation is the concatenation of the filters. |
| FlightSummary.Next24hExtremes | frontend/src/hooks/useFlightSummary.js:7-15 | The count equals the list's length exactly when every flight is in the window, and is 0 exactly when none is. |
| FlightSummary.CountsOf | frontend/src/hooks/useFlightSummary.js:7-35 | Each count is taken against the same `now` and is at most its list's length. The total is the sum, and also the count of the merged list. `summaryData` is exactly [Departures, Arrivals], in that order. |
| FlightSummary.ResolvedTime | frontend/src/hooks/useFlightSummary.js:41 | A missing or empty scheduled time resolves to 0. Otherwise it resolves to the parsed time. |
| FlightSummary.Tag | frontend/src/hooks/useFlightSummary.js:38-42 | Each flight is kept unchanged, with the given direction and its resolved time. |
| FlightSummary.Combined | frontend/src/hooks/useFlightSummary.js:43-46 | All tagged departures come first, then all tagged arrivals. |
| FlightSummary.LatestPositions | frontend/src/hooks/useFlightSummary.js:47-49 | min(20, n) positions are chosen, newest first, with ties in input order. Every chosen flight comes before every flight left out in the stable order: it is newer, or equally new and earlier in the input. |
| FlightSummary.TopK | frontend/src/hooks/useFlightSummary.js:47-49 | Every position inside a prefix of the stable order comes before every position outside it: its key is larger, or equal and earlier. |
| FlightSummary.LatestFlights | frontend/src/hooks/useFlightSummary.js:37-50 | The list has length min(20, departures + arrivals), does not increase in time, and each entry is the merged flight at its chosen position. |
| FlightSummary.LatestEntriesAreTaggedInputs | frontend/src/hooks/useFlightSummary.js:38-46 | Each entry is an input flight with its fields unchanged. It is tagged Departure exactly when it came from the departures, and carries its resolved time (0 when missing). |
| FlightSummary.LatestTiesKeepInputOrder | frontend/src/hooks/useFlightSummary.js:43-48 | Entries with equal times keep their input order, so every departure comes before every arrival. |
| StableSort.Insert | frontend/src/hooks/useFlightSummary.js:48 | Inserting a new position into an ordered list keeps it ordered and adds exactly that position. |
| StableSort.SortPrefix | frontend/src/hooks/useFlightSummary.js:48 | The first n positions, ordered: a permutation of 0..n-1. |
| StableSort.Sort | frontend/src/hooks/useFlightSummary.js:48 | Every position is listed once, keys do not increase, and equal keys keep input order. |
| StableSort.OrderedIsUnique | frontend/src/hooks/useFlightSummary.js:48 | Two ordered lists holding the same positions are equal. |
| StableSort.SortIsUnique | frontend/src/hooks/useFlightSummary.js:48 | Any ordered permutation of the positions is the sort, so the stable order is determined. |
| FlightsData.ResolveLimit | frontend/src/hooks/useFlightsData.js:17-20 | The requested limit is used when it is a number other than NaN. Otherwise the live limit is used, which is never NaN when the live limit is not. |
| FlightsData.Begin | frontend/src/hooks/useFlightsData.js:14-25 | Beginning a fetch only raises the refreshing flag. The request asks for ORD with the resolved limit. |
| FlightsData.FailureMessage | frontend/src/hooks/useFlightsData.js:30-31 | The error is never empty. A non-ok response gives "Unable to fetch Aviationstack data.", and a thrown error gives its message, or "Failed to load data." when that is empty. |
| FlightsData.Settle | frontend/src/hooks/useFlightsData.js:26-34 | Success replaces both lists (a missing list becomes empty), stamps the time and clears the error. Failure keeps the lists and the time and sets the message. Both drop the refreshing flag and keep the limits. |
| FlightsData.Step | frontend/src/hooks/useFlightsData.js:14-44 | Mount and poll ask with the captured limit. "Fetch now" asks with the live limit, and does nothing while refreshing: the state stays the same. Mount, poll and an enabled "Fetch now" only raise the refreshing flag. Typing sets the limit through the card's change handler, which as written reads a cleared field as 0. A settled reply is applied by `Settle`. Nothing else requests. |
| FlightsData.Run | frontend/src/hooks/useFlightsData.js:14-44 | A run sends at most one request per event. |
| FlightsData.RunAppend | frontend/src/hooks/useFlightsData.js:14-44 | Running two lists of events one after the other is the same as running them together. The second list starts where the first ended, and the requests are the first list's followed by the second's. |
| FlightsData.StepKeepsGood | frontend/src/hooks/useFlightsData.js:14-44 | Every step, with either version of the card's handler, keeps these facts: both limits are numbers, the captured one is 25, an error is non-empty, and no flight is listed before the first load. Every request asks for ORD with a numeric limit. |
| FlightsData.RunKeepsGood | frontend/src/hooks/useFlightsData.js:6-44 | These facts hold along any sequence of events, and every request sent asks for ORD with a numeric limit. |
| FlightsData.InitialIsGood | frontend/src/hooks/useFlightsData.js:6-12 | The initial state has empty lists, no time, no error, is not refreshing, and has limit 25; it satisfies the invariant. |
| FlightsData.PollIgnoresTypedLimit | frontend/src/hooks/useFlightsData.js:37-43 | The mount and every poll request 25, whatever limit was typed since. |
| FlightsData.FailureKeepsLastBoard | frontend/src/hooks/useFlightsData.js:26-31 | A failure after a load leaves the loaded flights and their time in place, next to a non-empty error. |
| FlightsData.FetchNowSendsTypedLimit | frontend/src/components/ManualFetchCard.jsx:20-26 | Typing a limit and then clicking "Fetch now" while idle sends the limit the card's handler made of the text. |
| FlightsData.ClearedFieldThenFetchNow | frontend/src/components/ManualFetchCard.jsx:20-26 | As written, clearing the field and clicking "Fetch now" requests 0 flights, which the route refuses. With the corrected handler it requests 25, which the route accepts. |
| JsNumber.ToNumber | frontend/src/components/ManualFetchCard.jsx:21 | A blank string converts to 0. Any other string is read as its trimmed literal. |
| JsNumber.ToNumberIgnoresSpace | frontend/src/components/ManualFetchCard.jsx:21 | Whitespace around a literal is ignored, and whitespace alone is 0. |
| ManualFetchCard.Shown | frontend/src/components/ManualFetchCard.jsx:19 | The field is blank exactly when the limit is NaN, and otherwise shows the limit. |
| ManualFetchCard.LimitFromInput | frontend/src/components/ManualFetchCard.jsx:20-23 | The value handed on is never NaN. An unreadable literal gives 25, a readable one passes through unclamped, and a blank field gives 0. |
| ManualFetchCard.ClearedFieldGivesZero | frontend/src/components/ManualFetchCard.jsx:20-23 | As written, clearing the field sets the limit to 0, which the flights route refuses, while 25 would be accepted. |
| ManualFetchCard.LimitFromInputIntended | frontend/src/components/ManualFetchCard.jsx:20-23 | Corrected: a blank field gives 25. Any other text is handled as written. The result is never NaN. |
| ManualFetchCard.BlankFieldRestoresFallback | frontend/src/components/ManualFetchCard.jsx:16-23 | Corrected: blank or whitespace-only text restores 25, which the route accepts. |
| AiService.Request | frontend/src/services/aiService.js:2-6 | The request posts to /ai/ask and carries the question and the airport unchanged. |
| AiService.AskAi | frontend/src/services/aiService.js:1-22 | A network error rejects with its message. An ok response resolves with the parsed body, of which the model keeps the `answer` member, or rejects with the parse error. A non-ok response always rejects, with the chosen message. |
| AiService.ErrorMessage | frontend/src/services/aiService.js:8-18 | The message is the body's detail when the body parses and the detail is non-empty, and "Unable to reach the AI assistant." otherwise. It is never empty. |
| ChatPanel.CanSend | frontend/src/components/ChatPanel.jsx:17-20 | Send is enabled exactly when nothing is being sent and the watched input is not whitespace-only. |
| ChatPanel.Typed | frontend/src/components/ChatPanel.jsx:83-88 | Typing sets both the watched input and the box, and nothing else. |
| ChatPanel.Submit | frontend/src/components/ChatPanel.jsx:22-40 | A blank box or a send in progress changes nothing and sends nothing. Otherwise exactly one user message with the trimmed text is appended, the input and box are cleared, the error is cleared, sending starts, and the request carries the trimmed question and ORD. |
| ChatPanel.Receive | frontend/src/components/ChatPanel.jsx:41-49 | Success appends exactly one assistant message: the answer, or "No response." when it is missing or empty. Failure appends nothing and sets the message, or the fallback. Both end the send, and nothing settles when no send is under way. |
| ChatPanel.ClearAsWritten | frontend/src/components/ChatPanel.jsx:52-56 | As written, Clear resets the transcript, the watched input and the error, while the box keeps its text. |
| ChatPanel.ClearLeavesDisabledDraft | frontend/src/components/ChatPanel.jsx:52-56 | As written: after typing "gates?" and clicking Clear, the box still holds the question and a submit would send it, yet Send is disabled. |
| ChatPanel.Clear | frontend/src/components/ChatPanel.jsx:52-56 | Corrected: Clear also empties the box. Clicked while idle, it returns the panel to its initial state. |
| ChatPanel.Step | frontend/src/components/ChatPanel.jsx:91-101 | Send submits when `canSend` holds, and otherwise leaves the state unchanged. Clear acts only while not sending, and runs the given version of `handleClear`, as written or corrected. Typing sets the input and the box. A settled call is applied by `Receive`. Only an enabled Send requests. |
| ChatPanel.Run | frontend/src/components/ChatPanel.jsx:22-56 | A run sends at most one request per event. |
| ChatPanel.RunAppend | frontend/src/components/ChatPanel.jsx:22-56 | Running two lists of events one after the other is the same as running them together. The second list starts where the first ended, and the requests are the first list's followed by the second's. |
| ChatPanel.AppendKeepsGood | frontend/src/components/ChatPanel.jsx:27-44 | Appending a non-empty message keeps the transcript facts: a trimmed user message may follow anything, and an assistant message must follow a user message. |
| ChatPanel.StepKeepsGood | frontend/src/components/ChatPanel.jsx:17-56 | Every event keeps the invariant. The greeting comes first, later messages are non-empty, user messages are trimmed, and every assistant reply follows a user message. A send in progress waits on a trailing user message with no error, and errors are non-empty. The watched input is the box's text or empty, and with the corrected Clear it is always the box's text. |
| ChatPanel.RunKeepsGood | frontend/src/components/ChatPanel.jsx:5-56 | Any sequence of events, with either version of Clear, keeps that version's invariant. Every request asks about ORD with a trimmed, non-empty question. |
| ChatPanel.SendEnabledIffSubmitSends | frontend/src/components/ChatPanel.jsx:17-25 | Corrected: in a state reachable with the corrected Clear, Send is enabled exactly when submitting sends something. |
| ChatPanel.SendEnabledThenSubmitSends | frontend/src/components/ChatPanel.jsx:17-25 | As written, in a reachable state an enabled Send always sends something. The converse fails, as `ClearLeavesDisabledDraft` shows. |
| ChatPanel.Exchange | frontend/src/components/ChatPanel.jsx:22-49 | Typing, sending and receiving a non-empty answer appends exactly the trimmed question and then the answer, and leaves the panel idle with no error. |
| ChatPanel.InitialIsGood | frontend/src/components/ChatPanel.jsx:5-14 | The transcript starts as exactly the greeting, and the initial state satisfies both versions' invariants. |
| AiRouter.Validate | airport_ops_api/app/routers/ai.py:15-17 | A request is valid exactly when the question is present with 1 to 1000 characters and any given airport has 3 or 4 characters; a missing airport defaults to ORD. Any other request gives 422. |
| AiRouter.Classify | airport_ops_api/app/routers/ai.py:71-87 | An error is 429 exactly when it mentions "429" or "RESOURCE_EXHAUSTED", with the quota detail. Otherwise it is 502: the model-not-found detail for "404" or "NOT_FOUND", and "Gemini request failed: " + message for anything else. |
| AiRouter.ClassifyPrecedence | airport_ops_api/app/routers/ai.py:73-87 | A message naming both 429 and 404 is a 429. An unrecognised error's detail contains the message. |
| AiRouter.Answer | airport_ops_api/app/routers/ai.py:89-94 | The answer is the stripped text, with missing text read as empty. It succeeds exactly when the text is not all whitespace, and is then non-empty and trimmed. Otherwise the result is 502 "Gemini request failed: empty response". |
| AiRouter.AnswerOfAnswer | airport_ops_api/app/routers/ai.py:89 | Trimming a returned answer again changes nothing. |
| AiRouter.Ask | airport_ops_api/app/routers/ai.py:39-94 | Checks run in order: validation (422), then the airport lookup's own error, then the API key (500 "GEMINI_API_KEY is not configured"), then the generation's classification or answer. A success is non-empty and trimmed. Every error code is 422, 500, 429 or 502, unless it is the lookup's. |
| AskFlow.ReplyOf | airport_ops_api/app/routers/ai.py:94 | A success reaches the browser as an ok body with the answer. An error reaches it as a non-ok body carrying its detail. |
| AskFlow.PanelRequestsValidIffShort | frontend/src/components/ChatPanel.jsx:24-40 | A question the panel sends passes the endpoint's validation exactly when its trimmed text has at most 1000 characters. |
| AskFlow.AnswerIsShownVerbatim | frontend/src/components/ChatPanel.jsx:41-44 | An endpoint answer is appended verbatim, after the question, and is never replaced by "No response.". |
| AskFlow.FailureIsShownAsError | frontend/src/components/ChatPanel.jsx:45-46 | An endpoint error adds no message, and the question stays last. The error shown is the endpoint's detail, or the client's fallback for an empty one. For the endpoint's own errors it is always the detail. |
| Cors.CleanOrigins | airport_ops_api/app/main.py:47 | No origin is empty or has surrounding whitespace, there are no more origins than pieces, and the list is empty exactly when every piece is blank. |
| Cors.CleanOriginsOne | airport_ops_api/app/main.py:47 | One piece gives its stripped text, or nothing when it is blank. |
| Cors.CleanOriginsAppend | airport_ops_api/app/main.py:47 | Cleaning a concatenation cleans each part. With `CleanOriginsOne`, the result is the stripped non-blank pieces in order. |
| Cors.ParseOrigins | airport_ops_api/app/main.py:46-47 | The variable is split on commas and cleaned. The result is empty exactly when every piece is blank. |
| Cors.CleanOriginsOfClean | airport_ops_api/app/main.py:47 | Clean origins pass through unchanged. |
| Cors.ParseJoinedOrigins | airport_ops_api/app/main.py:46-47 | Writing clean origins comma-separated and parsing them gives back the same list. |
| Cors.SplitOfBlank | airport_ops_api/app/main.py:47 | A value of only commas and whitespace splits into blank pieces. |
| Cors.Configure | airport_ops_api/app/main.py:46-58 | Credentials, all methods and all headers are always allowed. A non-empty list becomes `allow_origins` exactly. An empty list sets only the fallback pattern. |
| Cors.BlankVariableFallsBack | airport_ops_api/app/main.py:53-56 | An unset variable, or one with only commas and whitespace, selects the fallback pattern. |
| Cors.ParseLocal | airport_ops_api/app/main.py:56 | Whatever the pattern admits is http or https, then localhost or 127.0.0.1, then an optional ":digits", and renders back to the same origin. |
| Cors.ParseRender | airport_ops_api/app/main.py:56 | Every such origin is admitted and read back as its parts, so the pattern admits exactly these origins. |
| Cors.DefaultAllowsOnlyLocal | airport_ops_api/app/main.py:53-56 | With nothing configured, exactly the local origins are allowed. With a list, exactly its members are. |

## Findings

| source | as written | input that shows it | evidently intended | confidence | as-written member | corrected member |
|---|---|---|---|---|---|---|
| frontend/src/components/ManualFetchCard.jsx:20-23 | `Number(event.target.value)` converts a cleared number field ("") to 0, not NaN, so the fallback to 25 never applies to it. | Clear the Limit field and click "Fetch now": the request carries limit=0, which `GET /flights/{airport}` refuses (`ge=1`, airport_ops_api/app/routers/flights.py:42), and the board shows "Unable to fetch Aviationstack data.". | A blank field falls back to the placeholder's 25, as an unreadable one does. | medium; not executed | ManualFetchCard.LimitFromInput, ManualFetchCard.ClearedFieldGivesZero, FlightsData.ClearedFieldThenFetchNow | ManualFetchCard.LimitFromInputIntended, ManualFetchCard.BlankFieldRestoresFallback |
| frontend/src/components/ChatPanel.jsx:52-56 | `handleClear` resets the `input` state, but the textarea is uncontrolled and keeps its text. | Type "gates?" and click Clear: the box still shows "gates?" and Send stays disabled until the user types again. | Clear empties the textarea too, as `handleSubmit` does at lines 29-31. | medium; not executed | ChatPanel.ClearAsWritten, ChatPanel.ClearLeavesDisabledDraft, ChatPanel.SendEnabledThenSubmitSends | ChatPanel.Clear, ChatPanel.SendEnabledIffSubmitSends |

`FlightsData.Step` and `ChatPanel.Step` take the handler's version as a parameter. With `AsWritten` they model the program. Their invariants are proved for both versions, and each finding's consequence in the running panel is proved for `AsWritten`.

## Left out

- Network and I/O are inputs, not modelled:
  - every `httpx.get` call to Aviationstack and every browser `fetch`;
  - JSON decoding.

  `feeds`, `Reply` and `Generation` stand for the answers.
- The database session, commits, row ids and the `created_at`/`updated_at` timestamps are left out. The table is a map from `flight_key` to row. Column widths are not enforced.
- `fetch_aviationstack_airport_from_db` is not part of this model: it is called by `GET /flights/{airport}` and by `POST /ai/ask`, but its definition is not in the source. So the board the frontend polls, and the flight context of the assistant's prompt, are not modelled.
- `AiRouter.Ask`: the lookup's outcome is a parameter, either the error it raises or none. An exception other than an `HTTPException` is taken to reach the client as some HTTP error, and a lookup that never returns is not modelled.
- The Gemini client, the model-name lookup and the prompt text are left out. The generation's outcome (an exception message, or a response text) is an input.
- `main.py` mounts only the flights router. The assistant endpoint is modelled as written in its own file, even though it is not mounted.
- Concurrency and timing are left out: the backend poll task, the hourly `setInterval`, and overlapping fetches (the first completion clears the refreshing flag). Events are applied one at a time, in the order the caller gives.
- The `limit` of the data hook is not clamped to 5-100. Only the field's `min`/`max` attributes mention those bounds, and the code follows them nowhere.
- `JsNumber.ToNumber`: the literal reader is a parameter. Infinity, hexadecimal and other `Number` syntax, and a fractional limit reaching the route, are not modelled.
- `FlightSummary.LatestFlights`, `FlightSummary.Tag`, `FlightSummary.Combined` and `FlightSummary.LatestPositions` require every present scheduled time to parse. A non-empty unparseable time gives NaN, and the sort's order is then implementation-defined.
- Date parsing and `Date.now()` are parameters (`parse`, `now`, `at`). Locale formatting is left out.
- `Text.Upper`, `Text.Lower` and `Text.Strip` handle ASCII only. Python's and JavaScript's Unicode case and whitespace tables, and Unicode digits in the pattern's `\d`, are not modelled.
- `AiRouter.Validate` gives a 422 with no string detail. FastAPI's validation detail is a list, and `AskFlow.ReplyOf` takes the browser's text for it as a parameter.
- `FlightsService.ImportLimit`: `int()` is read for ASCII text only. Python also accepts other Unicode decimal digits and Unicode whitespace, which are not modelled. The digit limit is fixed at CPython's default of 4300. Changing it with `PYTHONINTMAXSTRDIGITS` or `sys.set_int_max_str_digits` is not modelled.
- `AiService.AskAi`: an ok body is reduced to its `answer` member, the only member the panel reads. Other members of the body are not modelled.
- `Cors.Configure`: how the middleware treats a literal "*" among the configured origins is the framework's business and is not modelled.
- Rendering is left out: the D3 chart, the map, the JSX layout, the older `ChicagoDashboard.jsx` and the formatters.
- The thin HTTP wrappers (`routers/flights.py`, `services/flightsService.js`) are not modelled beyond their status codes and messages, and neither are the test fixtures.
