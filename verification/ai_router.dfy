/** The backend's assistant endpoint (`POST /ai/ask`): the request body's
    bounds, the API-key check, how a failed generation is reported, and the
    trimmed answer. The database lookup, the prompt and the Gemini client
    are outside the model; the lookup's and the generation's outcomes are
    inputs. */
module AiRouter {
  import opened Wrappers
  import opened Text

  const DefaultAirport := "ORD"
  const MaxQuestion: nat := 1000

  const KeyMissing := "GEMINI_API_KEY is not configured"
  const QuotaExceeded := "Gemini quota/rate limit exceeded. Try again shortly or upgrade billing."
  const ModelNotFound := "Gemini model not found or unsupported. Check GEMINI_MODEL or use gemini-2.0-flash."
  const FailedPrefix := "Gemini request failed: "
  const EmptyResponse := "Gemini request failed: empty response"

  /** An `HTTPException` with its status code; validation errors (422)
      carry a structured detail, not a message, hence `None`. */
  datatype HttpError = HttpError(code: int, detail: Option<string>)

  datatype ChatRequest = ChatRequest(question: string, airport: string)

  /** `ChatRequest` validation: the question is required with 1 to 1000
      characters; the airport defaults to "ORD" and otherwise has 3 or 4. */
  function Validate(question: Option<string>, airport: Option<string>): (r: Result<ChatRequest, HttpError>)
    ensures r.Ok? <==>
      && question.Some? && 1 <= |question.value| <= MaxQuestion
      && (airport.Some? ==> 3 <= |airport.value| <= 4)
    ensures r.Ok? ==> r.value.question == question.value && r.value.airport == airport.GetOr(DefaultAirport)
    ensures r.Err? ==> r.error == HttpError(422, None)
  {
    if question.None? || !(1 <= |question.value| <= MaxQuestion) then Err(HttpError(422, None))
    else if airport.Some? && !(3 <= |airport.value| <= 4) then Err(HttpError(422, None))
    else Ok(ChatRequest(question.value, airport.GetOr(DefaultAirport)))
  }

  /** What the Gemini call does: it raises an exception whose text is
      `message`, or returns a response with an optional `text`. */
  datatype Generation = Raised(message: string) | Returned(text: Option<string>)

  /** The exception handler's choice: a quota error (429) wins over a
      missing model (502), and anything else is a 502 quoting the error. */
  function Classify(message: string): (e: HttpError)
    ensures e.code == 429 <==> Contains(message, "429") || Contains(message, "RESOURCE_EXHAUSTED")
    ensures e.code != 429 ==> e.code == 502
    ensures e.code == 429 ==> e.detail == Some(QuotaExceeded)
    ensures e.code == 502 && (Contains(message, "404") || Contains(message, "NOT_FOUND")) ==>
      e.detail == Some(ModelNotFound)
    ensures e.code == 502 && !Contains(message, "404") && !Contains(message, "NOT_FOUND") ==>
      e.detail == Some(FailedPrefix + message)
  {
    if Contains(message, "429") || Contains(message, "RESOURCE_EXHAUSTED") then HttpError(429, Some(QuotaExceeded))
    else if Contains(message, "404") || Contains(message, "NOT_FOUND") then HttpError(502, Some(ModelNotFound))
    else HttpError(502, Some(FailedPrefix + message))
  }

  /** A message that names a quota error is reported as one even when it
      also names a missing model; an unrecognised error's detail quotes it. */
  lemma ClassifyPrecedence(before: string, middle: string, after: string)
    ensures Classify(before + "429" + middle + "404" + after).code == 429
    ensures var m := before + middle + after;
      !Contains(m, "429") && !Contains(m, "RESOURCE_EXHAUSTED") &&
      !Contains(m, "404") && !Contains(m, "NOT_FOUND") ==>
        Contains(Classify(m).detail.value, m)
  {
    assert before + "429" + middle + "404" + after == before + "429" + (middle + "404" + after);
    ContainsInfix(before, "429", middle + "404" + after);
    var m := before + middle + after;
    assert FailedPrefix + m == FailedPrefix + m + "";
    ContainsInfix(FailedPrefix, m, "");
  }

  /** The answer: the response text (a missing one read as empty) with
      surrounding whitespace removed; a blank answer is a 502. */
  function Answer(text: Option<string>): (r: Result<string, HttpError>)
    ensures r.Ok? <==> !AllSpace(text.GetOr(""), Python)
    ensures r.Ok? ==> r.value == PyStrip(text.GetOr("")) && r.value != "" && NoEdgeSpace(r.value, Python)
    ensures r.Err? ==> r.error == HttpError(502, Some(EmptyResponse))
  {
    StripEmptyIffAllSpace(text.GetOr(""), Python);
    var answer := PyStrip(text.GetOr(""));
    if answer == "" then Err(HttpError(502, Some(EmptyResponse))) else Ok(answer)
  }

  /** Returning an answer that is already trimmed gives it back unchanged. */
  lemma AnswerOfAnswer(text: Option<string>)
    requires Answer(text).Ok?
    ensures Answer(Some(Answer(text).value)) == Answer(text)
  {
    StripIdempotent(text.GetOr(""), Python);
  }

  /** `ask_ai`: validation first, then the airport lookup that builds the
      prompt's flight context (`lookupFailure` is the error it raises, if
      any), then the API key, then the generation. */
  function Ask(
    question: Option<string>, airport: Option<string>, lookupFailure: Option<HttpError>,
    apiKey: Option<string>, generation: Generation)
    : (r: Result<string, HttpError>)
    ensures Validate(question, airport).Err? ==> r == Err(HttpError(422, None))
    ensures Validate(question, airport).Ok? && lookupFailure.Some? ==> r == Err(lookupFailure.value)
    ensures Validate(question, airport).Ok? && lookupFailure.None? && !Truthy(apiKey) ==>
      r == Err(HttpError(500, Some(KeyMissing)))
    ensures Validate(question, airport).Ok? && lookupFailure.None? && Truthy(apiKey) ==>
      && (generation.Raised? ==> r == Err(Classify(generation.message)))
      && (generation.Returned? ==> r == Answer(generation.text))
    ensures r.Ok? ==> r.value != "" && NoEdgeSpace(r.value, Python)
    ensures r.Err? ==> r.error.code in {422, 500, 429, 502} || lookupFailure == Some(r.error)
  {
    match Validate(question, airport)
    case Err(e) => Err(e)
    case Ok(_) =>
      if lookupFailure.Some? then Err(lookupFailure.value)
      else if !Truthy(apiKey) then Err(HttpError(500, Some(KeyMissing)))
      else match generation
        case Raised(message) => Err(Classify(message))
        case Returned(text) => Answer(text)
  }
}
