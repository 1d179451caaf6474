/** The manual-fetch card: a number field bound to the data hook's limit and
    a "Fetch now" button. The field shows the limit (blank for NaN); typing
    converts the text with `Number` and falls back to 25 on NaN; the button
    asks for a fetch with no explicit limit and is disabled while a fetch is
    under way. The field's `min`/`max` attributes only hint: nothing clamps
    the value. */
module ManualFetchCard {
  import opened Wrappers
  import opened Text
  import opened JsNumber
  import opened Revision

  /** The limit the card falls back to, also its placeholder. */
  const FallbackLimit: real := 25.0

  /** The field's displayed value: nothing for NaN, the number otherwise. */
  function Shown(limit: Number): (v: Option<real>)
    ensures v.None? <==> limit.NaN?
    ensures limit.Num? ==> v == Some(limit.x)
  {
    match limit
    case NaN => None
    case Num(x) => Some(x)
  }

  /** The limits `GET /flights/{airport}` accepts: whole numbers from 1 to
      100 (its `limit` query parameter is an `int` with `ge=1, le=100`). */
  predicate RouteAccepts(limit: Number) {
    limit.Num? && limit.x.Floor as real == limit.x && 1.0 <= limit.x <= 100.0
  }

  /** The limit handed to `onLimitChange` for the field's text, as written:
      `Number(text)`, or 25 when that is NaN. A blank field is read as 0. */
  function LimitFromInput(text: string, literal: Literal): (n: Number)
    ensures n.Num?
    ensures JsTrim(text) == "" ==> n == Num(0.0)
    ensures JsTrim(text) != "" && literal(JsTrim(text)).NaN? ==> n == Num(FallbackLimit)
    ensures JsTrim(text) != "" && literal(JsTrim(text)).Num? ==> n == literal(JsTrim(text))
  {
    var typed := ToNumber(text, literal);
    if typed.NaN? then Num(FallbackLimit) else typed
  }

  /** A cleared field sets the limit to 0, which the flights route refuses,
      instead of the fallback 25 the NaN check aims at. */
  lemma ClearedFieldGivesZero(literal: Literal)
    ensures LimitFromInput("", literal) == Num(0.0)
    ensures !RouteAccepts(LimitFromInput("", literal))
    ensures RouteAccepts(Num(FallbackLimit))
  {
    assert JsTrim("") == "";
  }

  /** The limit for the field's text with a blank field treated like an
      unreadable one: 25 unless the text is a number. */
  function LimitFromInputIntended(text: string, literal: Literal): (n: Number)
    ensures n.Num?
    ensures JsTrim(text) == "" ==> n == Num(FallbackLimit)
    ensures JsTrim(text) != "" ==> n == LimitFromInput(text, literal)
  {
    if JsTrim(text) == "" then Num(FallbackLimit) else LimitFromInput(text, literal)
  }

  /** With the correction, clearing the field or typing whitespace restores
      the placeholder's limit, which the route accepts. */
  lemma BlankFieldRestoresFallback(text: string, literal: Literal)
    requires AllSpace(text, JavaScript)
    ensures LimitFromInputIntended(text, literal) == Num(FallbackLimit)
    ensures RouteAccepts(LimitFromInputIntended(text, literal))
  {
    StripEmptyIffAllSpace(text, JavaScript);
  }

  /** The field's change handler of the given version. */
  function LimitFor(handler: Handler, text: string, literal: Literal): Number {
    match handler
    case AsWritten => LimitFromInput(text, literal)
    case Corrected => LimitFromInputIntended(text, literal)
  }

  /** "Fetch now" is clickable exactly when no fetch is under way. */
  predicate FetchEnabled(isRefreshing: bool) {
    !isRefreshing
  }
}
