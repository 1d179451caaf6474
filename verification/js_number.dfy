/** JavaScript numbers as the frontend uses them: NaN or a finite value,
    and the `Number(string)` conversion. */
module JsNumber {
  import opened Text

  datatype Number = NaN | Num(x: real)

  /** Reads a trimmed, non-empty numeric literal: `NaN` when it is not one. */
  type Literal = string -> Number

  /** `Number(text)`: surrounding whitespace is ignored, a blank string is
      0, anything else is read as a numeric literal. */
  function ToNumber(text: string, literal: Literal): (n: Number)
    ensures JsTrim(text) == "" ==> n == Num(0.0)
    ensures JsTrim(text) != "" ==> n == literal(JsTrim(text))
  {
    var trimmed := JsTrim(text);
    if trimmed == "" then Num(0.0) else literal(trimmed)
  }

  /** Whitespace around a literal does not change the number it denotes,
      and a string of whitespace only is 0. */
  lemma ToNumberIgnoresSpace(before: string, core: string, after: string, literal: Literal)
    requires AllSpace(before, JavaScript) && AllSpace(after, JavaScript)
    ensures core != [] && NoEdgeSpace(core, JavaScript) ==>
      ToNumber(before + core + after, literal) == literal(core)
    ensures ToNumber(before + after, literal) == Num(0.0)
  {
    if core != [] && NoEdgeSpace(core, JavaScript) {
      StripUnique(before, core, after, JavaScript);
    }
    var blank := before + after;
    assert AllSpace(blank, JavaScript) by {
      assert forall i :: 0 <= i < |before| ==> blank[i] == before[i];
      assert forall i :: |before| <= i < |blank| ==> blank[i] == after[i - |before|];
    }
    StripEmptyIffAllSpace(blank, JavaScript);
  }
}
