/** Python's `int()` applied to a string, for ASCII text: surrounding
    whitespace is ignored, an optional `+` or `-` comes first, then decimal
    digits, with single underscores allowed between digits (`1_000`). Since
    CPython 3.10.7 a text of more than 4300 digits (the interpreter's
    default `max_str_digits`) is refused as well. Anything refused raises
    ValueError, which is `None` here. */
module PyInt {
  import opened Wrappers
  import opened Text

  predicate IsDigit(c: char) { '0' <= c <= '9' }

  /** Decimal digits with single underscores between them. */
  predicate IsDigitGroups(s: string) {
    && |s| >= 1
    && IsDigit(s[0])
    && IsDigit(s[|s| - 1])
    && (forall i :: 0 <= i < |s| ==> IsDigit(s[i]) || s[i] == '_')
    && (forall i :: 0 <= i < |s| - 1 && s[i] == '_' ==> s[i + 1] != '_')
  }

  function DigitValue(c: char): nat {
    if IsDigit(c) then (c as int - '0' as int) as nat else 0
  }

  /** The value of a run of decimal digits, underscores skipped. */
  function DigitsValue(s: string): nat
    decreases |s|
  {
    if |s| == 0 then 0
    else if s[|s| - 1] == '_' then DigitsValue(s[..|s| - 1])
    else DigitsValue(s[..|s| - 1]) * 10 + DigitValue(s[|s| - 1])
  }

  /** The interpreter's default limit on the digits of a decimal text
      converted to an integer. */
  const MaxStrDigits := 4300

  /** The number of decimal digits in a text; signs and underscores do not
      count. */
  function DigitCount(s: string): nat
    decreases |s|
  {
    if |s| == 0 then 0 else (if IsDigit(s[0]) then 1 else 0) + DigitCount(s[1..])
  }

  /** The number a stripped text spells: an optional sign, then digit
      groups of at most `MaxStrDigits` digits. */
  function ReadNumber(t: string): Option<int> {
    if DigitCount(t) > MaxStrDigits then None
    else if |t| >= 1 && (t[0] == '-' || t[0] == '+') && IsDigitGroups(t[1..]) then
      var v: int := DigitsValue(t[1..]);
      Some(if t[0] == '-' then -v else v)
    else if IsDigitGroups(t) then Some(DigitsValue(t))
    else None
  }

  /** `int(text)`: `None` where Python raises ValueError. A blank string
      always raises, so does one of more than `MaxStrDigits` digits, and
      whatever reads as a number is made only of digits, signs and
      underscores once stripped. */
  function ParseInt(text: string): (r: Option<int>)
    ensures AllSpace(text, Python) ==> r.None?
    ensures DigitCount(PyStrip(text)) > MaxStrDigits ==> r.None?
    ensures r.Some? ==> var t := PyStrip(text);
      |t| >= 1 && forall i :: 0 <= i < |t| ==> IsDigit(t[i]) || t[i] in "+-_"
  {
    var t := PyStrip(text);
    StripEmptyIffAllSpace(text, Python);
    assert |t| >= 1 && (t[0] == '-' || t[0] == '+') ==>
      forall i :: 1 <= i < |t| ==> t[i] == t[1..][i - 1];
    ReadNumber(t)
  }

  // ------------------------------------------------------------- decimals

  function DigitChar(d: nat): char
    requires d < 10
  {
    ('0' as int + d) as char
  }

  /** A text of digits only has one digit per character. */
  lemma {:induction false} AllDigitsCount(s: string)
    requires forall i :: 0 <= i < |s| ==> IsDigit(s[i])
    ensures DigitCount(s) == |s|
    decreases |s|
  {
    if |s| > 0 {
      assert forall i :: 0 <= i < |s[1..]| ==> s[1..][i] == s[i + 1];
      AllDigitsCount(s[1..]);
    }
  }

  /** The decimal digits of `n`, most significant first, no leading zero. */
  function Digits(n: nat): (s: string)
    ensures |s| >= 1
    decreases n
  {
    if n < 10 then [DigitChar(n)] else Digits(n / 10) + [DigitChar(n % 10)]
  }

  function Magnitude(n: int): nat {
    if n < 0 then -n else n
  }

  /** `str(n)`. */
  function Decimal(n: int): string {
    if n < 0 then "-" + Digits(-n) else Digits(n)
  }

  /** Whether `int()` accepts the decimal rendering of `n`: it has at most
      `MaxStrDigits` digits. */
  predicate Readable(n: int) {
    |Digits(Magnitude(n))| <= MaxStrDigits
  }

  /** The digits of `n` are digit groups (with no underscore) worth `n`. */
  lemma {:induction false} DigitsRead(n: nat)
    ensures forall i :: 0 <= i < |Digits(n)| ==> IsDigit(Digits(n)[i])
    ensures IsDigitGroups(Digits(n))
    ensures DigitsValue(Digits(n)) == n
    decreases n
  {
    var s := Digits(n);
    if n >= 10 {
      var front := Digits(n / 10);
      DigitsRead(n / 10);
      assert s == front + [DigitChar(n % 10)];
      assert s[..|s| - 1] == front;
      assert forall i :: 0 <= i < |front| ==> s[i] == front[i];
    }
  }

  /** The rendering of a non-negative number reads back as it, unless it
      is too long. */
  lemma ReadDigits(n: nat)
    ensures ReadNumber(Decimal(n)) == if Readable(n) then Some(n) else None
    ensures NoEdgeSpace(Decimal(n), Python)
  {
    DigitsRead(n);
    AllDigitsCount(Digits(n));
  }

  /** The rendering of a negative number reads back as it, unless it is
      too long. */
  lemma ReadNegative(n: int)
    requires n < 0
    ensures ReadNumber(Decimal(n)) == if Readable(n) then Some(n) else None
    ensures NoEdgeSpace(Decimal(n), Python)
  {
    var ds := Digits(-n);
    DigitsRead(-n);
    AllDigitsCount(ds);
    SignThenDigits(ds);
  }

  /** A minus sign followed by digit groups reads as their negated value
      unless there are too many digits, and has no whitespace at its edges. */
  lemma SignThenDigits(ds: string)
    requires IsDigitGroups(ds)
    ensures ReadNumber("-" + ds) ==
      if DigitCount(ds) <= MaxStrDigits then Some(-(DigitsValue(ds) as int)) else None
    ensures NoEdgeSpace("-" + ds, Python)
  {
    var d := "-" + ds;
    assert d[0] == '-' && d[1..] == ds;
    assert DigitCount(d) == DigitCount(ds);
    assert d[|d| - 1] == ds[|ds| - 1];
  }

  /** `int(str(n)) == n` for every `n` of at most `MaxStrDigits` digits, with
      any whitespace around the number; a longer rendering raises. */
  lemma ParseDecimal(n: int, before: string, after: string)
    requires AllSpace(before, Python) && AllSpace(after, Python)
    ensures ParseInt(before + Decimal(n) + after) == if Readable(n) then Some(n) else None
  {
    if n < 0 { ReadNegative(n); } else { ReadDigits(n); }
    StripUnique(before, Decimal(n), after, Python);
  }
}
