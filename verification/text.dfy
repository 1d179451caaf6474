/** String operations the backend (Python) and the frontend (JavaScript) rely
    on, restricted to ASCII: case mapping, whitespace stripping, splitting on
    a separator, and substring search. */
module Text {
  import opened Wrappers

  /** Python truthiness of an optional string: present and non-empty. */
  predicate Truthy(s: Option<string>) {
    s.Some? && s.value != ""
  }

  /** Python's `a or b` where `a` is an optional string. */
  function Or(a: Option<string>, b: string): string {
    if Truthy(a) then a.value else b
  }

  // ---------------------------------------------------------------- case

  predicate IsAsciiLower(c: char) { 'a' <= c <= 'z' }
  predicate IsAsciiUpper(c: char) { 'A' <= c <= 'Z' }

  function UpperChar(c: char): char {
    if IsAsciiLower(c) then (c as int - 32) as char else c
  }

  function LowerChar(c: char): char {
    if IsAsciiUpper(c) then (c as int + 32) as char else c
  }

  /** Python `str.upper` on ASCII letters. */
  function Upper(s: string): (r: string)
    ensures |r| == |s|
    ensures forall i :: 0 <= i < |s| ==> r[i] == UpperChar(s[i])
  {
    seq(|s|, i requires 0 <= i < |s| => UpperChar(s[i]))
  }

  /** Python `str.lower` on ASCII letters. */
  function Lower(s: string): (r: string)
    ensures |r| == |s|
    ensures forall i :: 0 <= i < |s| ==> r[i] == LowerChar(s[i])
  {
    seq(|s|, i requires 0 <= i < |s| => LowerChar(s[i]))
  }

  /** Upper-casing leaves no lower-case letter behind and is idempotent. */
  lemma UpperIsUpper(s: string)
    ensures forall i :: 0 <= i < |s| ==> !IsAsciiLower(Upper(s)[i])
    ensures Upper(Upper(s)) == Upper(s)
  {
  }

  /** Lower-casing ignores the case of the input: `lower(upper(s)) == lower(s)`. */
  lemma LowerIgnoresCase(s: string)
    ensures Lower(Upper(s)) == Lower(s)
    ensures Lower(Lower(s)) == Lower(s)
  {
  }

  // ---------------------------------------------------------- whitespace

  /** Python `str.isspace` on ASCII: space, tab, line feed, vertical tab,
      form feed, carriage return and the separators 0x1C-0x1F. */
  predicate IsPySpace(c: char) {
    c == ' ' || 9 <= c as int <= 13 || 28 <= c as int <= 31
  }

  /** ECMAScript WhiteSpace and LineTerminator on ASCII (what `trim` removes):
      space, tab, line feed, vertical tab, form feed, carriage return. */
  predicate IsJsSpace(c: char) {
    c == ' ' || 9 <= c as int <= 13
  }

  /** Which language's notion of whitespace a trim uses. */
  datatype Whitespace = Python | JavaScript

  predicate IsSpace(w: Whitespace, c: char) {
    match w
    case Python => IsPySpace(c)
    case JavaScript => IsJsSpace(c)
  }

  predicate AllSpace(s: string, w: Whitespace) {
    forall i :: 0 <= i < |s| ==> IsSpace(w, s[i])
  }

  /** Neither the first nor the last character is whitespace. */
  predicate NoEdgeSpace(s: string, w: Whitespace) {
    s == [] || (!IsSpace(w, s[0]) && !IsSpace(w, s[|s| - 1]))
  }

  /** The index of the first non-space character at or after `i`, or `|s|`. */
  function SkipSpace(s: string, i: nat, w: Whitespace): (k: nat)
    requires i <= |s|
    ensures i <= k <= |s|
    ensures forall m :: i <= m < k ==> IsSpace(w, s[m])
    ensures k < |s| ==> !IsSpace(w, s[k])
    decreases |s| - i
  {
    if i < |s| && IsSpace(w, s[i]) then SkipSpace(s, i + 1, w) else i
  }

  /** The index just past the last non-space character of `s[lo..j]`, or `lo`. */
  function SkipSpaceBack(s: string, lo: nat, j: nat, w: Whitespace): (e: nat)
    requires lo <= j <= |s|
    ensures lo <= e <= j
    ensures forall m :: e <= m < j ==> IsSpace(w, s[m])
    ensures lo < e ==> !IsSpace(w, s[e - 1])
    decreases j
  {
    if lo < j && IsSpace(w, s[j - 1]) then SkipSpaceBack(s, lo, j - 1, w) else j
  }

  /** The forward scan's result is determined by its contract. */
  lemma SkipSpaceAt(s: string, i: nat, k: nat, w: Whitespace)
    requires i <= k <= |s|
    requires forall m :: i <= m < k ==> IsSpace(w, s[m])
    requires k < |s| ==> !IsSpace(w, s[k])
    ensures SkipSpace(s, i, w) == k
  {
  }

  /** The backward scan's result is determined by its contract. */
  lemma SkipSpaceBackAt(s: string, lo: nat, j: nat, e: nat, w: Whitespace)
    requires lo <= e <= j <= |s|
    requires forall m :: e <= m < j ==> IsSpace(w, s[m])
    requires lo < e ==> !IsSpace(w, s[e - 1])
    ensures SkipSpaceBack(s, lo, j, w) == e
  {
  }

  /** Removes leading and trailing whitespace: the result is the infix of
      `s` that starts after the leading whitespace and is followed only by
      whitespace. */
  function Strip(s: string, w: Whitespace): (r: string)
    ensures NoEdgeSpace(r, w)
    ensures var lead := SkipSpace(s, 0, w);
      && lead + |r| <= |s|
      && r == s[lead..lead + |r|]
      && (forall i :: 0 <= i < lead ==> IsSpace(w, s[i]))
      && (forall i :: lead + |r| <= i < |s| ==> IsSpace(w, s[i]))
  {
    var lo := SkipSpace(s, 0, w);
    s[lo..SkipSpaceBack(s, lo, |s|, w)]
  }

  /** Python `str.strip()` with no argument. */
  function PyStrip(s: string): string {
    Strip(s, Python)
  }

  /** JavaScript `String.prototype.trim`. */
  function JsTrim(s: string): string {
    Strip(s, JavaScript)
  }

  /** Strip is determined by its contract: whatever lies between a
      whitespace-only prefix and a whitespace-only suffix, with no whitespace
      at its own edges, is what remains. */
  lemma StripUnique(a: string, m: string, b: string, w: Whitespace)
    requires AllSpace(a, w) && AllSpace(b, w)
    requires m != [] && NoEdgeSpace(m, w)
    ensures Strip(a + m + b, w) == m
  {
    var s := a + m + b;
    var hi := |a| + |m|;
    assert forall i :: 0 <= i < |a| ==> s[i] == a[i];
    assert s[|a|] == m[0] && s[hi - 1] == m[|m| - 1];
    assert forall i :: hi <= i < |s| ==> s[i] == b[i - hi];
    SkipSpaceAt(s, 0, |a|, w);
    SkipSpaceBackAt(s, |a|, |s|, hi, w);
    assert s[|a|..hi] == m;
  }

  /** Stripping an already stripped string changes nothing. */
  lemma StripIdempotent(s: string, w: Whitespace)
    ensures Strip(Strip(s, w), w) == Strip(s, w)
  {
    var r := Strip(s, w);
    if r != [] {
      assert [] + r + [] == r;
      StripUnique([], r, [], w);
    }
  }

  /** A string strips to nothing exactly when it is all whitespace. */
  lemma StripEmptyIffAllSpace(s: string, w: Whitespace)
    ensures Strip(s, w) == [] <==> AllSpace(s, w)
  {
  }

  // ---------------------------------------------------------- separators

  /** Concatenates `parts` with `sep` between consecutive parts. */
  function Join(parts: seq<string>, sep: char): string {
    if |parts| == 0 then ""
    else if |parts| == 1 then parts[0]
    else parts[0] + [sep] + Join(parts[1..], sep)
  }

  /** Python `str.split(sep)` for a one-character separator: the maximal
      separator-free pieces, empty pieces included; never an empty list. */
  function Split(s: string, sep: char): (parts: seq<string>)
    ensures |parts| >= 1
    ensures forall i :: 0 <= i < |parts| ==> sep !in parts[i]
  {
    if |s| == 0 then [""]
    else
      var rest := Split(s[1..], sep);
      if s[0] == sep then [""] + rest
      else [[s[0]] + rest[0]] + rest[1..]
  }

  /** Joining the pieces of a split with the separator gives back the input. */
  lemma {:induction false} JoinSplit(s: string, sep: char)
    ensures Join(Split(s, sep), sep) == s
  {
    if |s| > 0 {
      var rest := Split(s[1..], sep);
      JoinSplit(s[1..], sep);
      if s[0] == sep {
        assert ([""] + rest)[1..] == rest;
      } else if |rest| > 1 {
        var parts := [[s[0]] + rest[0]] + rest[1..];
        assert parts[1..] == rest[1..];
        assert Join(rest, sep) == rest[0] + [sep] + Join(rest[1..], sep);
      }
    }
  }

  lemma {:induction false} SplitWord(w: string, sep: char)
    requires sep !in w
    ensures Split(w, sep) == [w]
  {
    if |w| > 0 {
      SplitWord(w[1..], sep);
      assert [w[0]] + w[1..] == w;
    }
  }

  lemma {:induction false} SplitWordThenSep(w: string, t: string, sep: char)
    requires sep !in w
    ensures Split(w + [sep] + t, sep) == [w] + Split(t, sep)
  {
    var s := w + [sep] + t;
    if |w| == 0 {
      assert s[0] == sep && s[1..] == t;
    } else {
      assert s[1..] == w[1..] + [sep] + t;
      SplitWordThenSep(w[1..], t, sep);
      assert [w[0]] + w[1..] == w;
    }
  }

  /** Splitting a join of separator-free pieces recovers the pieces. */
  lemma {:induction false} SplitJoin(parts: seq<string>, sep: char)
    requires |parts| >= 1
    requires forall i :: 0 <= i < |parts| ==> sep !in parts[i]
    ensures Split(Join(parts, sep), sep) == parts
  {
    if |parts| == 1 {
      SplitWord(parts[0], sep);
    } else {
      SplitJoin(parts[1..], sep);
      SplitWordThenSep(parts[0], Join(parts[1..], sep), sep);
      assert [parts[0]] + parts[1..] == parts;
    }
  }

  // ---------------------------------------------------------- substrings

  /** Slicing a suffix of `s` is slicing `s` itself, shifted. */
  lemma SliceOfSuffix(s: string, lead: nat, i: nat, j: nat)
    requires i <= j && lead + j <= |s|
    ensures s[lead..][i..j] == s[lead + i..lead + j]
  {
  }

  /** `pat` occurs in `s` starting at index `i`. */
  predicate OccursAt(s: string, pat: string, i: int) {
    0 <= i && i + |pat| <= |s| && s[i..i + |pat|] == pat
  }

  /** Python's `pat in s` for strings. */
  predicate Contains(s: string, pat: string)
    decreases |s|
  {
    pat <= s || (|s| > 0 && Contains(s[1..], pat))
  }

  /** The recursive search finds `pat` exactly when it occurs somewhere. */
  lemma {:induction false} ContainsIff(s: string, pat: string)
    ensures Contains(s, pat) <==> exists i :: OccursAt(s, pat, i)
    decreases |s|
  {
    if pat <= s {
      assert OccursAt(s, pat, 0);
    } else if |s| > 0 {
      ContainsIff(s[1..], pat);
      if Contains(s[1..], pat) {
        var i :| OccursAt(s[1..], pat, i);
        SliceOfSuffix(s, 1, i, i + |pat|);
        assert OccursAt(s, pat, i + 1);
      }
      if i :| OccursAt(s, pat, i) {
        assert i != 0;
        SliceOfSuffix(s, 1, i - 1, i - 1 + |pat|);
        assert OccursAt(s[1..], pat, i - 1);
      }
    }
  }

  /** A string contains everything that is written inside it. */
  lemma ContainsInfix(a: string, pat: string, b: string)
    ensures Contains(a + pat + b, pat)
  {
    var s := a + pat + b;
    assert s[|a|..|a| + |pat|] == pat;
    assert OccursAt(s, pat, |a|);
    ContainsIff(s, pat);
  }
}
