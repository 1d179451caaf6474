/** A stable sort by descending integer key, stated on positions: the result
    lists every position of `keys` exactly once, larger keys first, and equal
    keys in their input order (what `Array.prototype.sort` with the
    comparator `(a, b) => b - a` does since ECMAScript 2019). */
module StableSort {

  /** Position `i` is listed before position `j`: its key is larger, or the
      keys are equal and `i` comes first in the input. */
  predicate Before(keys: seq<int>, i: int, j: int) {
    && 0 <= i < |keys|
    && 0 <= j < |keys|
    && (keys[i] > keys[j] || (keys[i] == keys[j] && i < j))
  }

  predicate InRange(keys: seq<int>, s: seq<nat>) {
    forall p :: 0 <= p < |s| ==> s[p] < |keys|
  }

  /** Every earlier position in `s` is listed before every later one. */
  predicate Ordered(keys: seq<int>, s: seq<nat>) {
    forall p, q :: 0 <= p < q < |s| ==> Before(keys, s[p], s[q])
  }

  /** The positions 0, 1, ..., n - 1. */
  function Range(n: nat): (r: seq<nat>)
    ensures |r| == n
    ensures forall p :: 0 <= p < n ==> r[p] == p
  {
    if n == 0 then [] else Range(n - 1) + [n - 1]
  }

  /** A position listed before every element of an ordered list can head it. */
  lemma ConsOrdered(keys: seq<int>, h: nat, rest: seq<nat>)
    requires Ordered(keys, rest)
    requires forall p :: 0 <= p < |rest| ==> Before(keys, h, rest[p])
    ensures Ordered(keys, [h] + rest)
  {
    var r := [h] + rest;
    forall p, q | 0 <= p < q < |r|
      ensures Before(keys, r[p], r[q])
    {
      if p > 0 {
        assert r[p] == rest[p - 1] && r[q] == rest[q - 1];
      }
    }
  }

  /** Inserts position `x` into an ordered list of other positions. */
  function Insert(keys: seq<int>, x: nat, s: seq<nat>): (r: seq<nat>)
    requires x < |keys| && InRange(keys, s)
    requires Ordered(keys, s) && x !in s
    ensures multiset(r) == multiset(s) + multiset{x}
    ensures InRange(keys, r)
    ensures Ordered(keys, r)
  {
    if s == [] then [x]
    else if Before(keys, x, s[0]) then [x] + s
    else
      var rest := Insert(keys, x, s[1..]);
      InsertBehindHead(keys, x, s, rest);
      [s[0]] + rest
  }

  /** When `x` does not go first, the head of `s` followed by `x` inserted
      into the tail is ordered and holds the right positions. */
  lemma InsertBehindHead(keys: seq<int>, x: nat, s: seq<nat>, rest: seq<nat>)
    requires x < |keys| && InRange(keys, s)
    requires Ordered(keys, s) && x !in s
    requires s != [] && !Before(keys, x, s[0])
    requires multiset(rest) == multiset(s[1..]) + multiset{x}
    requires InRange(keys, rest) && Ordered(keys, rest)
    ensures multiset([s[0]] + rest) == multiset(s) + multiset{x}
    ensures InRange(keys, [s[0]] + rest)
    ensures Ordered(keys, [s[0]] + rest)
  {
    assert s == [s[0]] + s[1..];
    assert Before(keys, s[0], x);
    forall p | 0 <= p < |rest|
      ensures Before(keys, s[0], rest[p])
    {
      assert rest[p] in multiset(rest);
      if rest[p] != x {
        assert rest[p] in multiset(s[1..]);
        var k :| 0 <= k < |s[1..]| && s[1..][k] == rest[p];
        assert s[k + 1] == rest[p];
      }
    }
    ConsOrdered(keys, s[0], rest);
  }

  /** The first `n` positions, sorted by insertion. */
  function SortPrefix(keys: seq<int>, n: nat): (r: seq<nat>)
    requires n <= |keys|
    ensures multiset(r) == multiset(Range(n))
    ensures InRange(keys, r)
    ensures Ordered(keys, r)
  {
    if n == 0 then []
    else
      var sorted := SortPrefix(keys, n - 1);
      NextPosition(sorted, n);
      Insert(keys, n - 1, sorted)
  }

  /** Position `n - 1` is new to a rearrangement of the first `n - 1`
      positions, and adding it gives a rearrangement of the first `n`. */
  lemma NextPosition(s: seq<nat>, n: nat)
    requires n > 0 && multiset(s) == multiset(Range(n - 1))
    ensures n - 1 !in s
    ensures multiset(s) + multiset{(n - 1) as nat} == multiset(Range(n))
  {
    assert n - 1 !in Range(n - 1);
    assert n - 1 !in multiset(s);
  }

  /** A rearrangement of the positions 0 .. n - 1 lists each of them. */
  lemma PermutationOfRange(s: seq<nat>, n: nat)
    requires multiset(s) == multiset(Range(n))
    ensures |s| == n
    ensures forall i :: 0 <= i < n ==> i in s
    ensures forall p :: 0 <= p < |s| ==> s[p] < n
  {
    assert |s| == |multiset(s)| == |multiset(Range(n))| == n;
    forall i | 0 <= i < n
      ensures i in s
    {
      assert Range(n)[i] == i;
      assert i in multiset(Range(n));
    }
    forall p | 0 <= p < |s|
      ensures s[p] < n
    {
      assert s[p] in multiset(Range(n));
    }
  }

  /** The stable descending order of all positions of `keys`: a permutation
      of the positions, larger keys first, ties in input order. */
  function Sort(keys: seq<int>): (order: seq<nat>)
    ensures |order| == |keys|
    ensures forall p :: 0 <= p < |order| ==> order[p] < |keys|
    ensures forall i :: 0 <= i < |keys| ==> i in order
    ensures forall p, q :: 0 <= p < q < |order| ==> keys[order[p]] >= keys[order[q]]
    ensures forall p, q :: 0 <= p < q < |order| && keys[order[p]] == keys[order[q]] ==> order[p] < order[q]
  {
    var order := SortPrefix(keys, |keys|);
    PermutationOfRange(order, |keys|);
    order
  }

  /** The head of an ordered list is listed before each of its other elements. */
  lemma HeadFirst(keys: seq<int>, s: seq<nat>, y: nat)
    requires Ordered(keys, s) && y in s
    ensures y == s[0] || Before(keys, s[0], y)
  {
    var k :| 0 <= k < |s| && s[k] == y;
  }

  /** Two ordered lists of the same positions start with the same one. */
  lemma SameHead(keys: seq<int>, a: seq<nat>, b: seq<nat>)
    requires Ordered(keys, a) && Ordered(keys, b)
    requires multiset(a) == multiset(b) && a != [] && b != []
    ensures a[0] == b[0]
  {
    assert a[0] in multiset(b);
    assert b[0] in multiset(a);
    HeadFirst(keys, a, b[0]);
    HeadFirst(keys, b, a[0]);
  }

  lemma SameTail(a: seq<nat>, b: seq<nat>)
    requires multiset(a) == multiset(b) && a != [] && b != [] && a[0] == b[0]
    ensures multiset(a[1..]) == multiset(b[1..])
  {
    assert a == [a[0]] + a[1..] && b == [b[0]] + b[1..];
    assert multiset(a[1..]) == multiset(a) - multiset{a[0]};
    assert multiset(b[1..]) == multiset(b) - multiset{b[0]};
  }

  /** A list of positions that is ordered and holds each position once is
      the stable order: there is exactly one such list. */
  lemma {:induction false} OrderedIsUnique(keys: seq<int>, a: seq<nat>, b: seq<nat>)
    requires InRange(keys, a) && InRange(keys, b)
    requires Ordered(keys, a) && Ordered(keys, b)
    requires multiset(a) == multiset(b)
    ensures a == b
    decreases |a|
  {
    assert |a| == |multiset(a)| == |multiset(b)| == |b|;
    if |a| > 0 {
      SameHead(keys, a, b);
      SameTail(a, b);
      OrderedIsUnique(keys, a[1..], b[1..]);
      assert a == [a[0]] + a[1..] && b == [b[0]] + b[1..];
    }
  }

  /** The sort is the only stable descending order of the positions. */
  lemma SortIsUnique(keys: seq<int>, order: seq<nat>)
    requires InRange(keys, order) && Ordered(keys, order)
    requires multiset(order) == multiset(Range(|keys|))
    ensures order == Sort(keys)
  {
    OrderedIsUnique(keys, order, SortPrefix(keys, |keys|));
  }
}
