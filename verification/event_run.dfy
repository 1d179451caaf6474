/** Running a state machine over a list of events: each event moves the
    state and emits some outputs, collected in order. */
module EventRun {
  function Fold<S, E, R>(step: (S, E) -> (S, seq<R>), s: S, events: seq<E>): (S, seq<R>)
    decreases |events|
  {
    if |events| == 0 then (s, [])
    else
      var next := step(s, events[0]);
      var rest := Fold(step, next.0, events[1..]);
      (rest.0, next.1 + rest.1)
  }

  /** Two stretches of events run one after the other are one run. */
  lemma {:induction false} FoldAppend<S, E, R>(step: (S, E) -> (S, seq<R>), s: S, a: seq<E>, b: seq<E>)
    ensures var first := Fold(step, s, a);
      var second := Fold(step, first.0, b);
      Fold(step, s, a + b) == (second.0, first.1 + second.1)
    decreases |a|
  {
    if |a| > 0 {
      var next := step(s, a[0]);
      assert (a + b)[0] == a[0] && (a + b)[1..] == a[1..] + b;
      FoldAppend(step, next.0, a[1..], b);
      var rest := Fold(step, next.0, a[1..]);
      var second := Fold(step, rest.0, b);
      assert next.1 + (rest.1 + second.1) == (next.1 + rest.1) + second.1;
    } else {
      var second := Fold(step, s, b);
      assert a + b == b && [] + second.1 == second.1;
    }
  }
}
