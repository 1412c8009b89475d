/**
 Running a state machine that answers every input with some outputs.
 */
module Machines {

  function Run<S, I, O>(step: (S, I) -> (S, seq<O>), state: S, inputs: seq<I>): (S, seq<O>)
    decreases |inputs|
  {
    if inputs == [] then (state, [])
    else
      var first := step(state, inputs[0]);
      var rest := Run(step, first.0, inputs[1..]);
      (rest.0, first.1 + rest.1)
  }

  lemma {:induction false} RunAppend<S, I, O>(step: (S, I) -> (S, seq<O>), state: S, a: seq<I>, b: seq<I>)
    ensures var first := Run(step, state, a);
            var second := Run(step, first.0, b);
            Run(step, state, a + b) == (second.0, first.1 + second.1)
    decreases |a|
  {
    if a == [] {
      assert a + b == b;
      assert [] + Run(step, state, b).1 == Run(step, state, b).1;
    } else {
      var one := step(state, a[0]);
      RunAppend(step, one.0, a[1..], b);
      assert (a + b)[1..] == a[1..] + b;
      var mid := Run(step, one.0, a[1..]);
      var last := Run(step, mid.0, b);
      assert (one.1 + mid.1) + last.1 == one.1 + (mid.1 + last.1);
    }
  }

  lemma {:induction false} RunOne<S, I, O>(step: (S, I) -> (S, seq<O>), state: S, input: I)
    ensures Run(step, state, [input]) == step(state, input)
  {
    var first := step(state, input);
    assert [input][1..] == [];
    assert Run(step, first.0, []) == (first.0, []);
    assert first.1 + [] == first.1;
  }

  lemma {:induction false} RunCons<S, I, O>(step: (S, I) -> (S, seq<O>), state: S, input: I, inputs: seq<I>)
    ensures var first := step(state, input);
            var rest := Run(step, first.0, inputs);
            Run(step, state, [input] + inputs) == (rest.0, first.1 + rest.1)
  {
    assert ([input] + inputs)[1..] == inputs;
  }

  /** Inputs a machine cannot tell apart make the same run. */
  lemma {:induction false} RunSame<S(!new), I, O>(step: (S, I) -> (S, seq<O>), state: S, a: seq<I>, b: seq<I>)
    requires |a| == |b| && forall s: S, i {:trigger step(s, a[i])} :: 0 <= i < |a| ==> step(s, a[i]) == step(s, b[i])
    ensures Run(step, state, a) == Run(step, state, b)
    decreases |a|
  {
    if a != [] {
      var one := step(state, a[0]);
      assert step(state, b[0]) == one;
      forall s: S, i | 0 <= i < |a| - 1 ensures step(s, a[1..][i]) == step(s, b[1..][i]) {
        assert step(s, a[i + 1]) == step(s, b[i + 1]);
      }
      RunSame(step, one.0, a[1..], b[1..]);
    }
  }
}
