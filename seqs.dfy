/** Counting the elements of a sequence that satisfy a condition, position by position. */
module Seqs {

  /** The number of positions of `xs` whose element satisfies `p`. */
  function CountWhere<T>(xs: seq<T>, p: T -> bool): nat {
    |set i | 0 <= i < |xs| && p(xs[i])|
  }

  /** Extending a sequence by one element adds one to the count exactly when it satisfies `p`. */
  lemma CountWhereStep<T>(xs: seq<T>, p: T -> bool)
    requires xs != []
    ensures CountWhere(xs, p) == CountWhere(xs[..|xs| - 1], p) + if p(xs[|xs| - 1]) then 1 else 0
  {
    var init := xs[..|xs| - 1];
    var n := |xs| - 1;
    var before := set i | 0 <= i < |init| && p(init[i]);
    var after := set i | 0 <= i < |xs| && p(xs[i]);
    var last := if p(xs[n]) then {n} else {};
    forall i ensures i in after <==> i in before + last {
      if 0 <= i < n {
        assert init[i] == xs[i];
      }
    }
    assert after == before + last;
  }
}
