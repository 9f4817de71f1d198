/**
 * Bounded retries: a sequence of attempts, each of which either fails (None) or yields a
 * value, where the first success within the bound decides and no later attempt is made.
 */
module Attempts {
  import opened Wrappers

  /**
   * The value of the first attempt `k` with `from <= k < bound` that succeeds, or None when
   * every remaining attempt fails.
   */
  function FirstSome<T>(attempt: nat -> Option<T>, from: nat, bound: nat): (r: Option<T>)
    ensures r.None? <==> forall k :: from <= k < bound ==> attempt(k).None?
    ensures r.Some? ==> exists k :: from <= k < bound && attempt(k) == r
                                    && (forall j :: from <= j < k ==> attempt(j).None?)
    decreases bound - from
  {
    if from >= bound then None
    else if attempt(from).Some? then attempt(from)
    else FirstSome(attempt, from + 1, bound)
  }

  /** The first attempt that succeeds is the one that decides. */
  lemma {:induction false} FirstSomeIs<T>(attempt: nat -> Option<T>, from: nat, bound: nat, k: nat)
    requires from <= k < bound && attempt(k).Some?
    requires forall j :: from <= j < k ==> attempt(j).None?
    ensures FirstSome(attempt, from, bound) == attempt(k)
    decreases k - from
  {
    if from < k {
      FirstSomeIs(attempt, from + 1, bound, k);
    }
  }
}
