/** Python dictionaries built by inserting key/value pairs in order. */
module Dicts {

  /**
   * The dict `{k0: v0, k1: v1, ...}` (or the loop `d[k] = v` over the pairs): every key of the
   * pairs is present, nothing else is, and a later pair with the same key overwrites an earlier one.
   */
  function FromPairs<K, V>(pairs: seq<(K, V)>): (m: map<K, V>)
    ensures forall i :: 0 <= i < |pairs| ==> pairs[i].0 in m
    ensures forall k :: k in m ==> exists i :: 0 <= i < |pairs| && pairs[i].0 == k
  {
    if pairs == [] then map[]
    else
      var last := pairs[|pairs| - 1];
      var m := FromPairs(pairs[..|pairs| - 1]);
      assert forall i :: 0 <= i < |pairs| - 1 ==> pairs[..|pairs| - 1][i] == pairs[i];
      m[last.0 := last.1]
  }

  /** The keys of the dict are exactly the keys of the pairs. */
  lemma FromPairsKeys<K, V>(pairs: seq<(K, V)>)
    ensures FromPairs(pairs).Keys == set i | 0 <= i < |pairs| :: pairs[i].0
  {
    var m := FromPairs(pairs);
    forall k | k in m ensures k in set i | 0 <= i < |pairs| :: pairs[i].0 {
      var i :| 0 <= i < |pairs| && pairs[i].0 == k;
    }
  }

  /** The value stored for a key is that of its last pair. */
  lemma {:induction false} FromPairsLastWins<K, V>(pairs: seq<(K, V)>, i: nat)
    requires i < |pairs|
    requires forall j :: i < j < |pairs| ==> pairs[j].0 != pairs[i].0
    ensures FromPairs(pairs)[pairs[i].0] == pairs[i].1
  {
    if i < |pairs| - 1 {
      var init := pairs[..|pairs| - 1];
      assert init[i] == pairs[i];
      FromPairsLastWins(init, i);
    }
  }

  /** Every stored key/value pair is one of the pairs inserted. */
  lemma {:induction false} FromPairsEntryListed<K, V>(pairs: seq<(K, V)>, k: K)
    requires k in FromPairs(pairs)
    ensures exists i :: 0 <= i < |pairs| && pairs[i] == (k, FromPairs(pairs)[k])
  {
    var init := pairs[..|pairs| - 1];
    var last := pairs[|pairs| - 1];
    if k != last.0 {
      FromPairsEntryListed(init, k);
      var i :| 0 <= i < |init| && init[i] == (k, FromPairs(init)[k]);
      assert pairs[i] == init[i];
    }
  }

  /** When every pair agrees with `m`, every value stored agrees with `m`. */
  lemma {:induction false} FromPairsValues<K, V>(pairs: seq<(K, V)>, m: map<K, V>)
    requires forall i :: 0 <= i < |pairs| ==> pairs[i].0 in m && m[pairs[i].0] == pairs[i].1
    ensures forall k :: k in FromPairs(pairs) ==> k in m && FromPairs(pairs)[k] == m[k]
  {
    if pairs != [] {
      var init := pairs[..|pairs| - 1];
      assert forall i :: 0 <= i < |init| ==> init[i] == pairs[i];
      FromPairsValues(init, m);
    }
  }

  /**
   * When every pair agrees with `m` and every key of `m` has a pair, inserting the pairs in
   * order builds exactly `m`, whatever the duplicates.
   */
  lemma FromPairsAgreeing<K, V>(pairs: seq<(K, V)>, m: map<K, V>)
    requires forall i :: 0 <= i < |pairs| ==> pairs[i].0 in m && m[pairs[i].0] == pairs[i].1
    requires forall k :: k in m ==> exists i :: 0 <= i < |pairs| && pairs[i].0 == k
    ensures FromPairs(pairs) == m
  {
    FromPairsValues(pairs, m);
  }
}
