/**
 * Python dictionaries filled by assignment in a loop (`d[key(x)] = x` for each `x` in a
 * list): a later entry overwrites an earlier one with the same key. The scheduler builds
 * its preference, affinity, nomination and fee tables this way.
 */
module Indexing {

  /** The dictionary after assigning every element of `xs`, in order, under its key. */
  function IndexBy<K, V>(xs: seq<V>, key: V -> K): map<K, V>
    decreases |xs|
  {
    if xs == [] then map[] else IndexBy(xs[..|xs| - 1], key)[key(xs[|xs| - 1]) := xs[|xs| - 1]]
  }

  /** A key is present exactly when some element has it, and it holds the LAST such element. */
  lemma {:induction false} IndexByLastWins<K, V>(xs: seq<V>, key: V -> K, k: K)
    decreases |xs|
    ensures k in IndexBy(xs, key) <==> exists i :: 0 <= i < |xs| && key(xs[i]) == k
    ensures k in IndexBy(xs, key) ==>
      exists i :: 0 <= i < |xs| && key(xs[i]) == k && IndexBy(xs, key)[k] == xs[i]
        && forall j :: i < j < |xs| ==> key(xs[j]) != k
  {
    if xs != [] {
      var init, last := xs[..|xs| - 1], xs[|xs| - 1];
      IndexByLastWins(init, key, k);
      if key(last) == k {
        assert key(xs[|xs| - 1]) == k;
      } else {
        forall i | 0 <= i < |init| ensures init[i] == xs[i] { }
        if k in IndexBy(xs, key) {
          var i :| 0 <= i < |init| && key(init[i]) == k && IndexBy(init, key)[k] == init[i]
            && forall j :: i < j < |init| ==> key(init[j]) != k;
          assert forall j :: i < j < |xs| ==> key(xs[j]) != k by {
            forall j | i < j < |xs| ensures key(xs[j]) != k {
              if j < |init| { assert xs[j] == init[j]; }
            }
          }
        }
      }
    }
  }

  /** The assignment loop itself: `for x in xs: d[key(x)] = x`. */
  method BuildIndex<K, V>(xs: seq<V>, key: V -> K) returns (m: map<K, V>)
    ensures m == IndexBy(xs, key)
  {
    m := map[];
    for i := 0 to |xs|
      invariant m == IndexBy(xs[..i], key)
    {
      assert xs[..i + 1][..i] == xs[..i];
      m := m[key(xs[i]) := xs[i]];
    }
    assert xs[..|xs|] == xs;
  }
}
