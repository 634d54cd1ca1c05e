/** Reading the solved variables back into per-key lists. */
module Extraction {
  import opened Counting

  /** Visits the variables keyed (x, k) in the order in which they were
      declared, every key `k` of `ks` for the first `x`, then for the next,
      and appends `x` to the list of `k` whenever the variable is 1 (that is,
      (x, k) is in `rel`). A key gets a list when its first 1 is seen. */
  method Collect<X(==, !new), K(==, !new)>(xs: seq<X>, ks: seq<K>, rel: set<(X, K)>) returns (m: map<K, seq<X>>)
    requires Distinct(ks)
    ensures forall k :: k in m <==> k in ks && Column(xs, k, rel) != []
    ensures forall k :: k in m ==> m[k] == Column(xs, k, rel)
  {
    m := map[];
    for i := 0 to |xs|
      invariant forall k :: k in m <==> k in ks && Column(xs[..i], k, rel) != []
      invariant forall k :: k in m ==> m[k] == Column(xs[..i], k, rel)
    {
      m := AppendRow(m, xs[i], ks, rel);
      assert xs[..i + 1][..i] == xs[..i];
    }
    assert xs[..|xs|] == xs;
  }

  /** The inner loop of `Collect`: the variables of one `x`, key by key. */
  method AppendRow<X(==), K(==)>(m0: map<K, seq<X>>, x: X, ks: seq<K>, rel: set<(X, K)>) returns (m: map<K, seq<X>>)
    requires Distinct(ks)
    ensures forall k :: k in m <==> k in m0 || (k in ks && (x, k) in rel)
    ensures forall k :: k in m ==> m[k] == Held(m0, k) + if k in ks && (x, k) in rel then [x] else []
  {
    m := m0;
    for j := 0 to |ks|
      invariant forall k :: k in m <==> k in m0 || (k in ks[..j] && (x, k) in rel)
      invariant forall k :: k in ks[..j] && (x, k) in rel ==> m[k] == Held(m0, k) + [x]
      invariant forall k :: k in m0 && !(k in ks[..j] && (x, k) in rel) ==> m[k] == m0[k]
    {
      var k := ks[j];
      assert k !in ks[..j];
      assert ks[..j + 1] == ks[..j] + [k];
      if (x, k) in rel {
        m := m[k := Held(m, k) + [x]];
      }
    }
    assert ks[..|ks|] == ks;
  }

  /** The list held for `k`, empty when `k` has none yet. */
  function Held<X, K>(m: map<K, seq<X>>, k: K): seq<X> {
    if k in m then m[k] else []
  }
}
