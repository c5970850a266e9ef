/** Small shared vocabulary: optional values and sums over finite maps. */
module Prelude {

  datatype Option<+T> = None | Some(value: T)

  /** The sum of all values of a finite map, in whatever order the keys are visited. */
  ghost function Total<K(!new)>(w: map<K, int>): int
  {
    if w.Keys == {} then 0
    else
      var k :| k in w;
      w[k] + Total(w - {k})
  }

  /** Any key may be taken out of the sum first: `Total` does not depend on the visiting order. */
  lemma {:induction false} TotalRemove<K(!new)>(w: map<K, int>, k: K)
    requires k in w
    ensures Total(w) == w[k] + Total(w - {k})
    decreases |w|
  {
    var p :| p in w && Total(w) == w[p] + Total(w - {p});
    if p != k {
      TotalRemove(w - {p}, k);
      TotalRemove(w - {k}, p);
      assert w - {p} - {k} == w - {k} - {p};
    }
  }

  /** Writing one entry moves the sum by the difference it makes. */
  lemma TotalWrite<K(!new)>(w: map<K, int>, k: K, v: int)
    ensures Total(w[k := v]) == Total(w) - (if k in w then w[k] else 0) + v
  {
    var w' := w[k := v];
    TotalRemove(w', k);
    if k in w {
      TotalRemove(w, k);
      assert w' - {k} == w - {k};
    } else {
      assert w' - {k} == w;
    }
  }

  /** A sum of non-negative entries is at least each of them. */
  lemma {:induction false} TotalBoundsEntry<K(!new)>(w: map<K, int>, k: K)
    requires k in w && forall x :: x in w ==> w[x] >= 0
    ensures Total(w) >= w[k]
  {
    TotalRemove(w, k);
    TotalNonNegative(w - {k});
  }

  lemma {:induction false} TotalNonNegative<K(!new)>(w: map<K, int>)
    requires forall x :: x in w ==> w[x] >= 0
    ensures Total(w) >= 0
    decreases |w|
  {
    if w.Keys != {} {
      var p :| p in w && Total(w) == w[p] + Total(w - {p});
      TotalNonNegative(w - {p});
    }
  }

  lemma TotalZero<K(!new)>(w: map<K, int>)
    requires forall x :: x in w ==> w[x] == 0
    ensures Total(w) == 0
  {
  }
}
