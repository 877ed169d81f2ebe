/** Counting the entries of a map that satisfy a predicate, and how one update changes the count. */
module Tally {

  ghost function Count<K, V>(m: map<K, V>, p: V -> bool): nat
  {
    |Where(m, p)|
  }

  ghost function Where<K, V>(m: map<K, V>, p: V -> bool): set<K>
  {
    set k | k in m && p(m[k])
  }

  function AsOne(b: bool): nat { if b then 1 else 0 }

  lemma CountUpdate<K, V>(m: map<K, V>, k: K, v: V, p: V -> bool)
    ensures Count(m[k := v], p) == Count(m, p) + AsOne(p(v)) - AsOne(k in m && p(m[k]))
    ensures Where(m[k := v], p) == if p(v) then Where(m, p) + {k} else Where(m, p) - {k}
  {
    var before, after := Where(m, p), Where(m[k := v], p);
    if p(v) {
      assert after == before + {k};
    } else {
      assert after == before - {k};
    }
  }

  lemma CountEmpty<K, V>(p: V -> bool)
    ensures Count<K, V>(map[], p) == 0
  {
    var none: map<K, V> := map[];
    assert Where(none, p) == {};
  }

  /** Disjoint predicates that cover a third one split its count. */
  lemma CountSplit<K, V>(m: map<K, V>, p: V -> bool, q: V -> bool, r: V -> bool)
    requires forall k :: k in m ==> (r(m[k]) <==> p(m[k]) || q(m[k])) && !(p(m[k]) && q(m[k]))
    ensures Count(m, r) == Count(m, p) + Count(m, q)
  {
    assert Where(m, r) == Where(m, p) + Where(m, q);
    assert Where(m, p) !! Where(m, q);
  }
}
