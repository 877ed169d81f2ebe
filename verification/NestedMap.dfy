/** Two-level maps with the "drop the inner map when it becomes empty" rule that every
    user index and the chat room index of the repository follow.
 */
module NestedMap {

  type Nested<O, I, V> = map<O, map<I, V>>

  predicate Has<O, I, V>(m: Nested<O, I, V>, o: O, i: I)
  {
    o in m && i in m[o]
  }

  /** No inner map is empty. */
  ghost predicate NoEmpty<O, I, V>(m: Nested<O, I, V>)
  {
    forall o :: o in m ==> m[o].Keys != {}
  }

  function Inner<O, I, V>(m: Nested<O, I, V>, o: O): map<I, V>
  {
    if o in m then m[o] else map[]
  }

  /** `if m[o] == nil { m[o] = make(...) }; m[o][i] = v`. */
  function Put<O, I, V>(m: Nested<O, I, V>, o: O, i: I, v: V): Nested<O, I, V>
  {
    m[o := Inner(m, o)[i := v]]
  }

  /** `if inner, ok := m[o]; ok { delete(inner, i); if len(inner) == 0 { delete(m, o) } }`. */
  function Drop<O, I, V>(m: Nested<O, I, V>, o: O, i: I): Nested<O, I, V>
  {
    if o !in m then m
    else
      var inner := m[o] - {i};
      if |inner| == 0 then m - {o} else m[o := inner]
  }

  /** All (outer, inner) pairs with their values. */
  function Pairs<O, I, V>(m: Nested<O, I, V>): map<(O, I), V>
  {
    map o, i | o in m && i in m[o] :: (o, i) := m[o][i]
  }

  lemma PutHas<O, I, V>(m: Nested<O, I, V>, o: O, i: I, v: V, o': O, i': I)
    ensures Has(Put(m, o, i, v), o', i') <==> Has(m, o', i') || (o' == o && i' == i)
    ensures Has(Put(m, o, i, v), o', i') ==>
              Put(m, o, i, v)[o'][i'] == if o' == o && i' == i then v else m[o'][i']
  {
  }

  lemma PutNoEmpty<O, I, V>(m: Nested<O, I, V>, o: O, i: I, v: V)
    requires NoEmpty(m)
    ensures NoEmpty(Put(m, o, i, v))
  {
    assert i in Put(m, o, i, v)[o].Keys;
  }

  lemma PutEffect<O, I, V>(m: Nested<O, I, V>, o: O, i: I, v: V)
    ensures Pairs(Put(m, o, i, v)) == Pairs(m)[(o, i) := v]
    ensures NoEmpty(m) ==> NoEmpty(Put(m, o, i, v))
    ensures forall o', i' :: Has(Put(m, o, i, v), o', i') <==> Has(m, o', i') || (o' == o && i' == i)
  {
    var m', p := Put(m, o, i, v), Pairs(m)[(o, i) := v];
    forall o', i'
      ensures Has(m', o', i') <==> Has(m, o', i') || (o' == o && i' == i)
      ensures Has(m', o', i') ==> m'[o'][i'] == p[(o', i')]
    {
      PutHas(m, o, i, v, o', i');
    }
    PairsEqual(m', p);
    if NoEmpty(m) { PutNoEmpty(m, o, i, v); }
  }

  lemma DropHas<O, I, V>(m: Nested<O, I, V>, o: O, i: I, o': O, i': I)
    ensures Has(Drop(m, o, i), o', i') <==> Has(m, o', i') && !(o' == o && i' == i)
    ensures Has(Drop(m, o, i), o', i') ==> Drop(m, o, i)[o'][i'] == m[o'][i']
  {
    if o in m {
      var inner := m[o] - {i};
      assert |inner| == 0 ==> inner.Keys == {};
      assert forall x :: x in m[o] ==> x == i || x in inner.Keys;
    }
  }

  lemma DropNoEmpty<O, I, V>(m: Nested<O, I, V>, o: O, i: I)
    requires NoEmpty(m)
    ensures NoEmpty(Drop(m, o, i))
  {
    if o in m {
      var inner := m[o] - {i};
      if |inner| != 0 { assert inner.Keys != {}; }
    }
  }

  lemma DropEffect<O, I, V>(m: Nested<O, I, V>, o: O, i: I)
    ensures Pairs(Drop(m, o, i)) == Pairs(m) - {(o, i)}
    ensures NoEmpty(m) ==> NoEmpty(Drop(m, o, i))
    ensures forall o', i' :: Has(Drop(m, o, i), o', i') <==> Has(m, o', i') && !(o' == o && i' == i)
  {
    forall o', i'
      ensures Has(Drop(m, o, i), o', i') <==> Has(m, o', i') && !(o' == o && i' == i)
      ensures Has(Drop(m, o, i), o', i') ==> Drop(m, o, i)[o'][i'] == m[o'][i']
    {
      DropHas(m, o, i, o', i');
    }
    PairsEqual(Drop(m, o, i), Pairs(m) - {(o, i)});
    if NoEmpty(m) { DropNoEmpty(m, o, i); }
  }

  lemma PairsEqual<O, I, V>(m: Nested<O, I, V>, p: map<(O, I), V>)
    requires forall o, i :: Has(m, o, i) <==> (o, i) in p
    requires forall o, i :: Has(m, o, i) ==> m[o][i] == p[(o, i)]
    ensures Pairs(m) == p
  {
    forall k | k in p ensures k in Pairs(m) && Pairs(m)[k] == p[k] { assert k == (k.0, k.1); assert Has(m, k.0, k.1); }
    forall k | k in Pairs(m) ensures k in p { assert Has(m, k.0, k.1); assert (k.0, k.1) in p; }
  }

  /** With no empty inner map, there are at most as many outer keys as pairs. */
  lemma OuterAtMostPairs<O, I, V>(m: Nested<O, I, V>)
    requires NoEmpty(m)
    ensures |m.Keys| <= |Pairs(m).Keys|
  {
    CoveredBy(m.Keys, Pairs(m).Keys) by {
      forall o | o in m.Keys ensures exists i :: (o, i) in Pairs(m).Keys {
        var i :| i in m[o].Keys;
        assert (o, i) in Pairs(m).Keys;
      }
    }
  }

  lemma {:induction false} CoveredBy<O, I>(os: set<O>, ps: set<(O, I)>)
    requires forall o :: o in os ==> exists i :: (o, i) in ps
    ensures |os| <= |ps|
    decreases |os|
  {
    if os != {} {
      var o :| o in os;
      var i :| (o, i) in ps;
      CoveredBy(os - {o}, ps - {(o, i)}) by {
        forall o' | o' in os - {o} ensures exists i' :: (o', i') in ps - {(o, i)} {
          var i' :| (o', i') in ps;
          assert (o', i') in ps - {(o, i)};
        }
      }
    }
  }
}
