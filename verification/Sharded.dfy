/** A map split over shards, and what a scan that visits the shards one at a time can still
    promise while the shards keep changing.

    Nothing here depends on how a key is hashed: `home` is any function that names the one
    shard a key may live in.
 */
module Sharded {

  type Shards<K, V> = seq<map<K, V>>

  /** Every key sits in its home shard only. */
  ghost predicate Placed<K, V>(s: Shards<K, V>, home: K -> nat)
  {
    forall i, k :: 0 <= i < |s| && k in s[i] ==> home(k) == i
  }

  /** The one map the shards stand for. */
  function Merge<K, V>(s: Shards<K, V>): map<K, V>
  {
    if s == [] then map[] else Merge(s[..|s| - 1]) + s[|s| - 1]
  }

  /** The sum of the shard sizes, as the counting loops accumulate it. */
  function SumSizes<K, V>(s: Shards<K, V>): nat
  {
    if s == [] then 0 else SumSizes(s[..|s| - 1]) + |s[|s| - 1]|
  }

  lemma {:induction false} MergeLookup<K, V>(s: Shards<K, V>, home: K -> nat, k: K)
    requires Placed(s, home)
    ensures k in Merge(s) <==> home(k) < |s| && k in s[home(k)]
    ensures k in Merge(s) ==> Merge(s)[k] == s[home(k)][k]
    decreases |s|
  {
    if s != [] { MergeLookup(s[..|s| - 1], home, k); }
  }

  /** Counting shard by shard counts the merged map. */
  lemma {:induction false} MergeSize<K, V>(s: Shards<K, V>, home: K -> nat)
    requires Placed(s, home)
    ensures |Merge(s)| == SumSizes(s)
    decreases |s|
  {
    if s != [] {
      var init, last := s[..|s| - 1], s[|s| - 1];
      MergeSize(init, home);
      forall k | k in last ensures k !in Merge(init) { MergeLookup(init, home, k); }
      assert Merge(s).Keys == Merge(init).Keys + last.Keys;
      assert Merge(init).Keys !! last.Keys;
      assert |Merge(init).Keys + last.Keys| == |Merge(init).Keys| + |last.Keys|;
    }
  }

  /** Writing a key in its home shard is writing it in the merged map. */
  lemma MergePut<K, V>(s: Shards<K, V>, home: K -> nat, k: K, v: V)
    requires Placed(s, home) && home(k) < |s|
    ensures Placed(s[home(k) := s[home(k)][k := v]], home)
    ensures Merge(s[home(k) := s[home(k)][k := v]]) == Merge(s)[k := v]
  {
    var t := s[home(k) := s[home(k)][k := v]];
    var want := Merge(s)[k := v];
    forall x | x in want ensures x in Merge(t) && Merge(t)[x] == want[x] {
      MergeLookup(s, home, x);
      MergeLookup(t, home, x);
    }
    forall x | x in Merge(t) ensures x in want {
      MergeLookup(s, home, x);
      MergeLookup(t, home, x);
    }
    assert Merge(t).Keys == want.Keys;
  }

  /** Deleting a key from its home shard is deleting it from the merged map. */
  lemma MergeDelete<K, V>(s: Shards<K, V>, home: K -> nat, k: K)
    requires Placed(s, home) && home(k) < |s|
    ensures Placed(s[home(k) := s[home(k)] - {k}], home)
    ensures Merge(s[home(k) := s[home(k)] - {k}]) == Merge(s) - {k}
  {
    var t := s[home(k) := s[home(k)] - {k}];
    var want := Merge(s) - {k};
    forall x | x in want ensures x in Merge(t) && Merge(t)[x] == want[x] {
      MergeLookup(s, home, x);
      MergeLookup(t, home, x);
    }
    forall x | x in Merge(t) ensures x in want {
      MergeLookup(s, home, x);
      MergeLookup(t, home, x);
    }
    assert Merge(t).Keys == want.Keys;
  }

  // ---------------------------------------------------------------- scans

  /** `page` lists the keys of `m` in some order, each once: one map iteration. */
  ghost predicate Enumerates<K, V>(page: seq<K>, m: map<K, V>)
  {
    && (forall a, b :: 0 <= a < b < |page| ==> page[a] != page[b])
    && (forall k :: k in page ==> k in m)
    && (forall k :: k in m ==> k in page)
  }

  /** A scan over a history of shard contents: shard `j` is listed in `pages[j]` as it stands
      at moment `visits[j]`; the moments never go back, but anything may happen between them. */
  ghost predicate IsScan<K, V>(history: seq<Shards<K, V>>, visits: seq<nat>, pages: seq<seq<K>>)
  {
    && |pages| == |visits|
    && (forall a, b :: 0 <= a <= b < |visits| ==> visits[a] <= visits[b])
    && (forall j :: 0 <= j < |visits| ==> visits[j] < |history| && j < |history[visits[j]]|)
    && (forall j :: 0 <= j < |visits| ==> Enumerates(pages[j], history[visits[j]][j]))
  }

  ghost predicate AllPlaced<K, V>(history: seq<Shards<K, V>>, home: K -> nat, n: nat)
  {
    forall t :: 0 <= t < |history| ==> |history[t]| == n && Placed(history[t], home)
  }

  /** Everything the scan collects, in order. */
  function Concat<K>(pages: seq<seq<K>>): seq<K>
  {
    if pages == [] then [] else Concat(pages[..|pages| - 1]) + pages[|pages| - 1]
  }

  lemma {:induction false} ConcatMember<K>(pages: seq<seq<K>>, k: K)
    ensures k in Concat(pages) <==> exists j :: 0 <= j < |pages| && k in pages[j]
    decreases |pages|
  {
    if pages != [] {
      ConcatMember(pages[..|pages| - 1], k);
      if k in pages[|pages| - 1] { assert k in pages[|pages| - 1]; }
    }
  }

  lemma ScanPrefix<K, V>(history: seq<Shards<K, V>>, visits: seq<nat>, pages: seq<seq<K>>)
    requires IsScan(history, visits, pages) && pages != []
    ensures IsScan(history, visits[..|pages| - 1], pages[..|pages| - 1])
  {
  }

  /** No key is collected twice, whatever happens between the visits. */
  lemma {:induction false} ScanNoDuplicates<K, V>(history: seq<Shards<K, V>>, home: K -> nat, n: nat,
                                                  visits: seq<nat>, pages: seq<seq<K>>)
    requires AllPlaced(history, home, n) && IsScan(history, visits, pages)
    ensures forall a, b :: 0 <= a < b < |Concat(pages)| ==> Concat(pages)[a] != Concat(pages)[b]
    decreases |pages|
  {
    if pages != [] {
      var init, j := pages[..|pages| - 1], |pages| - 1;
      ScanPrefix(history, visits, pages);
      ScanNoDuplicates(history, home, n, visits[..j], init);
      forall a, b | 0 <= a < |Concat(init)| && 0 <= b < |pages[j]| ensures Concat(init)[a] != pages[j][b] {
        var k := Concat(init)[a];
        ConcatMember(init, k);
        var i :| 0 <= i < |init| && k in init[i];
        assert pages[i] == init[i];
        assert k in history[visits[i]][i];
        assert home(k) == i;
        var x := pages[j][b];
        assert x in pages[j];
        assert x in history[visits[j]][j];
        assert home(x) == j;
      }
    }
  }

  /** Everything collected was present when its own shard was visited. */
  lemma ScanSound<K, V>(history: seq<Shards<K, V>>, home: K -> nat, n: nat,
                        visits: seq<nat>, pages: seq<seq<K>>, k: K)
    requires AllPlaced(history, home, n) && IsScan(history, visits, pages) && k in Concat(pages)
    ensures home(k) < |visits| && k in Merge(history[visits[home(k)]])
  {
    ConcatMember(pages, k);
    var j :| 0 <= j < |pages| && k in pages[j];
    assert k in history[visits[j]][j];
    MergeLookup(history[visits[j]], home, k);
  }

  /** A full scan collects every key that is present at the moment its shard is visited;
      so, in particular, every key that is present throughout. */
  lemma ScanComplete<K, V>(history: seq<Shards<K, V>>, home: K -> nat, n: nat,
                           visits: seq<nat>, pages: seq<seq<K>>, k: K)
    requires AllPlaced(history, home, n) && IsScan(history, visits, pages) && |visits| == n
    requires home(k) < n && k in Merge(history[visits[home(k)]])
    ensures k in Concat(pages)
  {
    var j := home(k);
    MergeLookup(history[visits[j]], home, k);
    assert k in pages[j];
    ConcatMember(pages, k);
  }

  /** The number of keys a scan counts. */
  function CountAt<K, V>(history: seq<Shards<K, V>>, visits: seq<nat>): nat
    requires forall j :: 0 <= j < |visits| ==> visits[j] < |history| && j < |history[visits[j]]|
  {
    if visits == [] then 0
    else
      var j := |visits| - 1;
      CountAt(history, visits[..j]) + |history[visits[j]][j]|
  }

  lemma {:induction false} NoDuplicatesSize<K>(page: seq<K>, keys: set<K>)
    requires forall a, b :: 0 <= a < b < |page| ==> page[a] != page[b]
    requires forall k :: k in page <==> k in keys
    ensures |page| == |keys|
    decreases |page|
  {
    if page == [] {
      assert keys == {};
    } else {
      var last, init := page[|page| - 1], page[..|page| - 1];
      assert last in page;
      forall k ensures k in init <==> k in keys - {last} {
        if k in init { assert k in page; }
        if k in page && k != last {
          var a :| 0 <= a < |page| && page[a] == k;
          assert init[a] == k;
        }
      }
      NoDuplicatesSize(init, keys - {last});
    }
  }

  /** Counting and collecting agree. */
  lemma {:induction false} ScanCount<K, V>(history: seq<Shards<K, V>>, visits: seq<nat>, pages: seq<seq<K>>)
    requires IsScan(history, visits, pages)
    ensures |Concat(pages)| == CountAt(history, visits)
    decreases |pages|
  {
    if pages != [] {
      var j := |pages| - 1;
      ScanPrefix(history, visits, pages);
      ScanCount(history, visits[..j], pages[..j]);
      NoDuplicatesSize(pages[j], history[visits[j]][j].Keys);
    }
  }

  /** `page` lists some keys of `m`, each at most once: an iteration that may have been cut short. */
  ghost predicate PartOf<K, V>(page: seq<K>, m: map<K, V>)
  {
    && (forall a, b :: 0 <= a < b < |page| ==> page[a] != page[b])
    && (forall k :: k in page ==> k in m)
  }

  ghost predicate PagesOf<K, V>(pages: seq<seq<K>>, s: Shards<K, V>)
  {
    |pages| <= |s| && forall j :: 0 <= j < |pages| ==> PartOf(pages[j], s[j])
  }

  /** Pages taken shard by shard, complete or not, repeat nothing and hold only keys of the merged map. */
  lemma {:induction false} PagesDistinct<K, V>(pages: seq<seq<K>>, s: Shards<K, V>, home: K -> nat)
    requires Placed(s, home) && PagesOf(pages, s)
    ensures forall a, b :: 0 <= a < b < |Concat(pages)| ==> Concat(pages)[a] != Concat(pages)[b]
    ensures forall k :: k in Concat(pages) ==> k in Merge(s) && home(k) < |pages|
    decreases |pages|
  {
    if pages != [] {
      var j := |pages| - 1;
      PagesDistinct(pages[..j], s, home);
      forall k | k in pages[j] ensures k in Merge(s) && home(k) == j { MergeLookup(s, home, k); }
      var front := Concat(pages[..j]);
      forall a, b | 0 <= a < |front| && 0 <= b < |pages[j]| ensures front[a] != pages[j][b] {
        assert front[a] in front && pages[j][b] in pages[j];
      }
    }
  }

  /** The first `|pages|` shards have been listed completely. */
  ghost predicate FullPages<K, V>(pages: seq<seq<K>>, s: Shards<K, V>)
  {
    |pages| <= |s| && forall j :: 0 <= j < |pages| ==> Enumerates(pages[j], s[j])
  }

  lemma NextPage<K, V>(pages: seq<seq<K>>, s: Shards<K, V>, page: seq<K>)
    requires |pages| < |s|
    ensures PagesOf(pages, s) && PartOf(page, s[|pages|]) ==> PagesOf(pages + [page], s)
    ensures FullPages(pages, s) && Enumerates(page, s[|pages|]) ==> FullPages(pages + [page], s)
    ensures Concat(pages + [page]) == Concat(pages) + page
  {
    assert (pages + [page])[..|pages|] == pages;
  }

  lemma FullPagesArePages<K, V>(pages: seq<seq<K>>, s: Shards<K, V>)
    requires FullPages(pages, s)
    ensures PagesOf(pages, s)
  {
    forall j | 0 <= j < |pages| ensures PartOf(pages[j], s[j]) { assert Enumerates(pages[j], s[j]); }
  }

  /** Complete pages of every shard hold every key. */
  lemma PagesComplete<K, V>(pages: seq<seq<K>>, s: Shards<K, V>, home: K -> nat, k: K)
    requires Placed(s, home) && |pages| == |s| && k in Merge(s) && FullPages(pages, s)
    ensures k in Concat(pages)
  {
    MergeLookup(s, home, k);
    assert k in pages[home(k)];
    ConcatMember(pages, k);
  }

  lemma ScanKeepsFirst<K, V>(history: seq<Shards<K, V>>, home: K -> nat, n: nat,
                             visits: seq<nat>, pages: seq<seq<K>>, k: K)
    requires AllPlaced(history, home, n) && IsScan(history, visits, pages) && |visits| == n
    requires history != [] && k in Merge(history[0])
    requires forall t :: 0 <= t < |history| ==> Merge(history[0]).Keys <= Merge(history[t]).Keys
    ensures k in Concat(pages)
  {
    MergeLookup(history[0], home, k);
    var t := visits[home(k)];
    assert k in Merge(history[t]).Keys;
    ScanComplete(history, home, n, visits, pages, k);
  }

  lemma ScanStaysInLast<K, V>(history: seq<Shards<K, V>>, home: K -> nat, n: nat,
                              visits: seq<nat>, pages: seq<seq<K>>, k: K)
    requires AllPlaced(history, home, n) && IsScan(history, visits, pages)
    requires history != [] && k in Concat(pages)
    requires forall t :: 0 <= t < |history| ==> Merge(history[t]).Keys <= Merge(history[|history| - 1]).Keys
    ensures k in Merge(history[|history| - 1])
  {
    ScanSound(history, home, n, visits, pages, k);
    var t := visits[home(k)];
    assert k in Merge(history[t]).Keys;
  }

  /** If nothing is deleted during the scan, the count lies between the sizes at its two ends. */
  lemma ScanCountBounds<K, V>(history: seq<Shards<K, V>>, home: K -> nat, n: nat,
                              visits: seq<nat>, pages: seq<seq<K>>)
    requires AllPlaced(history, home, n) && IsScan(history, visits, pages) && |visits| == n
    requires history != []
    requires forall t :: 0 <= t < |history| ==> Merge(history[0]).Keys <= Merge(history[t]).Keys
    requires forall t :: 0 <= t < |history| ==> Merge(history[t]).Keys <= Merge(history[|history| - 1]).Keys
    ensures |Merge(history[0])| <= CountAt(history, visits) <= |Merge(history[|history| - 1])|
  {
    ScanCount(history, visits, pages);
    ScanNoDuplicates(history, home, n, visits, pages);
    var out := Concat(pages);
    var got := set k | k in out;
    NoDuplicatesSize(out, got);
    var first, last := Merge(history[0]).Keys, Merge(history[|history| - 1]).Keys;
    forall k | k in first ensures k in got { ScanKeepsFirst(history, home, n, visits, pages, k); }
    forall k | k in got ensures k in last { ScanStaysInLast(history, home, n, visits, pages, k); }
    SubsetSize(first, got);
    SubsetSize(got, last);
  }

  lemma {:induction false} SubsetSize<K>(a: set<K>, b: set<K>)
    requires a <= b
    ensures |a| <= |b|
    decreases |a|
  {
    if a != {} {
      var x :| x in a;
      SubsetSize(a - {x}, b - {x});
    }
  }
}
