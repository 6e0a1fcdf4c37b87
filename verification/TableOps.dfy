/** The operations of the hash table as functions on table values, and the laws of resizing. */
module TableOps {
  import opened Common
  import opened TableSpec

  /** Every pair is in its bucket and `_size` counts the pairs. A table built for fewer than
      four entries still owns four buckets. */
  ghost predicate WellFormed<K(!new), V(!new)>(h: K -> nat, t: Table<K, V>) {
    && 0 < t.cap <= |t.buckets|
    && Placed(h, t.buckets, t.cap)
    && t.size == |Collect(t.buckets)|
  }

  function Get<K(==), V>(h: K -> nat, t: Table<K, V>, k: K): Option<V>
    requires 0 < t.cap <= |t.buckets|
  {
    Lookup(t.buckets[Index(h, k, t.cap)], k)
  }

  /** The pairs with key `k` that the operations on `k` see. */
  ghost function PairsOf<K, V>(h: K -> nat, t: Table<K, V>, k: K): Bucket<K, V>
    requires 0 < t.cap <= |t.buckets|
  {
    Of(t.buckets[Index(h, k, t.cap)], k)
  }

  // ----- resizing -----

  lemma {:induction false} CollectTrim<K, V>(bs: seq<Bucket<K, V>>, n: nat)
    requires n <= |bs|
    requires forall i :: n <= i < |bs| ==> bs[i] == []
    ensures Collect(bs[..n]) == Collect(bs)
  {
    if n < |bs| {
      CollectTrim(bs[..|bs| - 1], n);
      assert bs[..|bs| - 1][..n] == bs[..n];
    } else {
      assert bs[..n] == bs;
    }
  }

  lemma PairsWithinCapacity<K(!new), V(!new)>(h: K -> nat, t: Table<K, V>)
    requires WellFormed(h, t)
    ensures Collect(t.buckets[..t.cap]) == Collect(t.buckets)
  {
    forall i | t.cap <= i < |t.buckets| ensures t.buckets[i] == [] {
      assert t.buckets[i] != [] ==> Index(h, t.buckets[i][0].0, t.cap) == i;
    }
    CollectTrim(t.buckets, t.cap);
  }

  /** The rebuild of `resize`: collect the first `_capacity` buckets, allocate `cap` new ones,
      re-insert and recount. */
  ghost function Rebuilt<K, V>(h: K -> nat, t: Table<K, V>, cap: nat): (r: Table<K, V>)
    requires 0 < t.cap <= |t.buckets| && cap > 0
  {
    var pairs := Collect(t.buckets[..t.cap]);
    Table(cap, Fill(h, cap, pairs), |pairs|)
  }

  /** A rebuild keeps the bag of pairs and `_size`, and puts every pair in its new bucket. */
  lemma RebuildKeepsPairs<K(!new), V(!new)>(h: K -> nat, t: Table<K, V>, cap: nat)
    requires WellFormed(h, t) && cap > 0
    ensures WellFormed(h, Rebuilt(h, t, cap))
    ensures Rebuilt(h, t, cap).size == t.size
    ensures multiset(Collect(Rebuilt(h, t, cap).buckets)) == multiset(Collect(t.buckets))
  {
    PairsWithinCapacity(h, t);
    FillPlaced(h, cap, Collect(t.buckets));
    FillBag(h, cap, Collect(t.buckets));
  }

  /** A rebuild is invisible: each key keeps its pairs in their order, duplicates included,
      so every lookup answers as before. */
  lemma RebuildKeepsOrder<K(!new), V(!new)>(h: K -> nat, t: Table<K, V>, cap: nat, k: K)
    requires WellFormed(h, t) && cap > 0
    ensures PairsOf(h, Rebuilt(h, t, cap), k) == PairsOf(h, t, k)
    ensures Get(h, Rebuilt(h, t, cap), k) == Get(h, t, k)
  {
    PairsWithinCapacity(h, t);
    FillOf(h, cap, Collect(t.buckets), k);
    OfCollect(h, t.buckets, t.cap, k);
    LookupIsFirst(t.buckets[Index(h, k, t.cap)], k);
    LookupIsFirst(Rebuilt(h, t, cap).buckets[Index(h, k, cap)], k);
  }

  /** One call of `resize` with nobody else in the table. */
  ghost function Resized<K, V>(h: K -> nat, t: Table<K, V>, delta: int): (r: Table<K, V>)
    requires 0 < t.cap <= |t.buckets| && -1 <= delta
  {
    var v := Policy(t.size, t.cap, delta);
    if v == Keep then t else Rebuilt(h, t, NewCap(v, t.cap))
  }

  /** The retry loop of `insert` (delta 1) and `remove` (delta -1). */
  ghost function Settled<K(!new), V(!new)>(h: K -> nat, t: Table<K, V>, delta: int): (r: Table<K, V>)
    requires WellFormed(h, t) && (delta == 1 || delta == -1)
    ensures WellFormed(h, r) && r.size == t.size
    ensures Policy(r.size, r.cap, delta) == Keep
    ensures multiset(Collect(r.buckets)) == multiset(Collect(t.buckets))
    decreases Measure(t.size, t.cap)
  {
    var v := Policy(t.size, t.cap, delta);
    if v == Keep then t
    else
      RebuildKeepsPairs(h, t, NewCap(v, t.cap));
      ResizeLowersMeasure(t.size, t.cap, delta);
      Settled(h, Resized(h, t, delta), delta)
  }

  lemma {:induction false} SettledKeepsOrder<K(!new), V(!new)>(h: K -> nat, t: Table<K, V>, delta: int, k: K)
    requires WellFormed(h, t) && (delta == 1 || delta == -1)
    ensures PairsOf(h, Settled(h, t, delta), k) == PairsOf(h, t, k)
    decreases Measure(t.size, t.cap)
  {
    var v := Policy(t.size, t.cap, delta);
    if v == Keep {
    } else {
      RebuildKeepsPairs(h, t, NewCap(v, t.cap));
      RebuildKeepsOrder(h, t, NewCap(v, t.cap), k);
      ResizeLowersMeasure(t.size, t.cap, delta);
      SettledKeepsOrder(h, Resized(h, t, delta), delta, k);
    }
  }

  // ----- the operations -----

  ghost function Prepared<K(!new), V(!new)>(h: K -> nat, t: Table<K, V>, resizable: bool, delta: int): (r: Table<K, V>)
    requires WellFormed(h, t) && (delta == 1 || delta == -1)
    ensures WellFormed(h, r) && r.size == t.size
  {
    if resizable then Settled(h, t, delta) else t
  }

  ghost function Pushed<K(!new), V(!new)>(h: K -> nat, t: Table<K, V>, k: K, v: V): (r: Table<K, V>)
    requires WellFormed(h, t)
    ensures WellFormed(h, r)
  {
    var i := Index(h, k, t.cap);
    CollectAppend(t.buckets, i, (k, v));
    t.(buckets := t.buckets[i := t.buckets[i] + [(k, v)]], size := t.size + 1)
  }

  ghost function Erased<K(!new), V(!new)>(h: K -> nat, t: Table<K, V>, k: K): (r: Table<K, V>)
    requires WellFormed(h, t)
    ensures WellFormed(h, r)
  {
    var i := Index(h, k, t.cap);
    var b := t.buckets[i];
    var j := Find(b, k);
    if j < |b| then
      CollectErase(t.buckets, i, j);
      assert Placed(h, t.buckets[i := Erase(b, j)], t.cap) by { ErasePlaced(h, t, i, j); }
      t.(buckets := t.buckets[i := Erase(b, j)], size := t.size - 1)
    else t
  }

  lemma ErasePlaced<K(!new), V(!new)>(h: K -> nat, t: Table<K, V>, i: nat, j: nat)
    requires 0 < t.cap <= |t.buckets| && Placed(h, t.buckets, t.cap)
    requires i < |t.buckets| && j < |t.buckets[i]|
    ensures Placed(h, t.buckets[i := Erase(t.buckets[i], j)], t.cap)
  {
    var b := t.buckets[i];
    forall x | 0 <= x < |Erase(b, j)| ensures Index(h, Erase(b, j)[x].0, t.cap) == i {
      assert Erase(b, j)[x] == if x < j then b[x] else b[x + 1];
    }
  }

  ghost function Inserted<K(!new), V(!new)>(h: K -> nat, t: Table<K, V>, resizable: bool, k: K, v: V): (r: Table<K, V>)
    requires WellFormed(h, t)
    ensures WellFormed(h, r)
  {
    if Get(h, t, k).Some? then t else Pushed(h, Prepared(h, t, resizable, 1), k, v)
  }

  ghost function Removed<K(!new), V(!new)>(h: K -> nat, t: Table<K, V>, resizable: bool, k: K): (r: Table<K, V>)
    requires WellFormed(h, t)
    ensures WellFormed(h, r)
  {
    Erased(h, Prepared(h, t, resizable, -1), k)
  }

  /** Assignment through the proxy: a present key is removed first. */
  ghost function Assigned<K(!new), V(!new)>(h: K -> nat, t: Table<K, V>, resizable: bool, k: K, v: V): (r: Table<K, V>)
    requires WellFormed(h, t)
    ensures WellFormed(h, r)
  {
    if Get(h, t, k).Some? then Inserted(h, Removed(h, t, resizable, k), resizable, k, v)
    else Inserted(h, t, resizable, k, v)
  }

  /** The pairs that one operation on a resizable table re-inserts in its resizes. */
  ghost function InsertCost<K(!new), V(!new)>(h: K -> nat, t: Table<K, V>, k: K): nat
    requires WellFormed(h, t)
  {
    if Get(h, t, k).Some? then 0 else SettlingCost(t.size, t.cap, 1)
  }

  ghost function RemoveCost<K, V>(t: Table<K, V>): nat
    requires t.cap > 0
  {
    SettlingCost(t.size, t.cap, -1)
  }

  ghost function AssignCost<K(!new), V(!new)>(h: K -> nat, t: Table<K, V>, k: K): nat
    requires WellFormed(h, t)
  {
    if Get(h, t, k).Some? then RemoveCost(t) + InsertCost(h, Removed(h, t, true, k), k)
    else InsertCost(h, t, k)
  }

  lemma PreparedKeepsOrder<K(!new), V(!new)>(h: K -> nat, t: Table<K, V>, resizable: bool, delta: int, k: K)
    requires WellFormed(h, t) && (delta == 1 || delta == -1)
    ensures PairsOf(h, Prepared(h, t, resizable, delta), k) == PairsOf(h, t, k)
  {
    if resizable {
      SettledKeepsOrder(h, t, delta, k);
    }
  }

  lemma GetIsFirst<K(!new), V(!new)>(h: K -> nat, t: Table<K, V>, k: K)
    requires 0 < t.cap <= |t.buckets|
    ensures Get(h, t, k) == if PairsOf(h, t, k) == [] then None else Some(PairsOf(h, t, k)[0].1)
  {
    LookupIsFirst(t.buckets[Index(h, k, t.cap)], k);
  }

  lemma PushedPairs<K(!new), V(!new)>(h: K -> nat, t: Table<K, V>, k: K, v: V, q: K)
    requires WellFormed(h, t)
    ensures PairsOf(h, Pushed(h, t, k, v), q) == PairsOf(h, t, q) + (if q == k then [(k, v)] else [])
  {
    PairsAfterPush(t.buckets[Index(h, k, t.cap)], (k, v), q);
  }

  lemma ErasedPairs<K(!new), V(!new)>(h: K -> nat, t: Table<K, V>, k: K, q: K)
    requires WellFormed(h, t)
    ensures var ps := PairsOf(h, t, q);
            PairsOf(h, Erased(h, t, k), q) == if q == k && ps != [] then ps[1..] else ps
  {
    var b := t.buckets[Index(h, k, t.cap)];
    LookupIsFirst(b, k);
    if Find(b, k) < |b| {
      PairsAfterErase(b, k, q);
    }
  }

  /** `insert` appends the pair to the pairs of its key unless there are some already. */
  lemma InsertedPairs<K(!new), V(!new)>(h: K -> nat, t: Table<K, V>, resizable: bool, k: K, v: V, q: K)
    requires WellFormed(h, t)
    ensures PairsOf(h, Inserted(h, t, resizable, k, v), q)
         == if q == k && PairsOf(h, t, q) == [] then [(k, v)] else PairsOf(h, t, q)
  {
    GetIsFirst(h, t, k);
    PreparedKeepsOrder(h, t, resizable, 1, q);
    PushedPairs(h, Prepared(h, t, resizable, 1), k, v, q);
  }

  /** `remove` takes the first pair of its key, if there is one. */
  lemma RemovedPairs<K(!new), V(!new)>(h: K -> nat, t: Table<K, V>, resizable: bool, k: K, q: K)
    requires WellFormed(h, t)
    ensures var ps := PairsOf(h, t, q);
            PairsOf(h, Removed(h, t, resizable, k), q) == if q == k && ps != [] then ps[1..] else ps
  {
    PreparedKeepsOrder(h, t, resizable, -1, q);
    ErasedPairs(h, Prepared(h, t, resizable, -1), k, q);
  }

  // ----- the table as a map -----

  /** No key occurs twice. */
  ghost predicate UniqueKeys<K(!new), V(!new)>(h: K -> nat, t: Table<K, V>)
    requires 0 < t.cap <= |t.buckets|
  {
    forall k: K :: |PairsOf(h, t, k)| <= 1
  }

  ghost predicate Valid<K(!new), V(!new)>(h: K -> nat, t: Table<K, V>) {
    WellFormed(h, t) && UniqueKeys(h, t)
  }

  ghost function KeysIn<K, V>(s: Bucket<K, V>): set<K> {
    set p | p in s :: p.0
  }

  ghost function MapOf<K(!new), V(!new)>(h: K -> nat, t: Table<K, V>): map<K, V>
    requires 0 < t.cap <= |t.buckets|
  {
    map k | k in KeysIn(Collect(t.buckets)) && Get(h, t, k).Some? :: Get(h, t, k).value
  }

  lemma MapOfGet<K(!new), V(!new)>(h: K -> nat, t: Table<K, V>, k: K)
    requires WellFormed(h, t)
    ensures Get(h, t, k) == if k in MapOf(h, t) then Some(MapOf(h, t)[k]) else None
  {
    var i := Index(h, k, t.cap);
    var b := t.buckets[i];
    if Get(h, t, k).Some? {
      CollectHas(t.buckets, i, b[Find(b, k)]);
      assert k in KeysIn(Collect(t.buckets));
    }
  }

  /** The map is determined by what `get` answers. */
  lemma MapOfUnique<K(!new), V(!new)>(h: K -> nat, t: Table<K, V>, m: map<K, V>)
    requires WellFormed(h, t)
    requires forall k: K :: Get(h, t, k) == if k in m then Some(m[k]) else None
    ensures MapOf(h, t) == m
  {
    forall k: K ensures k in MapOf(h, t) <==> k in m
      ensures k in m ==> MapOf(h, t)[k] == m[k]
    {
      MapOfGet(h, t, k);
    }
  }

  lemma {:induction false} DistinctKeysCount<K(!new), V(!new)>(s: Bucket<K, V>)
    requires forall k: K :: |Of(s, k)| <= 1
    ensures |KeysIn(s)| == |s|
  {
    if s == [] {
    } else {
      var n := |s| - 1;
      var p := s[n];
      forall k: K ensures |Of(s[..n], k)| <= 1 {
        assert |Of(s, k)| <= 1;
      }
      DistinctKeysCount(s[..n]);
      assert |Of(s, p.0)| <= 1;
      LookupIsFirst(s[..n], p.0);
      assert p.0 !in KeysIn(s[..n]);
      assert s == s[..n] + [p];
      assert KeysIn(s) == KeysIn(s[..n]) + {p.0};
    }
  }

  /** `_size` is the number of keys. */
  lemma SizeIsCardinality<K(!new), V(!new)>(h: K -> nat, t: Table<K, V>)
    requires Valid(h, t)
    ensures |MapOf(h, t)| == t.size
  {
    var all := Collect(t.buckets);
    forall k: K ensures |Of(all, k)| <= 1
      ensures k in KeysIn(all) <==> k in MapOf(h, t)
    {
      OfCollect(h, t.buckets, t.cap, k);
      assert |PairsOf(h, t, k)| <= 1;
      MapOfGet(h, t, k);
      GetIsFirst(h, t, k);
      if k in KeysIn(all) {
        var p :| p in all && p.0 == k;
        LookupIsFirst(all, k);
      }
    }
    DistinctKeysCount(all);
    assert MapOf(h, t).Keys == KeysIn(all);
  }

  /** The result of calling `getBucket` for 0, 1, and so on. */
  ghost function Listing<K, V>(bs: seq<Bucket<K, V>>): Bucket<K, V> {
    if bs == [] then [] else Listing(bs[..|bs| - 1]) + bs[|bs| - 1]
  }

  lemma {:induction false} ListingBag<K, V>(bs: seq<Bucket<K, V>>)
    ensures multiset(Listing(bs)) == multiset(Collect(bs))
  {
    if bs == [] {
    } else {
      ListingBag(bs[..|bs| - 1]);
    }
  }

  lemma {:induction false} CountInOf<K, V>(s: Bucket<K, V>, p: (K, V))
    ensures multiset(s)[p] == multiset(Of(s, p.0))[p]
  {
    if s == [] {
    } else {
      var init, last := s[..|s| - 1], s[|s| - 1];
      CountInOf(init, p);
      assert s == init + [last];
      assert multiset(s) == multiset(init) + multiset{last};
      assert Of(s, p.0) == Of(init, p.0) + (if last.0 == p.0 then [last] else []);
    }
  }

  /** Reading buckets 0 to capacity - 1 lists every pair of the map once and nothing else. */
  lemma BucketsListTheMap<K(!new), V(!new)>(h: K -> nat, t: Table<K, V>, p: (K, V))
    requires Valid(h, t)
    ensures multiset(Listing(t.buckets[..t.cap]))[p]
         == if p.0 in MapOf(h, t) && MapOf(h, t)[p.0] == p.1 then 1 else 0
  {
    PairsWithinCapacity(h, t);
    ListingBag(t.buckets[..t.cap]);
    CountInOf(Collect(t.buckets), p);
    OfCollect(h, t.buckets, t.cap, p.0);
    MapOfGet(h, t, p.0);
    GetIsFirst(h, t, p.0);
    var ps := PairsOf(h, t, p.0);
    assert |ps| <= 1;
    OfKeys(t.buckets[Index(h, p.0, t.cap)], p.0);
    if |ps| == 1 {
      assert ps == [ps[0]] && ps[0] in ps;
    }
  }

  lemma {:induction false} OfKeys<K, V>(s: Bucket<K, V>, k: K)
    ensures forall p :: p in Of(s, k) ==> p.0 == k
  {
    if s == [] {
    } else {
      OfKeys(s[..|s| - 1], k);
    }
  }

  /** `insert` adds the key exactly when it is absent. */
  lemma InsertedMap<K(!new), V(!new)>(h: K -> nat, t: Table<K, V>, resizable: bool, k: K, v: V)
    requires Valid(h, t)
    ensures Valid(h, Inserted(h, t, resizable, k, v))
    ensures MapOf(h, Inserted(h, t, resizable, k, v)) == if k in MapOf(h, t) then MapOf(h, t) else MapOf(h, t)[k := v]
  {
    var r := Inserted(h, t, resizable, k, v);
    var m := if k in MapOf(h, t) then MapOf(h, t) else MapOf(h, t)[k := v];
    MapOfGet(h, t, k);
    GetIsFirst(h, t, k);
    forall q: K ensures |PairsOf(h, r, q)| <= 1
      ensures Get(h, r, q) == if q in m then Some(m[q]) else None
    {
      assert |PairsOf(h, t, q)| <= 1;
      InsertedPairs(h, t, resizable, k, v, q);
      MapOfGet(h, t, q);
      GetIsFirst(h, t, q);
      GetIsFirst(h, r, q);
    }
    MapOfUnique(h, r, m);
  }

  /** `remove` deletes the key. */
  lemma RemovedMap<K(!new), V(!new)>(h: K -> nat, t: Table<K, V>, resizable: bool, k: K)
    requires Valid(h, t)
    ensures Valid(h, Removed(h, t, resizable, k))
    ensures MapOf(h, Removed(h, t, resizable, k)) == MapOf(h, t) - {k}
  {
    var r := Removed(h, t, resizable, k);
    var m := MapOf(h, t) - {k};
    forall q: K ensures |PairsOf(h, r, q)| <= 1
      ensures Get(h, r, q) == if q in m then Some(m[q]) else None
    {
      assert |PairsOf(h, t, q)| <= 1;
      RemovedPairs(h, t, resizable, k, q);
      MapOfGet(h, t, q);
      GetIsFirst(h, t, q);
      GetIsFirst(h, r, q);
    }
    MapOfUnique(h, r, m);
  }

  lemma ReinsertedMap<K(!new), V(!new)>(h: K -> nat, t: Table<K, V>, resizable: bool, k: K, v: V, m: map<K, V>)
    requires Valid(h, t) && MapOf(h, t) == m - {k}
    ensures Valid(h, Inserted(h, t, resizable, k, v))
    ensures MapOf(h, Inserted(h, t, resizable, k, v)) == m[k := v]
  {
    InsertedMap(h, t, resizable, k, v);
    assert (m - {k})[k := v] == m[k := v];
  }

  /** Assignment through the proxy is an upsert. */
  lemma AssignedMap<K(!new), V(!new)>(h: K -> nat, t: Table<K, V>, resizable: bool, k: K, v: V)
    requires Valid(h, t)
    ensures Valid(h, Assigned(h, t, resizable, k, v))
    ensures MapOf(h, Assigned(h, t, resizable, k, v)) == MapOf(h, t)[k := v]
  {
    var m := MapOf(h, t);
    MapOfGet(h, t, k);
    if Get(h, t, k).Some? {
      RemovedMap(h, t, resizable, k);
      ReinsertedMap(h, Removed(h, t, resizable, k), resizable, k, v, m);
    } else {
      assert m - {k} == m;
      ReinsertedMap(h, t, resizable, k, v, m);
    }
  }
}
