/** The resizable chained hash table, updated in place, as one thread sees it. */
module HashTables {
  import opened Common
  import opened TableSpec
  import opened TableOps
  import opened TableNumbers

  class HashTable<K(==, !new), V(!new)> {
    const hash: K -> nat
    const resizable: bool
    var size: nat
    var capacity: nat
    var storage: array<Bucket<K, V>>
    /** How many pairs the resizes have inserted again since the table was made. */
    ghost var moved: nat

    ghost function Value(): Table<K, V>
      reads this, storage
    {
      Table(capacity, storage[..], size)
    }

    ghost predicate IsValid()
      reads this, storage
    {
      Valid(hash, Value())
    }

    ghost function Map(): map<K, V>
      requires IsValid()
      reads this, storage
    {
      MapOf(hash, Value())
    }

    /** A table for `cap` entries owns at least four buckets. */
    constructor (hash: K -> nat, cap: nat, resizable: bool)
      requires cap > 0
      ensures IsValid() && Map() == map[] && fresh(storage)
      ensures this.hash == hash && this.resizable == resizable && capacity == cap && moved == 0
      ensures storage.Length == if cap < 4 then 4 else cap
    {
      this.hash := hash;
      this.resizable := resizable;
      size, capacity, moved := 0, cap, 0;
      storage := new Bucket<K, V>[if cap < 4 then 4 else cap](_ => []);
      new;
      assert forall i :: 0 <= i < |storage[..]| ==> storage[..][i] == [];
      CollectEmpty(storage[..]);
      forall k: K ensures PairsOf(hash, Value(), k) == [] {
      }
      MapOfUnique(hash, Value(), map[]);
    }

    constructor Default(hash: K -> nat)
      ensures IsValid() && Map() == map[] && fresh(storage)
      ensures this.hash == hash && resizable && capacity == 4 && moved == 0
      ensures storage.Length == 4
    {
      this.hash := hash;
      resizable := true;
      size, capacity, moved := 0, 4, 0;
      storage := new Bucket<K, V>[4](_ => []);
      new;
      CollectEmpty(storage[..]);
      forall k: K ensures PairsOf(hash, Value(), k) == [] {
      }
      MapOfUnique(hash, Value(), map[]);
    }

    /** The lookup in the bucket of the key; `get` changes nothing. */
    method Get(k: K) returns (r: Option<V>)
      requires IsValid()
      ensures r == TableOps.Get(hash, Value(), k)
      ensures r == if k in Map() then Some(Map()[k]) else None
    {
      var bucket := storage[Index(hash, k, capacity)];
      r := if |bucket| == 0 then None else Lookup(bucket, k);
      MapOfGet(hash, Value(), k);
    }

    /** Adds the key if it is absent, after growing or shrinking until the policy is content. */
    method Insert(k: K, v: V) returns (ok: bool)
      requires IsValid()
      modifies this, storage
      ensures IsValid() && (storage == old(storage) || fresh(storage))
      ensures ok <==> k !in old(Map())
      ensures Map() == if ok then old(Map())[k := v] else old(Map())
      ensures Value() == Inserted(hash, old(Value()), resizable, k, v)
      ensures !(resizable && ok) ==> capacity == old(capacity)
      ensures resizable && ok ==>
        && (capacity > old(capacity) <==>
              old(size) > 0 && (old(capacity) <= 4 || 4 * (old(size) + 1) >= 3 * old(capacity)))
        && (capacity < old(capacity) <==>
              old(size) > 0 && old(capacity) > 4 && 10 * (old(size) + 1) <= old(capacity))
      ensures moved == old(moved) + (if resizable then InsertCost(hash, old(Value()), k) else 0)
    {
      var present := Get(k);
      InsertedMap(hash, Value(), resizable, k, v);
      ghost var t := Value();
      if present.Some? {
        return false;
      }
      if resizable {
        Settle(1);
      }
      Push(k, v);
      InsertedCapacity(hash, t, resizable, k, v);
      ok := true;
    }

    /** The locked part of `insert`: append to the bucket, count. */
    method Push(k: K, v: V)
      requires WellFormed(hash, Value())
      modifies this`size, storage
      ensures Value() == Pushed(hash, old(Value()), k, v)
    {
      var i := Index(hash, k, capacity);
      storage[i] := storage[i] + [(k, v)];
      size := size + 1;
      assert storage[..] == old(storage[..])[i := old(storage[..])[i] + [(k, v)]];
    }

    /** Takes the key out and returns its value, after the same retry loop with delta -1. */
    method Remove(k: K) returns (r: Option<V>)
      requires IsValid()
      modifies this, storage
      ensures IsValid() && (storage == old(storage) || fresh(storage))
      ensures r == if k in old(Map()) then Some(old(Map())[k]) else None
      ensures Map() == old(Map()) - {k}
      ensures Value() == Removed(hash, old(Value()), resizable, k)
      ensures !resizable ==> capacity == old(capacity)
      ensures resizable ==>
        && (capacity > old(capacity) <==>
              old(size) > 0 && (old(capacity) <= 4 || 4 * (old(size) - 1) >= 3 * old(capacity)))
        && (capacity < old(capacity) <==>
              old(size) > 1 && old(capacity) > 4 && 10 * (old(size) - 1) <= old(capacity))
      ensures moved == old(moved) + (if resizable then RemoveCost(old(Value())) else 0)
    {
      RemovedMap(hash, Value(), resizable, k);
      RemovedCapacity(hash, Value(), resizable, k);
      PreparedKeepsOrder(hash, Value(), resizable, -1, k);
      MapOfGet(hash, Value(), k);
      GetIsFirst(hash, Value(), k);
      if resizable {
        Settle(-1);
      }
      GetIsFirst(hash, Value(), k);
      r := EraseFirst(k);
    }

    /** The locked part of `remove`: find, count down, erase. */
    method EraseFirst(k: K) returns (r: Option<V>)
      requires WellFormed(hash, Value())
      modifies this`size, storage
      ensures Value() == Erased(hash, old(Value()), k)
      ensures r == TableOps.Get(hash, old(Value()), k)
    {
      var i := Index(hash, k, capacity);
      var bucket := storage[i];
      var j := Find(bucket, k);
      if j < |bucket| {
        CollectErase(storage[..], i, j);
        size := size - 1;
        r := Some(bucket[j].1);
        storage[i] := Erase(bucket, j);
        assert storage[..] == old(storage[..])[i := Erase(bucket, j)];
      } else {
        r := None;
      }
    }

    /** Assignment through the subscript proxy. */
    method Assign(k: K, v: V)
      requires IsValid()
      modifies this, storage
      ensures IsValid() && (storage == old(storage) || fresh(storage))
      ensures Map() == old(Map())[k := v]
      ensures Value() == Assigned(hash, old(Value()), resizable, k, v)
      ensures Value() ==
        if k in old(Map()) then Inserted(hash, Removed(hash, old(Value()), resizable, k), resizable, k, v)
        else Inserted(hash, old(Value()), resizable, k, v)
      ensures moved == old(moved) + (if resizable then AssignCost(hash, old(Value()), k) else 0)
    {
      AssignedMap(hash, Value(), resizable, k, v);
      var entry := Get(k);
      if entry.Some? {
        var _ := Remove(k);
        var _ := Insert(k, v);
      } else {
        var _ := Insert(k, v);
      }
    }

    /** A copy of bucket `i`, pair by pair. */
    method GetBucket(i: nat) returns (vec: Bucket<K, V>)
      requires IsValid() && i < capacity
      ensures vec == storage[i]
      ensures forall p :: p in vec ==> p.0 in Map() && Map()[p.0] == p.1 && hash(p.0) % capacity == i
    {
      vec := [];
      var bucket := storage[i];
      for j := 0 to |bucket|
        invariant vec == bucket[..j]
      {
        vec := vec + [bucket[j]];
      }
      ghost var t := Value();
      forall p | p in vec ensures p.0 in Map() && Map()[p.0] == p.1 && hash(p.0) % capacity == i {
        var j :| 0 <= j < |bucket| && bucket[j] == p;
        assert Index(hash, t.buckets[i][j].0, capacity) == i;
        assert |PairsOf(hash, t, p.0)| <= 1;
        OnlyPair(bucket, j);
        MapOfGet(hash, t, p.0);
        GetIsFirst(hash, t, p.0);
      }
    }

    /** The retry loop: resize while `needsResize` asks for it. */
    method Settle(delta: int)
      requires IsValid() && (delta == 1 || delta == -1)
      modifies this, storage
      ensures IsValid() && (storage == old(storage) || fresh(storage))
      ensures Value() == Settled(hash, old(Value()), delta)
      ensures moved == old(moved) + SettlingCost(old(size), old(capacity), delta)
    {
      ghost var t := Value();
      while Policy(size, capacity, delta) != Keep
        invariant IsValid() && (storage == old(storage) || fresh(storage))
        invariant size == t.size
        invariant Settled(hash, Value(), delta) == Settled(hash, t, delta)
        invariant moved + SettlingCost(size, capacity, delta) == old(moved) + SettlingCost(t.size, t.cap, delta)
        decreases Measure(size, capacity)
      {
        ResizeLowersMeasure(size, capacity, delta);
        Resize(delta);
      }
    }

    /** One resize: decide again, then collect, reallocate and rehash. */
    method Resize(delta: int)
      requires IsValid() && (delta == 1 || delta == -1)
      modifies this, storage
      ensures IsValid() && (storage == old(storage) || fresh(storage)) && size == old(size)
      ensures Value() == Resized(hash, old(Value()), delta)
      ensures Map() == old(Map())
      ensures capacity > old(capacity) <==>
        old(size) > 0 && (old(capacity) <= 4 || 4 * (old(size) + delta) >= 3 * old(capacity))
      ensures capacity < old(capacity) <==>
        && old(size) > 0 && old(capacity) > 4
        && 0 < old(size) + delta && 10 * (old(size) + delta) <= old(capacity)
      ensures capacity > old(capacity) ==> capacity == 2 * old(capacity)
      ensures capacity < old(capacity) ==> old(capacity) <= 2 * capacity <= old(capacity) + 1
      ensures moved == old(moved) + (if capacity == old(capacity) then 0 else old(size))
    {
      ghost var t := Value();
      OneResize(size, capacity, delta);
      match Policy(size, capacity, delta) {
        case Grow => Rebuild(capacity * 2);
        case Shrink => Rebuild((capacity + 1) / 2);
        case Keep =>
      }
      ghost var r := Value();
      if r != t {
        RebuildKeepsPairs(hash, t, r.cap);
        forall k: K ensures PairsOf(hash, r, k) == PairsOf(hash, t, k)
          ensures TableOps.Get(hash, r, k) == if k in MapOf(hash, t) then Some(MapOf(hash, t)[k]) else None
        {
          RebuildKeepsOrder(hash, t, r.cap, k);
          MapOfGet(hash, t, k);
        }
        MapOfUnique(hash, r, MapOf(hash, t));
      }
    }

    method Rebuild(newCapacity: nat)
      requires 0 < capacity <= storage.Length && newCapacity > 0
      modifies this, storage
      ensures fresh(storage)
      ensures Value() == Rebuilt(hash, old(Value()), newCapacity)
      ensures moved == old(moved) + size
    {
      var pairs := CollectPairs();
      storage := new Bucket<K, V>[newCapacity](_ => []);
      capacity := newCapacity;
      size := 0;
      assert storage[..] == Fill(hash, capacity, pairs[..0]);
      for i := 0 to |pairs|
        invariant fresh(storage) && capacity == newCapacity && size == i
        invariant storage[..] == Fill(hash, capacity, pairs[..i])
        invariant moved == old(moved) + i
      {
        assert pairs[..i + 1][..i] == pairs[..i];
        InsertUnsafe(pairs[i].0, pairs[i].1);
        moved := moved + 1;
      }
      assert pairs[..|pairs|] == pairs;
    }

    /** Re-insertion while the table is locked: no check, no resize. */
    method InsertUnsafe(k: K, v: V)
      requires 0 < capacity == storage.Length
      modifies this`size, storage
      ensures storage[..] == Place(hash, old(storage[..]), (k, v))
      ensures size == old(size) + 1
    {
      var i := Index(hash, k, capacity);
      storage[i] := storage[i] + [(k, v)];
      size := size + 1;
    }

    /** Collects all pairs into one list and empties the buckets. */
    method CollectPairs() returns (l: Bucket<K, V>)
      requires capacity <= storage.Length
      modifies storage
      ensures l == Collect(old(storage[..capacity]))
      ensures forall i :: 0 <= i < capacity ==> storage[i] == []
      ensures storage[capacity..] == old(storage[capacity..])
    {
      l := [];
      ghost var bs := storage[..];
      for i := 0 to capacity
        invariant l == Collect(bs[..i])
        invariant forall j :: 0 <= j < storage.Length ==> storage[j] == if j < i then [] else bs[j]
      {
        assert bs[..i + 1][..i] == bs[..i];
        l := storage[i] + l;
        storage[i] := [];
      }
      assert bs[..capacity] == old(storage[..capacity]);
    }
  }

  lemma OnlyPair<K, V>(b: Bucket<K, V>, j: nat)
    requires j < |b| && |Of(b, b[j].0)| <= 1
    ensures Of(b, b[j].0) == [b[j]]
  {
    OfAround(b, j, b[j].0);
  }
}
