/** The hash table as a value: buckets, the resize policy, and the rebuild. Both the
    sequential class and the step machine are stated with these functions. */
module TableSpec {
  import opened Common

  type Bucket<K, V> = seq<(K, V)>

  datatype Table<K, V> = Table(cap: nat, buckets: seq<Bucket<K, V>>, size: nat)

  /** What an operation on the table returns. */
  datatype Reply<K, V> = NoReply | Added(ok: bool) | Found(value: Option<V>) | Listed(bucket: Option<Bucket<K, V>>)

  // ----- one bucket -----

  /** The position of the first pair with key `k`, or the length of the bucket. */
  function Find<K(==), V>(b: Bucket<K, V>, k: K): (i: nat)
    ensures i <= |b|
    ensures i < |b| ==> b[i].0 == k
    ensures forall j :: 0 <= j < i ==> b[j].0 != k
  {
    if b == [] || b[0].0 == k then 0 else 1 + Find(b[1..], k)
  }

  function Lookup<K(==), V>(b: Bucket<K, V>, k: K): Option<V> {
    var i := Find(b, k);
    if i < |b| then Some(b[i].1) else None
  }

  function Erase<T>(b: seq<T>, i: nat): seq<T>
    requires i < |b|
  {
    b[..i] + b[i + 1..]
  }

  /** The pairs with key `k`, in order. */
  ghost function Of<K, V>(b: Bucket<K, V>, k: K): Bucket<K, V> {
    if b == [] then []
    else Of(b[..|b| - 1], k) + (if b[|b| - 1].0 == k then [b[|b| - 1]] else [])
  }

  lemma {:induction false} OfConcat<K, V>(a: Bucket<K, V>, b: Bucket<K, V>, k: K)
    ensures Of(a + b, k) == Of(a, k) + Of(b, k)
  {
    if b == [] {
      assert a + b == a;
    } else {
      var n := |b| - 1;
      OfConcat(a, b[..n], k);
      assert (a + b)[..|a + b| - 1] == a + b[..n];
    }
  }

  lemma {:induction false} OfNone<K, V>(b: Bucket<K, V>, k: K)
    requires forall p :: p in b ==> p.0 != k
    ensures Of(b, k) == []
  {
    if b == [] {
    } else {
      OfNone(b[..|b| - 1], k);
    }
  }

  lemma OfOne<K, V>(p: (K, V), k: K)
    ensures Of([p], k) == if p.0 == k then [p] else []
  {
    assert [p][..0] == [];
  }

  /** The first pair found is the first pair of the subsequence, so a lookup depends on
      that subsequence alone. */
  lemma {:induction false} LookupIsFirst<K, V>(b: Bucket<K, V>, k: K)
    ensures Find(b, k) < |b| <==> Of(b, k) != []
    ensures Lookup(b, k) == if Of(b, k) == [] then None else Some(Of(b, k)[0].1)
  {
    var i := Find(b, k);
    NoneBefore(b, k);
    if i < |b| {
      OfAround(b, i, k);
    } else {
      assert b[..i] == b;
    }
  }

  lemma SplitAt<T>(b: seq<T>, i: nat)
    requires i < |b|
    ensures b == b[..i] + [b[i]] + b[i + 1..]
  {
  }

  /** With and without the pair at `i`. */
  lemma OfAround<K, V>(b: Bucket<K, V>, i: nat, k: K)
    requires i < |b|
    ensures Of(b, k) == Of(b[..i], k) + (if b[i].0 == k then [b[i]] else []) + Of(b[i + 1..], k)
    ensures Of(Erase(b, i), k) == Of(b[..i], k) + Of(b[i + 1..], k)
  {
    SplitAt(b, i);
    OfConcat(b[..i] + [b[i]], b[i + 1..], k);
    OfConcat(b[..i], [b[i]], k);
    OfConcat(b[..i], b[i + 1..], k);
    OfOne(b[i], k);
  }

  lemma NoneBefore<K, V>(b: Bucket<K, V>, k: K)
    ensures Of(b[..Find(b, k)], k) == []
  {
    OfNone(b[..Find(b, k)], k);
  }

  /** Erasing a pair does not concern another key. */
  lemma OfEraseOther<K, V>(b: Bucket<K, V>, i: nat, k: K)
    requires i < |b| && b[i].0 != k
    ensures Of(Erase(b, i), k) == Of(b, k)
  {
    OfAround(b, i, k);
  }

  /** Erasing the pair found removes the first pair of its key. */
  lemma OfEraseFirst<K, V>(b: Bucket<K, V>, k: K)
    requires Find(b, k) < |b|
    ensures Of(b, k) != [] && Of(Erase(b, Find(b, k)), k) == Of(b, k)[1..]
  {
    var i := Find(b, k);
    OfAround(b, i, k);
    NoneBefore(b, k);
    assert Of(b, k) == [b[i]] + Of(b[i + 1..], k);
  }

  lemma PairsAfterPush<K, V>(b: Bucket<K, V>, p: (K, V), k: K)
    ensures Of(b + [p], k) == if p.0 == k then Of(b, k) + [p] else Of(b, k)
  {
    OfConcat(b, [p], k);
    OfOne(p, k);
  }

  lemma PairsAfterErase<K, V>(b: Bucket<K, V>, q: K, k: K)
    requires Find(b, q) < |b|
    ensures q == k ==> Of(b, k) != [] && Of(Erase(b, Find(b, q)), k) == Of(b, k)[1..]
    ensures q != k ==> Of(Erase(b, Find(b, q)), k) == Of(b, k)
  {
    if q == k {
      OfEraseFirst(b, k);
    } else {
      OfEraseOther(b, Find(b, q), k);
    }
  }

  // ----- all buckets -----

  function Index<K>(h: K -> nat, k: K, cap: nat): (b: nat)
    requires cap > 0
    ensures b < cap
  {
    h(k) % cap
  }

  /** All pairs in the order in which `collectPairs` leaves them: each bucket is spliced
      in front of the buckets before it. */
  function Collect<K, V>(bs: seq<Bucket<K, V>>): Bucket<K, V> {
    if bs == [] then [] else bs[|bs| - 1] + Collect(bs[..|bs| - 1])
  }

  /** One bucket is a contiguous part of the collection, and replacing it replaces that part. */
  lemma {:induction false} CollectSplit<K, V>(bs: seq<Bucket<K, V>>, i: nat, b: Bucket<K, V>)
      returns (pre: Bucket<K, V>, post: Bucket<K, V>)
    requires i < |bs|
    ensures Collect(bs) == pre + bs[i] + post
    ensures Collect(bs[i := b]) == pre + b + post
  {
    var n := |bs| - 1;
    assert bs[i := b][..n] == if i < n then bs[..n][i := b] else bs[..n];
    if i == n {
      pre, post := [], Collect(bs[..n]);
    } else {
      pre, post := CollectSplit(bs[..n], i, b);
      pre := bs[n] + pre;
      assert Collect(bs) == pre + bs[i] + post;
    }
  }

  lemma CollectAppend<K, V>(bs: seq<Bucket<K, V>>, i: nat, p: (K, V))
    requires i < |bs|
    ensures |Collect(bs[i := bs[i] + [p]])| == |Collect(bs)| + 1
    ensures multiset(Collect(bs[i := bs[i] + [p]])) == multiset(Collect(bs)) + multiset{p}
  {
    var pre, post := CollectSplit(bs, i, bs[i] + [p]);
  }

  lemma CollectErase<K, V>(bs: seq<Bucket<K, V>>, i: nat, j: nat)
    requires i < |bs| && j < |bs[i]|
    ensures |Collect(bs[i := Erase(bs[i], j)])| == |Collect(bs)| - 1
    ensures multiset(Collect(bs[i := Erase(bs[i], j)])) == multiset(Collect(bs)) - multiset{bs[i][j]}
  {
    var b := bs[i];
    var pre, post := CollectSplit(bs, i, Erase(b, j));
    assert b == b[..j] + [b[j]] + b[j + 1..];
  }

  /** The pairs of every bucket are collected. */
  lemma CollectHas<K, V>(bs: seq<Bucket<K, V>>, i: nat, p: (K, V))
    requires i < |bs| && p in bs[i]
    ensures p in Collect(bs)
  {
    var pre, post := CollectSplit(bs, i, bs[i]);
  }

  /** Every pair lies in the bucket its key hashes to. */
  ghost predicate Placed<K(!new), V(!new)>(h: K -> nat, bs: seq<Bucket<K, V>>, cap: nat)
    requires cap > 0
  {
    forall i, j :: 0 <= i < |bs| && 0 <= j < |bs[i]| ==> Index(h, bs[i][j].0, cap) == i
  }

  /** With every pair in its bucket, the pairs of a key are those of its bucket. */
  lemma {:induction false} OfCollect<K(!new), V(!new)>(h: K -> nat, bs: seq<Bucket<K, V>>, cap: nat, k: K)
    requires cap > 0 && Placed(h, bs, cap)
    ensures Of(Collect(bs), k) == if Index(h, k, cap) < |bs| then Of(bs[Index(h, k, cap)], k) else []
  {
    if bs == [] {
    } else {
      var n := |bs| - 1;
      forall i, j | 0 <= i < n && 0 <= j < |bs[..n][i]| ensures Index(h, bs[..n][i][j].0, cap) == i {
        assert bs[..n][i] == bs[i];
      }
      OfCollect(h, bs[..n], cap, k);
      OfConcat(bs[n], Collect(bs[..n]), k);
      if Index(h, k, cap) != n {
        OfNone(bs[n], k);
      }
    }
  }

  // ----- rehashing -----

  function Place<K, V>(h: K -> nat, bs: seq<Bucket<K, V>>, p: (K, V)): (r: seq<Bucket<K, V>>)
    requires |bs| > 0
    ensures |r| == |bs|
  {
    var i := Index(h, p.0, |bs|);
    bs[i := bs[i] + [p]]
  }

  /** Rehashing: the pairs are appended one by one to `cap` empty buckets. */
  function Fill<K, V>(h: K -> nat, cap: nat, pairs: Bucket<K, V>): (r: seq<Bucket<K, V>>)
    requires cap > 0
    ensures |r| == cap
  {
    if pairs == [] then seq(cap, _ => [])
    else Place(h, Fill(h, cap, pairs[..|pairs| - 1]), pairs[|pairs| - 1])
  }

  lemma {:induction false} FillPlaced<K(!new), V(!new)>(h: K -> nat, cap: nat, pairs: Bucket<K, V>)
    requires cap > 0
    ensures Placed(h, Fill(h, cap, pairs), cap)
  {
    if pairs == [] {
    } else {
      FillPlaced(h, cap, pairs[..|pairs| - 1]);
    }
  }

  /** A bucket receives, of each key that hashes to it, the pairs in their order. */
  lemma {:induction false} FillOf<K, V>(h: K -> nat, cap: nat, pairs: Bucket<K, V>, k: K)
    requires cap > 0
    ensures Of(Fill(h, cap, pairs)[Index(h, k, cap)], k) == Of(pairs, k)
  {
    if pairs == [] {
    } else {
      var n := |pairs| - 1;
      FillOf(h, cap, pairs[..n], k);
      var i := Index(h, k, cap);
      var b := Fill(h, cap, pairs[..n])[i];
      assert (b + [pairs[n]])[..|b|] == b;
    }
  }

  lemma {:induction false} CollectEmpty<K, V>(bs: seq<Bucket<K, V>>)
    requires forall i :: 0 <= i < |bs| ==> bs[i] == []
    ensures Collect(bs) == []
  {
    if bs == [] {
    } else {
      CollectEmpty(bs[..|bs| - 1]);
    }
  }

  lemma {:induction false} FillBag<K, V>(h: K -> nat, cap: nat, pairs: Bucket<K, V>)
    requires cap > 0
    ensures multiset(Collect(Fill(h, cap, pairs))) == multiset(pairs)
    ensures |Collect(Fill(h, cap, pairs))| == |pairs|
  {
    if pairs == [] {
      CollectEmpty(Fill(h, cap, pairs));
    } else {
      var n := |pairs| - 1;
      FillBag(h, cap, pairs[..n]);
      var bs := Fill(h, cap, pairs[..n]);
      var i := Index(h, pairs[n].0, cap);
      CollectAppend(bs, i, pairs[n]);
      assert pairs == pairs[..n] + [pairs[n]];
    }
  }

  // ----- the policy -----

  datatype Verdict = Keep | Grow | Shrink

  const WORD: nat := 0x1_0000_0000_0000_0000

  /** `_size + static_cast<size_t>(delta)` in 64 bits: below zero the sum wraps. */
  function Widened(size: nat, delta: int): (r: int)
    requires -1 <= delta
    ensures r >= 0
    ensures size + delta >= 0 ==> r == size + delta
    ensures size + delta < 0 ==> r == WORD - 1
  {
    if size + delta < 0 then size + delta + WORD else size + delta
  }

  /** `needsResize` when its two reads of `_size` return `first` and `second`. */
  function Judge(first: nat, second: nat, cap: nat, delta: int): Verdict
    requires -1 <= delta
  {
    if first == 0 then Keep
    else if cap <= 4 then Grow
    else
      var n := Widened(second, delta);
      if 4 * n >= 3 * cap then Grow
      else if 0 < n && 10 * n <= cap then Shrink
      else Keep
  }

  /** `needsResize` when nobody changes `_size` meanwhile. */
  function Policy(n: nat, cap: nat, delta: int): Verdict
    requires -1 <= delta
  {
    Judge(n, n, cap, delta)
  }

  function NewCap(v: Verdict, cap: nat): nat {
    match v
    case Keep => cap
    case Grow => cap * 2
    case Shrink => (cap + 1) / 2
  }

  /** Growth keeps going while one of the two deltas still asks for it. */
  ghost predicate MayGrow(n: nat, cap: nat) {
    n > 0 && (cap <= 4 || 4 * (n + 1) >= 3 * cap)
  }

  ghost predicate MayShrink(n: nat, cap: nat) {
    n > 0 && cap > 4 && ((n > 1 && 10 * (n - 1) <= cap) || 10 * (n + 1) <= cap)
  }

  /** An upper bound on the number of resizes still possible at entry count `n`. */
  ghost function Measure(n: nat, cap: nat): nat {
    if cap == 0 then 0
    else if MayGrow(n, cap) then
      (if cap <= 4 then 5 - cap else 0) + (if 4 * (n + 1) >= 3 * cap then 4 * (n + 1) - 3 * cap + 1 else 0)
    else if MayShrink(n, cap) then cap
    else 0
  }

  /** Every resize, by either delta, lowers the measure: both retry loops end. */
  lemma ResizeLowersMeasure(n: nat, cap: nat, delta: int)
    requires cap > 0 && (delta == 1 || delta == -1)
    requires Policy(n, cap, delta) != Keep
    ensures Measure(n, NewCap(Policy(n, cap, delta), cap)) < Measure(n, cap)
    ensures Policy(n, cap, delta) == Shrink ==> NewCap(Shrink, cap) > 4
  {
    var next := NewCap(Policy(n, cap, delta), cap);
    if Policy(n, cap, delta) == Grow {
      assert MayGrow(n, cap);
      assert !MayShrink(n, next);
    } else {
      assert !MayGrow(n, cap) && MayShrink(n, cap);
      assert !MayGrow(n, next);
    }
  }

  /** The capacity at which the retry loop stops, and the pairs its rebuilds re-insert. */
  ghost function SettledCap(n: nat, cap: nat, delta: int): (c: nat)
    requires cap > 0 && (delta == 1 || delta == -1)
    ensures c > 0 && Policy(n, c, delta) == Keep
    decreases Measure(n, cap)
  {
    var v := Policy(n, cap, delta);
    if v == Keep then cap
    else
      ResizeLowersMeasure(n, cap, delta);
      SettledCap(n, NewCap(v, cap), delta)
  }

  ghost function SettlingCost(n: nat, cap: nat, delta: int): nat
    requires cap > 0 && (delta == 1 || delta == -1)
    decreases Measure(n, cap)
  {
    var v := Policy(n, cap, delta);
    if v == Keep then 0
    else
      ResizeLowersMeasure(n, cap, delta);
      n + SettlingCost(n, NewCap(v, cap), delta)
  }

  ghost predicate PlusOrMinusOne(deltas: seq<int>) {
    forall i :: 0 <= i < |deltas| ==> deltas[i] == 1 || deltas[i] == -1
  }

  /** The capacities passed through when `resize` is called with each of `deltas` in turn. */
  ghost function Caps(n: nat, cap: nat, deltas: seq<int>): (r: seq<nat>)
    requires PlusOrMinusOne(deltas)
    ensures |r| == |deltas| + 1
    decreases |deltas|
    ensures r[0] == cap
  {
    if deltas == [] then [cap]
    else [cap] + Caps(n, NewCap(Policy(n, cap, deltas[0]), cap), deltas[1..])
  }

  /** Once the table cannot shrink (grow) at this entry count, no call shrinks (grows) it. */
  lemma {:induction false} CapsOneWay(n: nat, cap: nat, deltas: seq<int>)
    requires cap > 0
    requires PlusOrMinusOne(deltas)
    ensures !MayShrink(n, cap) ==>
      forall j :: 0 <= j < |deltas| ==> Caps(n, cap, deltas)[j + 1] >= Caps(n, cap, deltas)[j]
    ensures !MayGrow(n, cap) ==>
      forall j :: 0 <= j < |deltas| ==> Caps(n, cap, deltas)[j + 1] <= Caps(n, cap, deltas)[j]
    decreases |deltas|
  {
    if deltas == [] {
    } else {
      CapsOneWay(n, NewCap(Policy(n, cap, deltas[0]), cap), deltas[1..]);
    }
  }

  /** No ping-pong: at a fixed entry count, calls with any mix of the two deltas either only
      grow or only shrink the table. */
  lemma {:induction false} NoPingPong(n: nat, cap: nat, deltas: seq<int>)
    requires cap > 0
    requires PlusOrMinusOne(deltas)
    ensures (forall j :: 0 <= j < |deltas| ==> Caps(n, cap, deltas)[j + 1] >= Caps(n, cap, deltas)[j])
         || (forall j :: 0 <= j < |deltas| ==> Caps(n, cap, deltas)[j + 1] <= Caps(n, cap, deltas)[j])
  {
    CapsOneWay(n, cap, deltas);
    assert !(MayGrow(n, cap) && MayShrink(n, cap));
  }
}
