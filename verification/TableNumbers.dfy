/** The resizes in plain numbers: when an operation grows or shrinks the table, to which capacity, and
    how the pairs then lie in the buckets. */
module TableNumbers {
  import opened Common
  import opened TableSpec
  import opened TableOps

  // ----- capacities -----

  /** One resize, at `n` entries: it grows when the table is tiny or the load that `delta` leads to is
      3/4 or more, and then doubles; it shrinks when that load is above 0 and 1/10 or less, and then
      halves, rounding up. */
  lemma OneResize(n: nat, cap: nat, delta: int)
    requires cap > 0 && (delta == 1 || delta == -1)
    ensures var r := NewCap(Policy(n, cap, delta), cap);
            && (r > cap <==> n > 0 && (cap <= 4 || 4 * (n + delta) >= 3 * cap))
            && (r < cap <==> n > 0 && cap > 4 && 0 < n + delta && 10 * (n + delta) <= cap)
            && (r > cap ==> r == 2 * cap)
            && (r < cap ==> cap <= 2 * r <= cap + 1)
  {
  }

  function Doubled(cap: nat, times: nat): nat
    decreases times
  {
    if times == 0 then cap else Doubled(2 * cap, times - 1)
  }

  function Halved(cap: nat, times: nat): nat
    decreases times
  {
    if times == 0 then cap else Halved((cap + 1) / 2, times - 1)
  }

  /** The retry loop does nothing but double, or nothing but halve. */
  lemma {:induction false} RetrySteps(n: nat, cap: nat, delta: int)
    requires cap > 0 && (delta == 1 || delta == -1)
    ensures var r := SettledCap(n, cap, delta);
            && (r >= cap ==> exists times: nat :: r == Doubled(cap, times))
            && (r <= cap ==> exists times: nat :: r == Halved(cap, times))
    decreases Measure(n, cap)
  {
    OneResize(n, cap, delta);
    RetryLoop(n, cap, delta);
    var r, next := SettledCap(n, cap, delta), NewCap(Policy(n, cap, delta), cap);
    if next == cap {
      assert r == Doubled(cap, 0) && r == Halved(cap, 0);
    } else {
      ResizeLowersMeasure(n, cap, delta);
      RetryLoop(n, next, delta);
      RetrySteps(n, next, delta);
      if next > cap {
        var times: nat :| r == Doubled(next, times);
        assert r == Doubled(cap, times + 1);
      } else {
        var times: nat :| r == Halved(next, times);
        assert r == Halved(cap, times + 1);
      }
    }
  }

  /** Where the retry loop may end: on which side of the old capacity, and at the first capacity that
      will do. */
  ghost predicate EndsAt(n: nat, cap: nat, delta: int, r: nat) {
    && (r > cap <==> n > 0 && (cap <= 4 || 4 * (n + delta) >= 3 * cap))
    && (r < cap <==> n > 0 && cap > 4 && 0 < n + delta && 10 * (n + delta) <= cap)
    && (n > 0 ==> r > 4 && 4 * (n + delta) < 3 * r && (n + delta == 0 || r < 10 * (n + delta)))
    && (r > cap ==> r % 2 == 0 && (r <= 8 || 8 * (n + delta) >= 3 * r))
    && (r < cap ==> 10 * (n + delta) <= 2 * r)
  }

  lemma AfterDoubling(n: nat, cap: nat, delta: int, r: nat)
    requires cap > 0 && n > 0 && (delta == 1 || delta == -1) && EndsAt(n, 2 * cap, delta, r)
    requires cap <= 4 || 4 * (n + delta) >= 3 * cap
    ensures EndsAt(n, cap, delta, r)
  {
  }

  lemma AfterHalving(n: nat, cap: nat, delta: int, next: nat, r: nat)
    requires cap <= 2 * next <= cap + 1 && n > 0 && (delta == 1 || delta == -1) && EndsAt(n, next, delta, r)
    requires cap > 4 && 0 < n + delta && 10 * (n + delta) <= cap
    ensures EndsAt(n, cap, delta, r)
  {
  }

  lemma {:induction false} RetryLoop(n: nat, cap: nat, delta: int)
    requires cap > 0 && (delta == 1 || delta == -1)
    ensures EndsAt(n, cap, delta, SettledCap(n, cap, delta))
    decreases Measure(n, cap)
  {
    OneResize(n, cap, delta);
    var r, next := SettledCap(n, cap, delta), NewCap(Policy(n, cap, delta), cap);
    if next == cap {
    } else {
      ResizeLowersMeasure(n, cap, delta);
      RetryLoop(n, next, delta);
      if next > cap {
        AfterDoubling(n, cap, delta, r);
      } else {
        AfterHalving(n, cap, delta, next, r);
      }
    }
  }

  lemma {:induction false} SettledCapacity<K(!new), V(!new)>(h: K -> nat, t: Table<K, V>, delta: int)
    requires WellFormed(h, t) && (delta == 1 || delta == -1)
    ensures Settled(h, t, delta).cap == SettledCap(t.size, t.cap, delta)
    decreases Measure(t.size, t.cap)
  {
    var v := Policy(t.size, t.cap, delta);
    if v == Keep {
    } else {
      RebuildKeepsPairs(h, t, NewCap(v, t.cap));
      ResizeLowersMeasure(t.size, t.cap, delta);
      SettledCapacity(h, Resized(h, t, delta), delta);
    }
  }

  lemma ResizedCapacity<K, V>(h: K -> nat, t: Table<K, V>, delta: int)
    requires 0 < t.cap <= |t.buckets| && (delta == 1 || delta == -1)
    ensures var r := Resized(h, t, delta);
            && (r.cap > t.cap <==> t.size > 0 && (t.cap <= 4 || 4 * (t.size + delta) >= 3 * t.cap))
            && (r.cap < t.cap <==> t.size > 0 && t.cap > 4 && 0 < t.size + delta && 10 * (t.size + delta) <= t.cap)
            && (r.cap > t.cap ==> r.cap == 2 * t.cap)
            && (r.cap < t.cap ==> t.cap <= 2 * r.cap <= t.cap + 1)
            && (r.cap == t.cap ==> r == t)
  {
    OneResize(t.size, t.cap, delta);
  }

  /** When an `insert` of an absent key grows the table and when it shrinks it, and where it ends. */
  lemma InsertedCapacity<K(!new), V(!new)>(h: K -> nat, t: Table<K, V>, resizable: bool, k: K, v: V)
    requires WellFormed(h, t)
    ensures var r, m := Inserted(h, t, resizable, k, v), t.size + 1;
            if !resizable || Get(h, t, k).Some? then r.cap == t.cap
            else
              && (r.cap > t.cap <==> t.size > 0 && (t.cap <= 4 || 4 * m >= 3 * t.cap))
              && (r.cap < t.cap <==> t.size > 0 && t.cap > 4 && 10 * m <= t.cap)
              && (t.size > 0 ==> r.cap > 4 && 4 * m < 3 * r.cap && r.cap < 10 * m)
              && (r.cap > t.cap ==> r.cap % 2 == 0 && (r.cap <= 8 || 8 * m >= 3 * r.cap))
              && (r.cap < t.cap ==> 10 * m <= 2 * r.cap)
  {
    if resizable {
      RetryLoop(t.size, t.cap, 1);
      SettledCapacity(h, t, 1);
    }
  }

  /** The same for `remove`, which resizes whether or not it finds its key. */
  lemma RemovedCapacity<K(!new), V(!new)>(h: K -> nat, t: Table<K, V>, resizable: bool, k: K)
    requires WellFormed(h, t)
    ensures var r, m := Removed(h, t, resizable, k), t.size - 1;
            if !resizable then r.cap == t.cap
            else
              && (r.cap > t.cap <==> t.size > 0 && (t.cap <= 4 || 4 * m >= 3 * t.cap))
              && (r.cap < t.cap <==> t.cap > 4 && 0 < m && 10 * m <= t.cap)
              && (t.size > 0 ==> r.cap > 4 && 4 * m < 3 * r.cap && (m == 0 || r.cap < 10 * m))
              && (r.cap > t.cap ==> r.cap % 2 == 0 && (r.cap <= 8 || 8 * m >= 3 * r.cap))
              && (r.cap < t.cap ==> 10 * m <= 2 * r.cap)
  {
    if resizable {
      RetryLoop(t.size, t.cap, -1);
      SettledCapacity(h, t, -1);
    }
  }

  // ----- buckets -----

  /** Without a resize `insert` appends its pair to the bucket of its key, and no other bucket changes. */
  lemma InsertedBuckets<K(!new), V(!new)>(h: K -> nat, t: Table<K, V>, resizable: bool, k: K, v: V)
    requires WellFormed(h, t) && Get(h, t, k) == None
    requires Inserted(h, t, resizable, k, v).cap == t.cap
    ensures var r := Inserted(h, t, resizable, k, v);
            && |r.buckets| == |t.buckets|
            && r.buckets[h(k) % t.cap] == t.buckets[h(k) % t.cap] + [(k, v)]
            && forall i :: 0 <= i < |t.buckets| && i != h(k) % t.cap ==> r.buckets[i] == t.buckets[i]
  {
    if resizable {
      SettledOnlyByResize(h, t, 1);
      SettledCapacity(h, t, 1);
    }
  }

  /** Without a resize `remove` takes one pair of its key out of its bucket and closes the gap. */
  lemma RemovedBuckets<K(!new), V(!new)>(h: K -> nat, t: Table<K, V>, resizable: bool, k: K)
    requires WellFormed(h, t) && Removed(h, t, resizable, k).cap == t.cap
    ensures var r, b := Removed(h, t, resizable, k), h(k) % t.cap;
            && |r.buckets| == |t.buckets|
            && (forall i :: 0 <= i < |t.buckets| && i != b ==> r.buckets[i] == t.buckets[i])
            && if forall p :: p in t.buckets[b] ==> p.0 != k then r == t
               else exists j ::
                 && 0 <= j < |t.buckets[b]| && t.buckets[b][j].0 == k
                 && (forall x :: 0 <= x < j ==> t.buckets[b][x].0 != k)
                 && r.buckets[b] == t.buckets[b][..j] + t.buckets[b][j + 1..]
  {
    if resizable {
      SettledOnlyByResize(h, t, -1);
      SettledCapacity(h, t, -1);
    }
    var b := t.buckets[h(k) % t.cap];
    var j := Find(b, k);
    if j < |b| {
      assert b[j] in b;
      assert 0 <= j < |b| && b[j].0 == k && forall x :: 0 <= x < j ==> b[x].0 != k;
    } else {
      forall p | p in b ensures p.0 != k {
      }
    }
  }

  /** The table after `n` calls of `resize`. */
  ghost function Repeated<K(!new), V(!new)>(h: K -> nat, t: Table<K, V>, delta: int, n: nat): (r: Table<K, V>)
    requires WellFormed(h, t) && (delta == 1 || delta == -1)
    ensures WellFormed(h, r)
    decreases n
  {
    if n == 0 then t
    else
      var v := Policy(t.size, t.cap, delta);
      assert WellFormed(h, Resized(h, t, delta)) by {
        if v != Keep {
          RebuildKeepsPairs(h, t, NewCap(v, t.cap));
        }
      }
      Repeated(h, Resized(h, t, delta), delta, n - 1)
  }

  /** The retry loop ends after `n` calls of `resize`. */
  ghost predicate EndsAfter<K(!new), V(!new)>(h: K -> nat, t: Table<K, V>, delta: int, n: nat)
    requires WellFormed(h, t) && (delta == 1 || delta == -1)
  {
    Settled(h, t, delta) == Repeated(h, t, delta, n)
  }

  lemma EndsAtOnce<K(!new), V(!new)>(h: K -> nat, t: Table<K, V>, delta: int)
    requires WellFormed(h, t) && (delta == 1 || delta == -1) && Policy(t.size, t.cap, delta) == Keep
    ensures EndsAfter(h, t, delta, 0)
  {
  }

  lemma EndsLater<K(!new), V(!new)>(h: K -> nat, t: Table<K, V>, delta: int)
    requires WellFormed(h, t) && (delta == 1 || delta == -1) && Policy(t.size, t.cap, delta) != Keep
    ensures WellFormed(h, Resized(h, t, delta))
    ensures Measure(Resized(h, t, delta).size, Resized(h, t, delta).cap) < Measure(t.size, t.cap)
    ensures forall n: nat :: EndsAfter(h, Resized(h, t, delta), delta, n) ==> EndsAfter(h, t, delta, n + 1)
  {
    RebuildKeepsPairs(h, t, NewCap(Policy(t.size, t.cap, delta), t.cap));
    ResizeLowersMeasure(t.size, t.cap, delta);
  }

  /** The retry loop makes some number of such calls and does nothing else to the buckets. */
  lemma {:induction false} SettledByResizes<K(!new), V(!new)>(h: K -> nat, t: Table<K, V>, delta: int) returns (n: nat)
    requires WellFormed(h, t) && (delta == 1 || delta == -1)
    ensures EndsAfter(h, t, delta, n)
    decreases Measure(t.size, t.cap)
  {
    if Policy(t.size, t.cap, delta) == Keep {
      EndsAtOnce(h, t, delta);
      n := 0;
    } else {
      EndsLater(h, t, delta);
      var rest := SettledByResizes(h, Resized(h, t, delta), delta);
      n := rest + 1;
    }
  }

  /** `insert` of an absent key: some resizes, then its pair at the end of the bucket of its hash. */
  lemma InsertedByResizes<K(!new), V(!new)>(h: K -> nat, t: Table<K, V>, resizable: bool, k: K, v: V) returns (n: nat)
    requires WellFormed(h, t) && Get(h, t, k) == None
    ensures !resizable ==> n == 0
    ensures var p := Repeated(h, t, 1, n);
            var i := h(k) % p.cap;
            Inserted(h, t, resizable, k, v) == Table(p.cap, p.buckets[i := p.buckets[i] + [(k, v)]], p.size + 1)
  {
    n := 0;
    if resizable {
      n := SettledByResizes(h, t, 1);
    }
  }

  /** `remove`: some resizes, then the first pair of the key, if there is one, out of the bucket of its
      hash. */
  lemma RemovedByResizes<K(!new), V(!new)>(h: K -> nat, t: Table<K, V>, resizable: bool, k: K) returns (n: nat, j: nat)
    requires WellFormed(h, t)
    ensures !resizable ==> n == 0
    ensures var p := Repeated(h, t, -1, n);
            var b := p.buckets[h(k) % p.cap];
            && j <= |b| && (forall x :: 0 <= x < j ==> b[x].0 != k) && (j < |b| ==> b[j].0 == k)
            && var r := Removed(h, t, resizable, k);
               if j == |b| then r == p
               else r.cap == p.cap && r.size == p.size - 1
                    && r.buckets == p.buckets[h(k) % p.cap := b[..j] + b[j + 1..]]
  {
    n := 0;
    if resizable {
      n := SettledByResizes(h, t, -1);
    }
    var p := Repeated(h, t, -1, n);
    j := Find(p.buckets[h(k) % p.cap], k);
  }

  /** A retry loop that ends at the capacity where it began has not resized. */
  lemma SettledOnlyByResize<K(!new), V(!new)>(h: K -> nat, t: Table<K, V>, delta: int)
    requires WellFormed(h, t) && (delta == 1 || delta == -1) && SettledCap(t.size, t.cap, delta) == t.cap
    ensures Settled(h, t, delta) == t
  {
    RetryLoop(t.size, t.cap, delta);
    OneResize(t.size, t.cap, delta);
  }

  /** The pairs of `b` that hash to `i` in a table of capacity `cap`, in their order. */
  ghost function Picked<K, V>(h: K -> nat, b: Bucket<K, V>, cap: nat, i: nat): Bucket<K, V>
    requires cap > 0
  {
    if b == [] then []
    else
      var n := |b| - 1;
      Picked(h, b[..n], cap, i) + if h(b[n].0) % cap == i then [b[n]] else []
  }

  /** The same of all buckets, the last bucket first. */
  ghost function Gathered<K, V>(h: K -> nat, bs: seq<Bucket<K, V>>, cap: nat, i: nat): Bucket<K, V>
    requires cap > 0
  {
    if bs == [] then [] else Picked(h, bs[|bs| - 1], cap, i) + Gathered(h, bs[..|bs| - 1], cap, i)
  }

  lemma {:induction false} PickedConcat<K, V>(h: K -> nat, a: Bucket<K, V>, b: Bucket<K, V>, cap: nat, i: nat)
    requires cap > 0
    ensures Picked(h, a + b, cap, i) == Picked(h, a, cap, i) + Picked(h, b, cap, i)
  {
    if b == [] {
      assert a + b == a;
    } else {
      var n := |b| - 1;
      PickedConcat(h, a, b[..n], cap, i);
      assert (a + b)[..|a + b| - 1] == a + b[..n];
    }
  }

  lemma {:induction false} PickedCollect<K, V>(h: K -> nat, bs: seq<Bucket<K, V>>, cap: nat, i: nat)
    requires cap > 0
    ensures Picked(h, Collect(bs), cap, i) == Gathered(h, bs, cap, i)
  {
    if bs == [] {
    } else {
      var n := |bs| - 1;
      PickedCollect(h, bs[..n], cap, i);
      PickedConcat(h, bs[n], Collect(bs[..n]), cap, i);
    }
  }

  lemma {:induction false} FillPicks<K, V>(h: K -> nat, cap: nat, pairs: Bucket<K, V>, i: nat)
    requires i < cap
    ensures Fill(h, cap, pairs)[i] == Picked(h, pairs, cap, i)
  {
    if pairs == [] {
    } else {
      FillPicks(h, cap, pairs[..|pairs| - 1], i);
    }
  }

  /** What a rebuild puts into bucket `i`, pair by pair: of the old buckets, last bucket first, the
      pairs that now hash to `i`, each bucket's in their order. */
  lemma RebuiltBucket<K(!new), V(!new)>(h: K -> nat, t: Table<K, V>, cap: nat, i: nat)
    requires WellFormed(h, t) && i < cap
    ensures Rebuilt(h, t, cap).buckets[i] == Gathered(h, t.buckets[..t.cap], cap, i)
  {
    FillPicks(h, cap, Collect(t.buckets[..t.cap]), i);
    PickedCollect(h, t.buckets[..t.cap], cap, i);
  }

  lemma {:induction false} AllPicked<K, V>(h: K -> nat, b: Bucket<K, V>, cap: nat, i: nat)
    requires cap > 0 && forall j :: 0 <= j < |b| ==> h(b[j].0) % cap == i
    ensures Picked(h, b, cap, i) == b
  {
    if b == [] {
    } else {
      AllPicked(h, b[..|b| - 1], cap, i);
    }
  }

  lemma {:induction false} NonePicked<K, V>(h: K -> nat, b: Bucket<K, V>, cap: nat, i: nat)
    requires cap > 0 && forall j :: 0 <= j < |b| ==> h(b[j].0) % cap != i
    ensures Picked(h, b, cap, i) == []
  {
    if b == [] {
    } else {
      NonePicked(h, b[..|b| - 1], cap, i);
    }
  }

  lemma Euclid(x: nat, d: nat) returns (q: nat, r: nat)
    requires d > 0
    ensures x == q * d + r && r < d && r == x % d
  {
    q, r := x / d, x % d;
  }

  lemma Twice(q: nat, c: nat, d: nat)
    requires d == 2 * c
    ensures q * d == (2 * q) * c && (2 * q + 1) * c == (2 * q) * c + c
  {
  }

  /** Modulo twice the capacity a number is what it is modulo the capacity, or that plus the capacity. */
  lemma ModTwice(x: nat, c: nat, d: nat)
    requires c > 0 && d == 2 * c
    ensures x % c == if x % d < c then x % d else x % d - c
  {
    var q, r := Euclid(x, d);
    Twice(q, c, d);
    if r < c {
      DivModUnique(x, c, 2 * q, r);
    } else {
      DivModUnique(x, c, 2 * q + 1, r - c);
    }
  }

  /** All pairs of the bucket hash to `x`. */
  ghost predicate HashTo<K, V>(h: K -> nat, b: Bucket<K, V>, cap: nat, x: nat)
    requires cap > 0
  {
    forall j :: 0 <= j < |b| ==> h(b[j].0) % cap == x
  }

  lemma PlacedHashTo<K(!new), V(!new)>(h: K -> nat, t: Table<K, V>)
    requires WellFormed(h, t)
    ensures forall x: nat :: x < |t.buckets| ==> HashTo(h, t.buckets[x], t.cap, x)
  {
    forall x: nat | x < |t.buckets| ensures HashTo(h, t.buckets[x], t.cap, x) {
      forall j | 0 <= j < |t.buckets[x]| ensures h(t.buckets[x][j].0) % t.cap == x {
        assert Index(h, t.buckets[x][j].0, t.cap) == x;
      }
    }
  }

  /** Old bucket `x` gives nothing to a new bucket that does not lie over it. */
  lemma DoubledMiss<K, V>(h: K -> nat, b: Bucket<K, V>, c: nat, d: nat, x: nat, i: nat)
    requires 0 < c && d == 2 * c && i < d && x != i % c && HashTo(h, b, c, x)
    ensures Picked(h, b, d, i) == []
  {
    forall j | 0 <= j < |b| ensures h(b[j].0) % d != i {
      var p := b[j];
      OverAnother(h(p.0), c, d, i);
    }
    NonePicked(h, b, d, i);
  }

  lemma OverAnother(y: nat, c: nat, d: nat, i: nat)
    requires 0 < c && d == 2 * c && i < d && y % c != i % c
    ensures y % d != i
  {
    ModTwice(y, c, d);
    if i < c {
      DivModUnique(i, c, 0, i);
    } else {
      DivModUnique(i, c, 1, i - c);
    }
  }

  lemma GatherOne<K, V>(h: K -> nat, bs: seq<Bucket<K, V>>, cap: nat, i: nat, m: nat)
    requires cap > 0 && m < |bs|
    ensures Gathered(h, bs[..m + 1], cap, i) == Picked(h, bs[m], cap, i) + Gathered(h, bs[..m], cap, i)
  {
    assert bs[..m + 1][..m] == bs[..m] && bs[..m + 1][m] == bs[m];
  }

  /** Buckets without a fitting pair do not matter. */
  lemma {:induction false} GatherNone<K, V>(h: K -> nat, bs: seq<Bucket<K, V>>, cap: nat, i: nat, m: nat, n: nat)
    requires cap > 0 && m <= n <= |bs|
    requires forall x: nat :: m <= x < n ==> Picked(h, bs[x], cap, i) == []
    ensures Gathered(h, bs[..n], cap, i) == Gathered(h, bs[..m], cap, i)
  {
    if n == m {
    } else {
      GatherNone(h, bs, cap, i, m, n - 1);
      GatherOne(h, bs, cap, i, n - 1);
    }
  }

  /** The last bucket that matters comes first. */
  lemma GatherLast<K, V>(h: K -> nat, bs: seq<Bucket<K, V>>, cap: nat, i: nat, m: nat, n: nat)
    requires cap > 0 && m < n <= |bs|
    requires forall x: nat :: m < x < n ==> Picked(h, bs[x], cap, i) == []
    ensures Gathered(h, bs[..n], cap, i) == Picked(h, bs[m], cap, i) + Gathered(h, bs[..m], cap, i)
  {
    GatherNone(h, bs, cap, i, m + 1, n);
    GatherOne(h, bs, cap, i, m);
  }

  lemma GatheredNothing<K, V>(h: K -> nat, bs: seq<Bucket<K, V>>, cap: nat, i: nat)
    requires cap > 0
    ensures Gathered(h, bs[..0], cap, i) == []
  {
  }

  /** Growing to twice the capacity: a new bucket holds the pairs of one old bucket that hash to it, in
      their order. */
  lemma DoubledBucket<K(!new), V(!new)>(h: K -> nat, t: Table<K, V>, d: nat, i: nat)
    requires WellFormed(h, t) && d == 2 * t.cap && i < d
    ensures Rebuilt(h, t, d).buckets[i] == Picked(h, t.buckets[i % t.cap], d, i)
  {
    RebuiltBucket(h, t, d, i);
    PlacedHashTo(h, t);
    forall x: nat | x < t.cap && x != i % t.cap ensures Picked(h, t.buckets[x], d, i) == [] {
      DoubledMiss(h, t.buckets[x], t.cap, d, x, i);
    }
    var x := i % t.cap;
    GatherLast(h, t.buckets, d, i, x, t.cap);
    GatherNone(h, t.buckets, d, i, 0, x);
    GatheredNothing(h, t.buckets, d, i);
  }

  /** Old bucket `x` goes as a whole to the new bucket that lies under it. */
  lemma HalvedHit<K, V>(h: K -> nat, b: Bucket<K, V>, c: nat, cap: nat, x: nat, i: nat)
    requires i < c && cap == 2 * c && HashTo(h, b, cap, x)
    ensures Picked(h, b, c, i) == if x == i || x == i + c then b else []
  {
    forall j | 0 <= j < |b| ensures h(b[j].0) % c == (if x < c then x else x - c) {
      var p := b[j];
      ModTwice(h(p.0), c, cap);
    }
    if x == i || x == i + c {
      AllPicked(h, b, c, i);
    } else {
      NonePicked(h, b, c, i);
    }
  }

  lemma HalvedPicks<K(!new), V(!new)>(h: K -> nat, t: Table<K, V>, c: nat, i: nat)
    requires WellFormed(h, t) && t.cap == 2 * c && i < c
    ensures forall x: nat :: x < t.cap ==>
              Picked(h, t.buckets[x], c, i) == if x == i || x == i + c then t.buckets[x] else []
  {
    PlacedHashTo(h, t);
    forall x: nat | x < t.cap
      ensures Picked(h, t.buckets[x], c, i) == if x == i || x == i + c then t.buckets[x] else []
    {
      HalvedHit(h, t.buckets[x], c, t.cap, x, i);
    }
  }

  lemma GatheredPair<K, V>(h: K -> nat, bs: seq<Bucket<K, V>>, c: nat, i: nat, n: nat)
    requires i < c && i + c < n <= |bs|
    requires forall x: nat :: x < n ==> Picked(h, bs[x], c, i) == if x == i || x == i + c then bs[x] else []
    ensures Gathered(h, bs[..n], c, i) == bs[i + c] + bs[i]
  {
    GatherLast(h, bs, c, i, i + c, n);
    var rest := Gathered(h, bs[..i + c], c, i);
    assert rest == bs[i] by {
      GatherLast(h, bs, c, i, i, i + c);
      GatherNone(h, bs, c, i, 0, i);
      GatheredNothing(h, bs, c, i);
    }
  }

  /** Halving an even capacity: two old buckets come together, the higher one in front. */
  lemma HalvedBucket<K(!new), V(!new)>(h: K -> nat, t: Table<K, V>, c: nat, i: nat)
    requires WellFormed(h, t) && t.cap == 2 * c && i < c
    ensures Rebuilt(h, t, c).buckets[i] == t.buckets[i + c] + t.buckets[i]
  {
    RebuiltBucket(h, t, c, i);
    HalvedPicks(h, t, c, i);
    GatheredPair(h, t.buckets, c, i, t.cap);
  }
}
