/** A thread that is alone in the step machine does what the sequential operations do. */
module TableSolo {
  import opened Common
  import opened TableSpec
  import opened TableOps
  import opened TableMachine

  ghost predicate Alone<K(!new), V(!new)>(c: Config<K>, s: State<K, V>, i: nat) {
    Inv(c, s) && i < |s.threads| && forall x :: 0 <= x < |s.threads| && x != i ==> s.threads[x].pc.Idle?
  }

  /** Thread `i`, alone and idle at `s0`, starts `call` and is in it at `s` after `n` steps. */
  ghost predicate Leads<K(!new), V(!new)>(
      c: Config<K>, i: nat, call: Call<K, V>, s0: State<K, V>, n: nat, s: State<K, V>)
    decreases n, 0
  {
    if n == 0 then
      s0 == s && Alone(c, s, i) && s.threads[i].pc.Idle?
    else
      exists p :: LeadsVia(c, i, call, s0, n, p, s)
  }

  ghost predicate LeadsVia<K(!new), V(!new)>(
      c: Config<K>, i: nat, call: Call<K, V>, s0: State<K, V>, n: nat, p: State<K, V>, s: State<K, V>)
    requires n > 0
    decreases n - 1, 1
  {
    && Leads(c, i, call, s0, n - 1, p) && CanStep(c, p, i) && s == Fire(c, p, i, call)
    && (n > 1 ==> !p.threads[i].pc.Idle?)
  }

  ghost predicate Gets<K(!new), V(!new)>(c: Config<K>, i: nat, call: Call<K, V>, s0: State<K, V>, s: State<K, V>) {
    i < |s.threads| && exists n: nat :: n > 0 && Leads(c, i, call, s0, n, s)
  }

  lemma BucketFree<K(!new), V(!new)>(c: Config<K>, s: State<K, V>, i: nat, b: nat)
    requires Alone(c, s, i) && b < |s.owners|
    requires (s.threads[i].pc.Reading? || s.threads[i].pc.Selecting? || s.threads[i].pc.Hashed?)
    ensures s.owners[b] == None && s.readers[b] == {}
  {
    assert s.owners[b].Some? ==> OwnerRight(s, b, s.owners[b].value);
    forall x: nat ensures x !in s.readers[b] {
      assert ReaderRight(s, b, x);
    }
  }

  /** A thread that is alone is never blocked. */
  lemma SoloCanStep<K(!new), V(!new)>(c: Config<K>, s: State<K, V>, i: nat)
    requires Alone(c, s, i)
    ensures CanStep(c, s, i)
  {
    assert Knows(c.h, s.table, s.threads[i].pc);
    if s.threads[i].pc.Reading? {
      BucketFree(c, s, i, Index(c.h, s.threads[i].pc.k, s.table.cap));
    } else if s.threads[i].pc.Hashed? || (s.threads[i].pc.Selecting? && s.threads[i].pc.b < |s.owners|) {
      BucketFree(c, s, i, s.threads[i].pc.b);
    }
  }

  /** With nobody in a call, `_size` is the number of pairs. */
  lemma QuietWellFormed<K(!new), V(!new)>(c: Config<K>, s: State<K, V>, i: nat)
    requires Alone(c, s, i) && s.threads[i].pc.Idle?
    ensures WellFormed(c.h, s.table)
  {
    SumZero(s.threads, Uncounted);
  }

  lemma {:induction false} StaysAlone<K(!new), V(!new)>(
      c: Config<K>, i: nat, call: Call<K, V>, s0: State<K, V>, n: nat, s: State<K, V>)
    requires Leads(c, i, call, s0, n, s)
    ensures Alone(c, s, i)
  {
    if n == 0 {
    } else {
      var p :| LeadsVia(c, i, call, s0, n, p, s);
      StaysAlone(c, i, call, s0, n - 1, p);
      StepKeepsInv(c, p, i, call);
      FireThreads(c, p, i, call);
    }
  }

  lemma Start<K(!new), V(!new)>(c: Config<K>, i: nat, call: Call<K, V>, s: State<K, V>) returns (s': State<K, V>)
    requires Alone(c, s, i) && s.threads[i].pc.Idle?
    ensures CanStep(c, s, i) && s' == Fire(c, s, i, call) && Gets(c, i, call, s, s')
  {
    s' := Fire(c, s, i, call);
    assert Leads(c, i, call, s, 0, s);
    assert LeadsVia(c, i, call, s, 1, s, s');
    assert Leads(c, i, call, s, 1, s');
  }

  lemma Go<K(!new), V(!new)>(c: Config<K>, i: nat, call: Call<K, V>, s0: State<K, V>, s: State<K, V>)
    returns (s': State<K, V>)
    requires Gets(c, i, call, s0, s) && !s.threads[i].pc.Idle?
    ensures Alone(c, s, i) && CanStep(c, s, i) && s' == Fire(c, s, i, call) && Gets(c, i, call, s0, s')
  {
    var n: nat :| n > 0 && Leads(c, i, call, s0, n, s);
    StaysAlone(c, i, call, s0, n, s);
    SoloCanStep(c, s, i);
    s' := Fire(c, s, i, call);
    assert LeadsVia(c, i, call, s0, n + 1, s, s');
    assert Leads(c, i, call, s0, n + 1, s');
  }

  // ----- the stages of a call, a step or two each -----

  lemma Enter<K(!new), V(!new)>(c: Config<K>, i: nat, call: Call<K, V>, s0: State<K, V>, s: State<K, V>)
    returns (s': State<K, V>)
    requires Gets(c, i, call, s0, s) && s.threads[i].pc.Entering?
    ensures Gets(c, i, call, s0, s') && s'.table == s.table
    ensures var e := s.threads[i].pc.e; s'.threads[i].pc == if c.resizable then Testing(e) else Admitted(e)
  {
    s' := Go(c, i, call, s0, s);
  }

  lemma Test<K(!new), V(!new)>(c: Config<K>, i: nat, call: Call<K, V>, s0: State<K, V>, s: State<K, V>)
    returns (s': State<K, V>)
    requires Gets(c, i, call, s0, s) && s.threads[i].pc.Testing? && s.table.cap > 0
    ensures Gets(c, i, call, s0, s') && s'.table == s.table
    ensures var e := s.threads[i].pc.e;
            s'.threads[i].pc == if Policy(s.table.size, s.table.cap, Delta(e)) == Keep then Admitted(e) else Refused(e)
  {
    s' := Go(c, i, call, s0, s);
    if s'.threads[i].pc.Testing2? {
      s' := Go(c, i, call, s0, s');
    }
  }

  lemma Expel<K(!new), V(!new)>(c: Config<K>, i: nat, call: Call<K, V>, s0: State<K, V>, s: State<K, V>)
    returns (s': State<K, V>)
    requires Gets(c, i, call, s0, s) && s.threads[i].pc.Refused?
    ensures Gets(c, i, call, s0, s') && s'.table == s.table
    ensures s'.threads[i].pc == Deciding(s.threads[i].pc.e)
  {
    s' := Go(c, i, call, s0, s);
    s' := Go(c, i, call, s0, s');
  }

  lemma Decide<K(!new), V(!new)>(c: Config<K>, i: nat, call: Call<K, V>, s0: State<K, V>, s: State<K, V>)
    returns (s': State<K, V>)
    requires Gets(c, i, call, s0, s) && s.threads[i].pc.Deciding? && s.table.cap > 0
    requires Policy(s.table.size, s.table.cap, Delta(s.threads[i].pc.e)) != Keep
    ensures Gets(c, i, call, s0, s') && s'.table == s.table
    ensures var e := s.threads[i].pc.e; s'.threads[i].pc == Rebuilding(e, Policy(s.table.size, s.table.cap, Delta(e)))
  {
    s' := Go(c, i, call, s0, s);
    if s'.threads[i].pc.Deciding2? {
      s' := Go(c, i, call, s0, s');
    }
  }

  lemma Rebuild<K(!new), V(!new)>(c: Config<K>, i: nat, call: Call<K, V>, s0: State<K, V>, s: State<K, V>)
    returns (s': State<K, V>)
    requires Gets(c, i, call, s0, s) && s.threads[i].pc.Rebuilding?
    requires 0 < s.table.cap <= |s.table.buckets|
    ensures Gets(c, i, call, s0, s')
    ensures s'.threads[i].pc == Entering(s.threads[i].pc.e)
    ensures s'.table == Rebuilt(c.h, s.table, NewCap(s.threads[i].pc.verdict, s.table.cap))
  {
    s' := Go(c, i, call, s0, s);
  }

  /** One call of `resize`, from the refusal to the next attempt to enter. */
  lemma ResizeOnce<K(!new), V(!new)>(c: Config<K>, i: nat, call: Call<K, V>, s0: State<K, V>, s: State<K, V>)
    returns (s': State<K, V>)
    requires Gets(c, i, call, s0, s) && s.threads[i].pc.Refused?
    requires 0 < s.table.cap <= |s.table.buckets|
    requires Policy(s.table.size, s.table.cap, Delta(s.threads[i].pc.e)) != Keep
    ensures Gets(c, i, call, s0, s')
    ensures var e := s.threads[i].pc.e;
            s'.threads[i].pc == Entering(e) && s'.table == Resized(c.h, s.table, Delta(e))
  {
    var s1 := Expel(c, i, call, s0, s);
    var s2 := Decide(c, i, call, s0, s1);
    s' := Rebuild(c, i, call, s0, s2);
  }

  /** The retry loop prepares the table as the sequential operation does. */
  lemma {:induction false} Prepare<K(!new), V(!new)>(
      c: Config<K>, i: nat, call: Call<K, V>, s0: State<K, V>, s: State<K, V>)
    returns (s': State<K, V>)
    requires Gets(c, i, call, s0, s) && s.threads[i].pc.Entering? && WellFormed(c.h, s.table)
    ensures Gets(c, i, call, s0, s')
    ensures var e := s.threads[i].pc.e;
            s'.threads[i].pc == Admitted(e) && s'.table == Prepared(c.h, s.table, c.resizable, Delta(e))
    decreases Measure(s.table.size, s.table.cap)
  {
    var e, t := s.threads[i].pc.e, s.table;
    s' := Enter(c, i, call, s0, s);
    if c.resizable {
      s' := Test(c, i, call, s0, s');
      if s'.threads[i].pc.Refused? {
        s' := ResizeOnce(c, i, call, s0, s');
        RebuildKeepsPairs(c.h, t, NewCap(Policy(t.size, t.cap, Delta(e)), t.cap));
        ResizeLowersMeasure(t.size, t.cap, Delta(e));
        s' := Prepare(c, i, call, s0, s');
      }
    }
  }

  lemma LockBucket<K(!new), V(!new)>(c: Config<K>, i: nat, call: Call<K, V>, s0: State<K, V>, s: State<K, V>)
    returns (s': State<K, V>)
    requires Gets(c, i, call, s0, s) && s.threads[i].pc.Admitted? && s.table.cap > 0
    ensures Gets(c, i, call, s0, s') && s'.table == s.table
    ensures s'.threads[i].pc == InBucket(s.threads[i].pc.e, Index(c.h, s.threads[i].pc.e.k, s.table.cap))
  {
    s' := Go(c, i, call, s0, s);
    s' := Go(c, i, call, s0, s');
  }

  lemma PushAndCount<K(!new), V(!new)>(c: Config<K>, i: nat, call: Call<K, V>, s0: State<K, V>, s: State<K, V>)
    returns (s': State<K, V>)
    requires Gets(c, i, call, s0, s) && s.threads[i].pc.InBucket? && s.threads[i].pc.e.Insert?
    requires WellFormed(c.h, s.table) && s.threads[i].pc.b == Index(c.h, s.threads[i].pc.e.k, s.table.cap)
    ensures Gets(c, i, call, s0, s') && s'.threads[i].pc.Leaving?
    ensures s'.table == Pushed(c.h, s.table, s.threads[i].pc.e.k, s.threads[i].pc.e.v)
    ensures s'.threads[i].reply == Added(true)
  {
    s' := Go(c, i, call, s0, s);
    s' := Go(c, i, call, s0, s');
  }

  lemma Locate<K(!new), V(!new)>(c: Config<K>, i: nat, call: Call<K, V>, s0: State<K, V>, s: State<K, V>)
    returns (s': State<K, V>)
    requires Gets(c, i, call, s0, s) && s.threads[i].pc.InBucket? && s.threads[i].pc.e.Remove?
    requires WellFormed(c.h, s.table) && s.threads[i].pc.b == Index(c.h, s.threads[i].pc.e.k, s.table.cap)
    ensures Gets(c, i, call, s0, s') && s'.table == s.table
    ensures var e, b := s.threads[i].pc.e, s.threads[i].pc.b;
            if Get(c.h, s.table, e.k).Some? then
              s'.threads[i].pc == Located(e, b, Find(s.table.buckets[b], e.k))
            else
              s'.threads[i].pc.Leaving? && s'.threads[i].reply == Found(None)
  {
    s' := Go(c, i, call, s0, s);
  }

  lemma DiscountAndErase<K(!new), V(!new)>(c: Config<K>, i: nat, call: Call<K, V>, s0: State<K, V>, s: State<K, V>)
    returns (s': State<K, V>)
    requires Gets(c, i, call, s0, s) && s.threads[i].pc.Located? && WellFormed(c.h, s.table)
    ensures Gets(c, i, call, s0, s') && s'.threads[i].pc.Leaving?
    ensures s'.table == Erased(c.h, s.table, s.threads[i].pc.e.k)
    ensures s'.threads[i].reply == Found(Get(c.h, s.table, s.threads[i].pc.e.k))
  {
    s' := Go(c, i, call, s0, s);
    assert Knows(c.h, s.table, s.threads[i].pc);
    SizePositiveAtDiscount(c, s, i);
    s' := Go(c, i, call, s0, s');
  }

  lemma Leave<K(!new), V(!new)>(c: Config<K>, i: nat, call: Call<K, V>, s0: State<K, V>, s: State<K, V>)
    returns (s': State<K, V>)
    requires Gets(c, i, call, s0, s) && s.threads[i].pc.Leaving?
    ensures Gets(c, i, call, s0, s') && s'.table == s.table
    ensures s'.threads[i].pc.Idle? && s'.threads[i].reply == s.threads[i].reply
  {
    s' := Go(c, i, call, s0, s);
  }

  lemma StartCheck<K(!new), V(!new)>(c: Config<K>, i: nat, call: Call<K, V>, s: State<K, V>) returns (s': State<K, V>)
    requires Alone(c, s, i) && s.threads[i].pc.Idle? && (call.CallGet? || call.CallInsert?)
    ensures Gets(c, i, call, s, s') && s'.table == s.table
    ensures s'.threads[i].pc == Reading(call.k, if call.CallInsert? then Some(call.v) else None)
  {
    s' := Start(c, i, call, s);
    s' := Go(c, i, call, s, s');
  }

  lemma FinishCheck<K(!new), V(!new)>(c: Config<K>, i: nat, call: Call<K, V>, s0: State<K, V>, s: State<K, V>)
    returns (s': State<K, V>)
    requires Gets(c, i, call, s0, s) && s.threads[i].pc.Reading?
    requires 0 < s.table.cap <= |s.table.buckets|
    ensures Gets(c, i, call, s0, s') && s'.table == s.table
    ensures var pc, t', now := s.threads[i].pc, s'.threads[i], Get(c.h, s.table, s.threads[i].pc.k);
            && (pc.value == None ==> t'.pc.Idle? && t'.reply == Found(now))
            && (pc.value.Some? && now.Some? ==> t'.pc.Idle? && t'.reply == Added(false))
            && (pc.value.Some? && now == None ==> t'.pc == Entering(Insert(pc.k, pc.value.value)))
  {
    s' := Go(c, i, call, s0, s);
    s' := Go(c, i, call, s0, s');
  }

  lemma Bound<K(!new), V(!new)>(c: Config<K>, i: nat, b: nat, s: State<K, V>) returns (s': State<K, V>)
    requires Alone(c, s, i) && s.threads[i].pc.Idle?
    ensures Gets(c, i, CallGetBucket(b), s, s') && s'.table == s.table
    ensures if b < s.table.cap then s'.threads[i].pc == Listing(b)
            else s'.threads[i].pc.Idle? && s'.threads[i].reply == Listed(None)
  {
    s' := Start(c, i, CallGetBucket(b), s);
    s' := Go(c, i, CallGetBucket(b), s, s');
  }

  lemma Select<K(!new), V(!new)>(c: Config<K>, i: nat, call: Call<K, V>, s0: State<K, V>, s: State<K, V>)
    returns (s': State<K, V>)
    requires Gets(c, i, call, s0, s) && s.threads[i].pc.Listing? && s.threads[i].pc.b < s.table.cap
    ensures Gets(c, i, call, s0, s') && s'.table == s.table
    ensures s'.threads[i].pc == Copying(s.threads[i].pc.b)
  {
    s' := Go(c, i, call, s0, s);
    s' := Go(c, i, call, s0, s');
  }

  // ----- whole calls -----

  /** Thread `i`, alone and idle at `s`, finishes `call` with table `t` and reply `r`. */
  ghost predicate Yields<K(!new), V(!new)>(
      c: Config<K>, s: State<K, V>, i: nat, call: Call<K, V>, t: Table<K, V>, r: Reply<K, V>)
  {
    exists s' ::
      Gets(c, i, call, s, s') && s'.table == t && s'.threads[i].pc.Idle? && s'.threads[i].reply == r
  }

  /** `get` alone: the answer of the table value, which stays. */
  lemma SoloGet<K(!new), V(!new)>(c: Config<K>, s: State<K, V>, i: nat, k: K)
    requires Alone(c, s, i) && s.threads[i].pc.Idle?
    ensures Yields(c, s, i, CallGet(k), s.table, Found(Get(c.h, s.table, k)))
  {
    var s1 := StartCheck(c, i, CallGet(k), s);
    var s2 := FinishCheck(c, i, CallGet(k), s, s1);
  }

  /** The lookup of a bucket alone: a copy of the bucket, or nothing when the number is too large. */
  lemma SoloGetBucket<K(!new), V(!new)>(c: Config<K>, s: State<K, V>, i: nat, b: nat)
    requires Alone(c, s, i) && s.threads[i].pc.Idle?
    ensures Yields(c, s, i, CallGetBucket(b), s.table,
                   Listed(if b < s.table.cap then Some(s.table.buckets[b]) else None))
  {
    var s1 := Bound(c, i, b, s);
    if b < s.table.cap {
      var s2 := Select(c, i, CallGetBucket(b), s, s1);
      var s3 := Go(c, i, CallGetBucket(b), s, s2);
    }
  }

  /** `insert` alone: the steps end in the table of the sequential insert, with its answer. */
  lemma SoloInsert<K(!new), V(!new)>(c: Config<K>, s: State<K, V>, i: nat, k: K, v: V)
    requires Alone(c, s, i) && s.threads[i].pc.Idle? && WellFormed(c.h, s.table)
    ensures Yields(c, s, i, CallInsert(k, v),
                   Inserted(c.h, s.table, c.resizable, k, v), Added(Get(c.h, s.table, k) == None))
  {
    var call := CallInsert(k, v);
    var s1 := StartCheck(c, i, call, s);
    var s2 := FinishCheck(c, i, call, s, s1);
    if !s2.threads[i].pc.Idle? {
      CommitInsert(c, i, call, s, s2);
    }
  }

  lemma CommitInsert<K(!new), V(!new)>(c: Config<K>, i: nat, call: Call<K, V>, s0: State<K, V>, s: State<K, V>)
    requires Gets(c, i, call, s0, s) && WellFormed(c.h, s.table)
    requires s.threads[i].pc.Entering? && s.threads[i].pc.e.Insert?
    ensures var e := s.threads[i].pc.e;
            Yields(c, s0, i, call, Pushed(c.h, Prepared(c.h, s.table, c.resizable, 1), e.k, e.v), Added(true))
  {
    var s1 := Prepare(c, i, call, s0, s);
    var s2 := LockBucket(c, i, call, s0, s1);
    var s3 := PushAndCount(c, i, call, s0, s2);
    var s4 := Leave(c, i, call, s0, s3);
  }

  /** `remove` alone: the steps end in the table of the sequential remove, with its answer. */
  lemma SoloRemove<K(!new), V(!new)>(c: Config<K>, s: State<K, V>, i: nat, k: K)
    requires Alone(c, s, i) && s.threads[i].pc.Idle? && WellFormed(c.h, s.table)
    ensures Yields(c, s, i, CallRemove(k), Removed(c.h, s.table, c.resizable, k), Found(Get(c.h, s.table, k)))
  {
    var s1 := Start(c, i, CallRemove(k), s);
    CommitRemove(c, i, CallRemove(k), s, s1);
    var t := Prepared(c.h, s.table, c.resizable, -1);
    PreparedKeepsOrder(c.h, s.table, c.resizable, -1, k);
    GetIsFirst(c.h, s.table, k);
    GetIsFirst(c.h, t, k);
  }

  lemma CommitRemove<K(!new), V(!new)>(c: Config<K>, i: nat, call: Call<K, V>, s0: State<K, V>, s: State<K, V>)
    requires Gets(c, i, call, s0, s) && WellFormed(c.h, s.table)
    requires s.threads[i].pc.Entering? && s.threads[i].pc.e.Remove?
    ensures var e, t := s.threads[i].pc.e, Prepared(c.h, s.table, c.resizable, -1);
            Yields(c, s0, i, call, if Get(c.h, t, e.k) == None then t else Erased(c.h, t, e.k), Found(Get(c.h, t, e.k)))
  {
    var s1 := Prepare(c, i, call, s0, s);
    var s2 := LockBucket(c, i, call, s0, s1);
    var s3 := Locate(c, i, call, s0, s2);
    if s3.threads[i].pc.Located? {
      s3 := DiscountAndErase(c, i, call, s0, s3);
    }
    var s4 := Leave(c, i, call, s0, s3);
  }
}
