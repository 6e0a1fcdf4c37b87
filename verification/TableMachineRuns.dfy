/** What the threads of the hash table can rely on, over every interleaving. */
module TableMachineRuns {
  import opened Common
  import opened TableSpec
  import opened TableOps
  import opened TableNumbers
  import opened TableMachine

  // ----- runs -----

  /** One step of a schedule: which thread steps, and the call it starts if it is idle. */
  datatype Choice<K, V> = Choice(thread: nat, call: Call<K, V>)

  ghost predicate Step<K(!new), V(!new)>(c: Config<K>, s: State<K, V>, choice: Choice<K, V>, s': State<K, V>) {
    CanStep(c, s, choice.thread) && s' == Fire(c, s, choice.thread, choice.call)
  }

  ghost predicate IsRun<K(!new), V(!new)>(c: Config<K>, run: seq<State<K, V>>, choices: seq<Choice<K, V>>) {
    && |run| == |choices| + 1 && Init(c, run[0])
    && forall n :: 0 <= n < |choices| ==> Step(c, run[n], choices[n], run[n + 1])
  }

  /** In every reachable state every pair is in its bucket, every held bucket index is right,
      and the pairs are those counted plus those of threads between their two updates. */
  lemma {:induction false} RunKeepsInv<K(!new), V(!new)>(
      c: Config<K>, run: seq<State<K, V>>, choices: seq<Choice<K, V>>)
    requires IsRun(c, run, choices)
    ensures Inv(c, run[|choices|])
  {
    if |choices| == 0 {
      InitInv(c, run[0]);
    } else {
      var n := |choices| - 1;
      RunKeepsInv(c, run[..n + 1], choices[..n]);
      assert Step(c, run[n], choices[n], run[n + 1]);
      StepKeepsInv(c, run[n], choices[n].thread, choices[n].call);
    }
  }

  // ----- the table as a bag -----

  /** For each key, a step appends one pair, takes the first one, or changes nothing; resizes
      by anyone at any time change nothing. */
  lemma StepOnPairs<K(!new), V(!new)>(c: Config<K>, s: State<K, V>, i: nat, call: Call<K, V>, k: K)
    requires Inv(c, s) && CanStep(c, s, i)
    requires Inv(c, Fire(c, s, i, call))
    ensures var s', pc := Fire(c, s, i, call), s.threads[i].pc;
            PairsOf(c.h, s'.table, k) ==
              if pc.InBucket? && pc.e.Insert? && pc.e.k == k then PairsOf(c.h, s.table, k) + [(k, pc.e.v)]
              else if pc.Discounted? && pc.e.k == k && PairsOf(c.h, s.table, k) != [] then PairsOf(c.h, s.table, k)[1..]
              else PairsOf(c.h, s.table, k)
    ensures s.threads[i].pc.Discounted? && s.threads[i].pc.e.k == k ==>
      && PairsOf(c.h, s.table, k) != []
      && Fire(c, s, i, call).threads[i].reply == Found(Some(PairsOf(c.h, s.table, k)[0].1))
  {
    if !Edits(s.threads[i].pc) {
      KeepsTable(c, s, i, call);
    } else {
      EditsOnPairs(c, s, i, call, k);
    }
  }

  lemma EditsOnPairs<K(!new), V(!new)>(c: Config<K>, s: State<K, V>, i: nat, call: Call<K, V>, k: K)
    requires Inv(c, s) && CanStep(c, s, i) && Edits(s.threads[i].pc)
    requires Inv(c, Fire(c, s, i, call))
    ensures var ps, ps', pc := PairsOf(c.h, s.table, k), PairsOf(c.h, Fire(c, s, i, call).table, k), s.threads[i].pc;
            && (pc.InBucket? && pc.e.Insert? && pc.e.k == k ==> ps' == ps + [(k, pc.e.v)])
            && (pc.Discounted? && pc.e.k == k ==>
                  ps != [] && ps' == ps[1..] && Fire(c, s, i, call).threads[i].reply == Found(Some(ps[0].1)))
            && (!(pc.InBucket? && pc.e.Insert? && pc.e.k == k) && !(pc.Discounted? && pc.e.k == k) ==> ps' == ps)
  {
    var t, pc := s.table, s.threads[i].pc;
    assert Knows(c.h, t, pc);
    match pc {
      case Rebuilding(e, v) =>
        ExactWhenExclusive(c, s);
        RebuildKeepsOrder(c.h, t, NewCap(v, t.cap), k);
      case InBucket(e, b) =>
        if e.Insert? {
          PairsAfterPush(t.buckets[b], (e.k, e.v), k);
        }
      case Appended(_, _) =>
      case Located(_, _, _) =>
      case Discounted(e, b, j) =>
        PairsAfterErase(t.buckets[b], e.k, k);
        LookupIsFirst(t.buckets[b], e.k);
    }
  }

  /** A lookup answers for the moment of its step: `get` returns the value of the key, or
      nothing, and the check of `insert` refuses exactly a key that is present. */
  lemma ReplyIsCurrent<K(!new), V(!new)>(c: Config<K>, s: State<K, V>, i: nat, call: Call<K, V>)
    requires Inv(c, s) && CanStep(c, s, i) && s.threads[i].pc.ReadingBucket?
    ensures var pc, t', now := s.threads[i].pc, Fire(c, s, i, call).threads[i], Get(c.h, s.table, s.threads[i].pc.k);
            && (pc.value == None ==> t'.pc == Idle && t'.reply == Found(now))
            && (pc.value.Some? && now.Some? ==> t'.pc == Idle && t'.reply == Added(false))
            && (pc.value.Some? && now == None ==> t'.pc == Entering(Insert(pc.k, pc.value.value)))
  {
    assert Knows(c.h, s.table, s.threads[i].pc);
  }

  /** A `remove` that finds nothing says so rightly. */
  lemma NothingToRemove<K(!new), V(!new)>(c: Config<K>, s: State<K, V>, i: nat, call: Call<K, V>)
    requires Inv(c, s) && CanStep(c, s, i) && s.threads[i].pc.InBucket? && s.threads[i].pc.e.Remove?
    ensures Fire(c, s, i, call).threads[i].pc.Leaving? <==> PairsOf(c.h, s.table, s.threads[i].pc.e.k) == []
    ensures Fire(c, s, i, call).threads[i].pc.Leaving? ==> Fire(c, s, i, call).threads[i].reply == Found(None)
  {
    assert Knows(c.h, s.table, s.threads[i].pc);
    LookupIsFirst(s.table.buckets[s.threads[i].pc.b], s.threads[i].pc.e.k);
  }

  /** The check repeated under the exclusive lock: the buckets are replaced only when the load of the
      true number of pairs demands it, by doubling or halving, and no pair is lost or reordered. A
      wrapped sum in the first check can at most cause a useless call. */
  lemma RebuildOnlyOnDemand<K(!new), V(!new)>(c: Config<K>, s: State<K, V>, i: nat, call: Call<K, V>, k: K)
    requires Inv(c, s) && CanStep(c, s, i)
    requires Fire(c, s, i, call).table.cap != s.table.cap
    ensures s.threads[i].pc.Rebuilding?
    ensures var n, cap, cap' := |Collect(s.table.buckets)|, s.table.cap, Fire(c, s, i, call).table.cap;
            var m := n + (if s.threads[i].pc.e.Insert? then 1 else -1);
            if cap' > cap then cap' == 2 * cap && n > 0 && (cap <= 4 || 4 * m >= 3 * cap)
            else cap <= 2 * cap' <= cap + 1 && cap > 4 && 0 < m && 10 * m <= cap
    ensures Fire(c, s, i, call).table.size == |Collect(s.table.buckets)|
    ensures PairsOf(c.h, Fire(c, s, i, call).table, k) == PairsOf(c.h, s.table, k)
  {
    StepKeepsInv(c, s, i, call);
    StepOnPairs(c, s, i, call, k);
    if Edits(s.threads[i].pc) {
      assert Knows(c.h, s.table, s.threads[i].pc);
      ExactWhenExclusive(c, s);
      RebuildKeepsPairs(c.h, s.table, NewCap(s.threads[i].pc.verdict, s.table.cap));
      OneResize(s.table.size, s.table.cap, Delta(s.threads[i].pc.e));
    } else {
      KeepsTable(c, s, i, call);
    }
  }

  /** The two reads of the first check can straddle a decrement: then the sum wraps, and a `remove` goes
      for a resize of a table that holds nothing. */
  lemma TornReadAsksResize<K(!new), V(!new)>(c: Config<K>, s: State<K, V>, i: nat, call: Call<K, V>)
    requires Inv(c, s) && CanStep(c, s, i) && s.threads[i].pc.Testing2? && s.table.cap < WORD
    requires s.threads[i].pc.e.Remove? && s.table.size == 0
    ensures Fire(c, s, i, call).threads[i].pc == Refused(s.threads[i].pc.e)
  {
    assert Knows(c.h, s.table, s.threads[i].pc);
  }

  /** In every reachable state every pair is in the bucket of its hash. */
  lemma PairsWhereHashed<K(!new), V(!new)>(
      c: Config<K>, run: seq<State<K, V>>, choices: seq<Choice<K, V>>, b: nat, j: nat)
    requires IsRun(c, run, choices)
    requires b < |run[|choices|].table.buckets| && j < |run[|choices|].table.buckets[b]|
    ensures var t := run[|choices|].table; t.cap > 0 && c.h(t.buckets[b][j].0) % t.cap == b
  {
    RunKeepsInv(c, run, choices);
    var t := run[|choices|].table;
    assert Index(c.h, t.buckets[b][j].0, t.cap) == b;
  }

  // ----- everyone removes what they pushed -----

  /** The key a thread is about to push, if any. */
  ghost function Pending<K, V>(pc: Pc<K, V>): Option<K> {
    match pc
    case Checking(k, v) => if v.Some? then Some(k) else None
    case Reading(k, v) => if v.Some? then Some(k) else None
    case ReadingBucket(k, v, _) => if v.Some? then Some(k) else None
    case Idle => None
    case Bounding(_) => None
    case Listing(_) => None
    case Selecting(_) => None
    case Copying(_) => None
    case Leaving(_) => None
    case Appended(_, _) => None
    case _ => if pc.e.Insert? then Some(pc.e.k) else None
  }

  /** Nobody inserts `k` after pushing it before calling its own `remove` for `k`. */
  ghost predicate Disciplined<K(!new), V(!new)>(s: State<K, V>, choice: Choice<K, V>, k: K) {
    choice.thread < |s.threads| ==>
      var t := s.threads[choice.thread];
      t.pc.Idle? && choice.call.CallInsert? && choice.call.k == k ==> k !in t.owed
  }

  ghost predicate DisciplinedRun<K(!new), V(!new)>(run: seq<State<K, V>>, choices: seq<Choice<K, V>>, k: K) {
    |run| == |choices| + 1 && forall n :: 0 <= n < |choices| ==> Disciplined(run[n], choices[n], k)
  }

  ghost predicate NoneOwesItsInsert<K(!new), V(!new)>(s: State<K, V>, k: K) {
    forall i :: 0 <= i < |s.threads| && Pending(s.threads[i].pc) == Some(k) ==> k !in s.threads[i].owed
  }

  ghost function Owes<K(!new), V(!new)>(k: K): Thread<K, V> -> nat {
    (t: Thread<K, V>) => if k in t.owed then 1 else 0
  }

  /** There are at most as many pairs with key `k` as threads that have pushed `k` and not yet
      removed it. */
  ghost predicate Covered<K(!new), V(!new)>(c: Config<K>, s: State<K, V>, k: K)
    requires 0 < s.table.cap <= |s.table.buckets|
  {
    |PairsOf(c.h, s.table, k)| <= Sum(s.threads, Owes(k))
  }

  lemma DisciplineKept<K(!new), V(!new)>(c: Config<K>, s: State<K, V>, choice: Choice<K, V>, k: K)
    requires CanStep(c, s, choice.thread) && NoneOwesItsInsert(s, k) && Disciplined(s, choice, k)
    ensures NoneOwesItsInsert(Fire(c, s, choice.thread, choice.call), k)
  {
    var i := choice.thread;
    var s' := Fire(c, s, i, choice.call);
    FireThreads(c, s, i, choice.call);
    StepperOwesNoInsert(c, s, choice, k);
    forall x | 0 <= x < |s'.threads| && x != i ensures s'.threads[x] == s.threads[x] {
    }
  }

  lemma StepperOwesNoInsert<K(!new), V(!new)>(c: Config<K>, s: State<K, V>, choice: Choice<K, V>, k: K)
    requires CanStep(c, s, choice.thread) && Disciplined(s, choice, k)
    requires Pending(s.threads[choice.thread].pc) == Some(k) ==> k !in s.threads[choice.thread].owed
    ensures var t := Fire(c, s, choice.thread, choice.call).threads[choice.thread];
            Pending(t.pc) == Some(k) ==> k !in t.owed
  {
  }

  lemma CoverKept<K(!new), V(!new)>(c: Config<K>, s: State<K, V>, i: nat, call: Call<K, V>, k: K)
    requires Inv(c, s) && CanStep(c, s, i) && NoneOwesItsInsert(s, k) && Covered(c, s, k)
    ensures Inv(c, Fire(c, s, i, call)) && Covered(c, Fire(c, s, i, call), k)
  {
    var s', t, pc := Fire(c, s, i, call), s.table, s.threads[i].pc;
    StepKeepsInv(c, s, i, call);
    StepOnPairs(c, s, i, call, k);
    FireThreads(c, s, i, call);
    SumUpdate(s.threads, i, s'.threads[i], Owes(k));
    if Edits(pc) {
      assert Knows(c.h, t, pc);
      if pc.InBucket? && pc.e.Remove? {
        LookupIsFirst(t.buckets[pc.b], pc.e.k);
      }
    } else {
      KeepsTable(c, s, i, call);
    }
  }

  lemma {:induction false} RunIsCovered<K(!new), V(!new)>(
      c: Config<K>, run: seq<State<K, V>>, choices: seq<Choice<K, V>>, k: K)
    requires IsRun(c, run, choices) && DisciplinedRun(run, choices, k)
    ensures Inv(c, run[|choices|]) && NoneOwesItsInsert(run[|choices|], k)
    ensures Covered(c, run[|choices|], k)
  {
    if |choices| == 0 {
      InitInv(c, run[0]);
    } else {
      var n := |choices| - 1;
      RunIsCovered(c, run[..n + 1], choices[..n], k);
      assert Step(c, run[n], choices[n], run[n + 1]) && Disciplined(run[n], choices[n], k);
      DisciplineKept(c, run[n], choices[n], k);
      CoverKept(c, run[n], choices[n].thread, choices[n].call, k);
    }
  }

  /** Despite the race between the check and the push of `insert`: when every thread that pushed
      `k` has called its `remove` for `k` before it inserted `k` again, no pair of `k` is left,
      whatever happens to other keys and whoever is still inside a call. */
  lemma KeyEndsEmpty<K(!new), V(!new)>(c: Config<K>, run: seq<State<K, V>>, choices: seq<Choice<K, V>>, k: K)
    requires IsRun(c, run, choices) && DisciplinedRun(run, choices, k)
    requires forall i :: 0 <= i < |run[|choices|].threads| ==> k !in run[|choices|].threads[i].owed
    ensures Inv(c, run[|choices|]) && PairsOf(c.h, run[|choices|].table, k) == []
    ensures Get(c.h, run[|choices|].table, k) == None
  {
    RunIsCovered(c, run, choices, k);
    SumZero(run[|choices|].threads, Owes(k));
    GetIsFirst(c.h, run[|choices|].table, k);
  }

  ghost predicate AllDone<K, V>(s: State<K, V>) {
    forall i :: 0 <= i < |s.threads| ==> s.threads[i].pc == Idle && s.threads[i].owed == {}
  }

  /** When all threads keep to this for all keys, the table is empty in the end and `_size` 0. */
  lemma EndsEmpty<K(!new), V(!new)>(c: Config<K>, run: seq<State<K, V>>, choices: seq<Choice<K, V>>)
    requires IsRun(c, run, choices) && forall k :: DisciplinedRun(run, choices, k)
    requires AllDone(run[|choices|])
    ensures Collect(run[|choices|].table.buckets) == [] && run[|choices|].table.size == 0
  {
    var s := run[|choices|];
    var all := Collect(s.table.buckets);
    RunKeepsInv(c, run, choices);
    if all != [] {
      var k := all[0].0;
      KeyEndsEmpty(c, run, choices, k);
      OfCollect(c.h, s.table.buckets, s.table.cap, k);
      LookupIsFirst(all, k);
      assert false;
    }
  }

  // ----- the load -----

  /** Inserts that have passed the check and not yet counted their pair. */
  function Committed<K, V>(t: Thread<K, V>): nat {
    if (t.pc.Admitted? || t.pc.Hashed? || t.pc.InBucket? || t.pc.Appended?) && t.pc.e.Insert? then 1 else 0
  }

  ghost predicate Bounded<K, V>(c: Config<K>, s: State<K, V>) {
    s.table.cap >= 2 && 4 * (s.table.size + Sum(s.threads, Committed)) < 3 * s.table.cap + 4 * (c.threads - 1)
  }

  lemma BoundKept<K(!new), V(!new)>(c: Config<K>, s: State<K, V>, i: nat, call: Call<K, V>)
    requires c.resizable && Inv(c, s) && CanStep(c, s, i) && Bounded(c, s)
    ensures Bounded(c, Fire(c, s, i, call))
  {
    var s', t, pc := Fire(c, s, i, call), s.table, s.threads[i].pc;
    FireThreads(c, s, i, call);
    SumUpdate(s.threads, i, s'.threads[i], Committed);
    SumAtMostLength(s'.threads, Committed);
    assert Knows(c.h, t, pc);
    match pc {
      case Rebuilding(_, _) => RebuildBound(c, s, i, call);
      case Located(_, _, _) => SizePositiveAtDiscount(c, s, i);
      case _ => CommittedOnlyByTest(c, s, i, call);
    }
  }

  lemma RebuildBound<K(!new), V(!new)>(c: Config<K>, s: State<K, V>, i: nat, call: Call<K, V>)
    requires Inv(c, s) && CanStep(c, s, i) && Bounded(c, s) && s.threads[i].pc.Rebuilding?
    ensures var s' := Fire(c, s, i, call);
            && Sum(s.threads, Committed) == 0 && s'.table.cap >= 2
            && 4 * s'.table.size < 3 * s'.table.cap + 4 * (c.threads - 1)
  {
    var t, v := s.table, s.threads[i].pc.verdict;
    assert Knows(c.h, t, s.threads[i].pc);
    ExactWhenExclusive(c, s);
    RebuildKeepsPairs(c.h, t, NewCap(v, t.cap));
    forall x | 0 <= x < |s.threads| ensures Committed(s.threads[x]) == 0 {
      assert x !in s.sharers;
    }
    SumZero(s.threads, Committed);
  }

  /** Apart from the two tests, a step commits nobody and adds nothing to size and commitments. */
  lemma CommittedOnlyByTest<K(!new), V(!new)>(c: Config<K>, s: State<K, V>, i: nat, call: Call<K, V>)
    requires c.resizable && CanStep(c, s, i) && Knows(c.h, s.table, s.threads[i].pc)
    requires !s.threads[i].pc.Rebuilding? && !s.threads[i].pc.Located?
    ensures var s' := Fire(c, s, i, call);
            && s'.table.cap == s.table.cap
            && (s'.table.size + Committed(s'.threads[i]) <= s.table.size + Committed(s.threads[i])
                || (s'.table.size == s.table.size && (s.table.size == 0 || 4 * (s.table.size + 1) < 3 * s.table.cap)))
  {
  }

  lemma {:induction false} RunIsBounded<K(!new), V(!new)>(
      c: Config<K>, run: seq<State<K, V>>, choices: seq<Choice<K, V>>)
    requires c.resizable && c.cap >= 2 && IsRun(c, run, choices)
    ensures Inv(c, run[|choices|]) && Bounded(c, run[|choices|])
  {
    if |choices| == 0 {
      InitInv(c, run[0]);
      SumZero(run[0].threads, Committed);
    } else {
      var n := |choices| - 1;
      RunIsBounded(c, run[..n + 1], choices[..n]);
      assert Step(c, run[n], choices[n], run[n + 1]);
      BoundKept(c, run[n], choices[n].thread, choices[n].call);
      StepKeepsInv(c, run[n], choices[n].thread, choices[n].call);
    }
  }

  /** With T threads the load exceeds 3/4 by less than T entries, in every reachable state. */
  lemma ConcurrentLoadBound<K(!new), V(!new)>(c: Config<K>, run: seq<State<K, V>>, choices: seq<Choice<K, V>>)
    requires c.resizable && c.cap >= 2 && IsRun(c, run, choices)
    ensures 4 * run[|choices|].table.size < 3 * run[|choices|].table.cap + 4 * (c.threads - 1)
  {
    RunIsBounded(c, run, choices);
  }

  // ----- no deadlock -----

  /** While some call is unfinished, the thread of some unfinished call can step. */
  lemma NoDeadlock<K(!new), V(!new)>(c: Config<K>, s: State<K, V>, busy: nat) returns (i: nat)
    requires Inv(c, s) && busy < |s.threads| && !s.threads[busy].pc.Idle?
    ensures i < |s.threads| && !s.threads[i].pc.Idle? && CanStep(c, s, i)
  {
    i := busy;
    assert Knows(c.h, s.table, s.threads[i].pc);
    if !CanStep(c, s, i) && s.writer.Some? {
      i := s.writer.value;
    } else if !CanStep(c, s, i) && s.threads[i].pc.Expelled? {
      i :| i in s.sharers;
    }
    assert Knows(c.h, s.table, s.threads[i].pc);
    if !CanStep(c, s, i) {
      var b := if s.threads[i].pc.Reading? then Index(c.h, s.threads[i].pc.k, s.table.cap) else s.threads[i].pc.b;
      if s.owners[b].Some? {
        assert OwnerRight(s, b, s.owners[b].value);
        i := s.owners[b].value;
      } else {
        var r :| r in s.readers[b];
        assert ReaderRight(s, b, r);
        i := r;
      }
      assert Knows(c.h, s.table, s.threads[i].pc);
    }
  }
}
