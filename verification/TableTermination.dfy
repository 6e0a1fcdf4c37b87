/** The retry loops end under any interleaving: without new calls, every schedule of the table's
    threads is finite, and when it stops all calls have returned. */
module TableTermination {
  import opened Common
  import opened TableSpec
  import opened TableOps
  import opened TableMachine
  import opened TableMachineRuns

  /** 1 while the thread's call may still change `_size`. */
  function Updates<K, V>(t: Thread<K, V>): nat {
    match t.pc
    case Idle => 0
    case Bounding(_) => 0
    case Listing(_) => 0
    case Selecting(_) => 0
    case Copying(_) => 0
    case Checking(_, v) => if v == None then 0 else 1
    case Reading(_, v) => if v == None then 0 else 1
    case ReadingBucket(_, v, _) => if v == None then 0 else 1
    case Discounted(_, _, _) => 0
    case Leaving(_) => 0
    case _ => 1
  }

  /** How far a thread is from its return or from a rebuild while `_size` and `_capacity` stay.
      A refusal that the policy no longer supports leads once around the retry loop. */
  function RankOfPc<K, V>(size: nat, cap: nat, pc: Pc<K, V>): nat {
    match pc
    case Idle => 0
    case Leaving(_) => 1
    case Discounted(_, _, _) => 2
    case Located(_, _, _) => 3
    case Appended(_, _) => 3
    case InBucket(_, _) => 4
    case Hashed(_, _) => 5
    case Admitted(_) => 6
    case Rebuilding(_, _) => 7
    case Deciding2(e, _) => if Policy(size, cap, Delta(e)) != Keep then 8 else 15
    case Deciding(e) => if Policy(size, cap, Delta(e)) != Keep then 9 else 16
    case Expelled(e) => if Policy(size, cap, Delta(e)) != Keep then 10 else 17
    case Refused(e) => if Policy(size, cap, Delta(e)) != Keep then 11 else 18
    case Testing2(_, first) => if first == size then 12 else 19
    case Copying(_) => 1
    case Selecting(_) => 2
    case Listing(_) => 3
    case Bounding(_) => 4
    case Testing(_) => 13
    case Entering(_) => 14
    case ReadingBucket(_, _, _) => 20
    case Reading(_, _) => 21
    case Checking(_, _) => 22
  }

  ghost function RankOf<K(!new), V(!new)>(t: Table<K, V>): Thread<K, V> -> nat {
    (thread: Thread<K, V>) => RankOfPc(t.size, t.cap, thread.pc)
  }

  ghost function UpdatesLeft<K, V>(s: State<K, V>): nat {
    Sum(s.threads, Updates)
  }

  ghost function ResizesLeft<K, V>(s: State<K, V>): nat {
    Measure(s.table.size, s.table.cap)
  }

  ghost function StepsLeft<K(!new), V(!new)>(s: State<K, V>): nat {
    Sum(s.threads, RankOf(s.table))
  }

  /** The termination measure: updates first, then resizes, then steps. */
  ghost function Left<K(!new), V(!new)>(s: State<K, V>): Rank {
    Rank(0, UpdatesLeft(s), ResizesLeft(s), StepsLeft(s))
  }

  /** A step inside a call is the thread's last update of `_size`, a rebuild, or a step closer to
      one of these or to the return. */
  lemma StepperAdvances<K(!new), V(!new)>(c: Config<K>, s: State<K, V>, i: nat, call: Call<K, V>)
    requires CanStep(c, s, i) && 0 < s.table.cap <= |s.table.buckets| && Knows(c.h, s.table, s.threads[i].pc)
    requires !s.threads[i].pc.Idle? && !s.threads[i].pc.Rebuilding?
    ensures var s' := Fire(c, s, i, call);
            || Updates(s'.threads[i]) < Updates(s.threads[i])
            || (Updates(s'.threads[i]) == Updates(s.threads[i])
                && s'.table.size == s.table.size && s'.table.cap == s.table.cap
                && RankOf(s.table)(s'.threads[i]) < RankOf(s.table)(s.threads[i]))
  {
  }

  /** Every step of an unfinished call lowers the measure. */
  lemma StepLowers<K(!new), V(!new)>(c: Config<K>, s: State<K, V>, i: nat, call: Call<K, V>)
    requires Inv(c, s) && CanStep(c, s, i) && !s.threads[i].pc.Idle?
    ensures Below(Left(Fire(c, s, i, call)), Left(s))
  {
    var s', t := Fire(c, s, i, call), s.table;
    var pc := s.threads[i].pc;
    FireThreads(c, s, i, call);
    SumUpdate(s.threads, i, s'.threads[i], Updates);
    assert Knows(c.h, t, pc);
    if pc.Rebuilding? {
      ExactWhenExclusive(c, s);
      RebuildKeepsPairs(c.h, t, NewCap(pc.verdict, t.cap));
      ResizeLowersMeasure(t.size, t.cap, Delta(pc.e));
    } else {
      StepperAdvances(c, s, i, call);
      SumUpdate(s.threads, i, s'.threads[i], RankOf(t));
      if Updates(s'.threads[i]) == Updates(s.threads[i]) {
        SumSameWeights(s'.threads, RankOf(s'.table), RankOf(t));
      }
    }
  }

  /** The chosen thread is inside a call and makes its step. */
  ghost predicate Works<K(!new), V(!new)>(c: Config<K>, s: State<K, V>, choice: Choice<K, V>, s': State<K, V>) {
    Step(c, s, choice, s') && !s.threads[choice.thread].pc.Idle?
  }

  lemma WorkLowers<K(!new), V(!new)>(c: Config<K>, s: State<K, V>, choice: Choice<K, V>, s': State<K, V>)
    requires Inv(c, s) && Works(c, s, choice, s')
    ensures Inv(c, s') && Below(Left(s'), Left(s))
  {
    StepLowers(c, s, choice.thread, choice.call);
    StepKeepsInv(c, s, choice.thread, choice.call);
  }

  ghost predicate WorksAt<K(!new), V(!new)>(
      c: Config<K>, states: nat -> State<K, V>, choices: nat -> Choice<K, V>, k: nat) {
    Inv(c, states(k)) && Works(c, states(k), choices(k), states(k + 1))
  }

  lemma WorkLowersAt<K(!new), V(!new)>(
      c: Config<K>, states: nat -> State<K, V>, choices: nat -> Choice<K, V>, k: nat)
    requires WorksAt(c, states, choices, k)
    ensures Inv(c, states(k + 1)) && Below(Left(states(k + 1)), Left(states(k)))
  {
    WorkLowers(c, states(k), choices(k), states(k + 1));
  }

  /** No schedule without new calls goes on for ever. */
  lemma SchedulesAreFinite<K(!new), V(!new)>(
      c: Config<K>, states: nat -> State<K, V>, choices: nat -> Choice<K, V>) returns (n: nat)
    requires Inv(c, states(0))
    ensures Inv(c, states(n)) && !Works(c, states(n), choices(n), states(n + 1))
  {
    var works := (k: nat) => WorksAt(c, states, choices, k);
    var e := (k: nat) => Left(states(k));
    forall k: nat | works(k) ensures Below(e(k + 1), e(k)) {
      WorkLowersAt(c, states, choices, k);
    }
    n := Descent(e, works, 0);
    if n > 0 {
      assert works(n - 1);
      WorkLowersAt(c, states, choices, n - 1);
    }
  }

  ghost predicate AllReturned<K, V>(s: State<K, V>) {
    forall i :: 0 <= i < |s.threads| ==> s.threads[i].pc.Idle?
  }

  /** From any reachable state: a scheduler that starts no calls and, while a call is unfinished,
      lets some unfinished call step, comes to a state in which all calls have returned. There is
      no such scheduling for ever, so no retry loop runs for ever, whatever the others do. */
  lemma AllCallsReturn<K(!new), V(!new)>(
      c: Config<K>, states: nat -> State<K, V>, choices: nat -> Choice<K, V>)
    requires Inv(c, states(0))
    requires forall n: nat :: !AllReturned(states(n)) ==> Works(c, states(n), choices(n), states(n + 1))
    ensures exists n: nat :: Inv(c, states(n)) && AllReturned(states(n))
  {
    var n := SchedulesAreFinite(c, states, choices);
    assert AllReturned(states(n));
  }

  /** The scheduler of `AllCallsReturn` always finds a thread: no deadlock on the way. */
  lemma SomeoneWorks<K(!new), V(!new)>(c: Config<K>, s: State<K, V>, call: Call<K, V>) returns (choice: Choice<K, V>)
    requires Inv(c, s) && !AllReturned(s)
    ensures CanStep(c, s, choice.thread) && Works(c, s, choice, Fire(c, s, choice.thread, choice.call))
  {
    var busy: nat :| busy < |s.threads| && !s.threads[busy].pc.Idle?;
    var i := NoDeadlock(c, s, busy);
    choice := Choice(i, call);
  }
}
