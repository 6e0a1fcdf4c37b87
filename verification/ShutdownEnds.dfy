/** The shutdown ends: under a fair schedule all workers stop. And the condition for that is exact:
    with a single request left in the ring an EXIT can be lost. */
module ShutdownEnds {
  import opened Common
  import Rings
  import RingMachine
  import opened Shutdown

  // ----- the measure -----

  /** The exits that the main thread has still to write. */
  ghost function ToWrite<B>(s: State<B>, n: nat): int
    requires s.ring.phases != []
  {
    n - s.sent - (if s.ring.phases[0].PushPost? || s.ring.phases[0].PushDone? then 1 else 0)
  }

  function Holding<B>(p: RingMachine.Phase<Item<B>>): nat {
    if p.PopPost? || (p.PopDone? && p.got.Some?) then 2 else 0
  }

  function Serving(w: Worker): nat {
    if w.Busy? then 1 else 0
  }

  ghost function Work<B(!new)>(s: State<B>, n: nat): int
    requires s.ring.phases != [] && |s.ring.popped| <= |s.ring.pushed|
  {
    4 * ToWrite(s, n) + 3 * |RingMachine.Queue(s.ring)| + Sum(s.ring.phases, Holding) + Sum(s.workers, Serving)
  }

  /** How far a thread is from its next such step while the ring stays as it is. */
  function PhaseRank<B>(empty: bool, p: RingMachine.Phase<Item<B>>): nat {
    match p
    case PushPost(_) => 9
    case PushDone(_) => 8
    case Quiet => 7
    case PushTest(_) => 6
    case PushWait(_) => 5
    case PushWrite(_) => 4
    case PopDone(got) => if got.Some? then 3 else if empty then 7 else 8
    case PopTest => if empty then 7 else 6
    case PopWait => 5
    case PopPost(_, _) => 4
    case PopTake => 3
    case Crashed => 0
  }

  ghost function RankOf<B(!new)>(core: Rings.Core<Item<B>>): RingMachine.Phase<Item<B>> -> nat {
    (p: RingMachine.Phase<Item<B>>) => PhaseRank(core.size == 0, p)
  }

  ghost function Distance<B(!new)>(s: State<B>): nat {
    Sum(s.ring.phases, RankOf(s.ring.core))
  }

  /** Work first, then distance. */
  ghost function Left<B(!new)>(s: State<B>, n: nat): Rank
    requires s.ring.phases != [] && |s.ring.popped| <= |s.ring.pushed| && Work(s, n) >= 0
  {
    Rank(Work(s, n), Distance(s), 0, 0)
  }

  lemma WorkNotNegative<B(!new)>(s: State<B>, n: nat, base: nat)
    requires Inv(s, n, base)
    ensures Work(s, n) >= 0
  {
  }

  /** How work changes when one thread's phase and one worker do. */
  lemma WorkMoved<B(!new)>(s: State<B>, s': State<B>, n: nat, i: nat, w: nat)
    requires |s.ring.popped| <= |s.ring.pushed| && |s'.ring.popped| <= |s'.ring.pushed|
    requires i < |s.ring.phases| == |s'.ring.phases| && w < |s.workers| == |s'.workers|
    requires s'.ring.phases == s.ring.phases[i := s'.ring.phases[i]] && s'.workers == s.workers[w := s'.workers[w]]
    ensures Work(s', n) - Work(s, n)
         == 4 * (ToWrite(s', n) - ToWrite(s, n))
            + 3 * (|RingMachine.Queue(s'.ring)| - |RingMachine.Queue(s.ring)|)
            + Holding(s'.ring.phases[i]) - Holding(s.ring.phases[i])
            + Serving(s'.workers[w]) - Serving(s.workers[w])
  {
    SumUpdate(s.ring.phases, i, s'.ring.phases[i], Holding);
    SumUpdate(s.workers, w, s'.workers[w], Serving);
  }

  lemma DistanceMoved<B(!new)>(s: State<B>, s': State<B>, i: nat)
    requires i < |s.ring.phases| == |s'.ring.phases| && s'.ring.core == s.ring.core
    requires s'.ring.phases == s.ring.phases[i := s'.ring.phases[i]]
    ensures Distance(s') - Distance(s)
         == RankOf(s.ring.core)(s'.ring.phases[i]) - RankOf(s.ring.core)(s.ring.phases[i])
  {
    SumUpdate(s.ring.phases, i, s'.ring.phases[i], RankOf(s.ring.core));
  }

  /** A step inside the ring. */
  lemma RingStepper<B(!new)>(s: State<B>, n: nat, base: nat, i: nat)
    requires Inv(s, n, base) && CanAct(s, n, i) && RingMachine.CanFire(s.ring, i)
    ensures var ring', p := RingMachine.Fire(s.ring, i), s.ring.phases[i];
            && Act(s, n, i) == s.(ring := ring') && ring'.phases == s.ring.phases[i := ring'.phases[i]]
            && |ring'.popped| <= |ring'.pushed|
            && var queue, queue' := |RingMachine.Queue(s.ring)|, |RingMachine.Queue(ring')|;
               && (p.PushWrite? ==> i == 0 && queue' == queue + 1 && ring'.phases[i].PushPost?)
               && (p.PopTake? ==> queue' + 1 == queue && ring'.phases[i].PopPost?)
               && (!p.PushWrite? && !p.PopTake? ==>
                     && ring'.core == s.ring.core && queue' == queue
                     && (i == 0 ==> !ring'.phases[0].PopPost? && !ring'.phases[0].PopDone?))
  {
    RingMachine.FireRefinesQueue(s.ring, n, i);
    if i > 0 {
      assert Role(s.workers[i - 1], s.ring.phases[i - 1 + 1]);
    }
    if s.ring.phases[i].PushWrite? {
      RingMachine.WriteInOrder(s.ring, n, i);
    } else if s.ring.phases[i].PopTake? {
      RingMachine.TakeInOrder(s.ring, n, i);
    }
  }

  /** The two kinds of ring steps that change the queue lower the work. */
  lemma QueueStepLowers<B(!new)>(s: State<B>, n: nat, base: nat, i: nat)
    requires Inv(s, n, base) && CanAct(s, n, i) && Inv(Act(s, n, i), n, base) && RingMachine.CanFire(s.ring, i)
    requires s.ring.phases[i].PushWrite? || s.ring.phases[i].PopTake?
    ensures Work(Act(s, n, i), n) < Work(s, n)
  {
    RingStepper(s, n, base, i);
    WorkMoved(s, Act(s, n, i), n, i, 0);
    assert i > 0 ==> Role(s.workers[i - 1], s.ring.phases[i - 1 + 1]);
  }

  lemma RingStepAtMost<B(!new)>(s: State<B>, n: nat, base: nat, i: nat)
    requires Inv(s, n, base) && CanAct(s, n, i) && Inv(Act(s, n, i), n, base) && RingMachine.CanFire(s.ring, i)
    requires !s.ring.phases[i].PushWrite? && !s.ring.phases[i].PopTake?
    ensures Work(Act(s, n, i), n) == Work(s, n) && Distance(Act(s, n, i)) <= Distance(s)
    ensures !Futile(s, n, i) ==> Distance(Act(s, n, i)) < Distance(s)
  {
    RingStepper(s, n, base, i);
    WorkMoved(s, Act(s, n, i), n, i, 0);
    DistanceMoved(s, Act(s, n, i), i);
    assert i > 0 ==> Role(s.workers[i - 1], s.ring.phases[i - 1 + 1]);
  }

  /** A step outside the ring: a call or a return of the main thread or of a worker. */
  lemma OutsideStep<B(!new)>(s: State<B>, n: nat, base: nat, i: nat)
    requires Inv(s, n, base) && CanAct(s, n, i) && Inv(Act(s, n, i), n, base) && !RingMachine.CanFire(s.ring, i)
    ensures Work(Act(s, n, i), n) <= Work(s, n)
    ensures Work(Act(s, n, i), n) == Work(s, n) ==>
              && Distance(Act(s, n, i)) <= Distance(s)
              && (!Futile(s, n, i) ==> Distance(Act(s, n, i)) < Distance(s))
  {
    var s', w := Act(s, n, i), if i == 0 then 0 else i - 1;
    assert i > 0 ==> Role(s.workers[i - 1], s.ring.phases[i - 1 + 1]);
    assert s'.ring.phases == s.ring.phases[i := s'.ring.phases[i]];
    assert s'.workers == s.workers[w := s'.workers[w]];
    WorkMoved(s, s', n, i, w);
    DistanceMoved(s, s', i);
  }

  /** Every step of the shutdown that is not the poll of an empty ring lowers the measure, and a poll
      does not raise it. */
  lemma ActLowers<B(!new)>(s: State<B>, n: nat, base: nat, i: nat)
    requires Inv(s, n, base) && CanAct(s, n, i)
    ensures Inv(Act(s, n, i), n, base) && Work(s, n) >= 0 && Work(Act(s, n, i), n) >= 0
    ensures AtMost(Left(Act(s, n, i), n), Left(s, n))
    ensures !Futile(s, n, i) ==> Below(Left(Act(s, n, i), n), Left(s, n))
  {
    ActKeepsInv(s, n, base, i);
    WorkNotNegative(s, n, base);
    WorkNotNegative(Act(s, n, i), n, base);
    if !RingMachine.CanFire(s.ring, i) {
      OutsideStep(s, n, base, i);
    } else if s.ring.phases[i].PushWrite? || s.ring.phases[i].PopTake? {
      QueueStepLowers(s, n, base, i);
    } else {
      RingStepAtMost(s, n, base, i);
    }
  }

  // ----- schedules -----

  ghost predicate Acts<B(!new)>(s: State<B>, n: nat, i: nat, s': State<B>) {
    CanAct(s, n, i) && s' == Act(s, n, i)
  }

  ghost predicate IsSchedule<B(!new)>(n: nat, states: nat -> State<B>, threads: nat -> nat) {
    forall k: nat :: states(k + 1) == states(k) || Acts(states(k), n, threads(k), states(k + 1))
  }

  ghost predicate UsefulAt<B(!new)>(n: nat, states: nat -> State<B>, threads: nat -> nat, k: nat) {
    Useful(states(k), n, threads(k)) && states(k + 1) == Act(states(k), n, threads(k))
  }

  ghost predicate NobodyCanProceed<B(!new)>(s: State<B>, n: nat) {
    forall i: nat :: !Useful(s, n, i)
  }

  /** From every moment k on there is a moment `next(k)` at which a useful step is taken or none is
      possible. The end of a request that a worker serves is such a step. */
  ghost predicate Fair<B(!new)>(n: nat, states: nat -> State<B>, threads: nat -> nat, next: nat -> nat) {
    forall k: nat :: next(k) >= k && (UsefulAt(n, states, threads, next(k)) || NobodyCanProceed(states(next(k)), n))
  }

  lemma {:induction false} ScheduleKeepsInv<B(!new)>(
      n: nat, base: nat, states: nat -> State<B>, threads: nat -> nat, k: nat)
    requires Inv(states(0), n, base) && IsSchedule(n, states, threads)
    ensures Inv(states(k), n, base)
  {
    if k == 0 {
    } else {
      ScheduleKeepsInv(n, base, states, threads, k - 1);
      assert states(k - 1 + 1) == states(k);
      if states(k) != states(k - 1) {
        ActKeepsInv(states(k - 1), n, base, threads(k - 1));
      }
    }
  }

  ghost function LeftOr0<B(!new)>(s: State<B>, n: nat): Rank {
    if s.ring.phases != [] && |s.ring.popped| <= |s.ring.pushed| && Work(s, n) >= 0 then Left(s, n)
    else Rank(0, 0, 0, 0)
  }

  lemma MomentLowers<B(!new)>(n: nat, base: nat, states: nat -> State<B>, threads: nat -> nat, k: nat)
    requires Inv(states(0), n, base) && IsSchedule(n, states, threads)
    ensures AtMost(LeftOr0(states(k + 1), n), LeftOr0(states(k), n))
    ensures UsefulAt(n, states, threads, k) ==> Below(LeftOr0(states(k + 1), n), LeftOr0(states(k), n))
  {
    ScheduleKeepsInv(n, base, states, threads, k);
    if Acts(states(k), n, threads(k), states(k + 1)) {
      ActLowers(states(k), n, base, threads(k));
    }
  }

  /** Every fair schedule of the shutdown comes to a state in which all workers have stopped. */
  lemma AllWorkersStop<B(!new)>(
      n: nat, base: nat, states: nat -> State<B>, threads: nat -> nat, next: nat -> nat) returns (k: nat)
    requires Inv(states(0), n, base) && IsSchedule(n, states, threads) && Fair(n, states, threads, next)
    ensures AllStopped(states(k))
  {
    var e := (j: nat) => LeftOr0(states(j), n);
    var useful := (j: nat) => UsefulAt(n, states, threads, j);
    var done := (j: nat) => NobodyCanProceed(states(j), n);
    forall j: nat ensures AtMost(e(j + 1), e(j)) && (useful(j) ==> Below(e(j + 1), e(j))) {
      MomentLowers(n, base, states, threads, j);
    }
    k := FairDescent(e, useful, done, next, 0);
    ScheduleKeepsInv(n, base, states, threads, k);
    if !AllStopped(states(k)) {
      var i := SomeoneProceeds(states(k), n, base);
      assert false;
    }
  }
}
