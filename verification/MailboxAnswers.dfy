/** Every request is answered in the end: an explicit measure that every useful step lowers and
    no other step raises, as long as no request is started and nobody wakes up for no reason. */
module MailboxAnswers {
  import opened Common
  import Rings
  import RingMachine
  import opened Mailbox
  import opened MailboxMatching
  import opened MailboxProgress

  // ----- the measure -----

  /** The steps ahead of a request that write to the ring, take from it, or end a call. */
  function PhaseWork<B>(p: RingMachine.Phase<Msg<B>>): nat {
    match p
    case PushTest(_) => 4
    case PushWait(_) => 4
    case PushWrite(_) => 4
    case PushPost(_) => 1
    case PushDone(ret) => if ret < 0 then 4 else 1
    case PopPost(_, _) => 1
    case PopDone(got) => if got == None then 0 else 1
    case _ => 0
  }

  function PcWork<B, R>(pc: Pc<B, R>): nat {
    if pc.Away? || pc.Sending? || pc.Polling? then 0 else 1
  }

  ghost function Work<B(!new), R(!new)>(s: State<B, R>): nat
    requires |s.ring.popped| <= |s.ring.pushed|
  {
    Sum(s.ring.phases, PhaseWork) + Sum(s.threads, PcWork) + 2 * |RingMachine.Queue(s.ring)|
  }

  /** How far a thread is from the next such step while the ring stays as it is. Retrying a push
      into a full ring and polling an empty one stay on one level. */
  function PhaseRank<B>(full: bool, empty: bool, p: RingMachine.Phase<Msg<B>>): (r: nat)
    ensures r <= 9
  {
    match p
    case PushDone(ret) => if ret >= 0 then 4 else if full then 8 else 9
    case PushTest(_) => 8
    case PushWait(_) => 7
    case PushWrite(_) => 6
    case PushPost(_) => 5
    case PopDone(got) => if got.Some? then 1 else if empty then 3 else 4
    case Quiet => 3
    case PopTest => if empty then 3 else 2
    case PopPost(_, _) => 2
    case PopWait => 1
    case PopTake => 0
    case Crashed => 0
  }

  function StageRank(stage: Stage): nat {
    match stage
    case Locking => 5
    case Waking => 5
    case Testing => 4
    case Sleeping => 3
  }

  function PcRank<B, R>(pc: Pc<B, R>): (r: nat)
    ensures r <= 10
  {
    match pc
    case Sending(_) => 10
    case Polling => 10
    case Serving(_, _) => 6
    case Waiting(_, _, stage) => StageRank(stage)
    case Responding(_, _, _, stage) => StageRank(stage)
    case Clearing(_, _, _) => 2
    case Filled(_) => 2
    case Away => 0
  }

  ghost function RingRank<B(!new)>(core: Rings.Core<Msg<B>>): RingMachine.Phase<Msg<B>> -> nat {
    (p: RingMachine.Phase<Msg<B>>) => PhaseRank(core.size == |core.buf|, core.size == 0, p)
  }

  ghost function Distance<B(!new), R(!new)>(s: State<B, R>): nat {
    Sum(s.ring.phases, RingRank(s.ring.core)) + Sum(s.threads, PcRank)
  }

  /** Any distance is below `Span`, so one unit of work outweighs it. */
  ghost function Span<B, R>(s: State<B, R>): nat {
    9 * |s.ring.phases| + 10 * |s.threads| + 1
  }

  ghost function Effort<B(!new), R(!new)>(s: State<B, R>): nat
    requires |s.ring.popped| <= |s.ring.pushed|
  {
    Work(s) * Span(s) + Distance(s)
  }

  lemma DistanceBound<B(!new), R(!new)>(s: State<B, R>)
    ensures Distance(s) < Span(s)
  {
    SumBound(s.ring.phases, RingRank(s.ring.core), 9);
    SumBound(s.threads, PcRank, 10);
  }

  lemma LessWork(w': nat, w: nat, d': nat, d: nat, span: nat)
    requires w' < w && d' < span
    ensures w' * span + d' < w * span + d
  {
    MulOrder(w' + 1, w, span);
    assert (w' + 1) * span == w' * span + span;
  }

  lemma {:induction false} MulOrder(a: nat, b: nat, m: nat)
    requires a <= b
    ensures a * m <= b * m
  {
    if a == b {
    } else {
      MulOrder(a, b - 1, m);
      assert b * m == (b - 1) * m + m;
    }
  }

  lemma EffortByWork<B(!new), R(!new)>(s: State<B, R>, s': State<B, R>)
    requires |s.ring.popped| <= |s.ring.pushed| && |s'.ring.popped| <= |s'.ring.pushed|
    requires |s'.threads| == |s.threads| && |s'.ring.phases| == |s.ring.phases|
    requires Work(s') < Work(s)
    ensures Effort(s') < Effort(s)
  {
    DistanceBound(s');
    LessWork(Work(s'), Work(s), Distance(s'), Distance(s), Span(s));
  }

  lemma EffortByDistance<B(!new), R(!new)>(s: State<B, R>, s': State<B, R>)
    requires |s.ring.popped| <= |s.ring.pushed| && |s'.ring.popped| <= |s'.ring.pushed|
    requires |s'.threads| == |s.threads| && |s'.ring.phases| == |s.ring.phases|
    requires Work(s') == Work(s)
    ensures Effort(s') - Effort(s) == Distance(s') - Distance(s)
  {
    assert Work(s') * Span(s') == Work(s) * Span(s);
  }

  /** How work and distance change when one thread and its phase do. */
  lemma WorkMoved<B(!new), R(!new)>(s: State<B, R>, s': State<B, R>, x: nat)
    requires |s.ring.popped| <= |s.ring.pushed| && |s'.ring.popped| <= |s'.ring.pushed|
    requires x < |s.threads| == |s'.threads| && x < |s.ring.phases| == |s'.ring.phases|
    requires s'.threads == s.threads[x := s'.threads[x]] && s'.ring.phases == s.ring.phases[x := s'.ring.phases[x]]
    ensures Work(s') + PhaseWork(s.ring.phases[x]) + PcWork(s.threads[x]) + 2 * |RingMachine.Queue(s.ring)|
         == Work(s) + PhaseWork(s'.ring.phases[x]) + PcWork(s'.threads[x]) + 2 * |RingMachine.Queue(s'.ring)|
  {
    SumUpdate(s.ring.phases, x, s'.ring.phases[x], PhaseWork);
    SumUpdate(s.threads, x, s'.threads[x], PcWork);
  }

  lemma DistanceMoved<B(!new), R(!new)>(s: State<B, R>, s': State<B, R>, x: nat)
    requires x < |s.threads| == |s'.threads| && x < |s.ring.phases| == |s'.ring.phases|
    requires s'.threads == s.threads[x := s'.threads[x]] && s'.ring.phases == s.ring.phases[x := s'.ring.phases[x]]
    requires s'.ring.core == s.ring.core
    ensures Distance(s') + RingRank(s.ring.core)(s.ring.phases[x]) + PcRank(s.threads[x])
         == Distance(s) + RingRank(s.ring.core)(s'.ring.phases[x]) + PcRank(s'.threads[x])
  {
    SumUpdate(s.ring.phases, x, s'.ring.phases[x], RingRank(s.ring.core));
    SumUpdate(s.threads, x, s'.threads[x], PcRank);
  }

  // ----- steps inside the ring -----

  lemma RingStepperEffort<B(!new)>(ring: RingMachine.State<Msg<B>>, n: nat, x: nat)
    requires RingMachine.Inv(ring, n) && RingMachine.CanFire(ring, x)
    ensures var ring', p := RingMachine.Fire(ring, x), ring.phases[x];
            && |ring'.popped| <= |ring'.pushed| && ring'.phases == ring.phases[x := ring'.phases[x]]
            && (p.PushWrite? || p.PopTake? ==>
                  PhaseWork(ring'.phases[x]) + 2 * |RingMachine.Queue(ring')|
                  < PhaseWork(p) + 2 * |RingMachine.Queue(ring)|)
            && (!p.PushWrite? && !p.PopTake? ==>
                  && ring'.core == ring.core && RingMachine.Queue(ring') == RingMachine.Queue(ring)
                  && PhaseWork(ring'.phases[x]) == PhaseWork(p)
                  && RingRank(ring.core)(ring'.phases[x]) <= RingRank(ring.core)(p)
                  && (RingRank(ring.core)(ring'.phases[x]) == RingRank(ring.core)(p) ==>
                        (p.PushTest? && ring.core.size == n) || (p.PopTest? && ring.core.size == 0)))
  {
    RingMachine.FireRefinesQueue(ring, n, x);
  }

  lemma RingStepEffort<B(!new), R(!new)>(c: Config, s: State<B, R>, x: nat)
    requires Base(c, s) && x < |s.threads| && InRing(s, x) && RingMachine.CanFire(s.ring, x)
    ensures var s' := s.(ring := RingMachine.Fire(s.ring, x));
            && |s'.ring.popped| <= |s'.ring.pushed|
            && Effort(s') <= Effort(s)
            && (CanAct(c, s, x) && !Futile(c, s, x) ==> Effort(s') < Effort(s))
  {
    var s', p := s.(ring := RingMachine.Fire(s.ring, x)), s.ring.phases[x];
    RingStepperEffort(s.ring, c.slots, x);
    assert s'.threads == s.threads[x := s'.threads[x]];
    WorkMoved(s, s', x);
    if p.PushWrite? || p.PopTake? {
      EffortByWork(s, s');
    } else {
      DistanceMoved(s, s', x);
      EffortByDistance(s, s');
    }
  }

  // ----- steps outside the ring -----

  /** The call that the step ends, if any. */
  ghost predicate Ends<B, R>(s: State<B, R>, x: nat)
    requires x < |s.threads| && x < |s.ring.phases|
  {
    var pc := s.threads[x];
    || pc.Clearing? || pc.Filled? || (pc.Serving? && !pc.m.replies)
    || (pc.Sending? && !pc.m.replies && s.ring.phases[x].PushDone? && s.ring.phases[x].ret >= 0)
  }

  lemma OutsideStepper<B(!new), R(!new)>(c: Config, s: State<B, R>, x: nat, body: B, replies: bool, r: R)
    requires Base(c, s) && CanAct(c, s, x) && !InRing(s, x) && !s.threads[x].Away? && !Ends(s, x)
    ensures var s' := Act(c, s, x, body, replies, r);
            && s'.threads == s.threads[x := s'.threads[x]]
            && s'.ring == s.ring.(phases := s.ring.phases[x := s'.ring.phases[x]])
            && PhaseWork(s'.ring.phases[x]) + PcWork(s'.threads[x])
               == PhaseWork(s.ring.phases[x]) + PcWork(s.threads[x])
            && var before := RingRank(s.ring.core)(s.ring.phases[x]) + PcRank(s.threads[x]);
               var after := RingRank(s.ring.core)(s'.ring.phases[x]) + PcRank(s'.threads[x]);
               after <= before && (!Futile(c, s, x) ==> after < before)
  {
    assert Role(c, s.threads[x], s.ring.phases[x], x);
  }

  lemma OutsideStepEffort<B(!new), R(!new)>(c: Config, s: State<B, R>, x: nat, body: B, replies: bool, r: R)
    requires Base(c, s) && CanAct(c, s, x) && !InRing(s, x) && !s.threads[x].Away? && !Ends(s, x)
    ensures var s' := Act(c, s, x, body, replies, r);
            && |s'.ring.popped| <= |s'.ring.pushed|
            && Effort(s') <= Effort(s) && (!Futile(c, s, x) ==> Effort(s') < Effort(s))
  {
    var s' := Act(c, s, x, body, replies, r);
    OutsideStepper(c, s, x, body, replies, r);
    WorkMoved(s, s', x);
    DistanceMoved(s, s', x);
    EffortByDistance(s, s');
  }

  lemma BroadcastKeepsWork<B(!new), R(!new)>(threads: seq<Pc<B, R>>, idx: nat)
    ensures |Broadcast(threads, idx)| == |threads| && Sum(Broadcast(threads, idx), PcWork) == Sum(threads, PcWork)
  {
    SumPointwise(Broadcast(threads, idx), threads, PcWork);
  }

  lemma EndLowersThreadWork<B(!new), R(!new)>(c: Config, s: State<B, R>, x: nat, body: B, replies: bool, r: R)
    requires CanAct(c, s, x) && Ends(s, x) && !s.threads[x].Away?
    ensures var s' := Act(c, s, x, body, replies, r);
            && x < |s'.threads| == |s.threads|
            && Sum(s'.threads, PcWork) + PcWork(s.threads[x]) == Sum(s.threads, PcWork) + PcWork(s'.threads[x])
            && PcWork(s'.threads[x]) == 0
  {
    var s', pc := Act(c, s, x, body, replies, r), s.threads[x];
    if pc.Clearing? || pc.Filled? {
      BroadcastKeepsWork(s.threads, pc.idx);
      SumUpdate(Broadcast(s.threads, pc.idx), x, s'.threads[x], PcWork);
    } else {
      SumUpdate(s.threads, x, s'.threads[x], PcWork);
    }
  }

  /** The end of a call lowers the work by one; the sleepers it wakes only move away a little. */
  lemma EndEffort<B(!new), R(!new)>(c: Config, s: State<B, R>, x: nat, body: B, replies: bool, r: R)
    requires Base(c, s) && CanAct(c, s, x) && !s.threads[x].Away? && Ends(s, x)
    ensures var s' := Act(c, s, x, body, replies, r);
            |s'.ring.popped| <= |s'.ring.pushed| && Effort(s') < Effort(s)
  {
    var s' := Act(c, s, x, body, replies, r);
    assert Role(c, s.threads[x], s.ring.phases[x], x);
    EndLowersThreadWork(c, s, x, body, replies, r);
    assert s'.ring.phases == s.ring.phases[x := s'.ring.phases[x]];
    SumUpdate(s.ring.phases, x, s'.ring.phases[x], PhaseWork);
    EffortByWork(s, s');
  }

  /** Apart from new requests and spurious wakeups no step raises the effort, and every step that
      is not futile lowers it. A sleeper that wakes, tests and sleeps again lowers it too. */
  lemma ActLowersEffort<B(!new), R(!new)>(c: Config, s: State<B, R>, x: nat, body: B, replies: bool, r: R)
    requires Base(c, s) && CanAct(c, s, x) && !s.threads[x].Away?
    ensures var s' := Act(c, s, x, body, replies, r);
            && |s'.ring.popped| <= |s'.ring.pushed|
            && Effort(s') <= Effort(s) && (!Futile(c, s, x) ==> Effort(s') < Effort(s))
  {
    ActOnRing(c, s, x, body, replies, r);
    if InRing(s, x) {
      RingStepEffort(c, s, x);
    } else if Ends(s, x) {
      EndEffort(c, s, x, body, replies, r);
    } else {
      OutsideStepEffort(c, s, x, body, replies, r);
    }
  }

  // ----- schedules -----

  datatype Choice<B, R> = Choice(thread: nat, body: B, replies: bool, r: R)

  /** The chosen thread acts, without starting a request. */
  ghost predicate Acts<B, R>(c: Config, s: State<B, R>, choice: Choice<B, R>, s': State<B, R>) {
    && CanAct(c, s, choice.thread) && !s.threads[choice.thread].Away?
    && s' == Act(c, s, choice.thread, choice.body, choice.replies, choice.r)
  }

  ghost predicate ActsUsefully<B, R>(c: Config, s: State<B, R>, choice: Choice<B, R>, s': State<B, R>) {
    Acts(c, s, choice, s') && !Futile(c, s, choice.thread)
  }

  ghost predicate NobodyCanServe<B, R>(c: Config, s: State<B, R>) {
    forall x: nat :: x < |s.threads| ==> !CanServe(c, s, x)
  }

  /** Every client has returned from `sendMsg`, and every request has been taken out of the ring and
      dealt with. */
  ghost predicate AllAnswered<B, R>(c: Config, s: State<B, R>) {
    && InBounds(c, s) && (forall i :: 0 <= i < |c.pids| ==> s.threads[i].Away?)
    && Drained(c, s)
  }

  lemma ActsKeepsInv<B(!new), R(!new)>(c: Config, s: State<B, R>, choice: Choice<B, R>, s': State<B, R>)
    requires Inv(c, s) && Acts(c, s, choice, s')
    ensures Inv(c, s')
  {
    assert StepBy(c, s, s', choice.thread, choice.body, choice.replies, choice.r);
    StepKeepsInv(c, s, s');
  }

  ghost predicate Quiet<B(!new), R(!new)>(c: Config, states: nat -> State<B, R>, choices: nat -> Choice<B, R>) {
    forall k: nat :: states(k + 1) == states(k) || Acts(c, states(k), choices(k), states(k + 1))
  }

  lemma {:induction false} ScheduleKeepsInv<B(!new), R(!new)>(
      c: Config, states: nat -> State<B, R>, choices: nat -> Choice<B, R>, n: nat)
    requires Inv(c, states(0)) && Quiet(c, states, choices)
    ensures Inv(c, states(n))
  {
    if n == 0 {
    } else {
      ScheduleKeepsInv(c, states, choices, n - 1);
      assert states(n - 1 + 1) == states(n);
      if states(n) != states(n - 1) {
        ActsKeepsInv(c, states(n - 1), choices(n - 1), states(n));
      }
    }
  }

  ghost function EffortOr0<B(!new), R(!new)>(s: State<B, R>): nat {
    if |s.ring.popped| <= |s.ring.pushed| then Effort(s) else 0
  }

  /** One moment of a schedule without new requests and spurious wakeups. */
  lemma MomentLowersEffort<B(!new), R(!new)>(c: Config, s: State<B, R>, choice: Choice<B, R>, s': State<B, R>)
    requires Inv(c, s) && (s' == s || Acts(c, s, choice, s'))
    ensures EffortOr0(s') <= EffortOr0(s)
    ensures ActsUsefully(c, s, choice, s') ==> EffortOr0(s') < EffortOr0(s)
  {
    if Acts(c, s, choice, s') {
      ActLowersEffort(c, s, choice.thread, choice.body, choice.replies, choice.r);
    }
  }

  lemma NobodyServesMeansAnswered<B(!new), R(!new)>(c: Config, s: State<B, R>)
    requires Inv(c, s) && NobodyCanServe(c, s)
    ensures AllAnswered(c, s)
  {
    forall i | 0 <= i < |c.pids| ensures s.threads[i].Away? {
      if !s.threads[i].Away? {
        var x := SomeoneServes(c, s, i);
        assert false;
      }
    }
    if !Drained(c, s) {
      var x := SomeoneDrains(c, s);
      assert false;
    }
  }

  /** From every moment k on there is a moment `next(k)` at which a useful step is taken or none
      is possible. */
  ghost predicate Fair<B(!new), R(!new)>(
      c: Config, states: nat -> State<B, R>, choices: nat -> Choice<B, R>, next: nat -> nat) {
    forall k: nat :: next(k) >= k && (UsefulAt(c, states, choices, next(k)) || NobodyCanServe(c, states(next(k))))
  }

  ghost predicate UsefulAt<B(!new), R(!new)>(
      c: Config, states: nat -> State<B, R>, choices: nat -> Choice<B, R>, k: nat) {
    ActsUsefully(c, states(k), choices(k), states(k + 1))
  }

  lemma QuietLowersEffort<B(!new), R(!new)>(
      c: Config, states: nat -> State<B, R>, choices: nat -> Choice<B, R>, k: nat)
    requires Inv(c, states(0)) && Quiet(c, states, choices)
    ensures EffortOr0(states(k + 1)) <= EffortOr0(states(k))
    ensures UsefulAt(c, states, choices, k) ==> EffortOr0(states(k + 1)) < EffortOr0(states(k))
  {
    ScheduleKeepsInv(c, states, choices, k);
    MomentLowersEffort(c, states(k), choices(k), states(k + 1));
  }

  lemma QuietEndsAnswered<B(!new), R(!new)>(
      c: Config, states: nat -> State<B, R>, choices: nat -> Choice<B, R>, n: nat)
    requires Inv(c, states(0)) && Quiet(c, states, choices) && NobodyCanServe(c, states(n))
    ensures AllAnswered(c, states(n))
  {
    ScheduleKeepsInv(c, states, choices, n);
    NobodyServesMeansAnswered(c, states(n));
  }

  ghost predicate Asking<B, R>(pc: Pc<B, R>, m: Msg<B>) {
    (pc.Sending? || pc.Waiting?) && pc.m == m
  }

  /** Client `i` has what it asked for with `m`: the response, which is the result of the one execution
      of `m`, or, where no response is due, a place in the ring. */
  ghost predicate Completed<B, R>(c: Config, s: State<B, R>, i: nat, m: Msg<B>)
    requires i < |c.pids|
  {
    && i < |s.threads| && i < |s.ring.phases|
    && var pc, p := s.threads[i], s.ring.phases[i];
       if m.replies then
         && pc.Clearing? && pc.m == m && pc.got.Some?
         && RunsOf(s, c.pids[i]) == [(m, pc.got.value)]
       else
         pc == Sending(m) && p.PushDone? && p.ret >= 0
  }

  /** One moment: the client is still at its request, or has what it asked for, now or just before. */
  lemma MomentCompletes<B(!new), R(!new)>(
      c: Config, s: State<B, R>, choice: Choice<B, R>, s': State<B, R>, i: nat, m: Msg<B>)
    requires Inv(c, s) && Acts(c, s, choice, s') && i < |c.pids| && Asking(s.threads[i], m)
    ensures i < |s'.threads|
    ensures Asking(s'.threads[i], m) || Completed(c, s, i, m) || Completed(c, s', i, m)
  {
    var x := choice.thread;
    assert Role(c, s.threads[i], s.ring.phases[i], i);
    ActMovesThreads(c, s, x, choice.body, choice.replies, choice.r);
    if x == i {
      ClientGoesOn(c, s, i, choice.body, choice.replies, choice.r);
      if s.threads[i].Waiting? && s'.threads[i].Clearing? {
        TakesOwnResult(c, s, i, choice.body, choice.replies, choice.r);
      }
    }
  }

  lemma {:induction false} AskedIsCompleted<B(!new), R(!new)>(
      c: Config, states: nat -> State<B, R>, choices: nat -> Choice<B, R>, i: nat, m: Msg<B>, k: nat)
    requires Inv(c, states(0)) && Quiet(c, states, choices)
    requires i < |c.pids| && i < |states(0).threads| && Asking(states(0).threads[i], m)
    ensures i < |states(k).threads|
    ensures Asking(states(k).threads[i], m) || exists j: nat :: j <= k && Completed(c, states(j), i, m)
  {
    ScheduleKeepsInv(c, states, choices, k);
    if k == 0 {
    } else {
      AskedIsCompleted(c, states, choices, i, m, k - 1);
      ScheduleKeepsInv(c, states, choices, k - 1);
      assert states(k - 1 + 1) == states(k);
      if Asking(states(k - 1).threads[i], m) && states(k) != states(k - 1) {
        MomentCompletes(c, states(k - 1), choices(k - 1), states(k), i, m);
      }
    }
  }

  /** Every outstanding request is answered: when no request is started and nobody wakes up for no
      reason any more, every fair schedule comes to a state in which every client has returned from
      `sendMsg`, and on the way each of them got the result of its own request, or, where no response
      is due, had its request accepted. */
  lemma EveryRequestIsAnswered<B(!new), R(!new)>(
      c: Config, states: nat -> State<B, R>, choices: nat -> Choice<B, R>, next: nat -> nat) returns (n: nat)
    requires Inv(c, states(0)) && Quiet(c, states, choices) && Fair(c, states, choices, next)
    ensures AllAnswered(c, states(n))
    ensures forall i: nat, m: Msg<B> ::
              i < |c.pids| && i < |states(0).threads| && Asking(states(0).threads[i], m) ==>
                exists k: nat :: k <= n && Completed(c, states(k), i, m)
  {
    n := FairEnd(c, states, choices, next);
    forall i: nat, m: Msg<B> | i < |c.pids| && i < |states(0).threads| && Asking(states(0).threads[i], m)
      ensures exists k: nat :: k <= n && Completed(c, states(k), i, m)
    {
      AskedIsCompleted(c, states, choices, i, m, n);
    }
  }

  lemma FairEnd<B(!new), R(!new)>(
      c: Config, states: nat -> State<B, R>, choices: nat -> Choice<B, R>, next: nat -> nat) returns (n: nat)
    requires Inv(c, states(0)) && Quiet(c, states, choices) && Fair(c, states, choices, next)
    ensures AllAnswered(c, states(n))
  {
    var e := (k: nat) => Rank(EffortOr0(states(k)), 0, 0, 0);
    var useful := (k: nat) => UsefulAt(c, states, choices, k);
    var done := (k: nat) => NobodyCanServe(c, states(k));
    forall k: nat ensures AtMost(e(k + 1), e(k)) && (useful(k) ==> Below(e(k + 1), e(k))) {
      QuietLowersEffort(c, states, choices, k);
    }
    n := FairDescent(e, useful, done, next, 0);
    QuietEndsAnswered(c, states, choices, n);
  }
}
