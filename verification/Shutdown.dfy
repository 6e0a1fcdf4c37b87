/** The end of the server: the main thread pushes one EXIT per worker into an empty ring and
    joins the workers. */
module Shutdown {
  import opened Common
  import RingMachine

  datatype Item<B> = Exit | Job(body: B)

  datatype Worker = Busy | Polling | Stopped

  /** Ring thread 0 is the main thread, ring thread w + 1 is worker w. `sent` counts the
      completed calls of `push_back`, `accepted` those that did not return -1. */
  datatype State<B> = State(ring: RingMachine.State<Item<B>>, workers: seq<Worker>, sent: nat, accepted: nat)

  /** The moment the main loop ends, with `left` requests in the ring: no client is pushing, the
      workers are anywhere in their loops. `base` is the number of requests pushed so far. */
  ghost predicate InitWith<B(!new)>(s: State<B>, n: nat, base: nat, left: nat) {
    && RingMachine.Inv(s.ring, n) && s.ring.core.size == left && |s.ring.pushed| == base
    && |s.workers| == n && |s.ring.phases| == n + 1
    && s.sent == s.accepted == 0 && s.ring.phases[0].Quiet?
    && forall w :: 0 <= w < n ==>
         && Role(s.workers[w], s.ring.phases[w + 1])
         && !s.workers[w].Stopped? && HoldsExit(s.ring.phases[w + 1]) == 0
  }

  /** The ring is empty. */
  ghost predicate Init<B(!new)>(s: State<B>, n: nat, base: nat) {
    InitWith(s, n, base, 0)
  }

  ghost predicate Role<B>(worker: Worker, p: RingMachine.Phase<Item<B>>) {
    if worker.Polling? then p.Quiet? || p.PopTest? || p.PopWait? || p.PopTake? || p.PopPost? || p.PopDone?
    else p.Quiet?
  }

  ghost predicate CanAct<B>(s: State<B>, n: nat, i: nat) {
    && i < |s.ring.phases| == n + 1 && |s.workers| == n
    && var p := s.ring.phases[i];
       if i == 0 then (p.Quiet? && s.sent < n) || p.PushDone? || RingMachine.CanFire(s.ring, i)
       else
         match s.workers[i - 1]
         case Busy => p.Quiet?
         case Polling => p.Quiet? || p.PopDone? || RingMachine.CanFire(s.ring, i)
         case Stopped => false
  }

  ghost function Act<B>(s: State<B>, n: nat, i: nat): State<B>
    requires CanAct(s, n, i)
  {
    var p := s.ring.phases[i];
    if i == 0 then
      if p.Quiet? then s.(ring := RingMachine.At(s.ring, i, RingMachine.PushTest(Exit)))
      else if p.PushDone? then
        s.(ring := RingMachine.At(s.ring, i, RingMachine.Quiet), sent := s.sent + 1,
           accepted := s.accepted + if p.ret == -1 then 0 else 1)
      else s.(ring := RingMachine.Fire(s.ring, i))
    else if s.workers[i - 1].Busy? then s.(workers := s.workers[i - 1 := Polling])
    else if p.Quiet? then s.(ring := RingMachine.At(s.ring, i, RingMachine.PopTest))
    else if p.PopDone? then
      var next := if p.got == None then Polling else if p.got.value.0.Exit? then Stopped else Busy;
      s.(ring := RingMachine.At(s.ring, i, RingMachine.Quiet), workers := s.workers[i - 1 := next])
    else s.(ring := RingMachine.Fire(s.ring, i))
  }

  ghost predicate Step<B(!new)>(s: State<B>, n: nat, s': State<B>) {
    exists i: nat :: CanAct(s, n, i) && s' == Act(s, n, i)
  }

  ghost predicate IsRun<B(!new)>(n: nat, base: nat, run: seq<State<B>>) {
    run != [] && Init(run[0], n, base) && forall k :: 0 <= k < |run| - 1 ==> Step(run[k], n, run[k + 1])
  }

  // ----- the invariant -----

  function HoldsExit<B>(p: RingMachine.Phase<Item<B>>): nat {
    if (p.PopPost? && p.e.Exit?) || (p.PopDone? && p.got.Some? && p.got.value.0.Exit?) then 1 else 0
  }

  function IsStopped(w: Worker): nat {
    if w.Stopped? then 1 else 0
  }

  /** The exits taken out of the ring: held by a worker, or the reason why it stopped. */
  ghost function Taken<B>(s: State<B>): nat {
    Sum(s.ring.phases, HoldsExit) + Sum(s.workers, IsStopped)
  }

  ghost predicate MainRole<B>(s: State<B>, n: nat, base: nat)
    requires s.ring.phases != []
  {
    && s.accepted == s.sent
    && match s.ring.phases[0]
       case Quiet => s.sent <= n && |s.ring.pushed| == base + s.sent
       case PushTest(e) => e.Exit? && s.sent < n && |s.ring.pushed| == base + s.sent
       case PushWait(e) => e.Exit? && s.sent < n && |s.ring.pushed| == base + s.sent
       case PushWrite(e) => e.Exit? && s.sent < n && |s.ring.pushed| == base + s.sent
       case PushPost(_) => s.sent < n && |s.ring.pushed| == base + s.sent + 1
       case PushDone(ret) => ret >= 0 && s.sent < n && |s.ring.pushed| == base + s.sent + 1
       case _ => false
  }

  ghost predicate Inv<B(!new)>(s: State<B>, n: nat, base: nat) {
    && RingMachine.Inv(s.ring, n)
    && |s.workers| == n && |s.ring.phases| == n + 1
    && MainRole(s, n, base)
    && (forall w :: 0 <= w < n ==> Role(s.workers[w], s.ring.phases[w + 1]))
    // everything behind `base` is an exit, and nothing in front of it is left
    && base <= |s.ring.popped|
    && (forall j :: base <= j < |s.ring.pushed| ==> s.ring.pushed[j].Exit?)
    && |s.ring.popped| - base == Taken(s)
  }

  lemma InitInv<B(!new)>(s: State<B>, n: nat, base: nat)
    requires Init(s, n, base)
    ensures Inv(s, n, base)
  {
    forall i | 0 <= i < |s.ring.phases| ensures HoldsExit(s.ring.phases[i]) == 0 {
      if i > 0 {
        assert Role(s.workers[i - 1], s.ring.phases[i - 1 + 1]);
      }
    }
    SumZero(s.ring.phases, HoldsExit);
    SumZero(s.workers, IsStopped);
  }

  lemma RingStepTaken<B(!new)>(s: State<B>, n: nat, base: nat, i: nat)
    requires Inv(s, n, base) && RingMachine.CanFire(s.ring, i)
    ensures var ring' := RingMachine.Fire(s.ring, i);
            |ring'.popped| - base == Sum(ring'.phases, HoldsExit) + Sum(s.workers, IsStopped)
    ensures RingMachine.Inv(RingMachine.Fire(s.ring, i), n)
  {
    var ring' := RingMachine.Fire(s.ring, i);
    RingMachine.FireRefinesQueue(s.ring, n, i);
    SumUpdate(s.ring.phases, i, ring'.phases[i], HoldsExit);
  }

  lemma FireKeepsMainRole<B(!new)>(s: State<B>, n: nat, base: nat, i: nat)
    requires Inv(s, n, base) && RingMachine.CanFire(s.ring, i) && !s.ring.phases[i].PushDone?
    requires i > 0 ==> Role(s.workers[i - 1], s.ring.phases[i])
    ensures MainRole(s.(ring := RingMachine.Fire(s.ring, i)), n, base)
  {
    if i == 0 && s.ring.phases[0].PushWrite? {
      RingMachine.WriteInOrder(s.ring, n, i);
    }
  }

  lemma FireKeepsWorkerRole<B(!new)>(s: State<B>, n: nat, base: nat, i: nat, w: nat)
    requires Inv(s, n, base) && RingMachine.CanFire(s.ring, i) && w < n
    ensures Role(s.workers[w], RingMachine.Fire(s.ring, i).phases[w + 1])
  {
    assert Role(s.workers[w], s.ring.phases[w + 1]);
    if i == w + 1 && s.ring.phases[i].PopTake? {
      RingMachine.TakeInOrder(s.ring, n, i);
    }
  }

  lemma FireKeepsExits<B(!new)>(s: State<B>, n: nat, base: nat, i: nat)
    requires Inv(s, n, base) && RingMachine.CanFire(s.ring, i)
    requires i > 0 ==> Role(s.workers[i - 1], s.ring.phases[i])
    ensures var ring' := RingMachine.Fire(s.ring, i);
            && base <= |ring'.popped|
            && forall j :: base <= j < |ring'.pushed| ==> ring'.pushed[j].Exit?
  {
  }

  lemma FireKeepsRoles<B(!new)>(s: State<B>, n: nat, base: nat, i: nat)
    requires Inv(s, n, base) && RingMachine.CanFire(s.ring, i) && CanAct(s, n, i)
    requires !s.ring.phases[i].PushDone? && !s.ring.phases[i].PopDone?
    ensures var s' := s.(ring := RingMachine.Fire(s.ring, i));
            && MainRole(s', n, base)
            && (forall w :: 0 <= w < n ==> Role(s'.workers[w], s'.ring.phases[w + 1]))
            && base <= |s'.ring.popped|
            && (forall j :: base <= j < |s'.ring.pushed| ==> s'.ring.pushed[j].Exit?)
  {
    if i > 0 {
      assert Role(s.workers[i - 1], s.ring.phases[i - 1 + 1]);
    }
    FireKeepsMainRole(s, n, base, i);
    FireKeepsExits(s, n, base, i);
    var s' := s.(ring := RingMachine.Fire(s.ring, i));
    forall w: nat | w < n ensures Role(s'.workers[w], s'.ring.phases[w + 1]) {
      FireKeepsWorkerRole(s, n, base, i, w);
    }
  }

  lemma WorkerKeepsRoles<B(!new)>(s: State<B>, n: nat, base: nat, i: nat)
    requires Inv(s, n, base) && CanAct(s, n, i) && i > 0 && !RingMachine.CanFire(s.ring, i)
    ensures var s' := Act(s, n, i);
            && |s'.workers| == n && |s'.ring.phases| == n + 1
            && MainRole(s', n, base)
            && s'.ring == RingMachine.At(s.ring, i, s'.ring.phases[i])
            && (s'.ring == s.ring || RingMachine.CanCall(s.ring, i, s'.ring.phases[i]))
            && s'.workers == s.workers[i - 1 := s'.workers[i - 1]]
            && Role(s'.workers[i - 1], s'.ring.phases[i])
            && HoldsExit(s'.ring.phases[i]) + IsStopped(s'.workers[i - 1])
               == HoldsExit(s.ring.phases[i]) + IsStopped(s.workers[i - 1])
  {
    assert Role(s.workers[i - 1], s.ring.phases[i - 1 + 1]);
  }

  lemma WorkerKeepsInv<B(!new)>(s: State<B>, n: nat, base: nat, i: nat)
    requires Inv(s, n, base) && CanAct(s, n, i) && i > 0 && !RingMachine.CanFire(s.ring, i)
    ensures Inv(Act(s, n, i), n, base)
  {
    var s' := Act(s, n, i);
    WorkerKeepsRoles(s, n, base, i);
    SumUpdate(s.ring.phases, i, s'.ring.phases[i], HoldsExit);
    SumUpdate(s.workers, i - 1, s'.workers[i - 1], IsStopped);
    if s'.ring != s.ring {
      RingMachine.CallKeepsInv(s.ring, n, i, s'.ring.phases[i]);
    }
  }

  lemma MainKeepsInv<B(!new)>(s: State<B>, n: nat, base: nat)
    requires Inv(s, n, base) && CanAct(s, n, 0) && !RingMachine.CanFire(s.ring, 0)
    ensures Inv(Act(s, n, 0), n, base)
  {
    var s' := Act(s, n, 0);
    SumUpdate(s.ring.phases, 0, s'.ring.phases[0], HoldsExit);
    RingMachine.CallKeepsInv(s.ring, n, 0, s'.ring.phases[0]);
  }

  lemma ActKeepsInv<B(!new)>(s: State<B>, n: nat, base: nat, i: nat)
    requires Inv(s, n, base) && CanAct(s, n, i)
    ensures Inv(Act(s, n, i), n, base)
  {
    if !RingMachine.CanFire(s.ring, i) {
      if i == 0 {
        MainKeepsInv(s, n, base);
      } else {
        WorkerKeepsInv(s, n, base, i);
      }
    } else {
      if i > 0 {
        assert Role(s.workers[i - 1], s.ring.phases[i - 1 + 1]);
      }
      FireKeepsRoles(s, n, base, i);
      RingStepTaken(s, n, base, i);
    }
  }

  /** In every reachable state: exits pushed = exits in the ring + exits taken, and every
      `push_back` of the main thread was accepted. */
  lemma {:induction false} RunKeepsInv<B(!new)>(n: nat, base: nat, run: seq<State<B>>)
    requires IsRun(n, base, run)
    ensures Inv(run[|run| - 1], n, base)
    ensures var s := run[|run| - 1];
            s.accepted == s.sent && |s.ring.pushed| - base == |RingMachine.Queue(s.ring)| + Taken(s)
  {
    var k := |run| - 1;
    if k == 0 {
      InitInv(run[0], n, base);
    } else {
      RunKeepsInv(n, base, run[..k]);
      assert Step(run[k - 1], n, run[k - 1 + 1]);
      var i: nat :| CanAct(run[k - 1], n, i) && run[k] == Act(run[k - 1], n, i);
      ActKeepsInv(run[k - 1], n, base, i);
    }
  }

  ghost predicate AllStopped<B>(s: State<B>) {
    forall w :: 0 <= w < |s.workers| ==> s.workers[w].Stopped?
  }

  lemma {:induction false} AllOnes(ws: seq<Worker>)
    requires forall w :: 0 <= w < |ws| ==> ws[w].Stopped?
    ensures Sum(ws, IsStopped) == |ws|
  {
    if ws == [] {
    } else {
      AllOnes(ws[..|ws| - 1]);
    }
  }

  /** When all workers have stopped, all exits have been pushed and none is left in the ring. */
  lemma NothingLeftBehind<B(!new)>(n: nat, base: nat, run: seq<State<B>>)
    requires IsRun(n, base, run) && AllStopped(run[|run| - 1])
    ensures |run[|run| - 1].ring.popped| == |run[|run| - 1].ring.pushed| == base + n
    ensures run[|run| - 1].ring.core.size == 0
  {
    RunKeepsInv(n, base, run);
    AllOnes(run[|run| - 1].workers);
  }

  /** No worker takes two exits: one in hand excludes having stopped for another. */
  lemma OneExitEach<B(!new)>(n: nat, base: nat, run: seq<State<B>>, w: nat)
    requires IsRun(n, base, run) && w < n
    ensures var s := run[|run| - 1];
            && w < |s.workers| && w + 1 < |s.ring.phases|
            && HoldsExit(s.ring.phases[w + 1]) + IsStopped(s.workers[w]) <= 1
  {
    RunKeepsInv(n, base, run);
    var s := run[|run| - 1];
    assert Role(s.workers[w], s.ring.phases[w + 1]);
  }

  // ----- the shutdown does not hang -----

  /** A poll of an empty ring. */
  ghost predicate Futile<B>(s: State<B>, n: nat, i: nat)
    requires CanAct(s, n, i)
  {
    var p := s.ring.phases[i];
    && i > 0 && s.ring.core.size == 0 && !s.workers[i - 1].Busy?
    && (p.Quiet? || p.PopTest? || (p.PopDone? && p.got == None))
  }

  ghost predicate Useful<B>(s: State<B>, n: nat, i: nat) {
    CanAct(s, n, i) && !Futile(s, n, i)
  }

  /** A worker that holds a token, or has just returned one. */
  lemma TokenHolderActs<B(!new)>(s: State<B>, n: nat, base: nat, i: nat)
    requires Inv(s, n, base) && i < |s.ring.phases|
    requires var p := s.ring.phases[i];
             p.PopTake? || p.PopPost? || (p.PopDone? && HoldsExit(p) == 1)
    ensures Useful(s, n, i)
  {
    if i > 0 {
      assert Role(s.workers[i - 1], s.ring.phases[i - 1 + 1]);
    }
  }

  /** While the main thread still has exits to push it can go on, or a worker is about to
      return an open slot. */
  lemma MainProceeds<B(!new)>(s: State<B>, n: nat, base: nat) returns (i: nat)
    requires Inv(s, n, base) && (s.sent < n || !s.ring.phases[0].Quiet?)
    ensures Useful(s, n, i)
  {
    i := 0;
    if s.ring.phases[0].PushWait? && s.ring.open == 0 {
      NoWriters(s, n, base);
      i := SumWitness(s.ring.phases, RingMachine.Took);
      TokenHolderActs(s, n, base, i);
    }
  }

  lemma NoWriters<B(!new)>(s: State<B>, n: nat, base: nat)
    requires Inv(s, n, base) && !s.ring.phases[0].PushWrite? && !s.ring.phases[0].PushPost?
    ensures Sum(s.ring.phases, RingMachine.Writing) == 0 && Sum(s.ring.phases, RingMachine.Wrote) == 0
  {
    forall i | 0 <= i < |s.ring.phases|
      ensures RingMachine.Writing(s.ring.phases[i]) == 0 && RingMachine.Wrote(s.ring.phases[i]) == 0
    {
      if i > 0 {
        assert Role(s.workers[i - 1], s.ring.phases[i - 1 + 1]);
      }
    }
    SumZero(s.ring.phases, RingMachine.Writing);
    SumZero(s.ring.phases, RingMachine.Wrote);
  }

  /** Once all exits are pushed, a worker that has not stopped finds one: it can go on itself,
      or a worker ahead of it can. */
  lemma WorkerProceeds<B(!new)>(s: State<B>, n: nat, base: nat, w: nat) returns (i: nat)
    requires Inv(s, n, base) && s.sent == n && s.ring.phases[0].Quiet?
    requires w < n && !s.workers[w].Stopped?
    ensures Useful(s, n, i)
  {
    i := w + 1;
    assert Role(s.workers[w], s.ring.phases[w + 1]);
    NoWriters(s, n, base);
    if !Useful(s, n, i) {
      if Sum(s.ring.phases, RingMachine.Taking) > 0 {
        i := SumWitness(s.ring.phases, RingMachine.Taking);
        TokenHolderActs(s, n, base, i);
      } else if Sum(s.ring.phases, HoldsExit) > 0 {
        i := SumWitness(s.ring.phases, HoldsExit);
        TokenHolderActs(s, n, base, i);
      } else {
        NotAllOnes(s.workers, w);
      }
    }
  }

  lemma {:induction false} NotAllOnes(ws: seq<Worker>, w: nat)
    requires w < |ws| && !ws[w].Stopped?
    ensures Sum(ws, IsStopped) < |ws|
  {
    SumUpdate(ws, w, Stopped, IsStopped);
    SumAtMostLength(ws[w := Stopped], IsStopped);
  }

  /** Until all workers have stopped some thread can take a useful step. */
  lemma SomeoneProceeds<B(!new)>(s: State<B>, n: nat, base: nat) returns (i: nat)
    requires Inv(s, n, base) && !AllStopped(s)
    ensures Useful(s, n, i)
  {
    if s.sent < n || !s.ring.phases[0].Quiet? {
      i := MainProceeds(s, n, base);
    } else {
      var w :| 0 <= w < |s.workers| && !s.workers[w].Stopped?;
      i := WorkerProceeds(s, n, base, w);
    }
  }

  /** So it is in every reachable state. */
  lemma ShutdownProceeds<B(!new)>(n: nat, base: nat, run: seq<State<B>>) returns (i: nat)
    requires IsRun(n, base, run) && !AllStopped(run[|run| - 1])
    ensures Useful(run[|run| - 1], n, i)
  {
    RunKeepsInv(n, base, run);
    i := SomeoneProceeds(run[|run| - 1], n, base);
  }
}
