/** While a request is outstanding somebody can do something useful about it. */
module MailboxProgress {
  import opened Common
  import RingMachine
  import opened Mailbox
  import opened MailboxMatching

  /** Steps that serve no request: starting a new one, retrying a push while the ring is full,
      polling while it is empty. */
  ghost predicate Futile<B, R>(c: Config, s: State<B, R>, x: nat)
    requires CanAct(c, s, x)
  {
    var p := s.ring.phases[x];
    match s.threads[x]
    case Away => true
    case Sending(_) => s.ring.core.size == c.slots && (p.PushTest? || (p.PushDone? && p.ret < 0))
    case Polling => s.ring.core.size == 0 && (p.Quiet? || p.PopTest? || (p.PopDone? && p.got == None))
    case _ => false
  }

  ghost predicate CanServe<B, R>(c: Config, s: State<B, R>, x: nat) {
    CanAct(c, s, x) && !Futile(c, s, x)
  }

  /** No sleeper on a cell could go on if it woke up, unless a broadcast is about to come. */
  lemma NoLostWakeup<B(!new), R(!new)>(c: Config, run: seq<State<B, R>>, x: nat)
    requires IsRun(c, run) && x < |run[|run| - 1].threads| && InStage(run[|run| - 1].threads[x], Sleeping)
    requires Satisfied(c, run[|run| - 1], x)
    ensures var s := run[|run| - 1];
            exists h: nat :: h < |s.threads| && Notifies(s.threads[h], s.threads[x].idx) && CanAct(c, s, h)
  {
    var s := run[|run| - 1];
    RunKeepsInv(c, run);
    assert NotForgotten(c, s, x);
    var h := s.mutex[s.threads[x].idx].value;
    assert Role(c, s.threads[h], s.ring.phases[h], h);
    assert Notifies(s.threads[h], s.threads[x].idx) && CanAct(c, s, h);
  }

  /** The holder of a cell's mutex is inside a critical section and can go on. */
  lemma HolderServes<B(!new), R(!new)>(c: Config, s: State<B, R>, idx: nat) returns (x: nat)
    requires Inv(c, s) && idx < |s.mutex| && s.mutex[idx].Some?
    ensures CanServe(c, s, x)
  {
    x := s.mutex[idx].value;
    assert MutexRight(s, idx, x);
    assert Role(c, s.threads[x], s.ring.phases[x], x);
  }

  /** A response in a cell: its client, or whoever holds the mutex, can go on. */
  lemma FullCellServes<B(!new), R(!new)>(c: Config, s: State<B, R>, idx: nat) returns (x: nat)
    requires Inv(c, s) && idx < |s.cells| && s.cells[idx].ready
    ensures CanServe(c, s, x)
  {
    if s.mutex[idx].Some? {
      x := HolderServes(c, s, idx);
    } else {
      assert CellRight(c, s.cells[idx]);
      x :| x < |c.pids| && c.pids[x] == s.cells[idx].pid;
      assert Traced(c, s, x) && CellFits(c, s, x, idx);
      assert Role(c, s.threads[x], s.ring.phases[x], x);
      assert NotForgotten(c, s, x);
    }
  }

  ghost predicate IdleWorker<B, R>(s: State<B, R>, x: nat)
    requires x < |s.threads| && x < |s.ring.phases|
  {
    var p := s.ring.phases[x];
    s.threads[x].Polling? && (p.Quiet? || p.PopTest? || p.PopWait? || (p.PopDone? && p.got == None))
  }

  /** A worker with a request: it can go on, or the one it waits for can. */
  lemma BusyWorkerServes<B(!new), R(!new)>(c: Config, s: State<B, R>, w: nat) returns (x: nat)
    requires Inv(c, s) && |c.pids| <= w < |s.threads| && !IdleWorker(s, w)
    ensures CanServe(c, s, x)
  {
    x := w;
    assert Role(c, s.threads[w], s.ring.phases[w], w);
    if s.threads[w].Responding? {
      var idx := s.threads[w].idx;
      assert NotForgotten(c, s, w);
      assert CellRight(c, s.cells[idx]);
      if s.mutex[idx].Some? {
        x := HolderServes(c, s, idx);
      } else if s.threads[w].stage == Sleeping {
        x := FullCellServes(c, s, idx);
      }
    }
  }

  ghost predicate IdleClient<B, R>(s: State<B, R>, x: nat)
    requires x < |s.threads| && x < |s.ring.phases|
  {
    var p := s.ring.phases[x];
    || s.threads[x].Away? || s.threads[x].Waiting?
    || (s.threads[x].Sending? && (p.PushTest? || p.PushWait? || (p.PushDone? && p.ret < 0)))
  }

  /** No worker has a request, no client is past its write or clearing, no cell is full. */
  ghost predicate Calm<B, R>(c: Config, s: State<B, R>)
    requires InBounds(c, s)
  {
    && (forall x :: |c.pids| <= x < |s.threads| ==> IdleWorker(s, x))
    && (forall x :: 0 <= x < |c.pids| ==> IdleClient(s, x))
    && (forall idx :: 0 <= idx < |s.cells| ==> !s.cells[idx].ready)
  }

  lemma NotCalmServes<B(!new), R(!new)>(c: Config, s: State<B, R>) returns (x: nat)
    requires Inv(c, s) && !Calm(c, s)
    ensures CanServe(c, s, x)
  {
    if w :| |c.pids| <= w < |s.threads| && !IdleWorker(s, w) {
      x := BusyWorkerServes(c, s, w);
    } else if i :| 0 <= i < |c.pids| && !IdleClient(s, i) {
      assert Role(c, s.threads[i], s.ring.phases[i], i);
      x := i;
    } else {
      var idx :| 0 <= idx < |s.cells| && s.cells[idx].ready;
      x := FullCellServes(c, s, idx);
    }
  }

  /** In a calm system the full tokens are the queued requests. */
  lemma CalmRing<B(!new), R(!new)>(c: Config, s: State<B, R>)
    requires Inv(c, s) && Calm(c, s)
    ensures s.ring.core.size == s.ring.full && s.ring.open == c.slots - s.ring.core.size
  {
    forall x | 0 <= x < |s.ring.phases|
      ensures RingMachine.Writing(s.ring.phases[x]) == 0 && RingMachine.Wrote(s.ring.phases[x]) == 0
      ensures RingMachine.Taking(s.ring.phases[x]) == 0 && RingMachine.Took(s.ring.phases[x]) == 0
    {
      assert Role(c, s.threads[x], s.ring.phases[x], x);
      assert if x < |c.pids| then IdleClient(s, x) else IdleWorker(s, x);
    }
    SumZero(s.ring.phases, RingMachine.Writing);
    SumZero(s.ring.phases, RingMachine.Wrote);
    SumZero(s.ring.phases, RingMachine.Taking);
    SumZero(s.ring.phases, RingMachine.Took);
  }

  /** In a calm system with an empty ring no response is due. */
  lemma CalmAndEmpty<B(!new), R(!new)>(c: Config, s: State<B, R>, i: nat)
    requires Inv(c, s) && Calm(c, s) && s.ring.core.size == 0 && i < |c.pids|
    ensures !Outstanding(s, i)
  {
    var pid := c.pids[i];
    assert RingMachine.Queue(s.ring) == [];
    forall x | 0 <= x < |s.threads|
      ensures PhaseHolds(pid)(s.ring.phases[x]) == 0 && PcHolds(pid)(s.threads[x]) == 0
    {
      assert Role(c, s.threads[x], s.ring.phases[x], x);
      assert if x < |c.pids| then IdleClient(s, x) else IdleWorker(s, x);
    }
    SumZero(s.ring.phases, PhaseHolds(pid));
    SumZero(s.threads, PcHolds(pid));
    SumZero(s.cells, Shows(pid));
    assert Traced(c, s, i);
  }

  /** No request is in the ring or at a worker. */
  ghost predicate Drained<B, R>(c: Config, s: State<B, R>)
    requires InBounds(c, s)
  {
    s.ring.popped == s.ring.pushed && forall x :: |c.pids| <= x < |s.threads| ==> IdleWorker(s, x)
  }

  /** Requests that are in the ring or at a worker are served on, also those whose clients are away. */
  lemma SomeoneDrains<B(!new), R(!new)>(c: Config, s: State<B, R>) returns (x: nat)
    requires Inv(c, s) && !Drained(c, s)
    ensures CanServe(c, s, x)
  {
    if !Calm(c, s) {
      x := NotCalmServes(c, s);
    } else {
      CalmRing(c, s);
      assert s.ring.core.size == |RingMachine.Queue(s.ring)|;
      assert |s.ring.popped| == |s.ring.pushed| ==> s.ring.popped == s.ring.pushed;
      x := |c.pids|;
      assert IdleWorker(s, x);
      assert Role(c, s.threads[x], s.ring.phases[x], x);
    }
  }

  /** While a client is in `sendMsg`, some thread can take a step that serves a request. */
  lemma SomeoneServes<B(!new), R(!new)>(c: Config, s: State<B, R>, i: nat) returns (x: nat)
    requires Inv(c, s) && i < |c.pids| && !s.threads[i].Away?
    ensures CanServe(c, s, x)
  {
    if !Calm(c, s) {
      x := NotCalmServes(c, s);
    } else if !Drained(c, s) {
      x := SomeoneDrains(c, s);
    } else {
      CalmRing(c, s);
      assert s.ring.core.size == |RingMachine.Queue(s.ring)| == 0;
      CalmAndEmpty(c, s, i);
      x := i;
      assert IdleClient(s, i);
      assert Role(c, s.threads[i], s.ring.phases[i], i);
    }
  }

  /** Progress: so it is in every reachable state, with no help from spurious wakeups. */
  lemma Progress<B(!new), R(!new)>(c: Config, run: seq<State<B, R>>, i: nat) returns (x: nat)
    requires IsRun(c, run) && i < |c.pids| && i < |run[|run| - 1].threads| && !run[|run| - 1].threads[i].Away?
    ensures CanServe(c, run[|run| - 1], x)
  {
    RunKeepsInv(c, run);
    x := SomeoneServes(c, run[|run| - 1], i);
  }
}
