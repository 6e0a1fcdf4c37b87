/** The request and response protocol between any number of clients and workers: requests go
    through the ring, responses through one cell per ring slot. */
module Mailbox {
  import opened Common
  import RingMachine

  /** A request carries the pid of its client. A CLOSE_SHM request gets no response. */
  datatype Msg<B> = Msg(pid: int, replies: bool, body: B)

  datatype Cell<R> = Cell(ready: bool, pid: int, payload: Option<R>)

  /** Inside the critical section of a cell. `Sleeping` is pthread_cond_wait with the mutex
      released, `Waking` the way out of it. */
  datatype Stage = Locking | Testing | Sleeping | Waking

  datatype Pc<B, R> =
    // clients, in sendMsg
    | Away
    | Sending(m: Msg<B>)                                   // in push_back, or about to retry it
    | Waiting(m: Msg<B>, idx: nat, stage: Stage)           // for the response in cell idx
    | Clearing(m: Msg<B>, idx: nat, got: Option<R>)        // response copied and cleared, about to broadcast
    // workers
    | Polling                                              // in pop, or between two pops
    | Serving(m: Msg<B>, idx: nat)                         // about to execute the request
    | Responding(m: Msg<B>, idx: nat, r: R, stage: Stage)  // waiting for cell idx to be free
    | Filled(idx: nat)                                     // response written, about to broadcast

  /** Threads 0 to |pids| - 1 are the clients, the rest the workers. `runs` records, per pid, the
      executions of the current request and their results. */
  datatype State<B, R> = State(
    ring: RingMachine.State<Msg<B>>,
    threads: seq<Pc<B, R>>,
    cells: seq<Cell<R>>,
    mutex: seq<Option<nat>>,
    runs: map<int, seq<(Msg<B>, R)>>)

  datatype Config = Config(slots: nat, pids: seq<int>, workers: nat)

  ghost predicate Good(c: Config) {
    && c.slots > 0 && c.workers > 0
    && (forall i :: 0 <= i < |c.pids| ==> c.pids[i] != 0)
    && (forall i, j :: 0 <= i < j < |c.pids| ==> c.pids[i] != c.pids[j])
  }

  ghost predicate Init<B, R>(c: Config, s: State<B, R>) {
    && Good(c)
    && RingMachine.Init(s.ring, c.slots, |c.pids| + c.workers)
    && s.threads == seq(|c.pids| + c.workers, i => if i < |c.pids| then Away else Polling)
    && s.cells == seq(c.slots, _ => Cell(false, 0, None))
    && s.mutex == seq(c.slots, _ => None)
    && s.runs == map[]
  }

  function At<B, R>(s: State<B, R>, i: nat, pc: Pc<B, R>): State<B, R>
    requires i < |s.threads|
  {
    s.(threads := s.threads[i := pc])
  }

  function RingAt<B, R>(s: State<B, R>, i: nat, p: RingMachine.Phase<Msg<B>>): State<B, R>
    requires i < |s.ring.phases|
  {
    s.(ring := RingMachine.At(s.ring, i, p))
  }

  function WithStage<B, R>(pc: Pc<B, R>, stage: Stage): Pc<B, R> {
    match pc
    case Waiting(m, idx, _) => Waiting(m, idx, stage)
    case Responding(m, idx, r, _) => Responding(m, idx, r, stage)
    case _ => pc
  }

  predicate InStage<B, R>(pc: Pc<B, R>, stage: Stage) {
    (pc.Waiting? || pc.Responding?) && pc.stage == stage
  }

  predicate Sleeps<B, R>(pc: Pc<B, R>, idx: nat) {
    InStage(pc, Sleeping) && pc.idx == idx
  }

  /** pthread_cond_broadcast on `rcvs[idx]`. */
  function Broadcast<B, R>(threads: seq<Pc<B, R>>, idx: nat): seq<Pc<B, R>> {
    seq(|threads|, i requires 0 <= i < |threads| =>
      if Sleeps(threads[i], idx) then WithStage(threads[i], Waking) else threads[i])
  }

  /** The condition that thread `i` waits for at its cell. */
  ghost predicate Satisfied<B, R>(c: Config, s: State<B, R>, i: nat)
    requires i < |s.threads|
  {
    var pc := s.threads[i];
    (pc.Waiting? || pc.Responding?) && pc.idx < |s.cells| &&
    var cell := s.cells[pc.idx];
    if pc.Waiting? then i < |c.pids| && cell.ready && cell.pid == c.pids[i]
    else !cell.ready && cell.pid == 0
  }

  ghost predicate InBounds<B, R>(c: Config, s: State<B, R>) {
    |s.threads| == |s.ring.phases| == |c.pids| + c.workers && |s.cells| == |s.mutex| == c.slots
  }

  /** A sleeper waits for a broadcast, all others who do not hold the mutex wait for it. */
  predicate MayGoOn(stage: Stage, mutex: Option<nat>) {
    stage == Testing || (stage != Sleeping && mutex == None)
  }

  /** Which threads can go on without a spurious wakeup. */
  ghost predicate CanAct<B, R>(c: Config, s: State<B, R>, i: nat) {
    && InBounds(c, s) && i < |s.threads|
    && match s.threads[i] {
         case Away => i < |c.pids|
         case Sending(_) => s.ring.phases[i].PushDone? || RingMachine.CanFire(s.ring, i)
         case Polling => s.ring.phases[i].Quiet? || s.ring.phases[i].PopDone? || RingMachine.CanFire(s.ring, i)
         case Serving(_, _) => true
         case Waiting(_, idx, stage) => idx < c.slots && MayGoOn(stage, s.mutex[idx])
         case Responding(_, idx, _, stage) => idx < c.slots && MayGoOn(stage, s.mutex[idx])
         case Clearing(_, idx, _) => idx < c.slots
         case Filled(idx) => idx < c.slots
       }
  }

  /** The next step of thread `i`. A client that is away starts a request with `body` and
      `replies`; an execution returns `r`. */
  ghost function Act<B, R>(c: Config, s: State<B, R>, i: nat, body: B, replies: bool, r: R): State<B, R>
    requires CanAct(c, s, i)
  {
    match s.threads[i]
    case Away =>
      var m := Msg(c.pids[i], replies, body);
      RingAt(At(s, i, Sending(m)), i, RingMachine.PushTest(m)).(runs := s.runs[c.pids[i] := []])
    case Sending(m) =>
      if s.ring.phases[i].PushDone? then
        var ret := s.ring.phases[i].ret;
        if ret < 0 then RingAt(s, i, RingMachine.PushTest(m))
        else RingAt(At(s, i, if m.replies then Waiting(m, ret, Locking) else Away), i, RingMachine.Quiet)
      else s.(ring := RingMachine.Fire(s.ring, i))
    case Polling =>
      if s.ring.phases[i].Quiet? then RingAt(s, i, RingMachine.PopTest)
      else if s.ring.phases[i].PopDone? then
        var got := s.ring.phases[i].got;
        RingAt(if got == None then s else At(s, i, Serving(got.value.0, got.value.1)), i, RingMachine.Quiet)
      else s.(ring := RingMachine.Fire(s.ring, i))
    case Serving(m, idx) =>
      if !m.replies then At(s, i, Polling)
      else At(s, i, Responding(m, idx, r, Locking)).(runs := s.runs[m.pid := RunsOf(s, m.pid) + [(m, r)]])
    case Waiting(m, idx, stage) =>
      if stage != Testing then At(s, i, WithStage(s.threads[i], Testing)).(mutex := s.mutex[idx := Some(i)])
      else if Satisfied(c, s, i) then
        At(s, i, Clearing(m, idx, s.cells[idx].payload)).(
          cells := s.cells[idx := s.cells[idx].(ready := false, pid := 0)])
      else At(s, i, WithStage(s.threads[i], Sleeping)).(mutex := s.mutex[idx := None])
    case Responding(m, idx, r, stage) =>
      if stage != Testing then At(s, i, WithStage(s.threads[i], Testing)).(mutex := s.mutex[idx := Some(i)])
      else if Satisfied(c, s, i) then At(s, i, Filled(idx)).(cells := s.cells[idx := Cell(true, m.pid, Some(r))])
      else At(s, i, WithStage(s.threads[i], Sleeping)).(mutex := s.mutex[idx := None])
    case Clearing(_, idx, _) =>
      s.(threads := Broadcast(s.threads, idx)[i := Away], mutex := s.mutex[idx := None])
    case Filled(idx) =>
      s.(threads := Broadcast(s.threads, idx)[i := Polling], mutex := s.mutex[idx := None])
  }

  function RunsOf<B, R>(s: State<B, R>, pid: int): seq<(Msg<B>, R)> {
    if pid in s.runs then s.runs[pid] else []
  }

  ghost predicate StepBy<B, R>(c: Config, s: State<B, R>, s': State<B, R>, i: nat, body: B, replies: bool, r: R) {
    || (CanAct(c, s, i) && s' == Act(c, s, i, body, replies, r))
    || (i < |s.threads| && InStage(s.threads[i], Sleeping) && s' == At(s, i, WithStage(s.threads[i], Waking)))
  }

  ghost predicate Step<B(!new), R(!new)>(c: Config, s: State<B, R>, s': State<B, R>) {
    exists i: nat, body: B, replies: bool, r: R :: StepBy(c, s, s', i, body, replies, r)
  }

  ghost predicate IsRun<B(!new), R(!new)>(c: Config, run: seq<State<B, R>>) {
    run != [] && Init(c, run[0]) && forall n :: 0 <= n < |run| - 1 ==> Step(c, run[n], run[n + 1])
  }

  // ----- where every thread is -----

  predicate HoldsCell<B, R>(pc: Pc<B, R>, idx: nat) {
    (InStage(pc, Testing) || pc.Clearing? || pc.Filled?) && pc.idx == idx
  }

  /** About to broadcast on the cell. */
  predicate Notifies<B, R>(pc: Pc<B, R>, idx: nat) {
    (pc.Clearing? || pc.Filled?) && pc.idx == idx
  }

  /** The program counter of a thread and its place inside the ring fit together. */
  ghost predicate Role<B, R>(c: Config, pc: Pc<B, R>, p: RingMachine.Phase<Msg<B>>, i: nat) {
    if i < |c.pids| then
      match pc {
        case Away => p.Quiet?
        case Sending(m) =>
          && m.pid == c.pids[i]
          && (match p
              case PushTest(e) => e == m
              case PushWait(e) => e == m
              case PushWrite(e) => e == m
              case PushPost(idx) => idx < c.slots
              case PushDone(ret) => -1 <= ret < c.slots
              case _ => false)
        case Waiting(m, idx, _) => p.Quiet? && m.pid == c.pids[i] && m.replies && idx < c.slots
        case Clearing(_, idx, _) => p.Quiet? && idx < c.slots
        case _ => false
      }
    else
      match pc {
        case Polling =>
          (match p
           case Quiet => true
           case PopTest => true
           case PopWait => true
           case PopTake => true
           case PopPost(m, idx) => idx < c.slots && m.pid in c.pids
           case PopDone(got) => got.Some? ==> got.value.1 < c.slots && got.value.0.pid in c.pids
           case _ => false)
        case Serving(m, idx) => p.Quiet? && idx < c.slots && m.pid in c.pids
        case Responding(m, idx, _, _) => p.Quiet? && idx < c.slots && m.pid in c.pids && m.replies
        case Filled(idx) => p.Quiet? && idx < c.slots
        case _ => false
      }
  }

  ghost predicate MutexRight<B, R>(s: State<B, R>, idx: nat, i: nat)
    requires idx < |s.mutex|
  {
    s.mutex[idx] == Some(i) <==> i < |s.threads| && HoldsCell(s.threads[i], idx)
  }

  ghost predicate CellRight<R>(c: Config, cell: Cell<R>) {
    (cell.ready <==> cell.pid != 0) && (cell.ready ==> cell.pid in c.pids)
  }

  /** A sleeper whose condition holds is about to be woken by the holder of the mutex. */
  ghost predicate NotForgotten<B, R>(c: Config, s: State<B, R>, i: nat)
    requires i < |s.threads|
  {
    InStage(s.threads[i], Sleeping) && Satisfied(c, s, i) ==>
      var idx := s.threads[i].idx;
      && idx < |s.mutex| && s.mutex[idx].Some? && s.mutex[idx].value < |s.threads|
      && Notifies(s.threads[s.mutex[idx].value], idx)
  }

  ghost predicate Base<B(!new), R(!new)>(c: Config, s: State<B, R>) {
    && Good(c) && InBounds(c, s) && RingMachine.Inv(s.ring, c.slots)
    && (forall i :: 0 <= i < |s.threads| ==> Role(c, s.threads[i], s.ring.phases[i], i))
    && (forall j :: 0 <= j < |s.ring.pushed| ==> s.ring.pushed[j].pid in c.pids)
    && (forall idx: nat, i: nat :: idx < |s.mutex| ==> MutexRight(s, idx, i))
    && (forall idx :: 0 <= idx < |s.cells| ==> CellRight(c, s.cells[idx]))
    && (forall i :: 0 <= i < |s.threads| ==> NotForgotten(c, s, i))
  }

  lemma InitBase<B(!new), R(!new)>(c: Config, s: State<B, R>)
    requires Init(c, s)
    ensures Base(c, s)
  {
    RingMachine.InitInv(s.ring, c.slots, |c.pids| + c.workers);
  }

  // ----- the mutexes -----

  /** Thread `i` moves; of the others, some sleepers may be woken. */
  ghost predicate MovesThreads<B, R>(s: State<B, R>, s': State<B, R>, i: nat) {
    && i < |s.threads| == |s'.threads|
    && (forall x: nat :: x < |s.threads| && x != i ==>
          s'.threads[x] == s.threads[x]
          || (InStage(s.threads[x], Sleeping) && s'.threads[x] == WithStage(s.threads[x], Waking)))
  }

  /** The mutex of a cell changes hands only with the thread that moves. */
  ghost predicate MovesMutex<B, R>(s: State<B, R>, s': State<B, R>, i: nat, idx: nat)
    requires i < |s.threads| == |s'.threads| && idx < |s.mutex| == |s'.mutex|
  {
    && s'.mutex[idx] == (
         if HoldsCell(s'.threads[i], idx) then Some(i)
         else if HoldsCell(s.threads[i], idx) then None
         else s.mutex[idx])
    && (HoldsCell(s'.threads[i], idx) && !HoldsCell(s.threads[i], idx) ==> s.mutex[idx] == None)
  }

  ghost predicate Moves<B, R>(s: State<B, R>, s': State<B, R>, i: nat) {
    && MovesThreads(s, s', i) && |s.mutex| == |s'.mutex|
    && forall idx: nat :: idx < |s.mutex| ==> MovesMutex(s, s', i, idx)
  }

  lemma ActMovesThreads<B(!new), R(!new)>(c: Config, s: State<B, R>, i: nat, body: B, replies: bool, r: R)
    requires CanAct(c, s, i)
    ensures MovesThreads(s, Act(c, s, i, body, replies, r), i)
    ensures |s.mutex| == |Act(c, s, i, body, replies, r).mutex|
  {
  }

  lemma ActMovesMutex<B(!new), R(!new)>(c: Config, s: State<B, R>, i: nat, body: B, replies: bool, r: R, idx: nat)
    requires CanAct(c, s, i) && idx < |s.mutex| && MutexRight(s, idx, i)
    requires |Act(c, s, i, body, replies, r).threads| == |s.threads|
    requires |Act(c, s, i, body, replies, r).mutex| == |s.mutex|
    ensures MovesMutex(s, Act(c, s, i, body, replies, r), i, idx)
  {
  }

  lemma ActMoves<B(!new), R(!new)>(c: Config, s: State<B, R>, i: nat, body: B, replies: bool, r: R)
    requires CanAct(c, s, i)
    requires forall idx: nat :: idx < |s.mutex| ==> MutexRight(s, idx, i)
    ensures Moves(s, Act(c, s, i, body, replies, r), i)
  {
    ActMovesThreads(c, s, i, body, replies, r);
    forall idx: nat | idx < |s.mutex| ensures MovesMutex(s, Act(c, s, i, body, replies, r), i, idx) {
      assert MutexRight(s, idx, i);
      ActMovesMutex(c, s, i, body, replies, r, idx);
    }
  }

  lemma MutexKept<B, R>(s: State<B, R>, s': State<B, R>, i: nat, idx: nat, x: nat)
    requires Moves(s, s', i) && idx < |s.mutex|
    requires MutexRight(s, idx, x) && MutexRight(s, idx, i)
    ensures MutexRight(s', idx, x)
  {
    assert MovesMutex(s, s', i, idx);
  }

  // ----- the wakeups -----

  /** Only the holder of its mutex changes a cell, and is then about to broadcast. */
  lemma CellChange<B(!new), R(!new)>(c: Config, s: State<B, R>, i: nat, body: B, replies: bool, r: R, idx: nat)
    requires CanAct(c, s, i) && idx < |s.cells|
    requires Act(c, s, i, body, replies, r).cells[idx] != s.cells[idx]
    ensures |Act(c, s, i, body, replies, r).threads| == |s.threads| && HoldsCell(s.threads[i], idx)
    ensures Notifies(Act(c, s, i, body, replies, r).threads[i], idx)
  {
  }

  /** A broadcaster that leaves wakes all sleepers of its cell. */
  lemma BroadcastWakes<B(!new), R(!new)>(
      c: Config, s: State<B, R>, i: nat, body: B, replies: bool, r: R, idx: nat, x: nat)
    requires CanAct(c, s, i) && Notifies(s.threads[i], idx) && x < |s.threads|
    ensures |Act(c, s, i, body, replies, r).threads| == |s.threads|
    ensures !Sleeps(Act(c, s, i, body, replies, r).threads[x], idx)
  {
  }

  /** Nobody is forgotten: a changed cell is broadcast before its mutex is free again. */
  lemma WakeupKept<B(!new), R(!new)>(c: Config, s: State<B, R>, i: nat, body: B, replies: bool, r: R, x: nat)
    requires Base(c, s) && CanAct(c, s, i) && x < |s.threads|
    ensures NotForgotten(c, Act(c, s, i, body, replies, r), x)
  {
    var s' := Act(c, s, i, body, replies, r);
    ActMoves(c, s, i, body, replies, r);
    assert NotForgotten(c, s, x);
    if x != i && InStage(s'.threads[x], Sleeping) && Satisfied(c, s', x) {
      var idx := s.threads[x].idx;
      assert s'.threads[x] == s.threads[x];
      assert MutexRight(s, idx, i) && MovesMutex(s, s', i, idx);
      if s'.cells[idx] != s.cells[idx] {
        CellChange(c, s, i, body, replies, r, idx);
      } else {
        assert Satisfied(c, s, x);
        var h := s.mutex[idx].value;
        assert MutexRight(s, idx, h);
        if i == h {
          BroadcastWakes(c, s, i, body, replies, r, idx, x);
        }
      }
    }
  }

  // ----- requests and executions -----

  /** A client starts a request when it is away, and keeps it until it has the response. */
  lemma ClientKeepsRequest<B(!new), R(!new)>(c: Config, s: State<B, R>, i: nat, body: B, replies: bool, r: R)
    requires CanAct(c, s, i) && i < |c.pids| && Role(c, s.threads[i], s.ring.phases[i], i)
    ensures var pc, pc' := s.threads[i], Act(c, s, i, body, replies, r).threads[i];
            pc'.Sending? || pc'.Waiting? ==>
              || (pc.Away? && pc' == Sending(Msg(c.pids[i], replies, body)))
              || ((pc.Sending? || pc.Waiting?) && pc'.m == pc.m)
  {
  }

  /** A client returns from `sendMsg` only with its response in hand, or when a request that gets no
      response has been accepted by the ring. */
  lemma ClientReturns<B(!new), R(!new)>(c: Config, s: State<B, R>, i: nat, body: B, replies: bool, r: R)
    requires CanAct(c, s, i) && i < |c.pids| && Role(c, s.threads[i], s.ring.phases[i], i)
    requires !s.threads[i].Away? && Act(c, s, i, body, replies, r).threads[i].Away?
    ensures || s.threads[i].Clearing?
            || (s.threads[i].Sending? && !s.threads[i].m.replies
                && s.ring.phases[i].PushDone? && s.ring.phases[i].ret >= 0)
  {
  }

  /** From its request on, a client is at it, or takes the response in its cell, or is done with a
      request that gets none. */
  lemma ClientGoesOn<B(!new), R(!new)>(c: Config, s: State<B, R>, i: nat, body: B, replies: bool, r: R)
    requires CanAct(c, s, i) && i < |c.pids| && Role(c, s.threads[i], s.ring.phases[i], i)
    requires s.threads[i].Sending? || s.threads[i].Waiting?
    ensures var pc, pc' := s.threads[i], Act(c, s, i, body, replies, r).threads[i];
            || ((pc'.Sending? || pc'.Waiting?) && pc'.m == pc.m)
            || (pc.Waiting? && Satisfied(c, s, i) && pc' == Clearing(pc.m, pc.idx, s.cells[pc.idx].payload))
            || (pc.Sending? && !pc.m.replies && pc'.Away?
                && s.ring.phases[i].PushDone? && s.ring.phases[i].ret >= 0)
  {
  }

  /** The record of a client is cleared by its new request and extended by an execution. */
  lemma RecordChange<B(!new), R(!new)>(c: Config, s: State<B, R>, i: nat, body: B, replies: bool, r: R, pid: int)
    requires CanAct(c, s, i)
    ensures var record, pc := RunsOf(Act(c, s, i, body, replies, r), pid), s.threads[i];
            || record == RunsOf(s, pid)
            || (record == [] && pc.Away? && i < |c.pids| && c.pids[i] == pid)
            || (pc.Serving? && pc.m.replies && pc.m.pid == pid && record == RunsOf(s, pid) + [(pc.m, r)])
  {
  }

  // ----- the roles -----

  predicate InRing<B, R>(s: State<B, R>, i: nat)
    requires i < |s.threads| && i < |s.ring.phases|
  {
    && ((s.threads[i].Sending? && !s.ring.phases[i].PushDone?)
        || (s.threads[i].Polling? && !s.ring.phases[i].PopDone? && !s.ring.phases[i].Quiet?))
  }

  /** What a step does to the ring: a ring step, or a call by thread `i`. */
  lemma ActOnRing<B(!new), R(!new)>(c: Config, s: State<B, R>, i: nat, body: B, replies: bool, r: R)
    requires CanAct(c, s, i) && Role(c, s.threads[i], s.ring.phases[i], i)
    ensures var s' := Act(c, s, i, body, replies, r);
            if InRing(s, i) then RingMachine.CanFire(s.ring, i) && s' == s.(ring := RingMachine.Fire(s.ring, i))
            else s'.ring == s.ring
                 || (RingMachine.CanCall(s.ring, i, s'.ring.phases[i])
                     && s'.ring == RingMachine.At(s.ring, i, s'.ring.phases[i]))
  {
  }

  lemma RingKept<B(!new), R(!new)>(c: Config, s: State<B, R>, i: nat, body: B, replies: bool, r: R)
    requires Base(c, s) && CanAct(c, s, i)
    ensures RingMachine.Inv(Act(c, s, i, body, replies, r).ring, c.slots)
  {
    var s' := Act(c, s, i, body, replies, r);
    ActOnRing(c, s, i, body, replies, r);
    if InRing(s, i) {
      RingMachine.FireKeepsInv(s.ring, c.slots, i);
    } else if s'.ring != s.ring {
      RingMachine.CallKeepsInv(s.ring, c.slots, i, s'.ring.phases[i]);
    }
  }

  /** A ring step by a thread in its role leaves it in its role. */
  lemma FireKeepsRole<B(!new), R(!new)>(c: Config, s: State<B, R>, i: nat)
    requires Base(c, s) && i < |s.threads| && InRing(s, i) && RingMachine.CanFire(s.ring, i)
    ensures Role(c, s.threads[i], RingMachine.Fire(s.ring, i).phases[i], i)
  {
    assert Role(c, s.threads[i], s.ring.phases[i], i);
    if s.ring.phases[i].PushWrite? {
      RingMachine.WriteInOrder(s.ring, c.slots, i);
    } else if s.ring.phases[i].PopTake? {
      RingMachine.TakeInOrder(s.ring, c.slots, i);
    }
  }

  lemma StepperRole<B(!new), R(!new)>(c: Config, s: State<B, R>, i: nat, body: B, replies: bool, r: R)
    requires Base(c, s) && CanAct(c, s, i)
    ensures var s' := Act(c, s, i, body, replies, r); Role(c, s'.threads[i], s'.ring.phases[i], i)
  {
    if InRing(s, i) {
      ActOnRing(c, s, i, body, replies, r);
      FireKeepsRole(c, s, i);
    }
    assert Role(c, s.threads[i], s.ring.phases[i], i);
  }

  lemma OthersRole<B(!new), R(!new)>(c: Config, s: State<B, R>, i: nat, body: B, replies: bool, r: R, x: nat)
    requires Base(c, s) && CanAct(c, s, i) && x < |s.threads| && x != i
    ensures var s' := Act(c, s, i, body, replies, r); Role(c, s'.threads[x], s'.ring.phases[x], x)
  {
    ActMoves(c, s, i, body, replies, r);
    ActOnRing(c, s, i, body, replies, r);
    assert Role(c, s.threads[i], s.ring.phases[i], i);
    assert Role(c, s.threads[x], s.ring.phases[x], x);
  }

  lemma MessagesKept<B(!new), R(!new)>(c: Config, s: State<B, R>, i: nat, body: B, replies: bool, r: R)
    requires Base(c, s) && CanAct(c, s, i)
    ensures var pushed := Act(c, s, i, body, replies, r).ring.pushed;
            forall j :: 0 <= j < |pushed| ==> pushed[j].pid in c.pids
    ensures forall idx :: 0 <= idx < |s.cells| ==> CellRight(c, Act(c, s, i, body, replies, r).cells[idx])
  {
    assert Role(c, s.threads[i], s.ring.phases[i], i);
    ActOnRing(c, s, i, body, replies, r);
  }

  lemma ActKeepsBase<B(!new), R(!new)>(c: Config, s: State<B, R>, i: nat, body: B, replies: bool, r: R)
    requires Base(c, s) && CanAct(c, s, i)
    ensures Base(c, Act(c, s, i, body, replies, r))
  {
    var s' := Act(c, s, i, body, replies, r);
    ActMoves(c, s, i, body, replies, r);
    RingKept(c, s, i, body, replies, r);
    MessagesKept(c, s, i, body, replies, r);
    forall x | 0 <= x < |s'.threads|
      ensures Role(c, s'.threads[x], s'.ring.phases[x], x) && NotForgotten(c, s', x)
    {
      WakeupKept(c, s, i, body, replies, r, x);
      if x == i {
        StepperRole(c, s, i, body, replies, r);
      } else {
        OthersRole(c, s, i, body, replies, r, x);
      }
    }
    forall idx: nat, x: nat | idx < |s'.mutex| ensures MutexRight(s', idx, x) {
      MutexKept(s, s', i, idx, x);
    }
  }

  lemma StepKeepsBase<B(!new), R(!new)>(c: Config, s: State<B, R>, s': State<B, R>)
    requires Base(c, s) && Step(c, s, s')
    ensures Base(c, s')
  {
    var i: nat, body: B, replies: bool, r: R :| StepBy(c, s, s', i, body, replies, r);
    if CanAct(c, s, i) && s' == Act(c, s, i, body, replies, r) {
      ActKeepsBase(c, s, i, body, replies, r);
    } else {
      SpuriousKeepsBase(c, s, s', i);
    }
  }

  lemma SpuriousKeepsBase<B(!new), R(!new)>(c: Config, s: State<B, R>, s': State<B, R>, i: nat)
    requires Base(c, s) && i < |s.threads| && InStage(s.threads[i], Sleeping)
    requires s' == At(s, i, WithStage(s.threads[i], Waking))
    ensures Base(c, s')
  {
    assert Role(c, s.threads[i], s.ring.phases[i], i);
    forall idx: nat, x: nat | idx < |s'.mutex| ensures MutexRight(s', idx, x) {
      assert MutexRight(s, idx, x);
    }
    forall x | 0 <= x < |s'.threads| ensures NotForgotten(c, s', x) {
      assert NotForgotten(c, s, x);
    }
  }
}
