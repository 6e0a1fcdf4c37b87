/** Every response reaches the client whose request it answers, and no other. */
module MailboxMatching {
  import opened Common
  import RingMachine
  import opened Mailbox

  // ----- where the request of a client is -----

  predicate Asks<B>(m: Msg<B>, pid: int) {
    m.replies && m.pid == pid
  }

  ghost function Carries<B(!new)>(pid: int): Msg<B> -> nat {
    (m: Msg<B>) => if Asks(m, pid) then 1 else 0
  }

  /** The request, with its slot, that a worker has got out of the ring. */
  function PhaseCargo<B>(p: RingMachine.Phase<Msg<B>>): Option<(Msg<B>, nat)> {
    match p
    case PopPost(m, idx) => Some((m, idx))
    case PopDone(got) => got
    case _ => None
  }

  predicate PhaseAsks<B>(p: RingMachine.Phase<Msg<B>>, pid: int) {
    PhaseCargo(p).Some? && Asks(PhaseCargo(p).value.0, pid)
  }

  ghost function PhaseHolds<B(!new)>(pid: int): RingMachine.Phase<Msg<B>> -> nat {
    (p: RingMachine.Phase<Msg<B>>) => if PhaseAsks(p, pid) then 1 else 0
  }

  predicate PcAsks<B, R>(pc: Pc<B, R>, pid: int) {
    (pc.Serving? || pc.Responding?) && Asks(pc.m, pid)
  }

  ghost function PcHolds<B(!new), R(!new)>(pid: int): Pc<B, R> -> nat {
    (pc: Pc<B, R>) => if PcAsks(pc, pid) then 1 else 0
  }

  ghost function Shows<R(!new)>(pid: int): Cell<R> -> nat {
    (cell: Cell<R>) => if cell.ready && cell.pid == pid then 1 else 0
  }

  /** How often the client's request, or the response to it, is in the system. */
  ghost function Tokens<B(!new), R(!new)>(s: State<B, R>, pid: int): nat
    requires |s.ring.popped| <= |s.ring.pushed|
  {
    Sum(RingMachine.Queue(s.ring), Carries(pid)) + Sum(s.ring.phases, PhaseHolds(pid))
    + Sum(s.threads, PcHolds(pid)) + Sum(s.cells, Shows(pid))
  }

  /** The client has pushed a request and not yet taken the response. */
  ghost predicate Outstanding<B, R>(s: State<B, R>, i: nat)
    requires i < |s.threads| && i < |s.ring.phases|
  {
    var p := s.ring.phases[i];
    || s.threads[i].Waiting?
    || (s.threads[i].Sending? && s.threads[i].m.replies && (p.PushPost? || (p.PushDone? && p.ret >= 0)))
  }

  /** The slot that the client remembers. */
  ghost function Where<B, R>(s: State<B, R>, i: nat): int
    requires i < |s.threads| && i < |s.ring.phases| && Outstanding(s, i)
  {
    var p := s.ring.phases[i];
    if s.threads[i].Waiting? then s.threads[i].idx else if p.PushPost? then p.idx else p.ret
  }

  ghost predicate Fits<B, R>(s: State<B, R>, i: nat, m: Msg<B>, idx: nat)
    requires i < |s.threads| && i < |s.ring.phases|
  {
    Outstanding(s, i) && s.threads[i].m == m && Where(s, i) == idx
  }

  ghost predicate QueueFits<B, R>(c: Config, s: State<B, R>, i: nat, j: nat)
    requires i < |c.pids| <= |s.threads| == |s.ring.phases| && j < |s.ring.pushed| && c.slots > 0
  {
    Asks(s.ring.pushed[j], c.pids[i]) ==> Fits(s, i, s.ring.pushed[j], j % c.slots) && RunsOf(s, c.pids[i]) == []
  }

  ghost predicate PhaseFits<B, R>(c: Config, s: State<B, R>, i: nat, x: nat)
    requires i < |c.pids| <= |s.threads| == |s.ring.phases| && x < |s.threads|
  {
    var p := s.ring.phases[x];
    PhaseAsks(p, c.pids[i]) ==> Fits(s, i, PhaseCargo(p).value.0, PhaseCargo(p).value.1) && RunsOf(s, c.pids[i]) == []
  }

  ghost predicate PcFits<B, R>(c: Config, s: State<B, R>, i: nat, x: nat)
    requires i < |c.pids| <= |s.threads| == |s.ring.phases| && x < |s.threads|
  {
    var pc := s.threads[x];
    PcAsks(pc, c.pids[i]) ==>
      Fits(s, i, pc.m, pc.idx) && RunsOf(s, c.pids[i]) == if pc.Serving? then [] else [(pc.m, pc.r)]
  }

  ghost predicate CellFits<B, R>(c: Config, s: State<B, R>, i: nat, idx: nat)
    requires i < |c.pids| <= |s.threads| == |s.ring.phases| && idx < |s.cells|
  {
    var cell := s.cells[idx];
    cell.ready && cell.pid == c.pids[i] ==>
      && cell.payload.Some? && Outstanding(s, i) && Where(s, i) == idx
      && RunsOf(s, c.pids[i]) == [(s.threads[i].m, cell.payload.value)]
  }

  ghost predicate Sized<B, R>(c: Config, s: State<B, R>) {
    c.slots > 0 && InBounds(c, s) && |s.ring.popped| <= |s.ring.pushed|
  }

  /** The request of client `i`, or its response, is in exactly one place while it is
      outstanding and nowhere otherwise; wherever it is, it is the client's present request with
      the client's slot, executed not at all or once, and the response is the result. */
  ghost predicate Traced<B(!new), R(!new)>(c: Config, s: State<B, R>, i: nat)
    requires Sized(c, s) && i < |c.pids|
  {
    && Tokens(s, c.pids[i]) == (if Outstanding(s, i) then 1 else 0)
    && (forall j: nat :: |s.ring.popped| <= j < |s.ring.pushed| ==> QueueFits(c, s, i, j))
    && (forall x: nat :: x < |s.threads| ==> PhaseFits(c, s, i, x))
    && (forall x: nat :: x < |s.threads| ==> PcFits(c, s, i, x))
    && (forall idx: nat :: idx < |s.cells| ==> CellFits(c, s, i, idx))
    && (s.threads[i].Sending? && !Outstanding(s, i) ==> RunsOf(s, c.pids[i]) == [])
  }

  lemma InitTraced<B(!new), R(!new)>(c: Config, s: State<B, R>, i: nat)
    requires Init(c, s) && Base(c, s) && i < |c.pids|
    ensures Traced(c, s, i)
  {
    var pid := c.pids[i];
    SumZero(RingMachine.Queue(s.ring), Carries(pid));
    SumZero(s.ring.phases, PhaseHolds(pid));
    SumZero(s.threads, PcHolds(pid));
    SumZero(s.cells, Shows(pid));
  }

  // ----- steps inside the ring -----

  lemma PhaseTokens<B(!new)>(ring: RingMachine.State<Msg<B>>, x: nat, pid: int)
    requires RingMachine.CanFire(ring, x) && !ring.phases[x].PopTake?
    ensures PhaseHolds(pid)(RingMachine.Fire(ring, x).phases[x]) == PhaseHolds(pid)(ring.phases[x])
  {
  }

  lemma TakeTokens<B(!new)>(ring: RingMachine.State<Msg<B>>, n: nat, x: nat, pid: int)
    requires RingMachine.Inv(ring, n) && RingMachine.CanFire(ring, x) && ring.phases[x].PopTake?
    ensures var ring' := RingMachine.Fire(ring, x);
            && |ring'.popped| <= |ring'.pushed|
            && Sum(RingMachine.Queue(ring'), Carries(pid)) + PhaseHolds(pid)(ring'.phases[x])
               == Sum(RingMachine.Queue(ring), Carries(pid))
  {
    var queue := RingMachine.Queue(ring);
    RingMachine.TakeInOrder(ring, n, x);
    SumHead(queue, Carries(pid));
    assert RingMachine.Queue(RingMachine.Fire(ring, x)) == queue[1..];
  }

  lemma WriteTokens<B(!new)>(ring: RingMachine.State<Msg<B>>, x: nat, pid: int)
    requires |ring.popped| <= |ring.pushed| && RingMachine.CanFire(ring, x) && ring.phases[x].PushWrite?
    ensures Sum(RingMachine.Queue(RingMachine.Fire(ring, x)), Carries(pid))
         == Sum(RingMachine.Queue(ring), Carries(pid)) + Carries(pid)(ring.phases[x].e)
  {
    var queue := RingMachine.Queue(ring);
    SumAppend(queue, ring.phases[x].e, Carries(pid));
    assert RingMachine.Queue(RingMachine.Fire(ring, x)) == queue + [ring.phases[x].e];
  }

  lemma QueueTokens<B(!new)>(ring: RingMachine.State<Msg<B>>, n: nat, x: nat, pid: int)
    requires RingMachine.Inv(ring, n) && RingMachine.CanFire(ring, x)
    ensures var ring', p := RingMachine.Fire(ring, x), ring.phases[x];
            && |ring'.popped| <= |ring'.pushed|
            && Sum(RingMachine.Queue(ring'), Carries(pid)) + PhaseHolds(pid)(ring'.phases[x])
               == Sum(RingMachine.Queue(ring), Carries(pid)) + PhaseHolds(pid)(p)
                  + (if p.PushWrite? && Asks(p.e, pid) then 1 else 0)
  {
    if ring.phases[x].PopTake? {
      TakeTokens(ring, n, x, pid);
    } else {
      PhaseTokens(ring, x, pid);
      if ring.phases[x].PushWrite? {
        WriteTokens(ring, x, pid);
      }
    }
  }

  lemma RingTokens<B(!new), R(!new)>(c: Config, s: State<B, R>, x: nat, pid: int)
    requires Base(c, s) && x < |s.threads| && RingMachine.CanFire(s.ring, x)
    ensures var s' := s.(ring := RingMachine.Fire(s.ring, x));
            && |s'.ring.popped| <= |s'.ring.pushed|
            && Tokens(s', pid) == Tokens(s, pid)
                 + (if s.ring.phases[x].PushWrite? && Asks(s.ring.phases[x].e, pid) then 1 else 0)
  {
    var ring' := RingMachine.Fire(s.ring, x);
    QueueTokens(s.ring, c.slots, x, pid);
    SumUpdate(s.ring.phases, x, ring'.phases[x], PhaseHolds(pid));
  }

  /** A ring step of another thread, or of the client before or after its write, leaves the
      client's view as it was; the write makes the request outstanding in slot |pushed| mod n. */
  lemma RingView<B(!new), R(!new)>(c: Config, s: State<B, R>, x: nat, i: nat)
    requires Base(c, s) && i < |c.pids|
    requires x < |s.threads| && InRing(s, x) && RingMachine.CanFire(s.ring, x)
    ensures var s', p := s.(ring := RingMachine.Fire(s.ring, x)), s.ring.phases[x];
            if x == i && p.PushWrite? then
              && !Outstanding(s, i) && p.e == s.threads[i].m
              && (Outstanding(s', i) <==> p.e.replies)
              && (p.e.replies ==> Where(s', i) == |s.ring.pushed| % c.slots)
            else
              && (Outstanding(s', i) <==> Outstanding(s, i))
              && (Outstanding(s, i) ==> Where(s', i) == Where(s, i))
    ensures s.ring.phases[x].PushWrite? && x != i ==> !Asks(s.ring.phases[x].e, c.pids[i])
    ensures s.ring.phases[x].PushWrite? && x == i ==>
      (Asks(s.ring.phases[x].e, c.pids[i]) <==> s.ring.phases[x].e.replies)
  {
    assert Role(c, s.threads[x], s.ring.phases[x], x);
    assert x < i ==> c.pids[x] != c.pids[i];
    assert i < x < |c.pids| ==> c.pids[i] != c.pids[x];
    if s.ring.phases[x].PushWrite? {
      RingMachine.WriteInOrder(s.ring, c.slots, x);
    }
  }

  /** The client sees its request, its slot and the executions as before. */
  ghost predicate SameView<B, R>(c: Config, s: State<B, R>, s': State<B, R>, i: nat)
    requires i < |c.pids| <= |s.threads| == |s.ring.phases|
  {
    && |s'.threads| == |s'.ring.phases| == |s.threads|
    && (Outstanding(s', i) <==> Outstanding(s, i))
    && (Outstanding(s, i) ==> Where(s', i) == Where(s, i) && s'.threads[i].m == s.threads[i].m)
    && RunsOf(s', c.pids[i]) == RunsOf(s, c.pids[i])
  }

  lemma QueueClaims<B(!new), R(!new)>(c: Config, s: State<B, R>, x: nat, i: nat, j: nat)
    requires Base(c, s) && i < |c.pids| && Traced(c, s, i)
    requires x < |s.threads| && InRing(s, x) && RingMachine.CanFire(s.ring, x)
    requires var s' := s.(ring := RingMachine.Fire(s.ring, x));
             |s'.ring.popped| <= j < |s'.ring.pushed|
    requires !(x == i && s.ring.phases[x].PushWrite?)
    ensures QueueFits(c, s.(ring := RingMachine.Fire(s.ring, x)), i, j)
  {
    RingView(c, s, x, i);
    if j < |s.ring.pushed| {
      assert QueueFits(c, s, i, j);
    }
  }

  lemma PhaseClaims<B(!new), R(!new)>(c: Config, s: State<B, R>, x: nat, i: nat, y: nat)
    requires Base(c, s) && i < |c.pids| && Traced(c, s, i)
    requires x < |s.threads| && InRing(s, x) && RingMachine.CanFire(s.ring, x) && y < |s.threads|
    requires !(x == i && s.ring.phases[x].PushWrite?)
    ensures PhaseFits(c, s.(ring := RingMachine.Fire(s.ring, x)), i, y)
  {
    RingView(c, s, x, i);
    assert PhaseFits(c, s, i, y);
    if y == x && s.ring.phases[x].PopTake? {
      RingMachine.TakeInOrder(s.ring, c.slots, x);
      assert QueueFits(c, s, i, |s.ring.popped|);
    }
  }

  lemma PcAndCellClaims<B(!new), R(!new)>(c: Config, s: State<B, R>, s': State<B, R>, i: nat)
    requires Base(c, s) && i < |c.pids| && Traced(c, s, i) && SameView(c, s, s', i)
    requires s'.threads == s.threads && s'.cells == s.cells
    ensures forall y: nat :: y < |s'.threads| ==> PcFits(c, s', i, y)
    ensures forall idx: nat :: idx < |s'.cells| ==> CellFits(c, s', i, idx)
  {
    forall y: nat | y < |s'.threads| ensures PcFits(c, s', i, y) {
      assert PcFits(c, s, i, y);
    }
    forall idx: nat | idx < |s'.cells| ensures CellFits(c, s', i, idx) {
      assert CellFits(c, s, i, idx);
    }
  }

  /** While nothing of client `i` is in the system, its own request is the only one in the ring
      after its write. */
  lemma WriteClaims<B(!new), R(!new)>(c: Config, s: State<B, R>, i: nat, j: nat)
    requires Base(c, s) && i < |c.pids| && Traced(c, s, i) && !Outstanding(s, i)
    requires InRing(s, i) && RingMachine.CanFire(s.ring, i) && s.ring.phases[i].PushWrite?
    requires Sized(c, s.(ring := RingMachine.Fire(s.ring, i)))
    requires |s.ring.popped| <= j <= |s.ring.pushed|
    ensures QueueFits(c, s.(ring := RingMachine.Fire(s.ring, i)), i, j)
  {
    RingView(c, s, i, i);
    if j < |s.ring.pushed| {
      assert QueueFits(c, s, i, j);
    }
  }

  lemma WriteKeepsTrace<B(!new), R(!new)>(c: Config, s: State<B, R>, i: nat)
    requires Base(c, s) && i < |c.pids| && Traced(c, s, i)
    requires InRing(s, i) && RingMachine.CanFire(s.ring, i) && s.ring.phases[i].PushWrite?
    requires Sized(c, s.(ring := RingMachine.Fire(s.ring, i)))
    ensures Traced(c, s.(ring := RingMachine.Fire(s.ring, i)), i)
  {
    var s' := s.(ring := RingMachine.Fire(s.ring, i));
    RingTokens(c, s, i, c.pids[i]);
    RingView(c, s, i, i);
    NoTokenNoClaim(c, s, i);
    forall j: nat | |s'.ring.popped| <= j < |s'.ring.pushed| ensures QueueFits(c, s', i, j) {
      WriteClaims(c, s, i, j);
    }
    forall y: nat | y < |s'.threads| ensures PhaseFits(c, s', i, y) && PcFits(c, s', i, y) {
      assert !PhaseAsks(s.ring.phases[y], c.pids[i]) && !PcAsks(s.threads[y], c.pids[i]);
    }
  }

  lemma RingKeepsTrace<B(!new), R(!new)>(c: Config, s: State<B, R>, x: nat, i: nat)
    requires Base(c, s) && i < |c.pids| && Traced(c, s, i)
    requires x < |s.threads| && InRing(s, x) && RingMachine.CanFire(s.ring, x)
    requires Sized(c, s.(ring := RingMachine.Fire(s.ring, x)))
    ensures Traced(c, s.(ring := RingMachine.Fire(s.ring, x)), i)
  {
    var s' := s.(ring := RingMachine.Fire(s.ring, x));
    if x == i && s.ring.phases[x].PushWrite? {
      WriteKeepsTrace(c, s, i);
    } else {
      RingTokens(c, s, x, c.pids[i]);
      RingView(c, s, x, i);
      PcAndCellClaims(c, s, s', i);
      forall j: nat | |s'.ring.popped| <= j < |s'.ring.pushed| ensures QueueFits(c, s', i, j) {
        QueueClaims(c, s, x, i, j);
      }
      forall y: nat | y < |s'.threads| ensures PhaseFits(c, s', i, y) {
        PhaseClaims(c, s, x, i, y);
      }
    }
  }

  lemma NoTokenNoClaim<B(!new), R(!new)>(c: Config, s: State<B, R>, i: nat)
    requires Base(c, s) && i < |c.pids| && Traced(c, s, i) && !Outstanding(s, i)
    ensures forall j: nat :: |s.ring.popped| <= j < |s.ring.pushed| ==> !Asks(s.ring.pushed[j], c.pids[i])
    ensures forall x: nat :: x < |s.threads| ==>
      !PhaseAsks(s.ring.phases[x], c.pids[i]) && !PcAsks(s.threads[x], c.pids[i])
    ensures forall idx: nat :: idx < |s.cells| ==> !(s.cells[idx].ready && s.cells[idx].pid == c.pids[i])
  {
    forall j: nat | |s.ring.popped| <= j < |s.ring.pushed| ensures !Asks(s.ring.pushed[j], c.pids[i]) {
      assert QueueFits(c, s, i, j);
    }
    forall x: nat | x < |s.threads|
      ensures !PhaseAsks(s.ring.phases[x], c.pids[i]) && !PcAsks(s.threads[x], c.pids[i])
    {
      assert PhaseFits(c, s, i, x) && PcFits(c, s, i, x);
    }
    forall idx: nat | idx < |s.cells| ensures !(s.cells[idx].ready && s.cells[idx].pid == c.pids[i]) {
      assert CellFits(c, s, i, idx);
    }
  }

  // ----- steps outside the ring -----

  /** Nobody's hold on a request of client `i` changes. */
  ghost predicate SameCargo<B, R>(c: Config, s: State<B, R>, s': State<B, R>, i: nat, y: nat)
    requires i < |c.pids| && y < |s.threads| == |s.ring.phases| == |s'.threads| == |s'.ring.phases|
  {
    var p, p', pc, pc' := s.ring.phases[y], s'.ring.phases[y], s.threads[y], s'.threads[y];
    && (PhaseAsks(p', c.pids[i]) <==> PhaseAsks(p, c.pids[i]))
    && (PhaseAsks(p, c.pids[i]) ==> PhaseCargo(p') == PhaseCargo(p))
    && (PcAsks(pc', c.pids[i]) <==> PcAsks(pc, c.pids[i]))
    && (PcAsks(pc, c.pids[i]) ==>
          pc'.m == pc.m && pc'.idx == pc.idx && (pc'.Serving? <==> pc.Serving?) && (pc.Responding? ==> pc'.r == pc.r))
  }

  lemma NeutralTokens<B(!new), R(!new)>(c: Config, s: State<B, R>, s': State<B, R>, i: nat)
    requires Base(c, s) && Sized(c, s') && i < |c.pids|
    requires s'.ring.pushed == s.ring.pushed && s'.ring.popped == s.ring.popped && s'.cells == s.cells
    requires forall y: nat :: y < |s.threads| ==> SameCargo(c, s, s', i, y)
    ensures Tokens(s', c.pids[i]) == Tokens(s, c.pids[i])
  {
    var pid := c.pids[i];
    forall y: nat | y < |s.threads|
      ensures PhaseHolds(pid)(s'.ring.phases[y]) == PhaseHolds(pid)(s.ring.phases[y])
      ensures PcHolds(pid)(s'.threads[y]) == PcHolds(pid)(s.threads[y])
    {
      assert SameCargo(c, s, s', i, y);
    }
    SumPointwise(s'.ring.phases, s.ring.phases, PhaseHolds(pid));
    SumPointwise(s'.threads, s.threads, PcHolds(pid));
  }

  lemma NeutralKeepsTrace<B(!new), R(!new)>(c: Config, s: State<B, R>, s': State<B, R>, i: nat)
    requires Base(c, s) && Sized(c, s') && i < |c.pids| && Traced(c, s, i)
    requires s'.ring.pushed == s.ring.pushed && s'.ring.popped == s.ring.popped && s'.cells == s.cells
    requires forall y: nat :: y < |s.threads| ==> SameCargo(c, s, s', i, y)
    requires SameView(c, s, s', i) || (!Outstanding(s, i) && !Outstanding(s', i))
    requires s'.threads[i].Sending? && !Outstanding(s', i) ==> RunsOf(s', c.pids[i]) == []
    ensures Traced(c, s', i)
  {
    NeutralTokens(c, s, s', i);
    if !Outstanding(s, i) {
      NoTokenNoClaim(c, s, i);
    }
    forall j: nat | |s'.ring.popped| <= j < |s'.ring.pushed| ensures QueueFits(c, s', i, j) {
      assert QueueFits(c, s, i, j);
    }
    forall y: nat | y < |s'.threads| ensures PhaseFits(c, s', i, y) && PcFits(c, s', i, y) {
      assert PhaseFits(c, s, i, y) && PcFits(c, s, i, y) && SameCargo(c, s, s', i, y);
    }
    forall idx: nat | idx < |s'.cells| ensures CellFits(c, s', i, idx) {
      assert CellFits(c, s, i, idx);
    }
  }

  /** Outside the ring, only four kinds of steps move a request on. */
  ghost predicate MovesOn<B, R>(c: Config, s: State<B, R>, x: nat)
    requires x < |s.threads| && x < |s.ring.phases|
  {
    var pc, p := s.threads[x], s.ring.phases[x];
    || (pc.Polling? && p.PopDone? && p.got.Some?)
    || (pc.Serving? && pc.m.replies)
    || (InStage(pc, Testing) && Satisfied(c, s, x))
  }

  lemma NeutralCargo<B(!new), R(!new)>(c: Config, s: State<B, R>, x: nat, body: B, replies: bool, r: R, i: nat, y: nat)
    requires Base(c, s) && CanAct(c, s, x) && !InRing(s, x) && !MovesOn(c, s, x)
    requires i < |c.pids| && y < |s.threads|
    requires Sized(c, Act(c, s, x, body, replies, r))
    ensures SameCargo(c, s, Act(c, s, x, body, replies, r), i, y)
  {
    var s' := Act(c, s, x, body, replies, r);
    assert Role(c, s.threads[x], s.ring.phases[x], x);
    ActOnRing(c, s, x, body, replies, r);
    if y == x {
    } else {
      ActMoves(c, s, x, body, replies, r);
    }
  }

  /** Another thread's step outside the ring does not concern the client. */
  lemma OthersView<B(!new), R(!new)>(c: Config, s: State<B, R>, x: nat, body: B, replies: bool, r: R, i: nat)
    requires Base(c, s) && CanAct(c, s, x) && !InRing(s, x) && i < |c.pids| && x != i
    ensures var s' := Act(c, s, x, body, replies, r);
            && |s'.threads| == |s'.ring.phases| == |s.threads|
            && s'.ring.phases[i] == s.ring.phases[i]
            && (|| s'.threads[i] == s.threads[i]
                || (s.threads[i].Waiting? && s'.threads[i] == WithStage(s.threads[i], Waking)))
            && (|| (s.threads[x].Serving? && Asks(s.threads[x].m, c.pids[i]))
                || RunsOf(s', c.pids[i]) == RunsOf(s, c.pids[i]))
  {
    assert Role(c, s.threads[x], s.ring.phases[x], x);
    assert Role(c, s.threads[i], s.ring.phases[i], i);
    assert x < i ==> c.pids[x] != c.pids[i];
    assert i < x < |c.pids| ==> c.pids[i] != c.pids[x];
    ActOnRing(c, s, x, body, replies, r);
    ActMoves(c, s, x, body, replies, r);
  }

  lemma OwnView<B(!new), R(!new)>(c: Config, s: State<B, R>, i: nat, body: B, replies: bool, r: R)
    requires Base(c, s) && CanAct(c, s, i) && !InRing(s, i) && !MovesOn(c, s, i)
    requires i < |c.pids| && Traced(c, s, i)
    ensures var s' := Act(c, s, i, body, replies, r);
            && |s'.threads| == |s'.ring.phases| == |s.threads|
            && (SameView(c, s, s', i) || (!Outstanding(s, i) && !Outstanding(s', i)))
            && (s'.threads[i].Sending? && !Outstanding(s', i) ==> RunsOf(s', c.pids[i]) == [])
  {
    assert Role(c, s.threads[i], s.ring.phases[i], i);
  }

  lemma NeutralStepKeepsTrace<B(!new), R(!new)>(c: Config, s: State<B, R>, x: nat, body: B, replies: bool, r: R, i: nat)
    requires Base(c, s) && CanAct(c, s, x) && !InRing(s, x) && !MovesOn(c, s, x)
    requires i < |c.pids| && Traced(c, s, i)
    requires Sized(c, Act(c, s, x, body, replies, r))
    ensures Traced(c, Act(c, s, x, body, replies, r), i)
  {
    var s' := Act(c, s, x, body, replies, r);
    ActOnRing(c, s, x, body, replies, r);
    assert Role(c, s.threads[x], s.ring.phases[x], x);
    if x == i {
      OwnView(c, s, i, body, replies, r);
    } else {
      OthersView(c, s, x, body, replies, r, i);
    }
    forall y: nat | y < |s.threads| ensures SameCargo(c, s, s', i, y) {
      NeutralCargo(c, s, x, body, replies, r, i, y);
    }
    NeutralKeepsTrace(c, s, s', i);
  }

  // ----- the steps that move a request on -----

  /** When one thread moves and the client's view stays, all other claims stay. */
  lemma ClaimsElsewhere<B(!new), R(!new)>(c: Config, s: State<B, R>, s': State<B, R>, i: nat, x: nat)
    requires Base(c, s) && Sized(c, s') && i < |c.pids| && Traced(c, s, i) && SameView(c, s, s', i)
    requires s'.ring.pushed == s.ring.pushed && s'.ring.popped == s.ring.popped
    requires forall y: nat :: y < |s.threads| && y != x ==>
               s'.ring.phases[y] == s.ring.phases[y] && s'.threads[y] == s.threads[y]
    ensures forall j: nat :: |s'.ring.popped| <= j < |s'.ring.pushed| ==> QueueFits(c, s', i, j)
    ensures forall y: nat :: y < |s'.threads| && y != x ==> PhaseFits(c, s', i, y) && PcFits(c, s', i, y)
    ensures forall idx: nat :: idx < |s'.cells| && s'.cells[idx] == s.cells[idx] ==> CellFits(c, s', i, idx)
  {
    forall j: nat | |s'.ring.popped| <= j < |s'.ring.pushed| ensures QueueFits(c, s', i, j) {
      assert QueueFits(c, s, i, j);
    }
    forall y: nat | y < |s'.threads| && y != x ensures PhaseFits(c, s', i, y) && PcFits(c, s', i, y) {
      assert PhaseFits(c, s, i, y) && PcFits(c, s, i, y);
    }
    forall idx: nat | idx < |s'.cells| && s'.cells[idx] == s.cells[idx] ensures CellFits(c, s', i, idx) {
      assert CellFits(c, s, i, idx);
    }
  }

  /** How the tokens change when one thread, its phase and one cell do. */
  lemma MovedTokens<B(!new), R(!new)>(s: State<B, R>, s': State<B, R>, x: nat, idx: nat, pid: int)
    requires x < |s.threads| == |s'.threads| && x < |s.ring.phases| == |s'.ring.phases|
    requires idx < |s.cells| == |s'.cells| && |s.ring.popped| <= |s.ring.pushed|
    requires s'.ring.pushed == s.ring.pushed && s'.ring.popped == s.ring.popped
    requires s'.threads == s.threads[x := s'.threads[x]] && s'.ring.phases == s.ring.phases[x := s'.ring.phases[x]]
    requires s'.cells == s.cells[idx := s'.cells[idx]]
    ensures Tokens(s', pid) + PhaseHolds(pid)(s.ring.phases[x]) + PcHolds(pid)(s.threads[x]) + Shows(pid)(s.cells[idx])
         == Tokens(s, pid) + PhaseHolds(pid)(s'.ring.phases[x]) + PcHolds(pid)(s'.threads[x])
            + Shows(pid)(s'.cells[idx])
  {
    SumUpdate(s.ring.phases, x, s'.ring.phases[x], PhaseHolds(pid));
    SumUpdate(s.threads, x, s'.threads[x], PcHolds(pid));
    SumUpdate(s.cells, idx, s'.cells[idx], Shows(pid));
  }

  /** The steps that move a request on change one thread, its phase and the cell of its slot. */
  lemma MoveOnChanges<B(!new), R(!new)>(
      c: Config, s: State<B, R>, x: nat, body: B, replies: bool, r: R) returns (idx: nat)
    requires Base(c, s) && CanAct(c, s, x) && !InRing(s, x) && MovesOn(c, s, x)
    ensures var s' := Act(c, s, x, body, replies, r);
            && x < |s.threads| == |s'.threads| && x < |s.ring.phases| == |s'.ring.phases|
            && idx < |s.cells| == |s'.cells|
            && s'.ring.pushed == s.ring.pushed && s'.ring.popped == s.ring.popped
            && s'.threads == s.threads[x := s'.threads[x]]
            && s'.ring.phases == s.ring.phases[x := s'.ring.phases[x]]
            && s'.cells == s.cells[idx := s'.cells[idx]]
    ensures InStage(s.threads[x], Testing) ==> idx == s.threads[x].idx
    ensures !InStage(s.threads[x], Testing) ==> Act(c, s, x, body, replies, r).cells == s.cells
  {
    var s', pc := Act(c, s, x, body, replies, r), s.threads[x];
    assert Role(c, pc, s.ring.phases[x], x);
    idx := if InStage(pc, Testing) then pc.idx else 0;
    assert s'.cells == s.cells[idx := s'.cells[idx]];
    assert s'.threads == s.threads[x := s'.threads[x]];
    assert s'.ring.phases == s.ring.phases[x := s'.ring.phases[x]];
  }

  /** A worker takes the request out of the ring's result. */
  lemma PickUpKeepsTrace<B(!new), R(!new)>(c: Config, s: State<B, R>, x: nat, body: B, replies: bool, r: R, i: nat)
    requires Base(c, s) && CanAct(c, s, x) && i < |c.pids| && Traced(c, s, i)
    requires s.threads[x].Polling? && s.ring.phases[x].PopDone? && s.ring.phases[x].got.Some?
    requires Sized(c, Act(c, s, x, body, replies, r))
    ensures Traced(c, Act(c, s, x, body, replies, r), i)
  {
    var s', pid := Act(c, s, x, body, replies, r), c.pids[i];
    assert Role(c, s.threads[x], s.ring.phases[x], x);
    var idx := MoveOnChanges(c, s, x, body, replies, r);
    MovedTokens(s, s', x, idx, pid);
    OthersView(c, s, x, body, replies, r, i);
    assert PhaseFits(c, s, i, x);
    ClaimsElsewhere(c, s, s', i, x);
    assert PhaseFits(c, s', i, x) && PcFits(c, s', i, x);
  }

  /** A worker that holds the request is the only place where it is. */
  lemma OnlyAtWorker<B(!new), R(!new)>(c: Config, s: State<B, R>, i: nat, x: nat)
    requires Base(c, s) && i < |c.pids| && Traced(c, s, i) && x < |s.threads| && PcAsks(s.threads[x], c.pids[i])
    ensures forall j: nat :: |s.ring.popped| <= j < |s.ring.pushed| ==> !Asks(s.ring.pushed[j], c.pids[i])
    ensures forall y: nat :: y < |s.threads| ==> !PhaseAsks(s.ring.phases[y], c.pids[i])
    ensures forall y: nat :: y < |s.threads| && y != x ==> !PcAsks(s.threads[y], c.pids[i])
    ensures forall idx: nat :: idx < |s.cells| ==> !(s.cells[idx].ready && s.cells[idx].pid == c.pids[i])
  {
    var pid := c.pids[i];
    SumAtLeast(s.threads, x, PcHolds(pid));
    forall j: nat | |s.ring.popped| <= j < |s.ring.pushed| ensures !Asks(s.ring.pushed[j], pid) {
      SumAtLeast(RingMachine.Queue(s.ring), j - |s.ring.popped|, Carries(pid));
    }
    forall y: nat | y < |s.threads| ensures !PhaseAsks(s.ring.phases[y], pid) {
      SumAtLeast(s.ring.phases, y, PhaseHolds(pid));
    }
    forall y: nat | y < |s.threads| && y != x ensures !PcAsks(s.threads[y], pid) {
      SumAtLeastTwo(s.threads, if x < y then x else y, if x < y then y else x, PcHolds(pid));
    }
    forall idx: nat | idx < |s.cells| ensures !(s.cells[idx].ready && s.cells[idx].pid == pid) {
      SumAtLeast(s.cells, idx, Shows(pid));
    }
  }

  /** So is a cell that shows the response. */
  lemma OnlyInCell<B(!new), R(!new)>(c: Config, s: State<B, R>, i: nat, idx: nat)
    requires Base(c, s) && i < |c.pids| && Traced(c, s, i)
    requires idx < |s.cells| && s.cells[idx].ready && s.cells[idx].pid == c.pids[i]
    ensures forall j: nat :: |s.ring.popped| <= j < |s.ring.pushed| ==> !Asks(s.ring.pushed[j], c.pids[i])
    ensures forall y: nat :: y < |s.threads| ==>
      !PhaseAsks(s.ring.phases[y], c.pids[i]) && !PcAsks(s.threads[y], c.pids[i])
    ensures forall k: nat :: k < |s.cells| && k != idx ==> !(s.cells[k].ready && s.cells[k].pid == c.pids[i])
  {
    var pid := c.pids[i];
    SumAtLeast(s.cells, idx, Shows(pid));
    forall j: nat | |s.ring.popped| <= j < |s.ring.pushed| ensures !Asks(s.ring.pushed[j], pid) {
      SumAtLeast(RingMachine.Queue(s.ring), j - |s.ring.popped|, Carries(pid));
    }
    forall y: nat | y < |s.threads| ensures !PhaseAsks(s.ring.phases[y], pid) && !PcAsks(s.threads[y], pid) {
      SumAtLeast(s.ring.phases, y, PhaseHolds(pid));
      SumAtLeast(s.threads, y, PcHolds(pid));
    }
    forall k: nat | k < |s.cells| && k != idx ensures !(s.cells[k].ready && s.cells[k].pid == pid) {
      SumAtLeastTwo(s.cells, if idx < k then idx else k, if idx < k then k else idx, Shows(pid));
    }
  }

  /** The execution: from now on the record of the client has one entry. */
  lemma OwnExecuteKeepsTrace<B(!new), R(!new)>(
      c: Config, s: State<B, R>, x: nat, body: B, replies: bool, r: R, i: nat)
    requires Base(c, s) && CanAct(c, s, x) && i < |c.pids| && Traced(c, s, i)
    requires s.threads[x].Serving? && Asks(s.threads[x].m, c.pids[i])
    requires Sized(c, Act(c, s, x, body, replies, r))
    ensures Traced(c, Act(c, s, x, body, replies, r), i)
  {
    var s' := Act(c, s, x, body, replies, r);
    assert Role(c, s.threads[x], s.ring.phases[x], x);
    var idx := MoveOnChanges(c, s, x, body, replies, r);
    MovedTokens(s, s', x, idx, c.pids[i]);
    OthersView(c, s, x, body, replies, r, i);
    assert PcFits(c, s, i, x);
    OnlyAtWorker(c, s, i, x);
  }

  /** The execution for another client. */
  lemma OtherExecuteKeepsTrace<B(!new), R(!new)>(
      c: Config, s: State<B, R>, x: nat, body: B, replies: bool, r: R, i: nat)
    requires Base(c, s) && CanAct(c, s, x) && i < |c.pids| && Traced(c, s, i)
    requires s.threads[x].Serving? && s.threads[x].m.replies && !Asks(s.threads[x].m, c.pids[i])
    requires Sized(c, Act(c, s, x, body, replies, r))
    ensures Traced(c, Act(c, s, x, body, replies, r), i)
  {
    var s' := Act(c, s, x, body, replies, r);
    assert Role(c, s.threads[x], s.ring.phases[x], x);
    var idx := MoveOnChanges(c, s, x, body, replies, r);
    MovedTokens(s, s', x, idx, c.pids[i]);
    OthersView(c, s, x, body, replies, r, i);
    ClaimsElsewhere(c, s, s', i, x);
    assert PhaseFits(c, s', i, x) && PcFits(c, s', i, x);
  }

  /** The response goes into the free cell. */
  lemma FillKeepsTrace<B(!new), R(!new)>(c: Config, s: State<B, R>, x: nat, body: B, replies: bool, r: R, i: nat)
    requires Base(c, s) && CanAct(c, s, x) && i < |c.pids| && Traced(c, s, i)
    requires s.threads[x].Responding? && s.threads[x].stage == Testing && Satisfied(c, s, x)
    requires Sized(c, Act(c, s, x, body, replies, r))
    ensures Traced(c, Act(c, s, x, body, replies, r), i)
  {
    var s', pid, idx := Act(c, s, x, body, replies, r), c.pids[i], s.threads[x].idx;
    assert Role(c, s.threads[x], s.ring.phases[x], x);
    var _ := MoveOnChanges(c, s, x, body, replies, r);
    MovedTokens(s, s', x, idx, pid);
    OthersView(c, s, x, body, replies, r, i);
    assert PcFits(c, s, i, x);
    ClaimsElsewhere(c, s, s', i, x);
    assert PhaseFits(c, s', i, x) && PcFits(c, s', i, x) && CellFits(c, s', i, idx);
  }

  /** The client takes the response in its cell: nothing of its request is left. */
  lemma OwnTakeKeepsTrace<B(!new), R(!new)>(c: Config, s: State<B, R>, i: nat, body: B, replies: bool, r: R)
    requires Base(c, s) && CanAct(c, s, i) && i < |c.pids| && Traced(c, s, i)
    requires s.threads[i].Waiting? && s.threads[i].stage == Testing && Satisfied(c, s, i)
    requires Sized(c, Act(c, s, i, body, replies, r))
    ensures Traced(c, Act(c, s, i, body, replies, r), i)
  {
    var s', idx := Act(c, s, i, body, replies, r), s.threads[i].idx;
    var _ := MoveOnChanges(c, s, i, body, replies, r);
    MovedTokens(s, s', i, idx, c.pids[i]);
    OnlyInCell(c, s, i, idx);
  }

  /** Another client takes a response: not one for client `i`. */
  lemma OtherTakeKeepsTrace<B(!new), R(!new)>(
      c: Config, s: State<B, R>, x: nat, body: B, replies: bool, r: R, i: nat)
    requires Base(c, s) && CanAct(c, s, x) && i < |c.pids| && Traced(c, s, i) && x != i
    requires s.threads[x].Waiting? && s.threads[x].stage == Testing && Satisfied(c, s, x)
    requires Sized(c, Act(c, s, x, body, replies, r))
    ensures Traced(c, Act(c, s, x, body, replies, r), i)
  {
    var s', idx := Act(c, s, x, body, replies, r), s.threads[x].idx;
    var _ := MoveOnChanges(c, s, x, body, replies, r);
    MovedTokens(s, s', x, idx, c.pids[i]);
    assert x < i ==> c.pids[x] != c.pids[i];
    assert i < x ==> c.pids[i] != c.pids[x];
    OthersView(c, s, x, body, replies, r, i);
    ClaimsElsewhere(c, s, s', i, x);
    assert PhaseFits(c, s, i, x);
    assert CellFits(c, s', i, idx);
  }

  // ----- runs -----

  ghost predicate Inv<B(!new), R(!new)>(c: Config, s: State<B, R>) {
    Base(c, s) && forall i: nat :: i < |c.pids| ==> Traced(c, s, i)
  }

  lemma ActKeepsTrace<B(!new), R(!new)>(c: Config, s: State<B, R>, x: nat, body: B, replies: bool, r: R, i: nat)
    requires Base(c, s) && CanAct(c, s, x) && i < |c.pids| && Traced(c, s, i)
    requires Sized(c, Act(c, s, x, body, replies, r))
    ensures Traced(c, Act(c, s, x, body, replies, r), i)
  {
    var pc := s.threads[x];
    ActOnRing(c, s, x, body, replies, r);
    if InRing(s, x) {
      RingKeepsTrace(c, s, x, i);
    } else if !MovesOn(c, s, x) {
      NeutralStepKeepsTrace(c, s, x, body, replies, r, i);
    } else if pc.Polling? {
      PickUpKeepsTrace(c, s, x, body, replies, r, i);
    } else if pc.Serving? && Asks(pc.m, c.pids[i]) {
      OwnExecuteKeepsTrace(c, s, x, body, replies, r, i);
    } else if pc.Serving? {
      OtherExecuteKeepsTrace(c, s, x, body, replies, r, i);
    } else if pc.Responding? {
      FillKeepsTrace(c, s, x, body, replies, r, i);
    } else if x == i {
      OwnTakeKeepsTrace(c, s, i, body, replies, r);
    } else {
      OtherTakeKeepsTrace(c, s, x, body, replies, r, i);
    }
  }

  lemma SpuriousKeepsTrace<B(!new), R(!new)>(c: Config, s: State<B, R>, s': State<B, R>, x: nat, i: nat)
    requires Base(c, s) && Sized(c, s') && i < |c.pids| && Traced(c, s, i)
    requires x < |s.threads| && InStage(s.threads[x], Sleeping) && s' == At(s, x, WithStage(s.threads[x], Waking))
    ensures Traced(c, s', i)
  {
    forall y: nat | y < |s.threads| ensures SameCargo(c, s, s', i, y) {
    }
    NeutralKeepsTrace(c, s, s', i);
  }

  lemma StepKeepsInv<B(!new), R(!new)>(c: Config, s: State<B, R>, s': State<B, R>)
    requires Inv(c, s) && Step(c, s, s')
    ensures Inv(c, s')
  {
    StepKeepsBase(c, s, s');
    var x: nat, body: B, replies: bool, r: R :| StepBy(c, s, s', x, body, replies, r);
    forall i: nat | i < |c.pids| ensures Traced(c, s', i) {
      if CanAct(c, s, x) && s' == Act(c, s, x, body, replies, r) {
        ActKeepsTrace(c, s, x, body, replies, r, i);
      } else {
        SpuriousKeepsTrace(c, s, s', x, i);
      }
    }
  }

  lemma {:induction false} RunKeepsInv<B(!new), R(!new)>(c: Config, run: seq<State<B, R>>)
    requires IsRun(c, run)
    ensures Inv(c, run[|run| - 1])
  {
    var n := |run| - 1;
    if n == 0 {
      InitBase(c, run[0]);
      forall i: nat | i < |c.pids| ensures Traced(c, run[0], i) {
        InitTraced(c, run[0], i);
      }
    } else {
      RunKeepsInv(c, run[..n]);
      assert Step(c, run[n - 1], run[n - 1 + 1]);
      StepKeepsInv(c, run[n - 1], run[n]);
    }
  }

  /** Matching: when a client takes the response in its cell, its request has been executed
      exactly once and the response is the result. */
  lemma TakesOwnResult<B(!new), R(!new)>(c: Config, s: State<B, R>, i: nat, body: B, replies: bool, r: R)
    requires Inv(c, s) && CanAct(c, s, i) && s.threads[i].Waiting?
    requires Act(c, s, i, body, replies, r).threads[i].Clearing?
    ensures i < |c.pids|
    ensures var s' := Act(c, s, i, body, replies, r);
            && s'.threads[i].got.Some?
            && RunsOf(s, c.pids[i]) == [(s.threads[i].m, s'.threads[i].got.value)]
  {
    assert Role(c, s.threads[i], s.ring.phases[i], i);
    assert Traced(c, s, i) && CellFits(c, s, i, s.threads[i].idx);
  }

  /** The same over every interleaving. */
  lemma ResponseIsOwnResult<B(!new), R(!new)>(
      c: Config, run: seq<State<B, R>>, i: nat, body: B, replies: bool, r: R)
    requires IsRun(c, run) && CanAct(c, run[|run| - 1], i)
    requires run[|run| - 1].threads[i].Waiting?
    requires Act(c, run[|run| - 1], i, body, replies, r).threads[i].Clearing?
    ensures i < |c.pids|
    ensures var s, s' := run[|run| - 1], Act(c, run[|run| - 1], i, body, replies, r);
            && s'.threads[i].got.Some?
            && RunsOf(s, c.pids[i]) == [(s.threads[i].m, s'.threads[i].got.value)]
  {
    RunKeepsInv(c, run);
    TakesOwnResult(c, run[|run| - 1], i, body, replies, r);
  }

  /** The client that the response in cell `idx` is for takes it in this step. */
  ghost predicate TakenByOwner<B, R>(c: Config, s: State<B, R>, s': State<B, R>, idx: nat)
    requires idx < |s.cells|
  {
    exists x: nat ::
      && x < |c.pids| && x < |s.threads| && x < |s'.threads| && c.pids[x] == s.cells[idx].pid
      && s.threads[x].Waiting? && s'.threads[x] == Clearing(s.threads[x].m, idx, s.cells[idx].payload)
  }

  /** In one step a full cell changes only when its own client takes the response. */
  lemma FullCellKept<B(!new), R(!new)>(c: Config, s: State<B, R>, s': State<B, R>, idx: nat)
    requires Base(c, s) && Step(c, s, s') && idx < |s.cells| && s.cells[idx].ready
    ensures |s'.cells| == |s.cells|
    ensures s'.cells[idx] == s.cells[idx] || TakenByOwner(c, s, s', idx)
  {
    var x: nat, body: B, replies: bool, r: R :| StepBy(c, s, s', x, body, replies, r);
    assert Role(c, s.threads[x], s.ring.phases[x], x);
  }

  ghost predicate KeepsFullCell<B, R>(c: Config, s: State<B, R>, s': State<B, R>, idx: nat) {
    idx < |s.cells| && s.cells[idx].ready ==>
      idx < |s'.cells| && (s'.cells[idx] == s.cells[idx] || TakenByOwner(c, s, s', idx))
  }

  lemma RunKeepsFullCell<B(!new), R(!new)>(c: Config, run: seq<State<B, R>>, j: nat, idx: nat)
    requires IsRun(c, run) && j < |run| - 1
    ensures KeepsFullCell(c, run[j], run[j + 1], idx)
  {
    RunKeepsInv(c, run[..j + 1]);
    assert Step(c, run[j], run[j + 1]);
    if idx < |run[j].cells| && run[j].cells[idx].ready {
      FullCellKept(c, run[j], run[j + 1], idx);
    }
  }

  lemma AllKeepFullCell<B(!new), R(!new)>(c: Config, run: seq<State<B, R>>, idx: nat)
    requires IsRun(c, run)
    ensures forall j :: 0 <= j < |run| - 1 ==> KeepsFullCell(c, run[j], run[j + 1], idx)
  {
    forall j | 0 <= j < |run| - 1 ensures KeepsFullCell(c, run[j], run[j + 1], idx) {
      RunKeepsFullCell(c, run, j, idx);
    }
  }

  lemma {:induction false} StaysInSegment<B(!new), R(!new)>(
      c: Config, run: seq<State<B, R>>, from: nat, idx: nat) returns (n: nat)
    requires forall j :: 0 <= j < |run| - 1 ==> KeepsFullCell(c, run[j], run[j + 1], idx)
    requires from < |run| && idx < |run[from].cells| && run[from].cells[idx].ready
    ensures from <= n < |run|
    ensures forall j :: from <= j <= n ==> idx < |run[j].cells| && run[j].cells[idx] == run[from].cells[idx]
    ensures n < |run| - 1 ==> TakenByOwner(c, run[n], run[n + 1], idx)
    decreases |run| - from
  {
    n := from;
    if from < |run| - 1 && !TakenByOwner(c, run[from], run[from + 1], idx) {
      assert KeepsFullCell(c, run[from], run[from + 1], idx);
      n := StaysInSegment(c, run, from + 1, idx);
    }
  }

  /** A response stays in its cell, from whatever moment on it stands there, until the client it
      is for takes it: no other client takes it and no worker overwrites it, however many
      responses wait for the same cell. `n` is the last state in which it is there. */
  lemma ResponseStaysUntilTaken<B(!new), R(!new)>(
      c: Config, run: seq<State<B, R>>, from: nat, idx: nat) returns (n: nat)
    requires IsRun(c, run) && from < |run| && idx < |run[from].cells| && run[from].cells[idx].ready
    ensures from <= n < |run|
    ensures forall j :: from <= j <= n ==> idx < |run[j].cells| && run[j].cells[idx] == run[from].cells[idx]
    ensures n < |run| - 1 ==> TakenByOwner(c, run[n], run[n + 1], idx)
  {
    AllKeepFullCell(c, run, idx);
    n := StaysInSegment(c, run, from, idx);
  }
}
