/** The ring buffer with its two real semaphores inside: every step refines a step of the ring with
    atomic counters, so all that holds of the latter holds of the ring as it is built. */
module RingOnSemaphores {
  import opened Common
  import opened Rings
  import R = RingMachine
  import S = Semaphores

  /** `phases` as in RingMachine; a thread in a wait or post phase is inside the semaphore. */
  datatype State<T> = State(
    core: Core<T>, phases: seq<R.Phase<T>>, pushed: seq<T>, popped: seq<T>, open: S.State, full: S.State)

  ghost predicate Init<T>(s: State<T>, n: nat, threads: nat) {
    && n > 0 && |s.core.buf| == n && s.core.head == s.core.tail == s.core.size == 0
    && s.pushed == [] && s.popped == [] && s.phases == seq(threads, _ => R.Quiet)
    && S.Init(s.open, n) && S.Init(s.full, 0) && |s.open.pcs| == |s.full.pcs| == threads
  }

  /** The thread has its token from the semaphore, or has returned it. */
  predicate Took(pc: S.Pc) {
    pc.WaitSignal? || pc.WaitUnlock?
  }

  predicate Gave(pc: S.Pc) {
    pc.PostSignal? || pc.PostUnlock?
  }

  /** The phase as seen with atomic counters: a wait is over when the token is taken, a post when it
      is given. */
  function Seen<T>(p: R.Phase<T>, open: S.Pc, full: S.Pc): R.Phase<T> {
    match p
    case PushWait(e) => if Took(open) then R.PushWrite(e) else p
    case PushPost(idx) => if Gave(full) then R.PushDone(idx) else p
    case PopWait => if Took(full) then R.PopTake else p
    case PopPost(e, idx) => if Gave(open) then R.PopDone(Some((e, idx))) else p
    case _ => p
  }

  ghost predicate Sized<T>(s: State<T>) {
    |s.phases| == |s.open.pcs| == |s.full.pcs|
  }

  ghost function View<T>(s: State<T>): R.State<T>
    requires Sized(s)
  {
    R.State(s.core, s.open.count, s.full.count,
            seq(|s.phases|, i requires 0 <= i < |s.phases| => Seen(s.phases[i], s.open.pcs[i], s.full.pcs[i])),
            s.pushed, s.popped)
  }

  // ----- steps -----

  /** The phases that use a semaphore: the open slots, the full ones. */
  predicate AtOpen<T>(p: R.Phase<T>) {
    p.PushWait? || p.PopPost?
  }

  predicate AtFull<T>(p: R.Phase<T>) {
    p.PopWait? || p.PushPost?
  }

  /** Where a thread goes on when its call of the semaphore returns. */
  function Onward<T>(p: R.Phase<T>): R.Phase<T> {
    match p
    case PushWait(e) => R.PushWrite(e)
    case PushPost(idx) => R.PushDone(idx)
    case PopWait => R.PopTake
    case PopPost(e, idx) => R.PopDone(Some((e, idx)))
    case _ => p
  }

  /** A step inside a semaphore. A thread that returns from it goes on in the ring. */
  ghost predicate SemStep(a: S.State, a': S.State, i: nat, post: bool, wake: set<nat>) {
    && S.CanFire(a, i) && (S.Signals(a.pcs[i]) ==> S.Unblocks(a.pcs, wake)) && a' == S.Fire(a, i, post, wake)
  }

  predicate Returns(pc: S.Pc) {
    pc.WaitUnlock? || pc.PostUnlock?
  }

  ghost predicate OpenStep<T>(s: State<T>, s': State<T>, i: nat, wake: set<nat>) {
    && Sized(s) && i < |s.phases| && AtOpen(s.phases[i])
    && SemStep(s.open, s'.open, i, s.phases[i].PopPost?, wake)
    && s' == s.(open := s'.open,
                phases := if Returns(s.open.pcs[i]) then s.phases[i := Onward(s.phases[i])] else s.phases)
  }

  ghost predicate FullStep<T>(s: State<T>, s': State<T>, i: nat, wake: set<nat>) {
    && Sized(s) && i < |s.phases| && AtFull(s.phases[i])
    && SemStep(s.full, s'.full, i, s.phases[i].PushPost?, wake)
    && s' == s.(full := s'.full,
                phases := if Returns(s.full.pcs[i]) then s.phases[i := Onward(s.phases[i])] else s.phases)
  }

  ghost function Bare<T>(s: State<T>): R.State<T> {
    R.State(s.core, s.open.count, s.full.count, s.phases, s.pushed, s.popped)
  }

  ghost function Dressed<T>(s: State<T>, r: R.State<T>): State<T> {
    s.(core := r.core, phases := r.phases, pushed := r.pushed, popped := r.popped)
  }

  /** A step of the ring itself: a test, a write, a take. */
  ghost predicate RingStep<T>(s: State<T>, s': State<T>, i: nat) {
    && R.CanFire(Bare(s), i) && !AtOpen(s.phases[i]) && !AtFull(s.phases[i])
    && s' == Dressed(s, R.Fire(Bare(s), i))
  }

  ghost predicate CallStep<T>(s: State<T>, s': State<T>, i: nat, p: R.Phase<T>) {
    R.CanCall(Bare(s), i, p) && s' == s.(phases := s.phases[i := p])
  }

  ghost predicate WakeStep<T>(s: State<T>, s': State<T>, i: nat) {
    || (S.SpuriousWakeup(s.open, s'.open, i) && s' == s.(open := s'.open))
    || (S.SpuriousWakeup(s.full, s'.full, i) && s' == s.(full := s'.full))
  }

  ghost predicate StepBy<T(!new)>(s: State<T>, s': State<T>, i: nat, wake: set<nat>) {
    || OpenStep(s, s', i, wake) || FullStep(s, s', i, wake) || RingStep(s, s', i) || WakeStep(s, s', i)
    || exists p :: CallStep(s, s', i, p)
  }

  ghost predicate Step<T(!new)>(s: State<T>, s': State<T>) {
    exists i: nat, wake: set<nat> :: StepBy(s, s', i, wake)
  }

  ghost predicate IsRun<T(!new)>(n: nat, threads: nat, run: seq<State<T>>) {
    && run != [] && Init(run[0], n, threads)
    && forall j :: 0 <= j < |run| - 1 ==> Step(run[j], run[j + 1])
  }

  // ----- who is in which semaphore -----

  predicate InWait(pc: S.Pc) {
    pc.WaitLock? || pc.WaitTest? || pc.Asleep? || pc.Woken? || pc.WaitSignal? || pc.WaitUnlock?
  }

  predicate InPost(pc: S.Pc) {
    pc.PostLock? || pc.PostAdd? || pc.PostSignal? || pc.PostUnlock?
  }

  ghost predicate Coupled<T>(s: State<T>, i: nat)
    requires Sized(s) && i < |s.phases|
  {
    var p := s.phases[i];
    && (InWait(s.open.pcs[i]) ==> p.PushWait?) && (InPost(s.open.pcs[i]) ==> p.PopPost?)
    && (InWait(s.full.pcs[i]) ==> p.PopWait?) && (InPost(s.full.pcs[i]) ==> p.PushPost?)
  }

  ghost predicate Inv<T(!new)>(s: State<T>, n: nat) {
    && Sized(s) && S.Inv(s.open, n) && S.Inv(s.full, 0)
    && (forall i: nat :: i < |s.phases| ==> Coupled(s, i))
    && R.Inv(View(s), n)
  }

  // ----- refinement -----

  /** Seen with atomic counters, the step is one of RingMachine or none. */
  ghost predicate Refines<T(!new)>(s: State<T>, s': State<T>)
    requires Sized(s) && Sized(s')
  {
    View(s') == View(s) || R.Step(View(s), View(s'))
  }

  /** A step of a semaphore moves its own thread; others may be woken from their sleep. */
  lemma SemMoves(a: S.State, a': S.State, i: nat, post: bool, wake: set<nat>, x: nat)
    requires SemStep(a, a', i, post, wake) && x < |a.pcs| && x != i
    ensures |a'.pcs| == |a.pcs|
    ensures a'.pcs[x] == a.pcs[x] || (a.pcs[x].Asleep? && a'.pcs[x].Woken?)
  {
  }

  lemma OpenCoupled<T(!new)>(s: State<T>, s': State<T>, i: nat, wake: set<nat>, x: nat)
    requires OpenStep(s, s', i, wake) && x < |s.phases| && Coupled(s, x)
    ensures Sized(s') && |s'.phases| == |s.phases| && Coupled(s', x)
    ensures x != i ==>
      Seen(s'.phases[x], s'.open.pcs[x], s'.full.pcs[x]) == Seen(s.phases[x], s.open.pcs[x], s.full.pcs[x])
  {
    if x != i {
      SemMoves(s.open, s'.open, i, s.phases[i].PopPost?, wake, x);
    }
  }

  lemma FullCoupled<T(!new)>(s: State<T>, s': State<T>, i: nat, wake: set<nat>, x: nat)
    requires FullStep(s, s', i, wake) && x < |s.phases| && Coupled(s, x)
    ensures Sized(s') && |s'.phases| == |s.phases| && Coupled(s', x)
    ensures x != i ==>
      Seen(s'.phases[x], s'.open.pcs[x], s'.full.pcs[x]) == Seen(s.phases[x], s.open.pcs[x], s.full.pcs[x])
  {
    if x != i {
      SemMoves(s.full, s'.full, i, s.phases[i].PushPost?, wake, x);
    }
  }

  /** The decrement is the wait of the atomic counter, the increment its post; all other steps inside
      the semaphore are invisible. */
  lemma OpenSelf<T(!new)>(s: State<T>, s': State<T>, i: nat, wake: set<nat>)
    requires OpenStep(s, s', i, wake) && Coupled(s, i)
    ensures Sized(s') && |s'.phases| == |s.phases|
    ensures var seen, seen' := View(s).phases[i], View(s').phases[i];
            || (seen' == seen && s'.open.count == s.open.count)
            || (seen.PushWait? && seen' == Onward(seen) && s.open.count > 0 && s'.open.count == s.open.count - 1)
            || (seen.PopPost? && seen' == Onward(seen) && s'.open.count == s.open.count + 1)
  {
  }

  lemma FullSelf<T(!new)>(s: State<T>, s': State<T>, i: nat, wake: set<nat>)
    requires FullStep(s, s', i, wake) && Coupled(s, i)
    ensures Sized(s') && |s'.phases| == |s.phases|
    ensures var seen, seen' := View(s).phases[i], View(s').phases[i];
            || (seen' == seen && s'.full.count == s.full.count)
            || (seen.PopWait? && seen' == Onward(seen) && s.full.count > 0 && s'.full.count == s.full.count - 1)
            || (seen.PushPost? && seen' == Onward(seen) && s'.full.count == s.full.count + 1)
  {
  }

  lemma FiredView<T(!new)>(s: State<T>, s': State<T>, i: nat)
    requires Sized(s) && Sized(s') && i < |s.phases| == |s'.phases|
    requires s.core.tail < |s.core.buf| && s.core.head < |s.core.buf|
    requires s'.core == s.core && s'.pushed == s.pushed && s'.popped == s.popped
    requires View(s').phases == View(s).phases[i := Onward(View(s).phases[i])]
    requires var p := View(s).phases[i];
             || (p.PushWait? && s.open.count > 0 && s'.open.count == s.open.count - 1 && s'.full.count == s.full.count)
             || (p.PopPost? && s'.open.count == s.open.count + 1 && s'.full.count == s.full.count)
             || (p.PopWait? && s.full.count > 0 && s'.full.count == s.full.count - 1 && s'.open.count == s.open.count)
             || (p.PushPost? && s'.full.count == s.full.count + 1 && s'.open.count == s.open.count)
    ensures Refines(s, s')
  {
    assert R.CanFire(View(s), i);
    assert View(s') == R.Fire(View(s), i);
  }

  lemma OpenRefines<T(!new)>(s: State<T>, s': State<T>, i: nat, wake: set<nat>)
    requires OpenStep(s, s', i, wake) && s.core.tail < |s.core.buf| && s.core.head < |s.core.buf|
    requires forall x: nat :: x < |s.phases| ==> Coupled(s, x)
    ensures Sized(s') && Refines(s, s')
    ensures forall x: nat :: x < |s'.phases| ==> Coupled(s', x)
  {
    OpenSelf(s, s', i, wake);
    forall x: nat | x < |s.phases|
      ensures Coupled(s', x) && (x != i ==> View(s').phases[x] == View(s).phases[x])
    {
      OpenCoupled(s, s', i, wake, x);
    }
    assert View(s').phases == View(s).phases[i := View(s').phases[i]];
    if View(s').phases[i] != View(s).phases[i] {
      FiredView(s, s', i);
    }
  }

  lemma FullRefines<T(!new)>(s: State<T>, s': State<T>, i: nat, wake: set<nat>)
    requires FullStep(s, s', i, wake) && s.core.tail < |s.core.buf| && s.core.head < |s.core.buf|
    requires forall x: nat :: x < |s.phases| ==> Coupled(s, x)
    ensures Sized(s') && Refines(s, s')
    ensures forall x: nat :: x < |s'.phases| ==> Coupled(s', x)
  {
    FullSelf(s, s', i, wake);
    forall x: nat | x < |s.phases|
      ensures Coupled(s', x) && (x != i ==> View(s').phases[x] == View(s).phases[x])
    {
      FullCoupled(s, s', i, wake, x);
    }
    assert View(s').phases == View(s).phases[i := View(s').phases[i]];
    if View(s').phases[i] != View(s).phases[i] {
      FiredView(s, s', i);
    }
  }

  lemma RingRefines<T(!new)>(s: State<T>, s': State<T>, n: nat, i: nat)
    requires Inv(s, n) && RingStep(s, s', i)
    ensures Sized(s') && Refines(s, s')
    ensures forall x: nat :: x < |s'.phases| ==> Coupled(s', x)
  {
    assert Coupled(s, i);
    assert R.CanFire(View(s), i);
    forall x: nat | x < |s'.phases| ensures Coupled(s', x) {
      assert Coupled(s, x);
    }
    assert View(s').phases == R.Fire(View(s), i).phases;
  }

  lemma CallRefines<T(!new)>(s: State<T>, s': State<T>, n: nat, i: nat, p: R.Phase<T>)
    requires Inv(s, n) && CallStep(s, s', i, p)
    ensures Sized(s') && Refines(s, s')
    ensures forall x: nat :: x < |s'.phases| ==> Coupled(s', x)
  {
    assert Coupled(s, i);
    forall x: nat | x < |s'.phases| ensures Coupled(s', x) {
      assert Coupled(s, x);
    }
    assert R.CanCall(View(s), i, p);
    assert View(s').phases == R.At(View(s), i, p).phases;
    assert R.CanCall(View(s), i, p) && View(s') == R.At(View(s), i, p);
    assert (R.CanFire(View(s), i) && View(s') == R.Fire(View(s), i))
        || exists q :: R.CanCall(View(s), i, q) && View(s') == R.At(View(s), i, q);
  }

  lemma WakeRefines<T(!new)>(s: State<T>, s': State<T>, n: nat, i: nat)
    requires Inv(s, n) && WakeStep(s, s', i)
    ensures Sized(s') && View(s') == View(s)
    ensures forall x: nat :: x < |s'.phases| ==> Coupled(s', x)
  {
    forall x: nat | x < |s'.phases| ensures Coupled(s', x) {
      assert Coupled(s, x);
    }
    assert View(s').phases == View(s).phases;
  }

  lemma StepRefines<T(!new)>(s: State<T>, s': State<T>, n: nat)
    requires Inv(s, n) && Step(s, s')
    ensures Sized(s') && Refines(s, s')
    ensures forall x: nat :: x < |s'.phases| ==> Coupled(s', x)
  {
    var i: nat, wake: set<nat> :| StepBy(s, s', i, wake);
    if OpenStep(s, s', i, wake) {
      OpenRefines(s, s', i, wake);
    } else if FullStep(s, s', i, wake) {
      FullRefines(s, s', i, wake);
    } else if RingStep(s, s', i) {
      RingRefines(s, s', n, i);
    } else if WakeStep(s, s', i) {
      WakeRefines(s, s', n, i);
    } else {
      var p :| CallStep(s, s', i, p);
      CallRefines(s, s', n, i, p);
    }
  }

  /** Each semaphore is used as Semaphores allows. */
  lemma SemsKept<T(!new)>(s: State<T>, s': State<T>, n: nat)
    requires Inv(s, n) && Step(s, s')
    ensures S.Inv(s'.open, n) && S.Inv(s'.full, 0)
  {
    var i: nat, wake: set<nat> :| StepBy(s, s', i, wake);
    if OpenStep(s, s', i, wake) {
      S.FireKeepsInv(s.open, n, i, s.phases[i].PopPost?, wake);
    } else if FullStep(s, s', i, wake) {
      S.FireKeepsInv(s.full, 0, i, s.phases[i].PushPost?, wake);
    } else if S.SpuriousWakeup(s.open, s'.open, i) {
      S.SpuriousKeepsInv(s.open, s'.open, n, i);
    } else if S.SpuriousWakeup(s.full, s'.full, i) {
      S.SpuriousKeepsInv(s.full, s'.full, 0, i);
    }
  }

  lemma StepKeepsInv<T(!new)>(s: State<T>, s': State<T>, n: nat)
    requires Inv(s, n) && Step(s, s')
    ensures Inv(s', n) && Refines(s, s')
  {
    StepRefines(s, s', n);
    SemsKept(s, s', n);
    if View(s') != View(s) {
      R.StepKeepsInv(View(s), View(s'), n);
    }
  }

  lemma InitInv<T(!new)>(s: State<T>, n: nat, threads: nat)
    requires Init(s, n, threads)
    ensures Inv(s, n)
  {
    assert View(s).phases == seq(threads, _ => R.Quiet);
    R.InitInv(View(s), n, threads);
    S.RunKeepsInv(n, [s.open]);
    S.RunKeepsInv(0, [s.full]);
  }

  /** The ring on its real semaphores, over every interleaving and with spurious wakeups: seen with
      atomic counters it is in a state that keeps all of RingMachine's promises, so tokens are
      conserved, elements come out in order, slot i mod n belongs to the i-th push and the i-th pop,
      and no exit on a negative size is reached. */
  lemma {:induction false} RunKeepsInv<T(!new)>(n: nat, threads: nat, run: seq<State<T>>)
    requires IsRun(n, threads, run)
    ensures Inv(run[|run| - 1], n)
    ensures var s := run[|run| - 1];
            s.popped <= s.pushed && 0 <= s.core.size <= n && s.core.size == |s.pushed| - |s.popped|
  {
    var last := |run| - 1;
    if last == 0 {
      InitInv(run[0], n, threads);
    } else {
      RunKeepsInv(n, threads, run[..last]);
      assert Step(run[last - 1], run[last - 1 + 1]);
      StepKeepsInv(run[last - 1], run[last], n);
    }
  }
}
