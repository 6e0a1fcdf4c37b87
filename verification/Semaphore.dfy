/** The counting semaphore built from a mutex, a condition variable and a counter, as a step
    machine. `pthread_cond_wait` and `pthread_cond_signal` follow the System Interfaces volume
    of IEEE Std 1003.1-2017: a signal unblocks at least one sleeper, and a sleeper may also
    wake up for no reason. */
module Semaphores {
  import opened Common

  datatype Pc =
    | Idle
    | WaitLock              // in wait: about to lock the mutex
    | WaitTest(woken: bool) // holds the mutex, about to test the counter
    | Asleep                // in pthread_cond_wait, the mutex released
    | Woken                 // out of the sleep, about to lock the mutex again
    | WaitSignal            // took a token and left some: about to signal
    | WaitUnlock
    | PostLock
    | PostAdd
    | PostSignal
    | PostUnlock

  /** What one thread has done: the tokens it took and gave, and its calls that have returned. */
  datatype Record = Record(took: nat, gave: nat, waits: nat, posts: nat)

  datatype State = State(count: nat, mutex: Option<nat>, pcs: seq<Pc>, records: seq<Record>)

  ghost predicate Init(s: State, value: nat) {
    && s.count == value && s.mutex == None && |s.records| == |s.pcs|
    && (forall i :: 0 <= i < |s.pcs| ==> s.pcs[i] == Idle)
    && (forall i :: 0 <= i < |s.records| ==> s.records[i] == Record(0, 0, 0, 0))
  }

  ghost predicate CanFire(s: State, i: nat) {
    && i < |s.pcs| == |s.records|
    && match s.pcs[i] {
         case WaitLock => s.mutex == None
         case Woken => s.mutex == None
         case PostLock => s.mutex == None
         case Asleep => false
         case _ => true
       }
  }

  function Waken(pcs: seq<Pc>, wake: set<nat>): seq<Pc> {
    seq(|pcs|, j requires 0 <= j < |pcs| => if j in wake && pcs[j].Asleep? then Woken else pcs[j])
  }

  /** Some sleeper is unblocked if there is any. */
  ghost predicate Unblocks(pcs: seq<Pc>, wake: set<nat>) {
    (exists j :: 0 <= j < |pcs| && pcs[j].Asleep?) ==> exists j :: 0 <= j < |pcs| && pcs[j].Asleep? && j in wake
  }

  ghost function Fire(s: State, i: nat, post: bool, wake: set<nat>): State
    requires CanFire(s, i)
  {
    match s.pcs[i]
    case Idle => s.(pcs := s.pcs[i := if post then PostLock else WaitLock])
    case WaitLock => s.(mutex := Some(i), pcs := s.pcs[i := WaitTest(false)])
    case Woken => s.(mutex := Some(i), pcs := s.pcs[i := WaitTest(true)])
    case WaitTest(_) =>
      if s.count <= 0 then s.(mutex := None, pcs := s.pcs[i := Asleep])
      else
        s.(count := s.count - 1,
           pcs := s.pcs[i := if s.count - 1 > 0 then WaitSignal else WaitUnlock],
           records := s.records[i := s.records[i].(took := s.records[i].took + 1)])
    case WaitSignal => s.(pcs := Waken(s.pcs, wake)[i := WaitUnlock])
    case WaitUnlock =>
      s.(mutex := None, pcs := s.pcs[i := Idle],
         records := s.records[i := s.records[i].(waits := s.records[i].waits + 1)])
    case PostLock => s.(mutex := Some(i), pcs := s.pcs[i := PostAdd])
    case PostAdd =>
      s.(count := s.count + 1,
         pcs := s.pcs[i := if s.count + 1 > 0 then PostSignal else PostUnlock],
         records := s.records[i := s.records[i].(gave := s.records[i].gave + 1)])
    case PostSignal => s.(pcs := Waken(s.pcs, wake)[i := PostUnlock])
    case PostUnlock =>
      s.(mutex := None, pcs := s.pcs[i := Idle],
         records := s.records[i := s.records[i].(posts := s.records[i].posts + 1)])
  }

  ghost predicate Signals(pc: Pc) {
    pc.WaitSignal? || pc.PostSignal?
  }

  ghost predicate SpuriousWakeup(s: State, s': State, i: nat) {
    i < |s.pcs| && s.pcs[i].Asleep? && s' == s.(pcs := s.pcs[i := Woken])
  }

  ghost predicate StepBy(s: State, s': State, i: nat, post: bool, wake: set<nat>) {
    || (CanFire(s, i) && (Signals(s.pcs[i]) ==> Unblocks(s.pcs, wake)) && s' == Fire(s, i, post, wake))
    || SpuriousWakeup(s, s', i)
  }

  ghost predicate Step(s: State, s': State) {
    exists i: nat, post: bool, wake: set<nat> :: StepBy(s, s', i, post, wake)
  }

  ghost predicate IsRun(value: nat, run: seq<State>) {
    run != [] && Init(run[0], value) && forall n :: 0 <= n < |run| - 1 ==> Step(run[n], run[n + 1])
  }

  // ----- the invariant -----

  predicate HoldsMutex(pc: Pc) {
    pc.WaitTest? || pc.WaitSignal? || pc.WaitUnlock? || pc.PostAdd? || pc.PostSignal? || pc.PostUnlock?
  }

  /** A thread that will look at the counter, or wake one that will. */
  function OnItsWay(pc: Pc): nat {
    if pc.Woken? || pc == WaitTest(true) || pc.PostSignal? then 1 else 0
  }

  ghost predicate SomeoneSleeps(pcs: seq<Pc>) {
    exists i :: 0 <= i < |pcs| && pcs[i].Asleep?
  }

  ghost predicate MutexRight(s: State, i: nat) {
    s.mutex == Some(i) <==> i < |s.pcs| && HoldsMutex(s.pcs[i])
  }

  function Took(r: Record): nat { r.took }
  function Gave(r: Record): nat { r.gave }
  function Waits(r: Record): nat { r.waits }
  function Posts(r: Record): nat { r.posts }

  /** In `wait` with its token, and in `post` with the token given. */
  function TookNow(pc: Pc): nat { if pc.WaitSignal? || pc.WaitUnlock? then 1 else 0 }
  function GaveNow(pc: Pc): nat { if pc.PostSignal? || pc.PostUnlock? then 1 else 0 }

  /** Every `wait` that has returned took one token, every `post` gave one, and a call under way
      has taken or given at most one. */
  ghost predicate CallsRight(s: State, i: nat)
    requires i < |s.pcs| == |s.records|
  {
    && s.records[i].took == s.records[i].waits + TookNow(s.pcs[i])
    && s.records[i].gave == s.records[i].posts + GaveNow(s.pcs[i])
  }

  ghost predicate Locked(s: State) {
    forall i: nat :: MutexRight(s, i)
  }

  ghost predicate Accounted(s: State, value: nat) {
    && |s.records| == |s.pcs|
    && s.count + Sum(s.records, Took) == value + Sum(s.records, Gave)
    && forall i: nat :: i < |s.pcs| ==> CallsRight(s, i)
  }

  /** No token is left to a sleeper that nobody will wake. */
  ghost predicate NobodyStranded(s: State) {
    SomeoneSleeps(s.pcs) ==> s.count <= Sum(s.pcs, OnItsWay)
  }

  ghost predicate Inv(s: State, value: nat) {
    Locked(s) && Accounted(s, value) && NobodyStranded(s)
  }

  lemma {:induction false} WakenSum(pcs: seq<Pc>, wake: set<nat>, j: nat)
    ensures Sum(Waken(pcs, wake), OnItsWay) >= Sum(pcs, OnItsWay)
    ensures j < |pcs| && pcs[j].Asleep? && j in wake ==> Sum(Waken(pcs, wake), OnItsWay) >= Sum(pcs, OnItsWay) + 1
  {
    if pcs == [] {
    } else {
      var n := |pcs| - 1;
      WakenSum(pcs[..n], wake, j);
      assert Waken(pcs, wake)[..n] == Waken(pcs[..n], wake);
    }
  }

  lemma FireKeepsLocked(s: State, i: nat, post: bool, wake: set<nat>)
    requires Locked(s) && CanFire(s, i)
    ensures Locked(Fire(s, i, post, wake))
  {
    var s' := Fire(s, i, post, wake);
    forall x: nat ensures MutexRight(s', x) {
      assert MutexRight(s, x) && MutexRight(s, i);
    }
  }

  lemma FireKeepsCallsRight(s: State, i: nat, post: bool, wake: set<nat>, x: nat)
    requires CanFire(s, i) && x < |s.pcs| && CallsRight(s, x)
    ensures |Fire(s, i, post, wake).records| == |s.records| == |Fire(s, i, post, wake).pcs|
    ensures CallsRight(Fire(s, i, post, wake), x)
  {
  }

  lemma FireKeepsAccounts(s: State, value: nat, i: nat, post: bool, wake: set<nat>)
    requires Accounted(s, value) && CanFire(s, i)
    ensures Accounted(Fire(s, i, post, wake), value)
  {
    var s' := Fire(s, i, post, wake);
    SumUpdate(s.records, i, s'.records[i], Took);
    SumUpdate(s.records, i, s'.records[i], Gave);
    assert s'.records == s.records[i := s'.records[i]];
    forall x: nat | x < |s'.pcs| ensures CallsRight(s', x) {
      FireKeepsCallsRight(s, i, post, wake, x);
    }
  }

  lemma SignalStrandsNobody(s: State, i: nat, wake: set<nat>)
    requires NobodyStranded(s) && CanFire(s, i) && Signals(s.pcs[i]) && Unblocks(s.pcs, wake)
    ensures NobodyStranded(Fire(s, i, false, wake))
  {
    var woken := Waken(s.pcs, wake);
    var s' := Fire(s, i, false, wake);
    SumUpdate(woken, i, s'.pcs[i], OnItsWay);
    WakenSum(s.pcs, wake, 0);
    if SomeoneSleeps(s'.pcs) {
      var x :| 0 <= x < |s'.pcs| && s'.pcs[x].Asleep?;
      assert s.pcs[x].Asleep?;
      var j :| 0 <= j < |s.pcs| && s.pcs[j].Asleep? && j in wake;
      WakenSum(s.pcs, wake, j);
    }
  }

  lemma FireStrandsNobody(s: State, i: nat, post: bool, wake: set<nat>)
    requires NobodyStranded(s) && CanFire(s, i) && (Signals(s.pcs[i]) ==> Unblocks(s.pcs, wake))
    ensures NobodyStranded(Fire(s, i, post, wake))
  {
    if Signals(s.pcs[i]) {
      SignalStrandsNobody(s, i, wake);
    } else {
      var s' := Fire(s, i, post, wake);
      SumUpdate(s.pcs, i, s'.pcs[i], OnItsWay);
      if SomeoneSleeps(s'.pcs) && s'.count > 0 {
        var x :| 0 <= x < |s'.pcs| && s'.pcs[x].Asleep?;
        assert s.pcs[x].Asleep?;
      }
    }
  }

  lemma FireKeepsInv(s: State, value: nat, i: nat, post: bool, wake: set<nat>)
    requires Inv(s, value) && CanFire(s, i) && (Signals(s.pcs[i]) ==> Unblocks(s.pcs, wake))
    ensures Inv(Fire(s, i, post, wake), value)
  {
    FireKeepsLocked(s, i, post, wake);
    FireKeepsAccounts(s, value, i, post, wake);
    FireStrandsNobody(s, i, post, wake);
  }

  lemma SpuriousKeepsInv(s: State, s': State, value: nat, i: nat)
    requires Inv(s, value) && SpuriousWakeup(s, s', i)
    ensures Inv(s', value)
  {
    SumUpdate(s.pcs, i, Woken, OnItsWay);
    forall x: nat ensures MutexRight(s', x) {
      assert MutexRight(s, x);
    }
    forall x: nat | x < |s'.pcs| ensures CallsRight(s', x) {
      assert CallsRight(s, x);
    }
    if SomeoneSleeps(s'.pcs) {
      assert SomeoneSleeps(s.pcs);
    }
  }

  lemma StepKeepsInv(s: State, s': State, value: nat)
    requires Inv(s, value) && Step(s, s')
    ensures Inv(s', value)
  {
    var i: nat, post: bool, wake: set<nat> :| StepBy(s, s', i, post, wake);
    if SpuriousWakeup(s, s', i) {
      SpuriousKeepsInv(s, s', value, i);
    } else {
      FireKeepsInv(s, value, i, post, wake);
    }
  }

  /** In every reachable state: tokens and calls are accounted for, and while anyone sleeps every
      token has a thread on its way to it. */
  lemma {:induction false} RunKeepsInv(value: nat, run: seq<State>)
    requires IsRun(value, run)
    ensures Inv(run[|run| - 1], value)
  {
    var n := |run| - 1;
    if n == 0 {
      assert !SomeoneSleeps(run[0].pcs);
      SumSameWeights(run[0].records, Took, Gave);
    } else {
      RunKeepsInv(value, run[..n]);
      assert Step(run[n - 1], run[n - 1 + 1]);
      StepKeepsInv(run[n - 1], run[n], value);
    }
  }

  /** The counter in terms of calls: the initial value, plus the posts that have returned or are
      past their increment, minus the waits that have returned or are past their decrement. */
  lemma CountIsCalls(s: State, value: nat)
    requires Inv(s, value)
    ensures s.count + Sum(s.records, Waits) + Sum(s.pcs, TookNow) == value + Sum(s.records, Posts) + Sum(s.pcs, GaveNow)
  {
    forall i: nat | i < |s.pcs|
      ensures Took(s.records[i]) == Waits(s.records[i]) + TookNow(s.pcs[i])
      ensures Gave(s.records[i]) == Posts(s.records[i]) + GaveNow(s.pcs[i])
    {
      assert CallsRight(s, i);
    }
    SumSplits(s.records, s.pcs, Took, Waits, TookNow);
    SumSplits(s.records, s.pcs, Gave, Posts, GaveNow);
  }

  /** With nobody inside, the counter is the initial value plus the posts minus the waits. */
  lemma CountAtRest(s: State, value: nat)
    requires Inv(s, value) && forall i :: 0 <= i < |s.pcs| ==> s.pcs[i].Idle?
    ensures s.count + Sum(s.records, Waits) == value + Sum(s.records, Posts)
  {
    CountIsCalls(s, value);
    SumZero(s.pcs, TookNow);
    SumZero(s.pcs, GaveNow);
  }

  // ----- refinement of an atomic counter -----

  datatype Event = Tau | P(thread: nat) | V(thread: nat)

  /** The atomic semaphore: P takes a token if there is one, V adds one. */
  ghost predicate AtomicStep(n: nat, e: Event, n': nat) {
    match e
    case Tau => n' == n
    case P(_) => n > 0 && n' == n - 1
    case V(_) => n' == n + 1
  }

  /** Thread `x` returns from `wait` or `post` in this step. */
  ghost predicate Returns(s: State, s': State, x: nat) {
    x < |s.pcs| == |s'.pcs| && !s.pcs[x].Idle? && s'.pcs[x].Idle?
  }

  /** Each step is a P by a thread inside `wait`, a V by one inside `post`, or invisible, and a
      thread that returns has made as many Ps as it has called `wait`, Vs as it has called `post`:
      one for each call. */
  lemma StepRefinesAtomic(s: State, s': State, value: nat) returns (e: Event)
    requires Inv(s, value) && Step(s, s')
    ensures AtomicStep(s.count, e, s'.count)
    ensures |s'.records| == |s.records|
    ensures forall x :: 0 <= x < |s.records| ==>
      && s'.records[x].took == s.records[x].took + (if e == P(x) then 1 else 0)
      && s'.records[x].gave == s.records[x].gave + (if e == V(x) then 1 else 0)
    ensures e.P? ==> e.thread < |s.pcs| && s.pcs[e.thread].WaitTest?
    ensures e.V? ==> e.thread < |s.pcs| && s.pcs[e.thread].PostAdd?
    ensures forall x: nat :: Returns(s, s', x) && x < |s'.records| ==>
      s'.records[x].took == s'.records[x].waits && s'.records[x].gave == s'.records[x].posts
  {
    var i: nat, post: bool, wake: set<nat> :| StepBy(s, s', i, post, wake);
    e := if s'.count < s.count then P(i) else if s'.count > s.count then V(i) else Tau;
    StepKeepsInv(s, s', value);
    forall x: nat | Returns(s, s', x)
      ensures s'.records[x].took == s'.records[x].waits && s'.records[x].gave == s'.records[x].posts
    {
      assert CallsRight(s', x);
    }
  }

  /** A `wait` is held up only while the counter is 0: with a token left and a thread inside
      `wait`, some thread inside an operation can go on without any spurious wakeup. */
  lemma NoTokenStranded(s: State, value: nat, waiter: nat) returns (i: nat)
    requires Inv(s, value) && s.count > 0
    requires waiter < |s.pcs| && (s.pcs[waiter].WaitLock? || s.pcs[waiter].Asleep? || s.pcs[waiter].Woken?)
    ensures i < |s.pcs| && !s.pcs[i].Idle? && CanFire(s, i)
  {
    i := waiter;
    if s.mutex.Some? {
      i := s.mutex.value;
      assert MutexRight(s, i);
    } else if s.pcs[waiter].Asleep? {
      i := SumWitness(s.pcs, OnItsWay);
    }
  }
}
