/** The ring buffer shared by any number of producers and consumers, as a step machine. The
    semaphores are atomic counters here; the module RingOnSemaphores justifies that. */
module RingMachine {
  import opened Common
  import opened Rings

  datatype Phase<T> =
    | Quiet                             // not in a ring operation
    | PushTest(e: T)                    // about to test isFull
    | PushWait(e: T)                    // about to wait for an open slot
    | PushWrite(e: T)                   // has the token, about to write
    | PushPost(idx: nat)                // about to post a full slot
    | PushDone(ret: int)
    | PopTest                           // about to test isEmpty
    | PopWait                           // about to wait for a full slot
    | PopTake                           // has the token, about to read
    | PopPost(e: T, idx: nat)           // about to post an open slot
    | PopDone(got: Option<(T, nat)>)
    | Crashed                           // std::exit after a negative size

  /** `pushed` and `popped` list the elements in lock order. */
  datatype State<T> = State(
    core: Core<T>, open: nat, full: nat, phases: seq<Phase<T>>, pushed: seq<T>, popped: seq<T>)

  function At<T>(s: State<T>, i: nat, p: Phase<T>): State<T>
    requires i < |s.phases|
  {
    s.(phases := s.phases[i := p])
  }

  ghost predicate Init<T>(s: State<T>, n: nat, threads: nat) {
    && n > 0 && |s.core.buf| == n && s.core.head == s.core.tail == s.core.size == 0
    && s.open == n && s.full == 0 && s.pushed == [] && s.popped == []
    && s.phases == seq(threads, _ => Quiet)
  }

  /** Inside an operation only the two semaphore waits can block. */
  ghost predicate CanFire<T>(s: State<T>, i: nat) {
    && i < |s.phases|
    && s.core.tail < |s.core.buf| && s.core.head < |s.core.buf|
    && match s.phases[i] {
         case PushTest(_) => true
         case PushWait(_) => s.open > 0
         case PushWrite(_) => true
         case PushPost(_) => true
         case PopTest => true
         case PopWait => s.full > 0
         case PopTake => true
         case PopPost(_, _) => true
         case _ => false
       }
  }

  ghost function Fire<T>(s: State<T>, i: nat): State<T>
    requires CanFire(s, i)
  {
    match s.phases[i]
    case PushTest(e) => At(s, i, if s.core.size == |s.core.buf| then PushDone(-1) else PushWait(e))
    case PushWait(e) => At(s, i, PushWrite(e)).(open := s.open - 1)
    case PushWrite(e) =>
      var core := Put(s.core, e);
      At(s, i, if core.size < 0 then Crashed else PushPost(s.core.tail)).(core := core, pushed := s.pushed + [e])
    case PushPost(idx) => At(s, i, PushDone(idx)).(full := s.full + 1)
    case PopTest => At(s, i, if s.core.size == 0 then PopDone(None) else PopWait)
    case PopWait => At(s, i, PopTake).(full := s.full - 1)
    case PopTake =>
      var core := Take(s.core);
      var e := s.core.buf[s.core.head];
      At(s, i, if core.size < 0 then Crashed else PopPost(e, s.core.head)).(core := core, popped := s.popped + [e])
    case PopPost(e, idx) => At(s, i, PopDone(Some((e, idx)))).(open := s.open + 1)
  }

  /** A thread outside the ring starts an operation, and leaves with its result. */
  ghost predicate CanCall<T>(s: State<T>, i: nat, p: Phase<T>) {
    && i < |s.phases|
    && ((s.phases[i].Quiet? && (p.PushTest? || p.PopTest?))
        || ((s.phases[i].PushDone? || s.phases[i].PopDone?) && (p.Quiet? || p.PushTest? || p.PopTest?)))
  }

  ghost predicate Step<T(!new)>(s: State<T>, s': State<T>) {
    exists i: nat :: (CanFire(s, i) && s' == Fire(s, i)) || exists p :: CanCall(s, i, p) && s' == At(s, i, p)
  }

  ghost predicate IsRun<T(!new)>(n: nat, threads: nat, run: seq<State<T>>) {
    && run != [] && Init(run[0], n, threads)
    && forall j :: 0 <= j < |run| - 1 ==> Step(run[j], run[j + 1])
  }

  // ----- the invariant -----

  function Writing<T>(p: Phase<T>): nat { if p.PushWrite? then 1 else 0 }
  function Wrote<T>(p: Phase<T>): nat { if p.PushPost? then 1 else 0 }
  function Taking<T>(p: Phase<T>): nat { if p.PopTake? then 1 else 0 }
  function Took<T>(p: Phase<T>): nat { if p.PopPost? then 1 else 0 }

  ghost function Queue<T>(s: State<T>): seq<T>
    requires |s.popped| <= |s.pushed|
  {
    s.pushed[|s.popped|..]
  }

  ghost predicate Inv<T(!new)>(s: State<T>, n: nat) {
    // tokens
    && s.core.size == s.full + Sum(s.phases, Wrote) + Sum(s.phases, Taking)
    && n == s.core.size + s.open + Sum(s.phases, Writing) + Sum(s.phases, Took)
    // contents
    && n > 0 && |s.core.buf| == n
    && s.popped <= s.pushed
    && Holds(s.core, Queue(s))
    && s.core.head == |s.popped| % n
    && s.core.tail == |s.pushed| % n
    && forall i :: 0 <= i < |s.phases| ==> !s.phases[i].Crashed?
  }

  lemma InitInv<T(!new)>(s: State<T>, n: nat, threads: nat)
    requires Init(s, n, threads)
    ensures Inv(s, n)
  {
    SumZero(s.phases, Writing);
    SumZero(s.phases, Wrote);
    SumZero(s.phases, Taking);
    SumZero(s.phases, Took);
    DivModUnique(0, n, 0, 0);
  }

  /** How the four sums change when one phase does. */
  lemma SumsAt<T>(s: State<T>, i: nat, p: Phase<T>)
    requires i < |s.phases|
    ensures Sum(s.phases[i := p], Writing) + Writing(s.phases[i]) == Sum(s.phases, Writing) + Writing(p)
    ensures Sum(s.phases[i := p], Wrote) + Wrote(s.phases[i]) == Sum(s.phases, Wrote) + Wrote(p)
    ensures Sum(s.phases[i := p], Taking) + Taking(s.phases[i]) == Sum(s.phases, Taking) + Taking(p)
    ensures Sum(s.phases[i := p], Took) + Took(s.phases[i]) == Sum(s.phases, Took) + Took(p)
    ensures Writing(s.phases[i]) <= Sum(s.phases, Writing) && Taking(s.phases[i]) <= Sum(s.phases, Taking)
    ensures Wrote(s.phases[i]) <= Sum(s.phases, Wrote) && Took(s.phases[i]) <= Sum(s.phases, Took)
  {
    SumUpdate(s.phases, i, p, Writing);
    SumUpdate(s.phases, i, p, Wrote);
    SumUpdate(s.phases, i, p, Taking);
    SumUpdate(s.phases, i, p, Took);
    SumAtLeast(s.phases, i, Writing);
    SumAtLeast(s.phases, i, Wrote);
    SumAtLeast(s.phases, i, Taking);
    SumAtLeast(s.phases, i, Took);
  }

  /** In every reachable state the tokens add up to the capacity, `_size` stays between 0 and
      the capacity, and the tail is where head and size say. */
  lemma TokensConserved<T(!new)>(s: State<T>, n: nat)
    requires Inv(s, n)
    ensures s.open + s.full + (Sum(s.phases, Writing) + Sum(s.phases, Wrote))
            + (Sum(s.phases, Taking) + Sum(s.phases, Took)) == n
    ensures 0 <= s.core.size <= n && s.core.tail == (s.core.head + s.core.size) % n
  {
  }

  /** The push in slot order: the i-th write (from 0) goes to slot i mod n and reports it, and
      the slot holds no element that is still queued. */
  lemma WriteInOrder<T(!new)>(s: State<T>, n: nat, i: nat)
    requires Inv(s, n) && CanFire(s, i) && s.phases[i].PushWrite?
    ensures Inv(Fire(s, i), n)
    ensures Fire(s, i).phases[i] == PushPost(|s.pushed| % n)
    ensures Fire(s, i).core.buf[|s.pushed| % n] == s.phases[i].e
    ensures |s.pushed| - |s.popped| < n
    ensures forall j :: |s.popped| <= j < |s.pushed| ==> j % n != |s.pushed| % n
  {
    SumsAt(s, i, Fire(s, i).phases[i]);
    PutAppends(s.core, Queue(s), s.phases[i].e);
    ModAdd(|s.pushed|, 1, n);
    assert Queue(Fire(s, i)) == Queue(s) + [s.phases[i].e];
    SlotsApart(|s.popped|, |s.pushed|, n);
  }

  /** Fewer than `n` numbers in front of `hi` have other slots than `hi`. */
  lemma SlotsApart(lo: nat, hi: nat, n: nat)
    requires n > 0 && lo <= hi < lo + n
    ensures forall j :: lo <= j < hi ==> j % n != hi % n
  {
    forall j | lo <= j < hi ensures j % n != hi % n {
      ModApart(j, hi, n);
    }
  }

  /** The i-th take reads the i-th element pushed, from slot i mod n. */
  lemma TakeInOrder<T(!new)>(s: State<T>, n: nat, i: nat)
    requires Inv(s, n) && CanFire(s, i) && s.phases[i].PopTake?
    ensures Inv(Fire(s, i), n)
    ensures |s.popped| < |s.pushed|
    ensures Fire(s, i).phases[i] == PopPost(s.pushed[|s.popped|], |s.popped| % n)
    ensures Fire(s, i).popped == s.popped + [s.pushed[|s.popped|]]
  {
    SumsAt(s, i, Fire(s, i).phases[i]);
    TakeRemoves(s.core, Queue(s));
    ModAdd(|s.popped|, 1, n);
    assert Queue(Fire(s, i)) == Queue(s)[1..];
  }

  lemma FireKeepsInv<T(!new)>(s: State<T>, n: nat, i: nat)
    requires Inv(s, n) && CanFire(s, i)
    ensures Inv(Fire(s, i), n)
  {
    if s.phases[i].PushWrite? {
      WriteInOrder(s, n, i);
    } else if s.phases[i].PopTake? {
      TakeInOrder(s, n, i);
    } else {
      SumsAt(s, i, Fire(s, i).phases[i]);
    }
  }

  lemma CallKeepsInv<T(!new)>(s: State<T>, n: nat, i: nat, p: Phase<T>)
    requires Inv(s, n) && CanCall(s, i, p)
    ensures Inv(At(s, i, p), n)
  {
    SumsAt(s, i, p);
  }

  lemma StepKeepsInv<T(!new)>(s: State<T>, s': State<T>, n: nat)
    requires Inv(s, n) && Step(s, s')
    ensures Inv(s', n)
  {
    var i: nat :| (CanFire(s, i) && s' == Fire(s, i)) || exists p :: CanCall(s, i, p) && s' == At(s, i, p);
    if CanFire(s, i) && s' == Fire(s, i) {
      FireKeepsInv(s, n, i);
    } else {
      var p :| CanCall(s, i, p) && s' == At(s, i, p);
      CallKeepsInv(s, n, i, p);
    }
  }

  /** Over every interleaving: tokens are conserved, the elements popped are a prefix of the
      elements pushed, and neither exit on a negative size is reached. */
  lemma {:induction false} RunKeepsInv<T(!new)>(n: nat, threads: nat, run: seq<State<T>>)
    requires IsRun(n, threads, run)
    ensures Inv(run[|run| - 1], n)
  {
    var last := |run| - 1;
    if last == 0 {
      InitInv(run[0], n, threads);
    } else {
      RunKeepsInv(n, threads, run[..last]);
      assert Step(run[last - 1], run[last - 1 + 1]);
      StepKeepsInv(run[last - 1], run[last], n);
    }
  }

  /** A `push_back` is refused exactly if the queue is full at its test, a `pop` finds nothing exactly if it
      is empty at its test. */
  lemma TestsTellTheQueue<T(!new)>(s: State<T>, n: nat, i: nat)
    requires Inv(s, n) && CanFire(s, i)
    ensures s.phases[i].PushTest? ==>
      Fire(s, i).phases[i] == if |Queue(s)| == n then PushDone(-1) else PushWait(s.phases[i].e)
    ensures s.phases[i].PopTest? ==>
      Fire(s, i).phases[i] == if Queue(s) == [] then PopDone(None) else PopWait
  {
    assert s.core.size == |Queue(s)|;
  }

  /** Seen from outside, every step appends one element to a queue that is not full, takes the
      front of a queue that is not empty, or does nothing: the ring is a bounded FIFO queue. */
  lemma FireRefinesQueue<T(!new)>(s: State<T>, n: nat, i: nat)
    requires Inv(s, n) && CanFire(s, i)
    ensures Inv(Fire(s, i), n)
    ensures s.phases[i].PushWrite? ==> |Queue(s)| < n && Queue(Fire(s, i)) == Queue(s) + [s.phases[i].e]
    ensures s.phases[i].PopTake? ==>
      && Queue(s) != [] && Queue(Fire(s, i)) == Queue(s)[1..]
      && Fire(s, i).phases[i] == PopPost(Queue(s)[0], |s.popped| % n)
    ensures !s.phases[i].PushWrite? && !s.phases[i].PopTake? ==> Queue(Fire(s, i)) == Queue(s)
  {
    FireKeepsInv(s, n, i);
    if s.phases[i].PushWrite? {
      WriteInOrder(s, n, i);
    } else if s.phases[i].PopTake? {
      TakeInOrder(s, n, i);
    }
  }
}
