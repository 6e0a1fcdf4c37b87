/** Why the shutdown needs an empty ring: the loop that pushes the exits ignores that `push_back` can
    fail, and with requests left in the ring it can. */
module ShutdownLoss {
  import opened Common
  import opened Rings
  import RingMachine
  import opened Shutdown

  ghost predicate Continues<B(!new)>(n: nat, run: seq<State<B>>) {
    run != [] && forall k :: 0 <= k < |run| - 1 ==> Step(run[k], n, run[k + 1])
  }

  ghost predicate Reaches<B(!new)>(n: nat, s0: State<B>, s: State<B>) {
    exists run: seq<State<B>> :: Continues(n, run) && run[0] == s0 && run[|run| - 1] == s
  }

  lemma ReachOn<B(!new)>(n: nat, s0: State<B>, s: State<B>, i: nat)
    requires Reaches(n, s0, s) && CanAct(s, n, i)
    ensures Reaches(n, s0, Act(s, n, i))
  {
    var run: seq<State<B>> :| Continues(n, run) && run[0] == s0 && run[|run| - 1] == s;
    var s' := Act(s, n, i);
    var run' := run + [s'];
    assert Step(s, n, s');
    forall k | 0 <= k < |run'| - 1 ensures Step(run'[k], n, run'[k + 1]) {
      if k < |run| - 1 {
        assert Step(run[k], n, run[k + 1]);
      }
    }
    assert Continues(n, run') && run'[0] == s0 && run'[|run'| - 1] == s';
  }

  /** Every worker serves a request, and `left` requests wait in the ring. */
  ghost function AllBusy<B(!new)>(n: nat, left: nat, b: B): State<B>
    requires 0 < n && left <= n
  {
    var jobs := seq(left, _ => Job(b));
    var core := Core(seq(n, _ => Job(b)), 0, left % n, left);
    State(RingMachine.State(core, n - left, left, seq(n + 1, _ => RingMachine.Quiet), jobs, []),
          seq(n, _ => Busy), 0, 0)
  }

  lemma AllBusyStarts<B(!new)>(n: nat, left: nat, b: B)
    requires 0 < n && left <= n
    ensures InitWith(AllBusy(n, left, b), n, left, left)
  {
    var s := AllBusy(n, left, b);
    assert RingMachine.Queue(s.ring) == s.ring.pushed;
    SumZero(s.ring.phases, RingMachine.Writing);
    SumZero(s.ring.phases, RingMachine.Wrote);
    SumZero(s.ring.phases, RingMachine.Taking);
    SumZero(s.ring.phases, RingMachine.Took);
    DivModUnique(0, n, 0, 0);
    assert Slot(s.ring.core, left) == left % n;
  }

  /** The main thread between two pushes, `m` of them done and accepted, while nobody else moves. */
  ghost predicate After<B(!new)>(s: State<B>, n: nat, left: nat, m: nat) {
    && |s.workers| == n && |s.ring.phases| == n + 1 && s.ring.phases[0].Quiet?
    && |s.ring.core.buf| == n && s.ring.core.head < n && s.ring.core.tail < n
    && s.ring.core.size == left + m && s.ring.open == n - (left + m)
    && s.sent == s.accepted == m
  }

  /** While the ring has room the main thread can push on its own, and is accepted. */
  lemma PushAccepted<B(!new)>(n: nat, s0: State<B>, s: State<B>, left: nat, m: nat) returns (s': State<B>)
    requires Reaches(n, s0, s) && After(s, n, left, m) && left + m < n
    ensures Reaches(n, s0, s') && After(s', n, left, m + 1)
  {
    ReachOn(n, s0, s, 0);
    s' := Act(s, n, 0);
    ReachOn(n, s0, s', 0);
    s' := Act(s', n, 0);
    ReachOn(n, s0, s', 0);
    s' := Act(s', n, 0);
    ReachOn(n, s0, s', 0);
    s' := Act(s', n, 0);
    ReachOn(n, s0, s', 0);
    s' := Act(s', n, 0);
    ReachOn(n, s0, s', 0);
    s' := Act(s', n, 0);
  }

  lemma {:induction false} PushesAccepted<B(!new)>(n: nat, s0: State<B>, left: nat, m: nat) returns (s: State<B>)
    requires After(s0, n, left, 0) && left + m <= n
    ensures Reaches(n, s0, s) && After(s, n, left, m)
  {
    if m == 0 {
      s := s0;
      assert Continues(n, [s0]) && [s0][0] == s0 && [s0][|[s0]| - 1] == s0;
    } else {
      var p := PushesAccepted(n, s0, left, m - 1);
      s := PushAccepted(n, s0, p, left, m - 1);
    }
  }

  /** On a full ring the push of an EXIT fails, and the loop goes on to the next. */
  lemma PushLost<B(!new)>(n: nat, s0: State<B>, s: State<B>, left: nat, m: nat) returns (s': State<B>)
    requires Reaches(n, s0, s) && After(s, n, left, m) && left + m == n && m < n
    ensures Reaches(n, s0, s') && s'.sent == m + 1 && s'.accepted == m
  {
    ReachOn(n, s0, s, 0);
    s' := Act(s, n, 0);
    ReachOn(n, s0, s', 0);
    s' := Act(s', n, 0);
    ReachOn(n, s0, s', 0);
    s' := Act(s', n, 0);
  }

  /** From a start with `left` requests in the ring an EXIT can be lost. */
  ghost predicate MayLoseExit<B(!new)>(n: nat, left: nat) {
    exists base: nat, s0: State<B>, s: State<B> ::
      InitWith(s0, n, base, left) && Reaches(n, s0, s) && s.accepted < s.sent
  }

  lemma LosesExit<B(!new)>(n: nat, left: nat, b: B)
    requires 0 < left <= n
    ensures MayLoseExit<B>(n, left)
  {
    var s0 := AllBusy(n, left, b);
    AllBusyStarts(n, left, b);
    var s := PushesAccepted(n, s0, left, n - left);
    var s' := PushLost(n, s0, s, left, n - left);
    assert InitWith(s0, n, left, left) && Reaches(n, s0, s') && s'.accepted < s'.sent;
  }

  lemma EmptyLosesNone<B(!new)>(n: nat)
    ensures !MayLoseExit<B>(n, 0)
  {
    if base: nat, s0: State<B>, s: State<B> :|
      InitWith(s0, n, base, 0) && Reaches(n, s0, s) && s.accepted < s.sent
    {
      var run: seq<State<B>> :| Continues(n, run) && run[0] == s0 && run[|run| - 1] == s;
      RunKeepsInv(n, base, run);
      assert false;
    }
  }

  /** The emptiness of the ring is the exact condition: no schedule loses an EXIT if and only if no
      request is left when the pushing begins. */
  lemma ExitLostIff<B(!new)>(n: nat, left: nat, b: B)
    requires 0 < n && left <= n
    ensures MayLoseExit<B>(n, left) <==> left > 0
  {
    if left > 0 {
      LosesExit(n, left, b);
    } else {
      EmptyLosesNone<B>(n);
    }
  }
}
