/** Every request to the whole service is answered, the work on the shared table included. */
module ServiceAnswers {
  import opened Common
  import opened TableSpec
  import T = TableMachine
  import TR = TableMachineRuns
  import TT = TableTermination
  import M = Mailbox
  import MM = MailboxMatching
  import MP = MailboxProgress
  import MA = MailboxAnswers
  import opened Service
  import opened ServiceHistory

  ghost predicate Right<K(!new), V(!new)>(c: Config<K>, s: State<K, V>) {
    Halves(c, s) && JobsRight(c, s)
  }

  /** Steps that start no request and do not depend on a spurious wakeup. */
  ghost predicate Regular<K(!new), V(!new)>(c: Config<K>, s: State<K, V>, move: Move<K, V>) {
    CanMove(c, s, move) && !move.Wakeup? && (move.Mail? ==> !s.mail.threads[move.i].Away?)
  }

  ghost predicate Useful<K(!new), V(!new)>(c: Config<K>, s: State<K, V>, move: Move<K, V>) {
    Regular(c, s, move) && (move.Mail? ==> !MP.Futile(c.mail, s.mail, move.i))
  }

  // ----- progress -----

  /** A thread that can serve in the mailbox can do so in the whole, unless it is a worker whose call is
      not finished: then somebody can go on with a call on the table. */
  lemma ServesInTheWhole<K(!new), V(!new)>(c: Config<K>, s: State<K, V>, x: nat) returns (move: Move<K, V>)
    requires Right(c, s) && MP.CanServe(c.mail, s.mail, x)
    ensures Useful(c, s, move)
  {
    move := Mail(x, T.CallGetBucket(0), false, Answer(NoReply, 0));
    if x >= |c.mail.pids| && UsesTable(c, s, x - |c.mail.pids|) {
      var w := x - |c.mail.pids|;
      assert JobRight(c, s, w);
      if Finished(c, s, w) {
        move := Mail(x, T.CallGetBucket(0), false, Answer(s.table.threads[w].reply, s.jobs[w].at.value));
      } else if s.table.threads[w].pc.Idle? {
        move := Move.Table(w);
      } else {
        var y := TR.NoDeadlock(c.table, s.table, w);
        assert JobRight(c, s, y);
        move := Move.Table(y);
      }
    }
  }

  /** While a client is in `sendMsg`, somebody can do something useful: in the mailbox, or on the
      table with a call that a worker makes for a request. */
  lemma SomeoneServes<K(!new), V(!new)>(c: Config<K>, s: State<K, V>, i: nat) returns (move: Move<K, V>)
    requires Right(c, s) && i < |c.mail.pids| && !s.mail.threads[i].Away?
    ensures Useful(c, s, move)
  {
    var x := MP.SomeoneServes(c.mail, s.mail, i);
    move := ServesInTheWhole(c, s, x);
  }

  /** Progress in every reachable state of the service. */
  lemma ServiceProgress<K(!new), V(!new)>(
      c: Config<K>, run: seq<State<K, V>>, moves: seq<Move<K, V>>, i: nat) returns (move: Move<K, V>)
    requires IsRun(c, run, moves) && i < |c.mail.pids|
    requires i < |run[|moves|].mail.threads| && !run[|moves|].mail.threads[i].Away?
    ensures Useful(c, run[|moves|], move)
  {
    RunKeepsHistory(c, run, moves, |moves|);
    move := SomeoneServes(c, run[|moves|], i);
  }

  // ----- the measure -----

  /** 1 for a worker that has still to start its call. */
  ghost function ToStart<K, V>(c: Config<K>, s: State<K, V>, w: nat): nat
    requires Sized(c, s) && w < c.mail.workers
  {
    if UsesTable(c, s, w) && s.jobs[w].NotStarted? then 1 else 0
  }

  ghost function StartsLeft<K, V>(c: Config<K>, s: State<K, V>, n: nat): nat
    requires Sized(c, s) && n <= c.mail.workers
  {
    if n == 0 then 0 else StartsLeft(c, s, n - 1) + ToStart(c, s, n - 1)
  }

  /** The effort of the mailbox first, then what is left on the table. A call that starts brings
      at most one update of `_size` with it. */
  ghost function Ahead<K(!new), V(!new)>(c: Config<K>, s: State<K, V>): Rank
    requires Sized(c, s)
  {
    Rank(MA.EffortOr0(s.mail),
         2 * StartsLeft(c, s, c.mail.workers) + TT.UpdatesLeft(s.table),
         TT.ResizesLeft(s.table),
         TT.StepsLeft(s.table))
  }

  lemma {:induction false} SameStarts<K, V>(c: Config<K>, s: State<K, V>, s': State<K, V>, n: nat)
    requires Sized(c, s) && Sized(c, s') && n <= c.mail.workers
    requires forall w: nat :: w < n ==> ToStart(c, s', w) == ToStart(c, s, w)
    ensures StartsLeft(c, s', n) == StartsLeft(c, s, n)
  {
    if n == 0 {
    } else {
      SameStarts(c, s, s', n - 1);
    }
  }

  lemma {:induction false} OneStart<K, V>(c: Config<K>, s: State<K, V>, s': State<K, V>, x: nat, n: nat)
    requires Sized(c, s) && Sized(c, s') && x < n <= c.mail.workers
    requires forall w: nat :: w < n && w != x ==> ToStart(c, s', w) == ToStart(c, s, w)
    ensures StartsLeft(c, s', n) + ToStart(c, s, x) == StartsLeft(c, s, n) + ToStart(c, s', x)
  {
    if n == x + 1 {
      SameStarts(c, s, s', x);
    } else {
      OneStart(c, s, s', x, n - 1);
    }
  }

  /** The start of a call: one start less, at most one update more. */
  lemma StartLowers<K(!new), V(!new)>(c: Config<K>, s: State<K, V>, w: nat)
    requires Right(c, s) && CanMove(c, s, Move.Table(w)) && s.jobs[w].NotStarted?
    ensures var s' := Next(c, s, Move.Table(w));
            && Sized(c, s')
            && 2 * ToStart(c, s', w) + TT.UpdatesLeft(s'.table) < 2 * ToStart(c, s, w) + TT.UpdatesLeft(s.table)
  {
    var s', call := Next(c, s, Move.Table(w)), CallOf(c, s, w);
    assert JobRight(c, s, w);
    T.FireThreads(c.table, s.table, w, call);
    SumUpdate(s.table.threads, w, s'.table.threads[w], TT.Updates);
  }

  lemma TableMoveLowers<K(!new), V(!new)>(c: Config<K>, s: State<K, V>, w: nat)
    requires Right(c, s) && CanMove(c, s, Move.Table(w)) && Sized(c, Next(c, s, Move.Table(w)))
    ensures Below(Ahead(c, Next(c, s, Move.Table(w))), Ahead(c, s))
  {
    var s' := Next(c, s, Move.Table(w));
    assert JobRight(c, s, w);
    OneStart(c, s, s', w, c.mail.workers);
    if s.jobs[w].NotStarted? {
      StartLowers(c, s, w);
    } else {
      TT.StepLowers(c.table, s.table, w, CallOf(c, s, w));
    }
  }

  /** Retrying a push and polling leave the workers that serve, and the table, as they are. */
  lemma FutileKeepsServing<K(!new), V(!new)>(c: Config<K>, s: State<K, V>, move: Move<K, V>, w: nat)
    requires Right(c, s) && Regular(c, s, move) && move.Mail? && MP.Futile(c.mail, s.mail, move.i)
    requires Sized(c, Next(c, s, move)) && w < c.mail.workers
    ensures ToStart(c, Next(c, s, move), w) == ToStart(c, s, w)
  {
    assert JobRight(c, s, w);
    M.ActMovesThreads(c.mail, s.mail, move.i, Order(move.call, s.clock), move.replies, move.r);
  }

  lemma MailMoveAtMost<K(!new), V(!new)>(c: Config<K>, s: State<K, V>, move: Move<K, V>)
    requires Right(c, s) && Regular(c, s, move) && move.Mail? && Sized(c, Next(c, s, move))
    ensures AtMost(Ahead(c, Next(c, s, move)), Ahead(c, s))
    ensures Useful(c, s, move) ==> Below(Ahead(c, Next(c, s, move)), Ahead(c, s))
  {
    var s' := Next(c, s, move);
    MA.ActLowersEffort(c.mail, s.mail, move.i, Order(move.call, s.clock), move.replies, move.r);
    if MP.Futile(c.mail, s.mail, move.i) {
      forall w: nat | w < c.mail.workers ensures ToStart(c, s', w) == ToStart(c, s, w) {
        FutileKeepsServing(c, s, move, w);
      }
      SameStarts(c, s, s', c.mail.workers);
    }
  }

  // ----- schedules -----

  /** At every moment nothing happens or somebody makes a regular step. */
  ghost predicate Quiet<K(!new), V(!new)>(c: Config<K>, states: nat -> State<K, V>, moves: nat -> Move<K, V>) {
    forall k: nat :: states(k + 1) == states(k) || Steps(c, states(k), moves(k), states(k + 1))
  }

  ghost predicate Steps<K(!new), V(!new)>(c: Config<K>, s: State<K, V>, move: Move<K, V>, s': State<K, V>) {
    Regular(c, s, move) && s' == Next(c, s, move)
  }

  ghost predicate UsefulAt<K(!new), V(!new)>(
      c: Config<K>, states: nat -> State<K, V>, moves: nat -> Move<K, V>, k: nat) {
    Useful(c, states(k), moves(k)) && states(k + 1) == Next(c, states(k), moves(k))
  }

  ghost predicate NobodyCanServe<K(!new), V(!new)>(c: Config<K>, s: State<K, V>) {
    forall move :: !Useful(c, s, move)
  }

  /** From every moment k on there is a moment `next(k)` at which a useful step is taken or none
      is possible. */
  ghost predicate Fair<K(!new), V(!new)>(
      c: Config<K>, states: nat -> State<K, V>, moves: nat -> Move<K, V>, next: nat -> nat) {
    forall k: nat :: next(k) >= k && (UsefulAt(c, states, moves, next(k)) || NobodyCanServe(c, states(next(k))))
  }

  lemma {:induction false} QuietKeepsRight<K(!new), V(!new)>(
      c: Config<K>, states: nat -> State<K, V>, moves: nat -> Move<K, V>, n: nat)
    requires Right(c, states(0)) && Quiet(c, states, moves)
    ensures Right(c, states(n))
  {
    if n == 0 {
    } else {
      QuietKeepsRight(c, states, moves, n - 1);
      assert states(n - 1 + 1) == states(n);
      if states(n) != states(n - 1) {
        MoveKeepsJobs(c, states(n - 1), moves(n - 1));
      }
    }
  }

  ghost function AheadOr0<K(!new), V(!new)>(c: Config<K>, s: State<K, V>): Rank {
    if Sized(c, s) then Ahead(c, s) else Rank(0, 0, 0, 0)
  }

  lemma StepLowersRank<K(!new), V(!new)>(c: Config<K>, s: State<K, V>, move: Move<K, V>)
    requires Right(c, s) && Regular(c, s, move)
    ensures AtMost(AheadOr0(c, Next(c, s, move)), AheadOr0(c, s))
    ensures Useful(c, s, move) ==> Below(AheadOr0(c, Next(c, s, move)), AheadOr0(c, s))
  {
    MoveKeepsJobs(c, s, move);
    if move.Table? {
      TableMoveLowers(c, s, move.w);
    } else {
      MailMoveAtMost(c, s, move);
    }
  }

  lemma QuietLowersRank<K(!new), V(!new)>(
      c: Config<K>, states: nat -> State<K, V>, moves: nat -> Move<K, V>, k: nat)
    requires Right(c, states(0)) && Quiet(c, states, moves)
    ensures AtMost(AheadOr0(c, states(k + 1)), AheadOr0(c, states(k)))
    ensures UsefulAt(c, states, moves, k) ==> Below(AheadOr0(c, states(k + 1)), AheadOr0(c, states(k)))
  {
    QuietKeepsRight(c, states, moves, k);
    if Steps(c, states(k), moves(k), states(k + 1)) {
      StepLowersRank(c, states(k), moves(k));
    }
  }

  lemma QuietEndsAnswered<K(!new), V(!new)>(
      c: Config<K>, states: nat -> State<K, V>, moves: nat -> Move<K, V>, n: nat)
    requires Right(c, states(0)) && Quiet(c, states, moves) && NobodyCanServe(c, states(n))
    ensures MA.AllAnswered(c.mail, states(n).mail)
  {
    QuietKeepsRight(c, states, moves, n);
    forall i | 0 <= i < |c.mail.pids| ensures states(n).mail.threads[i].Away? {
      if !states(n).mail.threads[i].Away? {
        var move := SomeoneServes(c, states(n), i);
        assert false;
      }
    }
    if !MP.Drained(c.mail, states(n).mail) {
      var x := MP.SomeoneDrains(c.mail, states(n).mail);
      var move := ServesInTheWhole(c, states(n), x);
      assert false;
    }
  }

  // ----- what the clients asked for -----

  ghost predicate AsksAt<K(!new), V(!new)>(c: Config<K>, s: State<K, V>, i: nat, m: M.Msg<Order<K, V>>) {
    i < |c.mail.pids| && i < |s.mail.threads| && MA.Asking(s.mail.threads[i], m)
  }

  /** Client `i` has what it asked for with `m`. */
  ghost predicate HasAnswer<K(!new), V(!new)>(c: Config<K>, s: State<K, V>, i: nat, m: M.Msg<Order<K, V>>) {
    i < |c.mail.pids| && MA.Completed(c.mail, s.mail, i, m)
  }

  /** One move: the client is still at its request, or has what it asked for, now or just before. */
  lemma MoveCompletes<K(!new), V(!new)>(
      c: Config<K>, s: State<K, V>, move: Move<K, V>, i: nat, m: M.Msg<Order<K, V>>)
    requires Right(c, s) && Regular(c, s, move) && AsksAt(c, s, i, m)
    ensures var s' := Next(c, s, move);
            AsksAt(c, s', i, m) || HasAnswer(c, s, i, m) || HasAnswer(c, s', i, m)
  {
    if move.Mail? {
      var choice := MA.Choice(move.i, Order(move.call, s.clock), move.replies, move.r);
      MA.MomentCompletes(c.mail, s.mail, choice, Mailed(c, s, move), i, m);
    }
  }

  lemma StepCompletes<K(!new), V(!new)>(
      c: Config<K>, s: State<K, V>, move: Move<K, V>, s': State<K, V>, i: nat, m: M.Msg<Order<K, V>>)
    requires Right(c, s) && AsksAt(c, s, i, m) && (s' == s || Steps(c, s, move, s'))
    ensures AsksAt(c, s', i, m) || HasAnswer(c, s, i, m) || HasAnswer(c, s', i, m)
  {
    if Steps(c, s, move, s') {
      MoveCompletes(c, s, move, i, m);
    }
  }

  lemma {:induction false} AskedIsCompleted<K(!new), V(!new)>(
      c: Config<K>, states: nat -> State<K, V>, moves: nat -> Move<K, V>, i: nat, m: M.Msg<Order<K, V>>, k: nat)
    requires Right(c, states(0)) && Quiet(c, states, moves) && AsksAt(c, states(0), i, m)
    ensures AsksAt(c, states(k), i, m) || exists j: nat :: j <= k && HasAnswer(c, states(j), i, m)
  {
    if k == 0 {
    } else {
      AskedIsCompleted(c, states, moves, i, m, k - 1);
      QuietKeepsRight(c, states, moves, k - 1);
      assert states(k - 1 + 1) == states(k);
      if AsksAt(c, states(k - 1), i, m) {
        StepCompletes(c, states(k - 1), moves(k - 1), states(k), i, m);
      }
    }
  }

  /** Every request is answered: from any reachable state of the service, when no request is
      started and nobody wakes up for no reason any more, every fair schedule of clients, workers
      and table steps comes to a state in which every client has returned from `sendMsg`, and on the
      way each of them got the result of its own request, or, where no response is due, had its
      request accepted. */
  lemma EveryRequestIsAnswered<K(!new), V(!new)>(
      c: Config<K>, states: nat -> State<K, V>, moves: nat -> Move<K, V>, next: nat -> nat) returns (n: nat)
    requires Right(c, states(0)) && Quiet(c, states, moves) && Fair(c, states, moves, next)
    ensures MA.AllAnswered(c.mail, states(n).mail)
    ensures forall i: nat, m: M.Msg<Order<K, V>> :: AsksAt(c, states(0), i, m) ==>
              exists k: nat :: k <= n && HasAnswer(c, states(k), i, m)
  {
    n := FairEnd(c, states, moves, next);
    forall i: nat, m: M.Msg<Order<K, V>> | AsksAt(c, states(0), i, m)
      ensures exists k: nat :: k <= n && HasAnswer(c, states(k), i, m)
    {
      AskedIsCompleted(c, states, moves, i, m, n);
    }
  }

  lemma FairEnd<K(!new), V(!new)>(
      c: Config<K>, states: nat -> State<K, V>, moves: nat -> Move<K, V>, next: nat -> nat) returns (n: nat)
    requires Right(c, states(0)) && Quiet(c, states, moves) && Fair(c, states, moves, next)
    ensures MA.AllAnswered(c.mail, states(n).mail)
  {
    var e := (k: nat) => AheadOr0(c, states(k));
    var useful := (k: nat) => UsefulAt(c, states, moves, k);
    var done := (k: nat) => NobodyCanServe(c, states(k));
    forall k: nat ensures AtMost(e(k + 1), e(k)) && (useful(k) ==> Below(e(k + 1), e(k))) {
      QuietLowersRank(c, states, moves, k);
    }
    n := FairDescent(e, useful, done, next, 0);
    QuietEndsAnswered(c, states, moves, n);
  }
}
