/** What a response of the service says about the shared table: every call behind a response took
    effect in one step of the run, and no step is the effect of two calls. */
module ServiceHistory {
  import opened Common
  import opened TableSpec
  import T = TableMachine
  import TC = TableCalls
  import M = Mailbox
  import MM = MailboxMatching
  import opened Service

  /** In step `at` the worker that serves `m` makes the step of the table with which the call of
      `m` takes effect. */
  ghost predicate EffectOf<K(!new), V(!new)>(
      c: Config<K>, run: seq<State<K, V>>, moves: seq<Move<K, V>>, at: nat, m: M.Msg<Order<K, V>>) {
    && at < |moves| && at + 1 < |run| && moves[at].Table?
    && var s, w := run[at], moves[at].w;
       && Sized(c, s) && w < c.mail.workers && UsesTable(c, s, w) && s.mail.threads[At(c, w)].m == m
       && TC.TakesEffect(s.table.table, s.table.threads[w].pc)
  }

  /** The call of `m` took effect in step `at`, after the request was started and before state `n`,
      and the reply says what that step found and did. */
  ghost predicate Explained<K(!new), V(!new)>(
      c: Config<K>, run: seq<State<K, V>>, moves: seq<Move<K, V>>, n: nat,
      m: M.Msg<Order<K, V>>, reply: Reply<K, V>, at: nat) {
    && m.body.asked < at < n < |run|
    && EffectOf(c, run, moves, at, m)
    && TC.Explains(c.table.h, run[at].table.table, run[at + 1].table.table, m.body.call, reply)
  }

  ghost predicate Asking<K, V>(pc: M.Pc<Order<K, V>, Answer<K, V>>, m: M.Msg<Order<K, V>>) {
    (pc.Sending? || pc.Waiting?) && pc.m == m
  }

  /** Client `i` started the request in the step that it carries, with the call that it then chose, and
      is at it since. */
  ghost predicate Started<K(!new), V(!new)>(
      run: seq<State<K, V>>, moves: seq<Move<K, V>>, n: nat, i: nat, m: M.Msg<Order<K, V>>) {
    && m.body.asked < n < |run| && m.body.asked < |moves|
    && Chooses(moves[m.body.asked], i, m)
    && i < |run[m.body.asked].mail.threads| && run[m.body.asked].mail.threads[i].Away?
    && forall j :: m.body.asked < j <= n ==> i < |run[j].mail.threads| && Asking(run[j].mail.threads[i], m)
  }

  ghost predicate Chooses<K, V>(move: Move<K, V>, i: nat, m: M.Msg<Order<K, V>>) {
    move.Mail? && move.i == i && move.call == m.body.call && move.replies == m.replies
  }

  ghost predicate AskedRight<K(!new), V(!new)>(run: seq<State<K, V>>, moves: seq<Move<K, V>>, n: nat, i: nat)
    requires n < |run| && i < |run[n].mail.threads|
  {
    var pc := run[n].mail.threads[i];
    pc.Sending? || pc.Waiting? ==> Started(run, moves, n, i, pc.m)
  }

  ghost predicate EffectRight<K(!new), V(!new)>(
      c: Config<K>, run: seq<State<K, V>>, moves: seq<Move<K, V>>, n: nat, w: nat)
    requires n < |run| && Sized(c, run[n]) && w < c.mail.workers
  {
    var s := run[n];
    UsesTable(c, s, w) && s.jobs[w].Running? && s.jobs[w].at.Some? ==>
      Explained(c, run, moves, n, s.mail.threads[At(c, w)].m, s.table.threads[w].reply, s.jobs[w].at.value)
  }

  /** An entry in the record of executions is explained. */
  ghost predicate EntryRight<K(!new), V(!new)>(
      c: Config<K>, run: seq<State<K, V>>, moves: seq<Move<K, V>>, n: nat,
      e: (M.Msg<Order<K, V>>, Answer<K, V>)) {
    Explained(c, run, moves, n, e.0, e.1.reply, e.1.at)
  }

  ghost predicate RecordRight<K(!new), V(!new)>(
      c: Config<K>, run: seq<State<K, V>>, moves: seq<Move<K, V>>, n: nat, pid: int)
    requires n < |run|
  {
    forall j :: 0 <= j < |M.RunsOf(run[n].mail, pid)| ==> EntryRight(c, run, moves, n, M.RunsOf(run[n].mail, pid)[j])
  }

  ghost predicate History<K(!new), V(!new)>(
      c: Config<K>, run: seq<State<K, V>>, moves: seq<Move<K, V>>, n: nat) {
    && n < |run| && Halves(c, run[n]) && JobsRight(c, run[n]) && run[n].clock == n
    && (forall i: nat :: i < |c.mail.pids| ==> AskedRight(run, moves, n, i))
    && (forall w: nat :: w < c.mail.workers ==> EffectRight(c, run, moves, n, w))
    && (forall i: nat :: i < |c.mail.pids| ==> RecordRight(c, run, moves, n, c.mail.pids[i]))
  }

  /** A client that is in `sendMsg` after a move has just started, or is still at the same request. */
  lemma ClientMoves<K(!new), V(!new)>(c: Config<K>, s: State<K, V>, move: Move<K, V>, i: nat)
    requires Halves(c, s) && CanMove(c, s, move) && i < |c.mail.pids|
    ensures i < |Mailed(c, s, move).threads|
    ensures var pc, pc' := s.mail.threads[i], Mailed(c, s, move).threads[i];
            pc'.Sending? || pc'.Waiting? ==>
              || (pc.Away? && pc'.Sending? && pc'.m.body.asked == s.clock && Chooses(move, i, pc'.m))
              || ((pc.Sending? || pc.Waiting?) && pc'.m == pc.m)
  {
    assert M.Role(c.mail, s.mail.threads[i], s.mail.ring.phases[i], i);
    if move.Mail? {
      var order := Order(move.call, s.clock);
      M.ActMovesThreads(c.mail, s.mail, move.i, order, move.replies, move.r);
      if move.i == i {
        M.ClientKeepsRequest(c.mail, s.mail, i, order, move.replies, move.r);
      }
    }
  }

  lemma AskedKept<K(!new), V(!new)>(
      c: Config<K>, run: seq<State<K, V>>, moves: seq<Move<K, V>>, n: nat, i: nat)
    requires n + 1 < |run| && Halves(c, run[n]) && run[n].clock == n && i < |c.mail.pids|
    requires AskedRight(run, moves, n, i) && Goes(c, run, moves, n) && i < |run[n + 1].mail.threads|
    ensures AskedRight(run, moves, n + 1, i)
  {
    ClientMoves(c, run[n], moves[n], i);
  }

  /** The request that a worker serves was started by its client, and before now. */
  lemma ServedWasAsked<K(!new), V(!new)>(
      c: Config<K>, run: seq<State<K, V>>, moves: seq<Move<K, V>>, n: nat, w: nat)
    requires History(c, run, moves, n) && w < c.mail.workers && UsesTable(c, run[n], w)
    ensures run[n].mail.threads[At(c, w)].m.body.asked < n
  {
    var mail, x := run[n].mail, At(c, w);
    assert M.Role(c.mail, mail.threads[x], mail.ring.phases[x], x);
    var i: nat :| i < |c.mail.pids| && c.mail.pids[i] == mail.threads[x].m.pid;
    assert MM.Traced(c.mail, mail, i) && MM.PcFits(c.mail, mail, i, x);
    assert AskedRight(run, moves, n, i);
  }

  lemma OwnEffectKept<K(!new), V(!new)>(
      c: Config<K>, run: seq<State<K, V>>, moves: seq<Move<K, V>>, n: nat, w: nat)
    requires History(c, run, moves, n) && Goes(c, run, moves, n) && Sized(c, run[n + 1])
    requires w < c.mail.workers && moves[n] == Move.Table(w)
    ensures EffectRight(c, run, moves, n + 1, w)
  {
    var s, call := run[n], CallOf(c, run[n], w);
    assert EffectRight(c, run, moves, n, w) && JobRight(c, s, w);
    if TC.TakesEffect(s.table.table, s.table.threads[w].pc) {
      ServedWasAsked(c, run, moves, n, w);
      TC.EffectExplained(c.table, s.table, w, call, call);
    } else if s.jobs[w].Running? && s.jobs[w].at.Some? {
      TC.CallLeaves(c.table, s.table, w, call);
    }
  }

  /** A worker's job, its request and its reply stay while another thread moves. */
  lemma OthersKeepReply<K(!new), V(!new)>(c: Config<K>, s: State<K, V>, move: Move<K, V>, w: nat)
    requires Halves(c, s) && JobsRight(c, s) && CanMove(c, s, move) && Sized(c, Next(c, s, move))
    requires w < c.mail.workers && move != Move.Table(w)
    requires UsesTable(c, Next(c, s, move), w) && Next(c, s, move).jobs[w].Running?
    ensures UsesTable(c, s, w) && Next(c, s, move).jobs[w] == s.jobs[w]
    ensures Next(c, s, move).mail.threads[At(c, w)] == s.mail.threads[At(c, w)]
    ensures Next(c, s, move).table.threads[w].reply == s.table.threads[w].reply
  {
    assert JobRight(c, s, w);
    if move.Table? {
      T.FireThreads(c.table, s.table, move.w, CallOf(c, s, move.w));
    } else if move.Mail? {
      M.ActMovesThreads(c.mail, s.mail, move.i, Order(move.call, s.clock), move.replies, move.r);
    }
  }

  lemma OthersEffectKept<K(!new), V(!new)>(
      c: Config<K>, run: seq<State<K, V>>, moves: seq<Move<K, V>>, n: nat, w: nat)
    requires Goes(c, run, moves, n) && Halves(c, run[n]) && JobsRight(c, run[n]) && Sized(c, run[n + 1])
    requires w < c.mail.workers && moves[n] != Move.Table(w) && EffectRight(c, run, moves, n, w)
    ensures EffectRight(c, run, moves, n + 1, w)
  {
    if UsesTable(c, run[n + 1], w) && run[n + 1].jobs[w].Running? {
      OthersKeepReply(c, run[n], moves[n], w);
    }
  }

  lemma RecordKept<K(!new), V(!new)>(
      c: Config<K>, run: seq<State<K, V>>, moves: seq<Move<K, V>>, n: nat, i: nat)
    requires History(c, run, moves, n) && Goes(c, run, moves, n)
    requires Halves(c, run[n + 1]) && i < |c.mail.pids|
    ensures RecordRight(c, run, moves, n + 1, c.mail.pids[i])
  {
    var s, move, pid := run[n], moves[n], c.mail.pids[i];
    assert RecordRight(c, run, moves, n, pid);
    var before, after := M.RunsOf(s.mail, pid), M.RunsOf(run[n + 1].mail, pid);
    if move.Mail? && after != before && after != [] {
      M.RecordChange(c.mail, s.mail, move.i, Order(move.call, s.clock), move.replies, move.r, pid);
      ExecutionRight(c, run, moves, n);
    }
    forall j | 0 <= j < |after| ensures EntryRight(c, run, moves, n + 1, after[j]) {
      if j < |before| && after[j] == before[j] {
        assert EntryRight(c, run, moves, n, before[j]);
      }
    }
  }

  /** A worker that goes on after its call records a reply that is explained. */
  lemma ExecutionRight<K(!new), V(!new)>(
      c: Config<K>, run: seq<State<K, V>>, moves: seq<Move<K, V>>, n: nat)
    requires History(c, run, moves, n) && Goes(c, run, moves, n) && moves[n].Mail?
    requires run[n].mail.threads[moves[n].i].Serving? && run[n].mail.threads[moves[n].i].m.replies
    ensures EntryRight(c, run, moves, n + 1, (run[n].mail.threads[moves[n].i].m, moves[n].r))
  {
    var s, move := run[n], moves[n];
    assert M.Role(c.mail, s.mail.threads[move.i], s.mail.ring.phases[move.i], move.i);
    assert EffectRight(c, run, moves, n, move.i - |c.mail.pids|);
  }

  lemma StartsRight<K(!new), V(!new)>(
      c: Config<K>, run: seq<State<K, V>>, moves: seq<Move<K, V>>)
    requires run != [] && Init(c, run[0])
    ensures History(c, run, moves, 0)
  {
    var s := run[0];
    M.InitBase(c.mail, s.mail);
    T.InitInv(c.table, s.table);
    forall i: nat | i < |c.mail.pids| ensures MM.Traced(c.mail, s.mail, i) {
      MM.InitTraced(c.mail, s.mail, i);
    }
  }

  lemma MoveKeepsHistory<K(!new), V(!new)>(
      c: Config<K>, run: seq<State<K, V>>, moves: seq<Move<K, V>>, n: nat, next: nat)
    requires History(c, run, moves, n) && Goes(c, run, moves, n) && next == n + 1
    ensures History(c, run, moves, next)
  {
    MoveKeepsJobs(c, run[n], moves[n]);
    forall i: nat | i < |c.mail.pids|
      ensures AskedRight(run, moves, next, i) && RecordRight(c, run, moves, next, c.mail.pids[i])
    {
      AskedKept(c, run, moves, n, i);
      RecordKept(c, run, moves, n, i);
    }
    forall w: nat | w < c.mail.workers ensures EffectRight(c, run, moves, next, w) {
      if moves[n] == Move.Table(w) {
        OwnEffectKept(c, run, moves, n, w);
      } else {
        OthersEffectKept(c, run, moves, n, w);
      }
    }
  }

  lemma RunStep<K(!new), V(!new)>(
      c: Config<K>, run: seq<State<K, V>>, moves: seq<Move<K, V>>, n: nat, next: nat)
    requires IsRun(c, run, moves) && next == n + 1 < |run| && History(c, run, moves, n)
    ensures History(c, run, moves, next)
  {
    assert Goes(c, run, moves, n);
    MoveKeepsHistory(c, run, moves, n, next);
  }

  lemma {:induction false} RunKeepsHistory<K(!new), V(!new)>(
      c: Config<K>, run: seq<State<K, V>>, moves: seq<Move<K, V>>, n: nat)
    requires IsRun(c, run, moves) && n < |run|
    ensures History(c, run, moves, n)
  {
    if n == 0 {
      StartsRight(c, run, moves);
    } else {
      RunKeepsHistory(c, run, moves, n - 1);
      RunStep(c, run, moves, n - 1, n);
    }
  }

  // ----- one effect for one request -----

  /** The effect in step `at` is known to the worker that serves `m`, or on the record. */
  ghost predicate Recorded<K, V>(c: Config<K>, s: State<K, V>, m: M.Msg<Order<K, V>>, at: nat)
    requires Sized(c, s)
  {
    || (exists w: nat :: w < c.mail.workers && ServesSince(c, s, w, m, at))
    || (exists j :: 0 <= j < |M.RunsOf(s.mail, m.pid)| && M.RunsOf(s.mail, m.pid)[j].1.at == at)
  }

  ghost predicate ServesSince<K, V>(c: Config<K>, s: State<K, V>, w: nat, m: M.Msg<Order<K, V>>, at: nat)
    requires Sized(c, s) && w < c.mail.workers
  {
    UsesTable(c, s, w) && s.mail.threads[At(c, w)].m == m && s.jobs[w] == Running(Some(at))
  }

  ghost predicate EffectsKnown<K(!new), V(!new)>(
      c: Config<K>, run: seq<State<K, V>>, moves: seq<Move<K, V>>, n: nat, i: nat)
    requires n < |run| && Sized(c, run[n]) && i < |c.mail.pids|
  {
    var pc := run[n].mail.threads[i];
    pc.Sending? || pc.Waiting? ==>
      forall at: nat :: at < n && EffectOf(c, run, moves, at, pc.m) ==> Recorded(c, run[n], pc.m, at)
  }

  /** An effect lies behind the start of its request. */
  lemma EffectAfterStart<K(!new), V(!new)>(
      c: Config<K>, run: seq<State<K, V>>, moves: seq<Move<K, V>>, at: nat, m: M.Msg<Order<K, V>>)
    requires IsRun(c, run, moves) && EffectOf(c, run, moves, at, m)
    ensures m.body.asked < at
  {
    RunKeepsHistory(c, run, moves, at);
    ServedWasAsked(c, run, moves, at, moves[at].w);
  }

  predicate Executes<K, V>(pc: M.Pc<Order<K, V>, Answer<K, V>>, pid: int) {
    pc.Serving? && pc.m.replies && pc.m.pid == pid
  }

  /** While a client is at a request, its record is only added to, by the worker that serves it. */
  lemma RecordGrows<K(!new), V(!new)>(c: Config<K>, s: State<K, V>, move: Move<K, V>, i: nat)
    requires Halves(c, s) && JobsRight(c, s) && CanMove(c, s, move) && Sized(c, Next(c, s, move)) && i < |c.mail.pids|
    requires (s.mail.threads[i].Sending? || s.mail.threads[i].Waiting?) && s.mail.threads[i].m.pid == c.mail.pids[i]
    ensures var pid, s' := c.mail.pids[i], Next(c, s, move);
            var before, after := M.RunsOf(s.mail, pid), M.RunsOf(s'.mail, pid);
            && |before| <= |after| && after[..|before|] == before
            && (move.Mail? && Executes(s.mail.threads[move.i], pid) ==>
                  after != [] && after[|after| - 1].1 == move.r)
  {
    if move.Mail? {
      M.RecordChange(c.mail, s.mail, move.i, Order(move.call, s.clock), move.replies, move.r, c.mail.pids[i]);
      assert move.i < i ==> c.mail.pids[move.i] != c.mail.pids[i];
      assert i < move.i < |c.mail.pids| ==> c.mail.pids[i] != c.mail.pids[move.i];
    }
  }

  /** What is known of an effect stays known while the client is at the request. */
  lemma RecordedKept<K(!new), V(!new)>(c: Config<K>, s: State<K, V>, move: Move<K, V>, i: nat, at: nat)
    requires Halves(c, s) && JobsRight(c, s) && CanMove(c, s, move) && Sized(c, Next(c, s, move)) && i < |c.mail.pids|
    requires (s.mail.threads[i].Sending? || s.mail.threads[i].Waiting?) && s.mail.threads[i].m.pid == c.mail.pids[i]
    requires Recorded(c, s, s.mail.threads[i].m, at)
    ensures Recorded(c, Next(c, s, move), s.mail.threads[i].m, at)
  {
    var m, s' := s.mail.threads[i].m, Next(c, s, move);
    RecordGrows(c, s, move, i);
    if w: nat :| w < c.mail.workers && ServesSince(c, s, w, m, at) {
      if move.Mail? && move.i == At(c, w) {
        var record := M.RunsOf(s'.mail, m.pid);
        assert record[|record| - 1].1.at == at;
      } else {
        KeepsServing(c, s, move, w, m, at);
      }
    } else {
      var j :| 0 <= j < |M.RunsOf(s.mail, m.pid)| && M.RunsOf(s.mail, m.pid)[j].1.at == at;
      assert M.RunsOf(s'.mail, m.pid)[..|M.RunsOf(s.mail, m.pid)|][j].1.at == at;
    }
  }

  lemma KeepsServing<K(!new), V(!new)>(
      c: Config<K>, s: State<K, V>, move: Move<K, V>, w: nat, m: M.Msg<Order<K, V>>, at: nat)
    requires Halves(c, s) && JobsRight(c, s) && CanMove(c, s, move) && Sized(c, Next(c, s, move))
    requires w < c.mail.workers && ServesSince(c, s, w, m, at) && !(move.Mail? && move.i == At(c, w))
    ensures ServesSince(c, Next(c, s, move), w, m, at)
  {
    assert JobRight(c, s, w);
    if move.Mail? {
      M.ActMovesThreads(c.mail, s.mail, move.i, Order(move.call, s.clock), move.replies, move.r);
    } else if move == Move.Table(w) {
      TC.CallLeaves(c.table, s.table, w, CallOf(c, s, w));
    }
  }

  lemma EffectKnownNext<K(!new), V(!new)>(
      c: Config<K>, run: seq<State<K, V>>, moves: seq<Move<K, V>>, n: nat, i: nat, at: nat)
    requires IsRun(c, run, moves) && n < |moves| && Halves(c, run[n]) && JobsRight(c, run[n]) && run[n].clock == n
    requires Halves(c, run[n + 1]) && i < |c.mail.pids| && EffectsKnown(c, run, moves, n, i) && at <= n
    requires var pc' := run[n + 1].mail.threads[i];
             (pc'.Sending? || pc'.Waiting?) && EffectOf(c, run, moves, at, pc'.m)
    ensures Recorded(c, run[n + 1], run[n + 1].mail.threads[i].m, at)
  {
    var s, s', m := run[n], run[n + 1], run[n + 1].mail.threads[i].m;
    assert Goes(c, run, moves, n);
    ClientMoves(c, s, moves[n], i);
    EffectAfterStart(c, run, moves, at, m);
    if at < n {
      assert M.Role(c.mail, s.mail.threads[i], s.mail.ring.phases[i], i);
      RecordedKept(c, s, moves[n], i, at);
    } else {
      assert ServesSince(c, s', moves[n].w, m, n);
    }
  }

  lemma EffectsKnownKept<K(!new), V(!new)>(
      c: Config<K>, run: seq<State<K, V>>, moves: seq<Move<K, V>>, n: nat, i: nat)
    requires IsRun(c, run, moves) && n < |moves| && Halves(c, run[n]) && JobsRight(c, run[n]) && run[n].clock == n
    requires Halves(c, run[n + 1]) && i < |c.mail.pids| && EffectsKnown(c, run, moves, n, i)
    ensures EffectsKnown(c, run, moves, n + 1, i)
  {
    var pc' := run[n + 1].mail.threads[i];
    if pc'.Sending? || pc'.Waiting? {
      forall at: nat | at < n + 1 && EffectOf(c, run, moves, at, pc'.m) ensures Recorded(c, run[n + 1], pc'.m, at) {
        EffectKnownNext(c, run, moves, n, i, at);
      }
    }
  }

  lemma {:induction false} RunKnowsEffects<K(!new), V(!new)>(
      c: Config<K>, run: seq<State<K, V>>, moves: seq<Move<K, V>>, n: nat, i: nat)
    requires IsRun(c, run, moves) && n < |run| && i < |c.mail.pids|
    ensures Sized(c, run[n]) && EffectsKnown(c, run, moves, n, i)
  {
    RunKeepsHistory(c, run, moves, n);
    if n == 0 {
    } else {
      var p := n - 1;
      RunKnowsEffects(c, run, moves, p, i);
      RunKeepsHistory(c, run, moves, p);
      EffectsKnownKept(c, run, moves, p, i);
      assert p + 1 == n;
    }
  }

  // ----- the responses -----

  /** In state `n` client `i` takes `answer` as the response to its request `m` by its next step. */
  ghost predicate Takes<K(!new), V(!new)>(
      c: Config<K>, s: State<K, V>, move: Move<K, V>, i: nat, m: M.Msg<Order<K, V>>, answer: Answer<K, V>) {
    && CanMove(c, s, move) && move.Mail? && move.i == i && i < |s.mail.threads|
    && s.mail.threads[i].Waiting? && s.mail.threads[i].m == m
    && i < |Mailed(c, s, move).threads| && Mailed(c, s, move).threads[i].Clearing?
    && Mailed(c, s, move).threads[i].got == Some(answer)
  }

  /** The service keeps its promise: when a client takes the response to its request, the call that
      a worker made for this request has taken effect in step `at` of the run and in no other, after
      the client started the request, and the response says what that step found or did: the value
      a `get` or `remove` returns was the first for its key, an `insert` that succeeded appended its
      pair, one that failed met the key, nothing was found only where nothing was, and a bucket is
      listed as it stood. */
  lemma ResponseIsExplained<K(!new), V(!new)>(
      c: Config<K>, run: seq<State<K, V>>, moves: seq<Move<K, V>>, n: nat, move: Move<K, V>,
      i: nat, m: M.Msg<Order<K, V>>)
    returns (answer: Answer<K, V>)
    requires IsRun(c, run, moves) && n < |run| && CanMove(c, run[n], move) && move.Mail? && move.i == i
    requires run[n].mail.threads[i].Waiting? && run[n].mail.threads[i].m == m
    requires Mailed(c, run[n], move).threads[i].Clearing?
    ensures Takes(c, run[n], move, i, m, answer)
    ensures i < |c.mail.pids| && Started(run, moves, n, i, m)
    ensures Explained(c, run, moves, n, m, answer.reply, answer.at)
    ensures forall at: nat :: at < n && EffectOf(c, run, moves, at, m) ==> at == answer.at
  {
    var s := run[n];
    RunKeepsHistory(c, run, moves, n);
    MM.TakesOwnResult(c.mail, s.mail, i, Order(move.call, s.clock), move.replies, move.r);
    answer := Mailed(c, s, move).threads[i].got.value;
    assert AskedRight(run, moves, n, i) && RecordRight(c, run, moves, n, c.mail.pids[i]);
    assert EntryRight(c, run, moves, n, M.RunsOf(s.mail, c.mail.pids[i])[0]);
    RunKnowsEffects(c, run, moves, n, i);
    forall at: nat | at < n && EffectOf(c, run, moves, at, m) ensures at == answer.at {
      OnlyTheRecordKnows(c, s, i, at);
    }
  }

  /** When the response is in the cell, no worker serves the request any more. */
  lemma OnlyTheRecordKnows<K(!new), V(!new)>(c: Config<K>, s: State<K, V>, i: nat, at: nat)
    requires Halves(c, s) && i < |c.mail.pids| && s.mail.threads[i].Waiting?
    requires M.Satisfied(c.mail, s.mail, i) && Recorded(c, s, s.mail.threads[i].m, at)
    ensures exists j ::
              && 0 <= j < |M.RunsOf(s.mail, c.mail.pids[i])|
              && M.RunsOf(s.mail, c.mail.pids[i])[j].1.at == at
  {
    var m, idx := s.mail.threads[i].m, s.mail.threads[i].idx;
    assert M.Role(c.mail, s.mail.threads[i], s.mail.ring.phases[i], i);
    assert MM.Traced(c.mail, s.mail, i);
    MM.OnlyInCell(c.mail, s.mail, i, idx);
    if w: nat :| w < c.mail.workers && ServesSince(c, s, w, m, at) {
      assert MM.PcAsks(s.mail.threads[At(c, w)], c.mail.pids[i]);
      assert false;
    }
  }

  lemma SameClient(c: M.Config, i: nat, i': nat)
    requires M.Good(c) && i < |c.pids| && i' < |c.pids| && c.pids[i] == c.pids[i']
    ensures i == i'
  {
  }

  lemma TakenOnce<K(!new), V(!new)>(
      c: Config<K>, run: seq<State<K, V>>, moves: seq<Move<K, V>>, n: nat,
      i: nat, m: M.Msg<Order<K, V>>, answer: Answer<K, V>)
    requires IsRun(c, run, moves) && n < |moves| && Takes(c, run[n], moves[n], i, m, answer)
    ensures n + 1 < |run| && i < |run[n + 1].mail.threads| && !Asking(run[n + 1].mail.threads[i], m)
  {
    assert Goes(c, run, moves, n);
  }

  /** No double delivery: two responses that are explained by the same step are one and the same,
      taken by the same client in the same state for the same request. One erasure answers one
      `remove`, one push one `insert`. */
  lemma NoDoubleDelivery<K(!new), V(!new)>(
      c: Config<K>, run: seq<State<K, V>>, moves: seq<Move<K, V>>,
      n: nat, move: Move<K, V>, i: nat, m: M.Msg<Order<K, V>>, answer: Answer<K, V>,
      n': nat, move': Move<K, V>, i': nat, m': M.Msg<Order<K, V>>, answer': Answer<K, V>)
    requires IsRun(c, run, moves) && n <= n' < |run|
    requires n < n' ==> n < |moves| && moves[n] == move
    requires Takes(c, run[n], move, i, m, answer) && Takes(c, run[n'], move', i', m', answer')
    requires answer.at == answer'.at
    ensures n == n' && i == i' && m == m'
  {
    var a := ResponseIsExplained(c, run, moves, n, move, i, m);
    var a' := ResponseIsExplained(c, run, moves, n', move', i', m');
    RunKeepsHistory(c, run, moves, n);
    RunKeepsHistory(c, run, moves, n');
    assert M.Role(c.mail, run[n].mail.threads[i], run[n].mail.ring.phases[i], i);
    assert M.Role(c.mail, run[n'].mail.threads[i'], run[n'].mail.ring.phases[i'], i');
    SameClient(c.mail, i, i');
    if n < n' {
      TakenOnce(c, run, moves, n, i, m, answer);
      assert false;
    }
  }
}
