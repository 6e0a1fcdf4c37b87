/** The whole service: clients and workers exchange messages through the mailbox, and a worker
    executes a request as a call on the shared table, step by step among the steps of all others. */
module Service {
  import opened Common
  import opened TableSpec
  import T = TableMachine
  import TC = TableCalls
  import M = Mailbox
  import MM = MailboxMatching

  /** A request, and the number of the step in which its client started it. CLOSE_SHM, which gets
      no response, carries a call that nobody makes. */
  datatype Order<K, V> = Order(call: T.Call<K, V>, asked: nat)

  /** The result of an execution: the reply of the call, and the step in which it took effect. */
  datatype Answer<K, V> = Answer(reply: Reply<K, V>, at: nat)

  /** The call a worker makes for the request it serves; `at` is the step of its effect. */
  datatype Job = NotStarted | Running(at: Option<nat>)

  datatype State<K, V> = State(
    mail: M.State<Order<K, V>, Answer<K, V>>, table: T.State<K, V>, jobs: seq<Job>, clock: nat)

  /** Worker `w` is thread `w` of the table and thread `|pids| + w` of the mailbox. */
  datatype Config<!K> = Config(mail: M.Config, table: T.Config<K>)

  datatype Move<K, V> =
    | Mail(i: nat, call: T.Call<K, V>, replies: bool, r: Answer<K, V>)
    | Wakeup(i: nat)
    | Table(w: nat)

  ghost predicate Sized<K, V>(c: Config<K>, s: State<K, V>) {
    && M.InBounds(c.mail, s.mail) && c.table.threads == c.mail.workers
    && |s.table.threads| == |s.jobs| == c.mail.workers
  }

  function At<K>(c: Config<K>, w: nat): nat {
    |c.mail.pids| + w
  }

  /** Worker `w` serves a request that gets a response, and calls the table for it. */
  ghost predicate UsesTable<K, V>(c: Config<K>, s: State<K, V>, w: nat)
    requires Sized(c, s) && w < c.mail.workers
  {
    var pc := s.mail.threads[At(c, w)];
    pc.Serving? && pc.m.replies
  }

  ghost function CallOf<K, V>(c: Config<K>, s: State<K, V>, w: nat): T.Call<K, V>
    requires Sized(c, s) && w < c.mail.workers && UsesTable(c, s, w)
  {
    s.mail.threads[At(c, w)].m.body.call
  }

  ghost predicate Finished<K, V>(c: Config<K>, s: State<K, V>, w: nat)
    requires Sized(c, s) && w < c.mail.workers
  {
    s.jobs[w].Running? && s.jobs[w].at.Some? && s.table.threads[w].pc.Idle?
  }

  /** A worker goes on in the mailbox only with the reply of its finished call. */
  ghost predicate CanMove<K(!new), V(!new)>(c: Config<K>, s: State<K, V>, move: Move<K, V>) {
    && Sized(c, s)
    && match move
       case Mail(i, _, _, r) =>
         && M.CanAct(c.mail, s.mail, i)
         && (i >= |c.mail.pids| && UsesTable(c, s, i - |c.mail.pids|) ==>
               var w := i - |c.mail.pids|;
               Finished(c, s, w) && r == Answer(s.table.threads[w].reply, s.jobs[w].at.value))
       case Wakeup(i) => i < |s.mail.threads| && M.InStage(s.mail.threads[i], M.Sleeping)
       case Table(w) =>
         w < c.mail.workers && UsesTable(c, s, w) && !Finished(c, s, w) && T.CanStep(c.table, s.table, w)
  }

  ghost function Mailed<K(!new), V(!new)>(c: Config<K>, s: State<K, V>, move: Move<K, V>)
    : M.State<Order<K, V>, Answer<K, V>>
    requires CanMove(c, s, move)
  {
    match move
    case Mail(i, call, replies, r) => M.Act(c.mail, s.mail, i, Order(call, s.clock), replies, r)
    case Wakeup(i) => M.At(s.mail, i, M.WithStage(s.mail.threads[i], M.Waking))
    case Table(_) => s.mail
  }

  ghost function Tabled<K(!new), V(!new)>(c: Config<K>, s: State<K, V>, move: Move<K, V>): T.State<K, V>
    requires CanMove(c, s, move)
  {
    if move.Table? then
      T.Fire(c.table, s.table, move.w, CallOf(c, s, move.w))
    else s.table
  }

  ghost function NextJobs<K(!new), V(!new)>(c: Config<K>, s: State<K, V>, move: Move<K, V>): seq<Job>
    requires CanMove(c, s, move)
  {
    match move
    case Mail(i, _, _, _) => if i >= |c.mail.pids| then s.jobs[i - |c.mail.pids| := NotStarted] else s.jobs
    case Wakeup(_) => s.jobs
    case Table(w) =>
      if TC.TakesEffect(s.table.table, s.table.threads[w].pc) then s.jobs[w := Running(Some(s.clock))]
      else if s.table.threads[w].pc.Idle? then s.jobs[w := Running(None)]
      else s.jobs
  }

  ghost function Next<K(!new), V(!new)>(c: Config<K>, s: State<K, V>, move: Move<K, V>): State<K, V>
    requires CanMove(c, s, move)
  {
    State(Mailed(c, s, move), Tabled(c, s, move), NextJobs(c, s, move), s.clock + 1)
  }

  ghost predicate Init<K(!new), V(!new)>(c: Config<K>, s: State<K, V>) {
    && M.Init(c.mail, s.mail) && T.Init(c.table, s.table) && c.table.threads == c.mail.workers
    && s.jobs == seq(c.mail.workers, _ => NotStarted) && s.clock == 0
  }

  ghost predicate IsRun<K(!new), V(!new)>(c: Config<K>, run: seq<State<K, V>>, moves: seq<Move<K, V>>) {
    |run| == |moves| + 1 && Init(c, run[0]) && forall n: nat :: n < |moves| ==> Goes(c, run, moves, n)
  }

  ghost predicate Goes<K(!new), V(!new)>(
      c: Config<K>, run: seq<State<K, V>>, moves: seq<Move<K, V>>, n: nat) {
    && n < |moves| && n + 1 < |run|
    && CanMove(c, run[n], moves[n]) && run[n + 1] == Next(c, run[n], moves[n])
  }

  // ----- the two halves -----

  ghost predicate Halves<K(!new), V(!new)>(c: Config<K>, s: State<K, V>) {
    Sized(c, s) && MM.Inv(c.mail, s.mail) && T.Inv(c.table, s.table)
  }

  /** Every move is a step of the mailbox, of the table, or of one of them: what was proved about
      each of the two machines holds in the whole. */
  lemma MoveKeepsHalves<K(!new), V(!new)>(c: Config<K>, s: State<K, V>, move: Move<K, V>)
    requires Halves(c, s) && CanMove(c, s, move)
    ensures Halves(c, Next(c, s, move))
  {
    match move {
      case Mail(i, call, replies, r) =>
        assert M.StepBy(c.mail, s.mail, Mailed(c, s, move), i, Order(call, s.clock), replies, r);
        MM.StepKeepsInv(c.mail, s.mail, Mailed(c, s, move));
      case Wakeup(i) =>
        assert M.StepBy(c.mail, s.mail, Mailed(c, s, move), i, Order(T.CallGetBucket(0), 0), false, Answer(NoReply, 0));
        MM.StepKeepsInv(c.mail, s.mail, Mailed(c, s, move));
      case Table(w) =>
        T.StepKeepsInv(c.table, s.table, w, CallOf(c, s, w));
    }
  }

  // ----- jobs -----

  /** The thread of worker `w` in the table does the call of the request that `w` serves. */
  ghost predicate JobRight<K, V>(c: Config<K>, s: State<K, V>, w: nat)
    requires Sized(c, s) && w < c.mail.workers
  {
    var pc := s.table.threads[w].pc;
    match s.jobs[w]
    case NotStarted => pc.Idle?
    case Running(at) =>
      && UsesTable(c, s, w)
      && if at == None then TC.Ahead(pc, CallOf(c, s, w)) else TC.After(pc)
  }

  ghost predicate JobsRight<K, V>(c: Config<K>, s: State<K, V>) {
    Sized(c, s) && forall w: nat :: w < c.mail.workers ==> JobRight(c, s, w)
  }

  lemma MailKeepsJobs<K(!new), V(!new)>(c: Config<K>, s: State<K, V>, move: Move<K, V>, w: nat)
    requires Halves(c, s) && CanMove(c, s, move) && !move.Table? && w < c.mail.workers
    requires JobRight(c, s, w) && Sized(c, Next(c, s, move))
    ensures JobRight(c, Next(c, s, move), w)
  {
    var x := At(c, w);
    assert M.Role(c.mail, s.mail.threads[x], s.mail.ring.phases[x], x);
    if move.Mail? {
      var order := Order(move.call, s.clock);
      M.ActMovesThreads(c.mail, s.mail, move.i, order, move.replies, move.r);
      assert Next(c, s, move).table == s.table;
    }
  }

  lemma TableKeepsJobs<K(!new), V(!new)>(c: Config<K>, s: State<K, V>, move: Move<K, V>, w: nat)
    requires Halves(c, s) && CanMove(c, s, move) && move.Table? && w < c.mail.workers
    requires JobRight(c, s, w) && JobRight(c, s, move.w) && Sized(c, Next(c, s, move))
    ensures JobRight(c, Next(c, s, move), w)
  {
    var call := CallOf(c, s, move.w);
    T.FireThreads(c.table, s.table, move.w, call);
    if w == move.w {
      if s.jobs[w].NotStarted? {
        TC.CallStarts(c.table, s.table, w, call);
      } else if s.jobs[w].at == None {
        TC.CallAdvances(c.table, s.table, w, call, call);
      } else {
        TC.CallLeaves(c.table, s.table, w, call);
      }
    }
  }

  lemma MoveKeepsJobs<K(!new), V(!new)>(c: Config<K>, s: State<K, V>, move: Move<K, V>)
    requires Halves(c, s) && JobsRight(c, s) && CanMove(c, s, move)
    ensures Halves(c, Next(c, s, move)) && JobsRight(c, Next(c, s, move))
  {
    MoveKeepsHalves(c, s, move);
    forall w: nat | w < c.mail.workers ensures JobRight(c, Next(c, s, move), w) {
      if move.Table? {
        TableKeepsJobs(c, s, move, w);
      } else {
        MailKeepsJobs(c, s, move, w);
      }
    }
  }
}
