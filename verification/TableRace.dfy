/** When keys stay unique under threads: `insert` looks and pushes in two critical sections, so it
    keeps its promise if and only if no two inserts of one key overlap. */
module TableRace {
  import opened Common
  import opened TableSpec
  import opened TableOps
  import opened TableMachine
  import opened TableMachineRuns

  // ----- without overlap -----

  ghost function Inserting<K(!new), V(!new)>(k: K): Thread<K, V> -> nat {
    (t: Thread<K, V>) => if Pending(t.pc) == Some(k) then 1 else 0
  }

  /** At most one `insert` of `k` is under way and has not pushed. */
  ghost predicate NoOverlap<K(!new), V(!new)>(s: State<K, V>, k: K) {
    Sum(s.threads, Inserting(k)) <= 1
  }

  /** The thread has found `k` absent and is going to push it. */
  ghost function Past<K(!new), V(!new)>(k: K): Thread<K, V> -> nat {
    (t: Thread<K, V>) =>
      if Pending(t.pc) == Some(k) && !t.pc.Checking? && !t.pc.Reading? && !t.pc.ReadingBucket? then 1 else 0
  }

  ghost predicate AtMostOne<K(!new), V(!new)>(c: Config<K>, s: State<K, V>, k: K) {
    0 < s.table.cap <= |s.table.buckets| && |PairsOf(c.h, s.table, k)| <= 1
  }

  /** The pair of `k`, or a push to come, but not both and not two. */
  ghost predicate OneAtMost<K(!new), V(!new)>(c: Config<K>, s: State<K, V>, k: K) {
    0 < s.table.cap <= |s.table.buckets| && |PairsOf(c.h, s.table, k)| + Sum(s.threads, Past(k)) <= 1
  }

  /** How a step moves its own thread past the check or the push. */
  lemma StepperPast<K(!new), V(!new)>(c: Config<K>, s: State<K, V>, i: nat, call: Call<K, V>, k: K)
    requires CanStep(c, s, i) && Knows(c.h, s.table, s.threads[i].pc)
    ensures i < |Fire(c, s, i, call).threads|
    ensures var t, t' := s.threads[i], Fire(c, s, i, call).threads[i];
            || Past(k)(t') <= Past(k)(t)
            || (t.pc.ReadingBucket? && t.pc.k == k && t.pc.value.Some? && Get(c.h, s.table, k) == None)
    ensures var t := s.threads[i];
            t.pc.InBucket? && t.pc.e.Insert? && t.pc.e.k == k ==>
              Past(k)(t) == 1 && Past(k)(Fire(c, s, i, call).threads[i]) == 0
  {
  }

  /** Nobody else is past the check while a thread that is to push `k` stands before it. */
  lemma {:induction false} PastBound<K(!new), V(!new)>(threads: seq<Thread<K, V>>, k: K)
    ensures Sum(threads, Past(k)) <= Sum(threads, Inserting(k))
  {
    if threads == [] {
    } else {
      PastBound(threads[..|threads| - 1], k);
    }
  }

  lemma NobodyElsePast<K(!new), V(!new)>(threads: seq<Thread<K, V>>, i: nat, k: K)
    requires i < |threads| && Inserting(k)(threads[i]) == 1 && Past(k)(threads[i]) == 0
    requires Sum(threads, Inserting(k)) <= 1
    ensures Sum(threads, Past(k)) == 0
  {
    var gone := threads[i].(pc := Idle);
    SumUpdate(threads, i, gone, Inserting(k));
    SumUpdate(threads, i, gone, Past(k));
    PastBound(threads[i := gone], k);
  }

  lemma OneAtMostKept<K(!new), V(!new)>(c: Config<K>, s: State<K, V>, i: nat, call: Call<K, V>, k: K)
    requires Inv(c, s) && CanStep(c, s, i) && NoOverlap(s, k) && OneAtMost(c, s, k)
    ensures Inv(c, Fire(c, s, i, call)) && OneAtMost(c, Fire(c, s, i, call), k)
  {
    var s', t := Fire(c, s, i, call), s.threads[i];
    StepKeepsInv(c, s, i, call);
    StepOnPairs(c, s, i, call, k);
    FireThreads(c, s, i, call);
    assert Knows(c.h, s.table, t.pc);
    StepperPast(c, s, i, call, k);
    SumUpdate(s.threads, i, s'.threads[i], Past(k));
    if t.pc.ReadingBucket? && t.pc.k == k && t.pc.value.Some? {
      NobodyElsePast(s.threads, i, k);
      GetIsFirst(c.h, s.table, k);
    }
  }

  lemma {:induction false} RunKeepsOneAtMost<K(!new), V(!new)>(
      c: Config<K>, run: seq<State<K, V>>, choices: seq<Choice<K, V>>, k: K)
    requires IsRun(c, run, choices) && forall n :: 0 <= n < |choices| ==> NoOverlap(run[n], k)
    ensures Inv(c, run[|choices|]) && OneAtMost(c, run[|choices|], k)
  {
    if |choices| == 0 {
      InitInv(c, run[0]);
      SumZero(run[0].threads, Past(k));
    } else {
      var n := |choices| - 1;
      RunKeepsOneAtMost(c, run[..n + 1], choices[..n], k);
      assert Step(c, run[n], choices[n], run[n + 1]) && NoOverlap(run[n], k);
      OneAtMostKept(c, run[n], choices[n].thread, choices[n].call, k);
    }
  }

  /** As long as callers let no two inserts of `k` overlap, `k` is in the table at most once,
      whatever gets, removes, resizes and inserts of other keys do. */
  lemma UniqueWithoutOverlap<K(!new), V(!new)>(
      c: Config<K>, run: seq<State<K, V>>, choices: seq<Choice<K, V>>, k: K)
    requires IsRun(c, run, choices) && forall n :: 0 <= n < |choices| ==> NoOverlap(run[n], k)
    ensures AtMostOne(c, run[|choices|], k)
  {
    RunKeepsOneAtMost(c, run, choices, k);
  }

  // ----- with overlap -----

  ghost predicate Reachable<K(!new), V(!new)>(c: Config<K>, s: State<K, V>) {
    exists run: seq<State<K, V>>, choices: seq<Choice<K, V>> :: IsRun(c, run, choices) && run[|choices|] == s
  }

  lemma ReachOn<K(!new), V(!new)>(c: Config<K>, s: State<K, V>, i: nat, call: Call<K, V>)
    requires Reachable(c, s) && CanStep(c, s, i)
    ensures Reachable(c, Fire(c, s, i, call))
  {
    var run: seq<State<K, V>>, choices: seq<Choice<K, V>> :| IsRun(c, run, choices) && run[|choices|] == s;
    var s', choice := Fire(c, s, i, call), Choice(i, call);
    var run', choices' := run + [s'], choices + [choice];
    forall n | 0 <= n < |choices'| ensures Step(c, run'[n], choices'[n], run'[n + 1]) {
      if n < |choices| {
        assert Step(c, run[n], choices[n], run[n + 1]);
      }
    }
    assert IsRun(c, run', choices') && run'[|choices'|] == s';
  }

  /** A state whose locks concern bucket `b` of key `k` as if nobody were there. */
  ghost predicate Open<K(!new), V(!new)>(c: Config<K>, s: State<K, V>, i: nat, b: nat) {
    && i < |s.threads| && 0 < s.table.cap <= |s.table.buckets| == |s.owners| == |s.readers|
    && b < s.table.cap && s.writer == None && s.owners[b] == None && s.readers[b] == {}
  }

  /** The check of an absent key by thread `i` leaves everything else as it was. */
  lemma CheckPasses<K(!new), V(!new)>(c: Config<K>, s: State<K, V>, i: nat, k: K, v: V)
    requires Reachable(c, s) && 0 < s.table.cap && Open(c, s, i, Index(c.h, k, s.table.cap))
    requires s.threads[i].pc.Idle? && i !in s.sharers && Lookup(s.table.buckets[Index(c.h, k, s.table.cap)], k) == None
    ensures Reachable(c, At(s, i, Entering(Insert(k, v))))
  {
    var b, call := Index(c.h, k, s.table.cap), CallInsert(k, v);
    ReachOn(c, s, i, call);
    var s1 := At(s, i, Checking(k, Some(v)));
    ReachOn(c, s1, i, call);
    var s2 := At(s, i, Reading(k, Some(v))).(sharers := s.sharers + {i});
    assert s2 == Fire(c, s1, i, call);
    ReachOn(c, s2, i, call);
    var s3 := At(s, i, ReadingBucket(k, Some(v), b)).(
      sharers := s.sharers + {i}, readers := s.readers[b := s.readers[b] + {i}]);
    assert s3 == Fire(c, s2, i, call);
    ReachOn(c, s3, i, call);
    CheckEnds(c, s, s3, i, k, v);
  }

  lemma CheckEnds<K(!new), V(!new)>(c: Config<K>, s: State<K, V>, s3: State<K, V>, i: nat, k: K, v: V)
    requires 0 < s.table.cap && Open(c, s, i, Index(c.h, k, s.table.cap)) && i !in s.sharers
    requires Lookup(s.table.buckets[Index(c.h, k, s.table.cap)], k) == None
    requires var b := Index(c.h, k, s.table.cap);
             s3 == At(s, i, ReadingBucket(k, Some(v), b)).(
                     sharers := s.sharers + {i}, readers := s.readers[b := s.readers[b] + {i}])
    ensures CanStep(c, s3, i) && Fire(c, s3, i, CallInsert(k, v)) == At(s, i, Entering(Insert(k, v)))
  {
    var b := Index(c.h, k, s.table.cap);
    assert s.sharers + {i} - {i} == s.sharers;
    assert s.readers[b] + {i} - {i} == s.readers[b];
    assert s.readers[b := s.readers[b] + {i}][b := s.readers[b]] == s.readers;
  }

  /** In an empty table the resize test admits everybody. */
  lemma Admits<K(!new), V(!new)>(c: Config<K>, s: State<K, V>, i: nat, e: Edit<K, V>)
    requires Reachable(c, s) && i < |s.threads| && s.threads[i].pc == Entering(e) && s.writer == None
    requires 0 < s.table.cap <= |s.table.buckets| == |s.owners| == |s.readers| && s.table.size == 0
    ensures Reachable(c, At(s, i, Admitted(e)).(sharers := s.sharers + {i}))
  {
    var call: Call<K, V> := CallGetBucket(0);
    var s1 := Fire(c, s, i, call);
    ReachOn(c, s, i, call);
    if c.resizable {
      ReachOn(c, s1, i, call);
      assert Fire(c, s1, i, call) == At(s, i, Admitted(e)).(sharers := s.sharers + {i});
    } else {
      assert s1 == At(s, i, Admitted(e)).(sharers := s.sharers + {i});
    }
  }

  /** The state after the push of `(k, v)` by thread `i`. */
  ghost function AfterPush<K(!new), V(!new)>(c: Config<K>, s: State<K, V>, i: nat, k: K, v: V): State<K, V>
    requires 0 < s.table.cap && Open(c, s, i, Index(c.h, k, s.table.cap))
  {
    var b := Index(c.h, k, s.table.cap);
    s.(table := s.table.(buckets := s.table.buckets[b := s.table.buckets[b] + [(k, v)]]),
       threads := s.threads[i := Thread(Appended(Insert(k, v), b), s.threads[i].owed + {k}, Added(true))],
       owners := s.owners[b := Some(i)])
  }

  lemma Pushes<K(!new), V(!new)>(c: Config<K>, s: State<K, V>, i: nat, k: K, v: V)
    requires Reachable(c, s) && 0 < s.table.cap && Open(c, s, i, Index(c.h, k, s.table.cap))
    requires s.threads[i].pc == Admitted(Insert(k, v))
    ensures Reachable(c, AfterPush(c, s, i, k, v))
  {
    var b, e, call := Index(c.h, k, s.table.cap), Insert(k, v), CallInsert(k, v);
    ReachOn(c, s, i, call);
    var s1 := At(s, i, Hashed(e, b));
    ReachOn(c, s1, i, call);
    var s2 := At(s, i, InBucket(e, b)).(owners := s.owners[b := Some(i)]);
    assert s2 == Fire(c, s1, i, call);
    ReachOn(c, s2, i, call);
    assert AfterPush(c, s, i, k, v) == Fire(c, s2, i, call);
  }

  /** The count and the way out. */
  lemma Returns<K(!new), V(!new)>(c: Config<K>, s: State<K, V>, i: nat, e: Edit<K, V>, b: nat)
    requires Reachable(c, s) && i < |s.threads| && s.threads[i].pc == Appended(e, b)
    requires 0 < s.table.cap <= |s.table.buckets| == |s.owners| == |s.readers| && b < |s.owners|
    ensures Reachable(c, At(s, i, Idle).(table := s.table.(size := s.table.size + 1),
                                         owners := s.owners[b := None], sharers := s.sharers - {i}))
  {
    var call: Call<K, V> := CallGetBucket(0);
    ReachOn(c, s, i, call);
    var s1 := At(s, i, Leaving(b)).(table := s.table.(size := s.table.size + 1));
    assert s1 == Fire(c, s, i, call);
    ReachOn(c, s1, i, call);
    assert Fire(c, s1, i, call)
        == At(s, i, Idle).(table := s.table.(size := s.table.size + 1),
                           owners := s.owners[b := None], sharers := s.sharers - {i});
  }

  ghost function Start<K(!new), V(!new)>(c: Config<K>): State<K, V> {
    var n := if c.cap < 4 then 4 else c.cap;
    State(Table(c.cap, seq(n, _ => []), 0), seq(c.threads, _ => Thread(Idle, {}, NoReply)), {}, None,
          seq(n, _ => None), seq(n, _ => {}))
  }

  lemma StartReachable<K(!new), V(!new)>(c: Config<K>)
    requires c.threads > 0 && c.cap > 0
    ensures Reachable<K, V>(c, Start(c))
  {
    var run: seq<State<K, V>>, choices: seq<Choice<K, V>> := [Start(c)], [];
    assert IsRun(c, run, choices) && run[|choices|] == Start(c);
  }

  /** Both threads have found the key absent and passed the resize test; nothing is pushed yet. */
  ghost function BothAdmitted<K(!new), V(!new)>(c: Config<K>, k: K, v: V, v': V): State<K, V>
    requires c.threads > 1
  {
    At(At(Start(c), 0, Admitted(Insert(k, v))), 1, Admitted(Insert(k, v'))).(sharers := {0, 1})
  }

  lemma BothGetAdmitted<K(!new), V(!new)>(c: Config<K>, k: K, v: V, v': V)
    requires c.threads > 1 && c.cap > 0
    ensures Reachable(c, BothAdmitted(c, k, v, v'))
  {
    var s0: State<K, V> := Start(c);
    StartReachable<K, V>(c);
    CheckPasses(c, s0, 0, k, v);
    var s1 := At(s0, 0, Entering(Insert(k, v)));
    CheckPasses(c, s1, 1, k, v');
    var s2 := At(s1, 1, Entering(Insert(k, v')));
    Admits(c, s2, 0, Insert(k, v));
    var s3 := At(s2, 0, Admitted(Insert(k, v))).(sharers := {} + {0});
    assert s3.sharers == s2.sharers + {0};
    Admits(c, s3, 1, Insert(k, v'));
    var s4 := At(s3, 1, Admitted(Insert(k, v'))).(sharers := s3.sharers + {1});
    assert s4.threads == BothAdmitted(c, k, v, v').threads;
    assert s4 == BothAdmitted(c, k, v, v');
  }

  /** The race: with two threads or more, resizable or not, and for any key, two overlapping inserts
      of it can both succeed, and the table then holds the key twice. */
  lemma TwoInsertsBothSucceed<K(!new), V(!new)>(c: Config<K>, k: K, v: V, v': V) returns (s: State<K, V>)
    requires c.threads > 1 && c.cap > 0
    ensures Reachable(c, s) && Inv(c, s)
    ensures PairsOf(c.h, s.table, k) == [(k, v), (k, v')]
    ensures s.threads[0].reply == Added(true) && s.threads[1].reply == Added(true)
  {
    var b := Index(c.h, k, c.cap);
    var s4 := BothAdmitted(c, k, v, v');
    BothGetAdmitted(c, k, v, v');
    Pushes(c, s4, 0, k, v);
    var s5 := AfterPush(c, s4, 0, k, v);
    Returns(c, s5, 0, Insert(k, v), b);
    var s6 := At(s5, 0, Idle).(table := s5.table.(size := s5.table.size + 1),
                               owners := s5.owners[b := None], sharers := s5.sharers - {0});
    Pushes(c, s6, 1, k, v');
    s := AfterPush(c, s6, 1, k, v');
    assert s.table.buckets[b] == [] + [(k, v)] + [(k, v')];
    TwoPairs(s.table.buckets[b], k, v, v');
    ReachableInv(c, s);
  }

  lemma TwoPairs<K, V>(bucket: Bucket<K, V>, k: K, v: V, v': V)
    requires bucket == [(k, v), (k, v')]
    ensures Of(bucket, k) == bucket
  {
    OfConcat([(k, v)], [(k, v')], k);
    OfOne((k, v), k);
    OfOne((k, v'), k);
    assert bucket == [(k, v)] + [(k, v')];
  }

  lemma ReachableInv<K(!new), V(!new)>(c: Config<K>, s: State<K, V>)
    requires Reachable(c, s)
    ensures Inv(c, s)
  {
    var run: seq<State<K, V>>, choices: seq<Choice<K, V>> :| IsRun(c, run, choices) && run[|choices|] == s;
    RunKeepsInv(c, run, choices);
  }

  lemma AloneNoOverlap<K(!new), V(!new)>(
      c: Config<K>, run: seq<State<K, V>>, choices: seq<Choice<K, V>>, k: K, n: nat)
    requires IsRun(c, run, choices) && n <= |choices| && c.threads == 1
    ensures NoOverlap(run[n], k)
  {
    RunKeepsInv(c, run[..n + 1], choices[..n]);
    SumAtMostLength(run[n].threads, Inserting(k));
  }

  /** Without a promise of the callers, keys stay unique in every run if and only if there is only
      one thread. */
  lemma UniqueIffAlone<K(!new), V(!new)>(c: Config<K>, k: K, v: V)
    requires c.threads > 0 && c.cap > 0
    ensures (forall s: State<K, V> :: Reachable(c, s) ==> AtMostOne(c, s, k)) <==> c.threads == 1
  {
    if c.threads == 1 {
      forall s: State<K, V> | Reachable(c, s) ensures AtMostOne(c, s, k) {
        var run: seq<State<K, V>>, choices: seq<Choice<K, V>> :| IsRun(c, run, choices) && run[|choices|] == s;
        forall n | 0 <= n < |choices| ensures NoOverlap(run[n], k) {
          AloneNoOverlap(c, run, choices, k, n);
        }
        UniqueWithoutOverlap(c, run, choices, k);
      }
    } else {
      var s := TwoInsertsBothSucceed(c, k, v, v);
      assert Reachable(c, s) && !AtMostOne(c, s, k);
    }
  }
}
