/** The hash table under any number of threads, as a step machine: one step per lock
    operation, read or write of shared state. */
module TableMachine {
  import opened Common
  import opened TableSpec
  import opened TableOps

  datatype Call<K, V> =
    | CallGet(k: K)
    | CallInsert(k: K, v: V)
    | CallRemove(k: K)
    | CallGetBucket(b: nat)                         // in READ_BUCKET: the bounds check and getBucket

  datatype Edit<K, V> = Insert(k: K, v: V) | Remove(k: K)

  function Delta<K, V>(e: Edit<K, V>): int {
    if e.Insert? then 1 else -1
  }

  /** Where a thread is. "Shared" and "exclusive" are the modes of the global lock. */
  datatype Pc<K, V> =
    | Idle
    | Checking(k: K, value: Option<V>)              // in get: about to lock shared
    | Reading(k: K, value: Option<V>)               // shared, about to lock the bucket shared
    | ReadingBucket(k: K, value: Option<V>, b: nat) // bucket locked shared, about to search
    | Bounding(b: nat)                              // about to compare b with the capacity, unlocked
    | Listing(b: nat)                               // in getBucket: about to lock shared
    | Selecting(b: nat)                             // shared, about to lock bucket b shared
    | Copying(b: nat)                               // bucket locked shared, about to copy
    | Entering(e: Edit<K, V>)                       // about to lock shared
    | Testing(e: Edit<K, V>)                        // needsResize: first read of _size
    | Testing2(e: Edit<K, V>, first: nat)           // needsResize: second read of _size
    | Refused(e: Edit<K, V>)                        // a resize is asked for, about to unlock
    | Expelled(e: Edit<K, V>)                       // in resize: about to lock exclusive
    | Deciding(e: Edit<K, V>)                       // exclusive, first read of _size
    | Deciding2(e: Edit<K, V>, first: nat)          // exclusive, second read of _size
    | Rebuilding(e: Edit<K, V>, verdict: Verdict)   // exclusive, about to rebuild
    | Admitted(e: Edit<K, V>)                       // shared, about to hash the key
    | Hashed(e: Edit<K, V>, b: nat)                 // about to lock bucket b
    | InBucket(e: Edit<K, V>, b: nat)               // bucket locked, about to push or search
    | Appended(e: Edit<K, V>, b: nat)               // pushed, about to ++_size
    | Located(e: Edit<K, V>, b: nat, j: nat)        // found, about to --_size
    | Discounted(e: Edit<K, V>, b: nat, j: nat)     // about to erase
    | Leaving(b: nat)                               // about to release both locks

  /** `owed` records the keys the thread has pushed and not yet called `remove` for, `reply` what
      its last call returned. */
  datatype Thread<K, V> = Thread(pc: Pc<K, V>, owed: set<K>, reply: Reply<K, V>)

  datatype State<K, V> = State(
    table: Table<K, V>,
    threads: seq<Thread<K, V>>,
    sharers: set<nat>,            // holders of the global lock, shared
    writer: Option<nat>,          // holder of the global lock, exclusive
    owners: seq<Option<nat>>,     // per bucket: exclusive holder
    readers: seq<set<nat>>)       // per bucket: shared holders

  datatype Config<!K> = Config(h: K -> nat, threads: nat, cap: nat, resizable: bool)

  function At<K, V>(s: State<K, V>, i: nat, pc: Pc<K, V>): State<K, V>
    requires i < |s.threads|
  {
    s.(threads := s.threads[i := s.threads[i].(pc := pc)])
  }

  ghost predicate Init<K(!new), V(!new)>(c: Config<K>, s: State<K, V>) {
    && c.threads > 0 && c.cap > 0
    && s.table.cap == c.cap && s.table.size == 0
    && |s.table.buckets| == (if c.cap < 4 then 4 else c.cap)
    && (forall b :: 0 <= b < |s.table.buckets| ==> s.table.buckets[b] == [])
    && |s.threads| == c.threads
    && (forall i :: 0 <= i < |s.threads| ==> s.threads[i] == Thread(Idle, {}, NoReply))
    && s.sharers == {} && s.writer == None
    && s.owners == seq(|s.table.buckets|, _ => None)
    && s.readers == seq(|s.table.buckets|, _ => {})
  }

  /** Only the lock operations can block. */
  ghost predicate CanStep<K(!new), V(!new)>(c: Config<K>, s: State<K, V>, i: nat) {
    && i < |s.threads|
    && 0 < s.table.cap <= |s.table.buckets| == |s.owners| == |s.readers|
    && match s.threads[i].pc {
         case Checking(_, _) => s.writer == None
         case Listing(_) => s.writer == None
         case Selecting(b) => b < |s.owners| ==> s.owners[b] == None
         case Copying(b) => b < |s.owners|
         case Entering(_) => s.writer == None
         case Expelled(_) => s.writer == None && s.sharers == {}
         case Reading(k, _) => s.owners[Index(c.h, k, s.table.cap)] == None
         case Hashed(_, b) => b < |s.owners| && s.owners[b] == None && s.readers[b] == {}
         case ReadingBucket(_, _, b) => b < |s.owners|
         case InBucket(_, b) => b < |s.owners|
         case Appended(_, b) => b < |s.owners|
         case Located(_, b, j) => b < |s.owners| && j < |s.table.buckets[b]|
         case Discounted(_, b, j) => b < |s.owners| && j < |s.table.buckets[b]|
         case Leaving(b) => b < |s.owners|
         case _ => true
       }
  }

  /** The step of thread `i`; an idle thread starts `call`. */
  ghost function Fire<K(!new), V(!new)>(c: Config<K>, s: State<K, V>, i: nat, call: Call<K, V>): State<K, V>
    requires CanStep(c, s, i)
  {
    var t := s.table;
    var owed := s.threads[i].owed;
    match s.threads[i].pc
    case Idle =>
      (match call
       case CallGet(k) => At(s, i, Checking(k, None))
       case CallInsert(k, v) => At(s, i, Checking(k, Some(v)))
       case CallRemove(k) => At(s, i, Entering(Remove(k)))
       case CallGetBucket(b) => At(s, i, Bounding(b)))
    case Checking(k, v) => At(s, i, Reading(k, v)).(sharers := s.sharers + {i})
    case Reading(k, v) =>
      var b := Index(c.h, k, t.cap);
      At(s, i, ReadingBucket(k, v, b)).(readers := s.readers[b := s.readers[b] + {i}])
    case ReadingBucket(k, v, b) =>
      var found := Lookup(t.buckets[b], k);
      var next :=
        if v == None then Thread(Idle, owed, Found(found))
        else if found.Some? then Thread(Idle, owed, Added(false))
        else Thread(Entering(Insert(k, v.value)), owed, s.threads[i].reply);
      s.(threads := s.threads[i := next], readers := s.readers[b := s.readers[b] - {i}], sharers := s.sharers - {i})
    case Bounding(b) =>
      if b < t.cap then At(s, i, Listing(b)) else s.(threads := s.threads[i := Thread(Idle, owed, Listed(None))])
    case Listing(b) => At(s, i, Selecting(b)).(sharers := s.sharers + {i})
    case Selecting(b) =>
      if b < |s.readers| then At(s, i, Copying(b)).(readers := s.readers[b := s.readers[b] + {i}])
      else s.(threads := s.threads[i := Thread(Idle, owed, Listed(None))], sharers := s.sharers - {i})
    case Copying(b) =>
      s.(threads := s.threads[i := Thread(Idle, owed, Listed(Some(t.buckets[b])))],
         readers := s.readers[b := s.readers[b] - {i}], sharers := s.sharers - {i})
    case Entering(e) =>
      At(s, i, if c.resizable then Testing(e) else Admitted(e)).(sharers := s.sharers + {i})
    case Testing(e) =>
      At(s, i, if t.size == 0 then Admitted(e) else if t.cap <= 4 then Refused(e) else Testing2(e, t.size))
    case Testing2(e, first) =>
      At(s, i, if Judge(first, t.size, t.cap, Delta(e)) == Keep then Admitted(e) else Refused(e))
    case Refused(e) => At(s, i, Expelled(e)).(sharers := s.sharers - {i})
    case Expelled(e) => At(s, i, Deciding(e)).(writer := Some(i))
    case Deciding(e) =>
      if t.size == 0 then At(s, i, Entering(e)).(writer := None)
      else At(s, i, if t.cap <= 4 then Rebuilding(e, Grow) else Deciding2(e, t.size))
    case Deciding2(e, first) =>
      var v := Judge(first, t.size, t.cap, Delta(e));
      if v == Keep then At(s, i, Entering(e)).(writer := None) else At(s, i, Rebuilding(e, v))
    case Rebuilding(e, v) =>
      var cap := NewCap(v, t.cap);
      At(s, i, Entering(e)).(
        table := Rebuilt(c.h, t, cap), writer := None,
        owners := seq(cap, _ => None), readers := seq(cap, _ => {}))
    case Admitted(e) => At(s, i, Hashed(e, Index(c.h, e.k, t.cap)))
    case Hashed(e, b) => At(s, i, InBucket(e, b)).(owners := s.owners[b := Some(i)])
    case InBucket(e, b) =>
      (match e
       case Insert(k, v) =>
         s.(table := t.(buckets := t.buckets[b := t.buckets[b] + [(k, v)]]),
            threads := s.threads[i := Thread(Appended(e, b), owed + {k}, Added(true))])
       case Remove(k) =>
         var j := Find(t.buckets[b], k);
         if j < |t.buckets[b]| then At(s, i, Located(e, b, j))
         else s.(threads := s.threads[i := Thread(Leaving(b), owed - {k}, Found(None))]))
    case Appended(e, b) => At(s, i, Leaving(b)).(table := t.(size := t.size + 1))
    case Located(e, b, j) => At(s, i, Discounted(e, b, j)).(table := t.(size := Widened(t.size, -1)))
    case Discounted(e, b, j) =>
      s.(table := t.(buckets := t.buckets[b := Erase(t.buckets[b], j)]),
         threads := s.threads[i := Thread(Leaving(b), owed - {e.k}, Found(Some(t.buckets[b][j].1)))])
    case Leaving(b) => At(s, i, Idle).(owners := s.owners[b := None], sharers := s.sharers - {i})
  }

  // ----- the invariant -----

  predicate Shares<K, V>(pc: Pc<K, V>) {
    match pc
    case Reading(_, _) => true
    case ReadingBucket(_, _, _) => true
    case Selecting(_) => true
    case Copying(_) => true
    case Testing(_) => true
    case Testing2(_, _) => true
    case Refused(_) => true
    case Admitted(_) => true
    case Hashed(_, _) => true
    case Leaving(_) => true
    case _ => pc.InBucket? || pc.Appended? || pc.Located? || pc.Discounted?
  }

  predicate Excludes<K, V>(pc: Pc<K, V>) {
    pc.Deciding? || pc.Deciding2? || pc.Rebuilding?
  }

  predicate Owns<K, V>(pc: Pc<K, V>, b: nat) {
    (pc.InBucket? || pc.Appended? || pc.Located? || pc.Discounted? || pc.Leaving?) && pc.b == b
  }

  predicate Reads<K, V>(pc: Pc<K, V>, b: nat) {
    (pc.ReadingBucket? || pc.Copying?) && pc.b == b
  }

  ghost predicate Shape<K(!new), V(!new)>(c: Config<K>, s: State<K, V>) {
    && c.threads > 0 && |s.threads| == c.threads
    && 0 < s.table.cap <= |s.table.buckets| == |s.owners| == |s.readers|
    && Placed(c.h, s.table.buckets, s.table.cap)
  }

  /** The locks are held exactly by the threads whose program counter says so, and the modes
      exclude each other. */
  ghost predicate Locks<K, V>(s: State<K, V>) {
    && (forall i: nat :: i in s.sharers <==> i < |s.threads| && Shares(s.threads[i].pc))
    && (forall i: nat :: s.writer == Some(i) <==> i < |s.threads| && Excludes(s.threads[i].pc))
    && (s.writer.Some? ==> s.sharers == {})
  }

  ghost predicate OwnerRight<K, V>(s: State<K, V>, b: nat, i: nat)
    requires b < |s.owners|
  {
    s.owners[b] == Some(i) <==> i < |s.threads| && Owns(s.threads[i].pc, b)
  }

  ghost predicate ReaderRight<K, V>(s: State<K, V>, b: nat, i: nat)
    requires b < |s.readers|
  {
    i in s.readers[b] <==> i < |s.threads| && Reads(s.threads[i].pc, b)
  }

  ghost predicate BucketLocks<K, V>(s: State<K, V>) {
    && (forall b: nat, i: nat :: b < |s.owners| ==> OwnerRight(s, b, i))
    && (forall b: nat, i: nat :: b < |s.readers| ==> ReaderRight(s, b, i))
    && (forall b: nat :: b < |s.owners| && b < |s.readers| && s.owners[b].Some? ==> s.readers[b] == {})
  }

  /** What a thread knows: a bucket index taken under the shared lock is still the right one, a
      found pair is still where it was found, and a verdict reached under the exclusive lock
      is the policy's for the present count. */
  ghost predicate Knows<K, V>(h: K -> nat, t: Table<K, V>, pc: Pc<K, V>)
    requires t.cap > 0
  {
    match pc
    case ReadingBucket(k, _, b) => b == Index(h, k, t.cap) && b < |t.buckets|
    case Copying(b) => b < |t.buckets|
    case Testing2(_, first) => first != 0 && t.cap > 4
    case Deciding2(_, first) => first == t.size != 0 && t.cap > 4
    case Rebuilding(e, v) => v == Policy(t.size, t.cap, Delta(e)) != Keep
    case Hashed(e, b) => b == Index(h, e.k, t.cap)
    case InBucket(e, b) => b == Index(h, e.k, t.cap)
    case Appended(e, b) => b == Index(h, e.k, t.cap) && b < |t.buckets| && e.Insert? && t.buckets[b] != []
    case Located(e, b, j) =>
      b == Index(h, e.k, t.cap) && b < |t.buckets| && e.Remove? && j == Find(t.buckets[b], e.k) < |t.buckets[b]|
    case Discounted(e, b, j) =>
      b == Index(h, e.k, t.cap) && b < |t.buckets| && e.Remove? && j == Find(t.buckets[b], e.k) < |t.buckets[b]|
    case Leaving(b) => b < t.cap
    case _ => true
  }

  ghost predicate Knowledge<K(!new), V(!new)>(c: Config<K>, s: State<K, V>)
    requires s.table.cap > 0
  {
    forall i :: 0 <= i < |s.threads| ==> Knows(c.h, s.table, s.threads[i].pc)
  }

  /** Pairs in a bucket that `_size` does not count: pushed before `++_size`, or still there
      after `--_size`. */
  function Uncounted<K, V>(t: Thread<K, V>): nat {
    if t.pc.Appended? || t.pc.Discounted? then 1 else 0
  }

  ghost predicate Counted<K(!new), V(!new)>(s: State<K, V>) {
    |Collect(s.table.buckets)| == s.table.size + Sum(s.threads, Uncounted)
  }

  ghost predicate Inv<K(!new), V(!new)>(c: Config<K>, s: State<K, V>) {
    Shape(c, s) && Locks(s) && BucketLocks(s) && Knowledge(c, s) && Counted(s)
  }

  /** In every reachable state: beside a thread inside `resize` nobody is in the table, and beside
      an editor of a bucket nobody edits or reads that bucket. */
  lemma LocksExclude<K(!new), V(!new)>(c: Config<K>, s: State<K, V>, x: nat, y: nat, b: nat)
    requires Inv(c, s) && x < |s.threads| && y < |s.threads| && x != y
    ensures Excludes(s.threads[x].pc) ==> !Excludes(s.threads[y].pc) && !Shares(s.threads[y].pc)
    ensures Owns(s.threads[x].pc, b) ==> !Owns(s.threads[y].pc, b) && !Reads(s.threads[y].pc, b)
  {
    if Excludes(s.threads[x].pc) {
      assert y !in s.sharers;
    }
    if Owns(s.threads[x].pc, b) {
      assert Knows(c.h, s.table, s.threads[x].pc);
      assert OwnerRight(s, b, x) && OwnerRight(s, b, y) && ReaderRight(s, b, y);
    }
  }

  lemma InitInv<K(!new), V(!new)>(c: Config<K>, s: State<K, V>)
    requires Init(c, s)
    ensures Inv(c, s)
  {
    CollectEmpty(s.table.buckets);
    SumZero(s.threads, Uncounted);
  }

  /** The global lock changes hands only with the thread that moves. */
  ghost predicate MovesLock<K, V>(s: State<K, V>, s': State<K, V>, i: nat)
    requires i < |s.threads| && i < |s'.threads|
  {
    && s'.sharers == (if Shares(s'.threads[i].pc) then s.sharers + {i} else s.sharers - {i})
    && s'.writer == (
         if Excludes(s'.threads[i].pc) then Some(i)
         else if Excludes(s.threads[i].pc) then None
         else s.writer)
    && (Excludes(s'.threads[i].pc) && !Excludes(s.threads[i].pc) ==> s.writer == None && s'.sharers == {})
    && (Shares(s'.threads[i].pc) && !Shares(s.threads[i].pc) ==> s.writer == None)
  }

  /** A step moves its own thread only, and the locks change with the thread. */
  ghost predicate Moves<K, V>(s: State<K, V>, s': State<K, V>, i: nat) {
    && i < |s.threads| == |s'.threads|
    && (forall x: nat :: x < |s.threads| && x != i ==> s'.threads[x] == s.threads[x])
    && MovesLock(s, s', i)
  }

  lemma FireThreads<K(!new), V(!new)>(c: Config<K>, s: State<K, V>, i: nat, call: Call<K, V>)
    requires CanStep(c, s, i)
    ensures |Fire(c, s, i, call).threads| == |s.threads|
    ensures Fire(c, s, i, call).threads == s.threads[i := Fire(c, s, i, call).threads[i]]
  {
  }

  lemma FireMoves<K(!new), V(!new)>(c: Config<K>, s: State<K, V>, i: nat, call: Call<K, V>)
    requires CanStep(c, s, i)
    requires i in s.sharers <==> Shares(s.threads[i].pc)
    requires s.writer == Some(i) <==> Excludes(s.threads[i].pc)
    requires s.writer.Some? ==> s.sharers == {}
    ensures Moves(s, Fire(c, s, i, call), i)
  {
    FireThreads(c, s, i, call);
    FireMovesLock(c, s, i, call);
  }

  predicate TouchesLock<K, V>(pc: Pc<K, V>) {
    || pc.Checking? || pc.ReadingBucket? || pc.Listing? || pc.Selecting? || pc.Copying?
    || pc.Entering? || pc.Refused? || pc.Leaving?
    || pc.Expelled? || pc.Deciding? || pc.Deciding2? || pc.Rebuilding?
  }

  lemma KeepsLock<K(!new), V(!new)>(c: Config<K>, s: State<K, V>, i: nat, call: Call<K, V>)
    requires CanStep(c, s, i) && !TouchesLock(s.threads[i].pc)
    ensures var s' := Fire(c, s, i, call);
            && s'.sharers == s.sharers && s'.writer == s.writer && |s'.threads| == |s.threads|
            && Shares(s'.threads[i].pc) == Shares(s.threads[i].pc)
            && !Excludes(s'.threads[i].pc) && !Excludes(s.threads[i].pc)
  {
  }

  lemma FireMovesLock<K(!new), V(!new)>(c: Config<K>, s: State<K, V>, i: nat, call: Call<K, V>)
    requires CanStep(c, s, i) && i < |Fire(c, s, i, call).threads|
    requires i in s.sharers <==> Shares(s.threads[i].pc)
    requires s.writer == Some(i) <==> Excludes(s.threads[i].pc)
    requires s.writer.Some? ==> s.sharers == {}
    ensures MovesLock(s, Fire(c, s, i, call), i)
  {
    if TouchesLock(s.threads[i].pc) {
      LockStep(c, s, i, call);
    } else {
      KeepsLock(c, s, i, call);
    }
  }

  lemma LockStep<K(!new), V(!new)>(c: Config<K>, s: State<K, V>, i: nat, call: Call<K, V>)
    requires CanStep(c, s, i) && i < |Fire(c, s, i, call).threads| && TouchesLock(s.threads[i].pc)
    requires i in s.sharers <==> Shares(s.threads[i].pc)
    requires s.writer == Some(i) <==> Excludes(s.threads[i].pc)
    requires s.writer.Some? ==> s.sharers == {}
    ensures MovesLock(s, Fire(c, s, i, call), i)
  {
  }

  lemma LocksKept<K, V>(s: State<K, V>, s': State<K, V>, i: nat)
    requires Locks(s) && Moves(s, s', i)
    ensures Locks(s')
  {
  }

  /** So does the lock of bucket `b`. */
  ghost predicate MovesBucket<K, V>(s: State<K, V>, s': State<K, V>, i: nat, b: nat)
    requires i < |s.threads| == |s'.threads| && b < |s.owners| == |s'.owners| && b < |s.readers| == |s'.readers|
  {
    && s'.owners[b] == (
         if Owns(s'.threads[i].pc, b) then Some(i)
         else if Owns(s.threads[i].pc, b) then None
         else s.owners[b])
    && s'.readers[b] == (if Reads(s'.threads[i].pc, b) then s.readers[b] + {i} else s.readers[b] - {i})
    && (Owns(s'.threads[i].pc, b) && !Owns(s.threads[i].pc, b) ==> s.owners[b] == None && s.readers[b] == {})
    && (Reads(s'.threads[i].pc, b) && !Reads(s.threads[i].pc, b) ==> s.owners[b] == None)
  }

  /** The bucket locks likewise, unless the buckets are new. */
  ghost predicate MovesBuckets<K, V>(s: State<K, V>, s': State<K, V>, i: nat)
    requires i < |s.threads| == |s'.threads|
  {
    && |s'.owners| == |s.owners| == |s.readers| == |s'.readers|
    && forall b: nat :: b < |s.owners| ==> MovesBucket(s, s', i, b)
  }

  predicate TouchesBucketLock<K, V>(pc: Pc<K, V>) {
    pc.Reading? || pc.ReadingBucket? || pc.Selecting? || pc.Copying? || pc.Hashed? || pc.Leaving?
  }

  /** The other kinds of steps touch no bucket lock. */
  lemma KeepsBucketLocks<K(!new), V(!new)>(c: Config<K>, s: State<K, V>, i: nat, call: Call<K, V>)
    requires CanStep(c, s, i)
    requires !s.threads[i].pc.Rebuilding? && !TouchesBucketLock(s.threads[i].pc)
    ensures var s' := Fire(c, s, i, call);
            && s'.owners == s.owners && s'.readers == s.readers
            && forall b: nat ::
                 && (Owns(s'.threads[i].pc, b) <==> Owns(s.threads[i].pc, b))
                 && !Reads(s'.threads[i].pc, b) && !Reads(s.threads[i].pc, b)
  {
  }

  lemma SameBuckets<K(!new), V(!new)>(c: Config<K>, s: State<K, V>, i: nat, call: Call<K, V>)
    requires CanStep(c, s, i) && !s.threads[i].pc.Rebuilding?
    ensures var s' := Fire(c, s, i, call);
            |s'.threads| == |s.threads| && |s'.owners| == |s.owners| && |s'.readers| == |s.readers|
  {
  }

  lemma BucketLockStep<K(!new), V(!new)>(c: Config<K>, s: State<K, V>, i: nat, call: Call<K, V>, b: nat)
    requires CanStep(c, s, i) && TouchesBucketLock(s.threads[i].pc) && b < |s.owners|
    requires OwnerRight(s, b, i) && ReaderRight(s, b, i)
    requires var s' := Fire(c, s, i, call);
             |s'.threads| == |s.threads| && |s'.owners| == |s.owners| && |s'.readers| == |s.readers|
    ensures MovesBucket(s, Fire(c, s, i, call), i, b)
  {
    assert i !in s.readers[b] ==> s.readers[b] - {i} == s.readers[b];
  }

  lemma FireMovesBuckets<K(!new), V(!new)>(c: Config<K>, s: State<K, V>, i: nat, call: Call<K, V>)
    requires CanStep(c, s, i) && BucketLocks(s) && !s.threads[i].pc.Rebuilding?
    ensures |Fire(c, s, i, call).threads| == |s.threads| && MovesBuckets(s, Fire(c, s, i, call), i)
  {
    var s' := Fire(c, s, i, call);
    SameBuckets(c, s, i, call);
    if !TouchesBucketLock(s.threads[i].pc) {
      KeepsBucketLocks(c, s, i, call);
    }
    forall b: nat | b < |s.owners| ensures MovesBucket(s, s', i, b) {
      assert OwnerRight(s, b, i) && ReaderRight(s, b, i);
      if TouchesBucketLock(s.threads[i].pc) {
        BucketLockStep(c, s, i, call, b);
      } else {
        assert i !in s.readers[b] ==> s.readers[b] - {i} == s.readers[b];
      }
    }
  }

  lemma BucketLocksKept<K, V>(s: State<K, V>, s': State<K, V>, i: nat)
    requires BucketLocks(s) && Moves(s, s', i) && MovesBuckets(s, s', i)
    ensures BucketLocks(s')
  {
    forall b: nat, x: nat | b < |s'.owners|
      ensures OwnerRight(s', b, x)
    {
      assert OwnerRight(s, b, x) && OwnerRight(s, b, i) && MovesBucket(s, s', i, b);
      assert x < |s.threads| && x != i ==> s'.threads[x] == s.threads[x];
    }
    forall b: nat, x: nat | b < |s'.readers|
      ensures ReaderRight(s', b, x)
    {
      assert ReaderRight(s, b, x) && MovesBucket(s, s', i, b);
      assert x < |s.threads| && x != i ==> s'.threads[x] == s.threads[x];
    }
    forall b: nat | b < |s'.owners| && b < |s'.readers| && s'.owners[b].Some?
      ensures s'.readers[b] == {}
    {
      assert OwnerRight(s, b, i) && ReaderRight(s, b, i) && MovesBucket(s, s', i, b);
    }
  }

  /** Whoever resizes is alone: the new buckets are nobody's. */
  lemma NewBucketsAreFree<K(!new), V(!new)>(c: Config<K>, s: State<K, V>, i: nat, call: Call<K, V>)
    requires Locks(s) && CanStep(c, s, i) && s.threads[i].pc.Rebuilding?
    ensures BucketLocks(Fire(c, s, i, call))
  {
    assert s.writer == Some(i);
    assert forall x: nat :: x < |s.threads| ==> !Shares(s.threads[x].pc);
  }

  /** Apart from pushes, erasures and rebuilds the buckets and the capacity stay. */
  lemma BucketsStay<K(!new), V(!new)>(c: Config<K>, s: State<K, V>, i: nat, call: Call<K, V>)
    requires CanStep(c, s, i)
    requires var pc := s.threads[i].pc; !pc.Rebuilding? && !pc.InBucket? && !pc.Discounted?
    ensures var s' := Fire(c, s, i, call);
            && s'.table.buckets == s.table.buckets && s'.table.cap == s.table.cap
            && |s'.threads| == |s.threads| && |s'.owners| == |s.owners| && |s'.readers| == |s.readers|
  {
  }

  lemma ShapeKept<K(!new), V(!new)>(c: Config<K>, s: State<K, V>, i: nat, call: Call<K, V>)
    requires Shape(c, s) && Knowledge(c, s) && CanStep(c, s, i)
    ensures Shape(c, Fire(c, s, i, call))
  {
    assert Knows(c.h, s.table, s.threads[i].pc);
    match s.threads[i].pc {
      case Rebuilding(e, v) =>
        FillPlaced(c.h, NewCap(v, s.table.cap), Collect(s.table.buckets[..s.table.cap]));
      case Discounted(e, b, j) =>
        ErasePlaced(c.h, s.table, b, j);
      case InBucket(_, _) =>
      case _ =>
        BucketsStay(c, s, i, call);
    }
  }

  predicate Edits<K, V>(pc: Pc<K, V>) {
    pc.Rebuilding? || pc.InBucket? || pc.Appended? || pc.Located? || pc.Discounted?
  }

  lemma EditorKnows<K(!new), V(!new)>(c: Config<K>, s: State<K, V>, i: nat, call: Call<K, V>)
    requires Shape(c, s) && CanStep(c, s, i) && Knows(c.h, s.table, s.threads[i].pc) && Edits(s.threads[i].pc)
    requires Shape(c, Fire(c, s, i, call))
    ensures Knows(c.h, Fire(c, s, i, call).table, Fire(c, s, i, call).threads[i].pc)
  {
  }

  lemma OnlookerKnows<K(!new), V(!new)>(c: Config<K>, s: State<K, V>, i: nat, call: Call<K, V>)
    requires Shape(c, s) && CanStep(c, s, i) && Knows(c.h, s.table, s.threads[i].pc) && !Edits(s.threads[i].pc)
    requires Shape(c, Fire(c, s, i, call))
    ensures Knows(c.h, Fire(c, s, i, call).table, Fire(c, s, i, call).threads[i].pc)
  {
  }

  /** The stepping thread knows what its new program counter says. */
  lemma StepperKnows<K(!new), V(!new)>(c: Config<K>, s: State<K, V>, i: nat, call: Call<K, V>)
    requires Shape(c, s) && CanStep(c, s, i) && Knows(c.h, s.table, s.threads[i].pc)
    requires Shape(c, Fire(c, s, i, call))
    ensures Knows(c.h, Fire(c, s, i, call).table, Fire(c, s, i, call).threads[i].pc)
  {
    if Edits(s.threads[i].pc) {
      EditorKnows(c, s, i, call);
    } else {
      OnlookerKnows(c, s, i, call);
    }
  }

  /** The others still know what they knew: what a step changes is protected by a lock that
      they do not hold. */
  lemma OthersKnow<K(!new), V(!new)>(c: Config<K>, s: State<K, V>, i: nat, call: Call<K, V>, x: nat)
    requires Shape(c, s) && Locks(s) && BucketLocks(s) && CanStep(c, s, i)
    requires Shape(c, Fire(c, s, i, call))
    requires x < |s.threads| && x != i && Knows(c.h, s.table, s.threads[x].pc)
    ensures Knows(c.h, Fire(c, s, i, call).table, s.threads[x].pc)
  {
    var pc, other := s.threads[i].pc, s.threads[x].pc;
    if Excludes(other) {
      assert s.writer == Some(x) && s.sharers == {};
      assert i !in s.sharers;
    }
    match pc {
      case Rebuilding(_, _) =>
        assert s.writer == Some(i) && x !in s.sharers;
      case InBucket(_, b) =>
        assert OwnerRight(s, b, i) && OwnerRight(s, b, x);
      case Discounted(_, b, _) =>
        assert OwnerRight(s, b, i) && OwnerRight(s, b, x);
      case _ =>
    }
  }

  lemma KnowledgeKept<K(!new), V(!new)>(c: Config<K>, s: State<K, V>, i: nat, call: Call<K, V>)
    requires Shape(c, s) && Locks(s) && BucketLocks(s) && Knowledge(c, s) && CanStep(c, s, i)
    requires Shape(c, Fire(c, s, i, call)) && Moves(s, Fire(c, s, i, call), i)
    ensures Knowledge(c, Fire(c, s, i, call))
  {
    var s' := Fire(c, s, i, call);
    forall x | 0 <= x < |s'.threads| ensures Knows(c.h, s'.table, s'.threads[x].pc) {
      if x == i {
        StepperKnows(c, s, i, call);
      } else {
        OthersKnow(c, s, i, call, x);
      }
    }
  }

  // ----- the count -----

  ghost predicate HoldsApart<K, V>(threads: seq<Thread<K, V>>, bs: seq<Bucket<K, V>>) {
    && (forall x :: 0 <= x < |threads| && Uncounted(threads[x]) == 1 ==>
          threads[x].pc.b < |bs| && bs[threads[x].pc.b] != [])
    && (forall x, y :: 0 <= x < y < |threads| && Uncounted(threads[x]) == 1 && Uncounted(threads[y]) == 1 ==>
          threads[x].pc.b != threads[y].pc.b)
  }

  /** Threads in different nonempty buckets are at most as many as the pairs. */
  lemma {:induction false} UncountedBound<K, V>(threads: seq<Thread<K, V>>, bs: seq<Bucket<K, V>>)
    requires HoldsApart(threads, bs)
    ensures Sum(threads, Uncounted) <= |Collect(bs)|
  {
    if threads == [] {
    } else {
      var n := |threads| - 1;
      if Uncounted(threads[n]) == 1 {
        var b := threads[n].pc.b;
        var pre, post := CollectSplit(bs, b, []);
        UncountedBound(threads[..n], bs[b := []]);
      } else {
        UncountedBound(threads[..n], bs);
      }
    }
  }

  lemma BucketHoldersApart<K(!new), V(!new)>(c: Config<K>, s: State<K, V>)
    requires Shape(c, s) && BucketLocks(s) && Knowledge(c, s)
    ensures HoldsApart(s.threads, s.table.buckets)
  {
    forall x | 0 <= x < |s.threads| && Uncounted(s.threads[x]) == 1
      ensures s.threads[x].pc.b < |s.table.buckets| && s.table.buckets[s.threads[x].pc.b] != []
      ensures s.owners[s.threads[x].pc.b] == Some(x)
    {
      assert Knows(c.h, s.table, s.threads[x].pc);
      assert OwnerRight(s, s.threads[x].pc.b, x);
    }
  }

  /** `--_size` never wraps: there is a counted pair to discount. */
  lemma SizePositiveAtDiscount<K(!new), V(!new)>(c: Config<K>, s: State<K, V>, i: nat)
    requires Inv(c, s) && i < |s.threads| && s.threads[i].pc.Located?
    ensures s.table.size > 0
  {
    var pc := s.threads[i].pc;
    var moved := s.threads[i].(pc := Discounted(pc.e, pc.b, pc.j));
    var threads := s.threads[i := moved];
    BucketHoldersApart(c, s);
    assert Knows(c.h, s.table, pc);
    forall x | 0 <= x < |s.threads| && Uncounted(s.threads[x]) == 1 ensures s.threads[x].pc.b != pc.b {
      assert OwnerRight(s, pc.b, i);
      assert OwnerRight(s, pc.b, x);
    }
    UncountedBound(threads, s.table.buckets);
    SumUpdate(s.threads, i, moved, Uncounted);
  }

  /** Under the exclusive lock `_size` is the true number of pairs. */
  lemma ExactWhenExclusive<K(!new), V(!new)>(c: Config<K>, s: State<K, V>)
    requires Inv(c, s) && s.writer.Some?
    ensures WellFormed(c.h, s.table)
  {
    forall x | 0 <= x < |s.threads| ensures Uncounted(s.threads[x]) == 0 {
      assert x !in s.sharers;
    }
    SumZero(s.threads, Uncounted);
  }

  /** Only five kinds of steps change the table, the count or what a thread owes. */
  lemma KeepsTable<K(!new), V(!new)>(c: Config<K>, s: State<K, V>, i: nat, call: Call<K, V>)
    requires CanStep(c, s, i) && !Edits(s.threads[i].pc)
    ensures var s' := Fire(c, s, i, call);
            && s'.table == s.table && s'.threads[i].owed == s.threads[i].owed
            && Uncounted(s'.threads[i]) == Uncounted(s.threads[i])
  {
  }

  lemma CountedKept<K(!new), V(!new)>(c: Config<K>, s: State<K, V>, i: nat, call: Call<K, V>)
    requires Inv(c, s) && CanStep(c, s, i)
    ensures Counted(Fire(c, s, i, call))
  {
    var s' := Fire(c, s, i, call);
    FireThreads(c, s, i, call);
    SumUpdate(s.threads, i, s'.threads[i], Uncounted);
    if !Edits(s.threads[i].pc) {
      KeepsTable(c, s, i, call);
    } else {
      EditsCounted(c, s, i, call);
    }
  }

  lemma EditsCounted<K(!new), V(!new)>(c: Config<K>, s: State<K, V>, i: nat, call: Call<K, V>)
    requires Inv(c, s) && CanStep(c, s, i) && Edits(s.threads[i].pc)
    ensures var s' := Fire(c, s, i, call);
            |Collect(s'.table.buckets)| + s.table.size + Uncounted(s.threads[i])
            == |Collect(s.table.buckets)| + s'.table.size + Uncounted(s'.threads[i])
  {
    var t := s.table;
    assert Knows(c.h, t, s.threads[i].pc);
    match s.threads[i].pc {
      case Rebuilding(e, v) =>
        ExactWhenExclusive(c, s);
        RebuildKeepsPairs(c.h, t, NewCap(v, t.cap));
      case InBucket(e, b) =>
        if e.Insert? {
          CollectAppend(t.buckets, b, (e.k, e.v));
        }
      case Appended(_, _) =>
      case Located(_, _, _) => SizePositiveAtDiscount(c, s, i);
      case Discounted(_, b, j) => CollectErase(t.buckets, b, j);
    }
  }

  /** Every step of every thread keeps the invariant. */
  lemma StepKeepsInv<K(!new), V(!new)>(c: Config<K>, s: State<K, V>, i: nat, call: Call<K, V>)
    requires Inv(c, s) && CanStep(c, s, i)
    ensures Inv(c, Fire(c, s, i, call))
  {
    var s' := Fire(c, s, i, call);
    ShapeKept(c, s, i, call);
    FireMoves(c, s, i, call);
    LocksKept(s, s', i);
    if s.threads[i].pc.Rebuilding? {
      NewBucketsAreFree(c, s, i, call);
    } else {
      FireMovesBuckets(c, s, i, call);
      BucketLocksKept(s, s', i);
    }
    KnowledgeKept(c, s, i, call);
    CountedKept(c, s, i, call);
  }
}
