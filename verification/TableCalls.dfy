/** One call on the shared table: it takes effect in exactly one of its steps, and its reply says
    what that step found or did. */
module TableCalls {
  import opened Common
  import opened TableSpec
  import opened TableOps
  import opened TableMachine
  import opened TableMachineRuns

  /** The thread is inside `call` and the call has not taken effect. */
  predicate Ahead<K(==), V(==)>(pc: Pc<K, V>, call: Call<K, V>) {
    match pc
    case Idle => false
    case Leaving(_) => false
    case Appended(_, _) => false
    case Checking(k, v) => Looks(call, k, v)
    case Reading(k, v) => Looks(call, k, v)
    case ReadingBucket(k, v, _) => Looks(call, k, v)
    case Bounding(b) => call == CallGetBucket(b)
    case Listing(b) => call == CallGetBucket(b)
    case Selecting(b) => call == CallGetBucket(b)
    case Copying(b) => call == CallGetBucket(b)
    case _ =>
      match call
      case CallInsert(k, v) => pc.e == Insert(k, v)
      case CallRemove(k) => pc.e == Remove(k)
      case _ => false
  }

  /** A search for `k`: that of `get`, or the check of an `insert` of `v`. */
  predicate Looks<K(==), V(==)>(call: Call<K, V>, k: K, v: Option<V>) {
    call == if v == None then CallGet(k) else CallInsert(k, v.value)
  }

  /** The call has taken effect and is on its way out. */
  predicate After<K, V>(pc: Pc<K, V>) {
    pc.Idle? || pc.Leaving? || pc.Appended?
  }

  /** The step that decides what the call returns. */
  ghost predicate TakesEffect<K, V>(t: Table<K, V>, pc: Pc<K, V>) {
    match pc
    case ReadingBucket(k, v, b) => v == None || (b < |t.buckets| && Lookup(t.buckets[b], k).Some?)
    case InBucket(e, b) => e.Insert? || (b < |t.buckets| && Lookup(t.buckets[b], e.k) == None)
    case Discounted(_, _, _) => true
    case Bounding(b) => b >= t.cap
    case Selecting(b) => b >= |t.buckets|
    case Copying(_) => true
    case _ => false
  }

  /** What the reply says about the table before and after the effect. */
  ghost predicate Explains<K(!new), V(!new)>(
      h: K -> nat, t: Table<K, V>, t': Table<K, V>, call: Call<K, V>, reply: Reply<K, V>) {
    && 0 < t.cap <= |t.buckets| && 0 < t'.cap <= |t'.buckets|
    && match call
       case CallGet(k) => t' == t && reply == Found(Get(h, t, k))
       case CallGetBucket(b) =>
         t' == t && if b < |t.buckets| && reply != Listed(None) then reply == Listed(Some(t.buckets[b]))
                    else b >= t.cap && reply == Listed(None)
       case CallInsert(k, v) =>
         var ps, ps' := PairsOf(h, t, k), PairsOf(h, t', k);
         && OthersStay(h, t, t', k)
         && (|| (reply == Added(false) && ps != [] && ps' == ps)
             || (reply == Added(true) && ps' == ps + [(k, v)]))
       case CallRemove(k) =>
         var ps, ps' := PairsOf(h, t, k), PairsOf(h, t', k);
         && OthersStay(h, t, t', k)
         && (|| (reply == Found(None) && ps == [] && ps' == [])
             || (ps != [] && reply == Found(Some(ps[0].1)) && ps' == ps[1..]))
  }

  ghost predicate OthersStay<K(!new), V(!new)>(h: K -> nat, t: Table<K, V>, t': Table<K, V>, k: K)
    requires 0 < t.cap <= |t.buckets| && 0 < t'.cap <= |t'.buckets|
  {
    forall q: K :: q != k ==> PairsOf(h, t', q) == PairsOf(h, t, q)
  }

  lemma CallStarts<K(!new), V(!new)>(c: Config<K>, s: State<K, V>, i: nat, call: Call<K, V>)
    requires CanStep(c, s, i) && s.threads[i].pc.Idle?
    ensures Ahead(Fire(c, s, i, call).threads[i].pc, call) && Fire(c, s, i, call).table == s.table
  {
  }

  /** Before its effect a call stays the same call, and its effect ends this part. */
  lemma CallAdvances<K(!new), V(!new)>(c: Config<K>, s: State<K, V>, i: nat, call: Call<K, V>, any: Call<K, V>)
    requires Inv(c, s) && CanStep(c, s, i) && Ahead(s.threads[i].pc, call)
    ensures var pc' := Fire(c, s, i, any).threads[i].pc;
            if TakesEffect(s.table, s.threads[i].pc) then After(pc') else Ahead(pc', call)
  {
    assert Knows(c.h, s.table, s.threads[i].pc);
  }

  /** After its effect a call changes neither its reply nor any pair, and takes no second effect. */
  lemma CallLeaves<K(!new), V(!new)>(c: Config<K>, s: State<K, V>, i: nat, any: Call<K, V>)
    requires Inv(c, s) && CanStep(c, s, i) && After(s.threads[i].pc) && !s.threads[i].pc.Idle?
    ensures !TakesEffect(s.table, s.threads[i].pc)
    ensures After(Fire(c, s, i, any).threads[i].pc)
    ensures Fire(c, s, i, any).threads[i].reply == s.threads[i].reply
  {
  }

  /** A step of a call that is not its effect changes the pairs of no key. */
  lemma OnlyEffectsChangePairs<K(!new), V(!new)>(c: Config<K>, s: State<K, V>, i: nat, any: Call<K, V>, k: K)
    requires Inv(c, s) && CanStep(c, s, i) && !TakesEffect(s.table, s.threads[i].pc)
    ensures Inv(c, Fire(c, s, i, any))
    ensures PairsOf(c.h, Fire(c, s, i, any).table, k) == PairsOf(c.h, s.table, k)
  {
    StepKeepsInv(c, s, i, any);
    StepOnPairs(c, s, i, any, k);
  }

  /** The effect of a call: what the reply says is what the step found and did. */
  lemma EffectExplained<K(!new), V(!new)>(c: Config<K>, s: State<K, V>, i: nat, call: Call<K, V>, any: Call<K, V>)
    requires Inv(c, s) && CanStep(c, s, i) && Ahead(s.threads[i].pc, call) && TakesEffect(s.table, s.threads[i].pc)
    ensures Inv(c, Fire(c, s, i, any))
    ensures Explains(c.h, s.table, Fire(c, s, i, any).table, call, Fire(c, s, i, any).threads[i].reply)
  {
    var pc, s' := s.threads[i].pc, Fire(c, s, i, any);
    StepKeepsInv(c, s, i, any);
    assert Knows(c.h, s.table, pc);
    if call.CallInsert? || call.CallRemove? {
      EditExplained(c, s, i, call, any);
    } else if pc.ReadingBucket? {
      ReplyIsCurrent(c, s, i, any);
    }
  }

  /** What a thread has still to take out again: a key it added, until it calls `remove` for it. Only the
      effects of its own calls change that. */
  lemma EffectOwes<K(!new), V(!new)>(c: Config<K>, s: State<K, V>, i: nat, call: Call<K, V>, any: Call<K, V>)
    requires Inv(c, s) && CanStep(c, s, i) && Ahead(s.threads[i].pc, call) && TakesEffect(s.table, s.threads[i].pc)
    ensures var t, t' := s.threads[i], Fire(c, s, i, any).threads[i];
            t'.owed == if call.CallInsert? && t'.reply == Added(true) then t.owed + {call.k}
                       else if call.CallRemove? then t.owed - {call.k}
                       else t.owed
  {
    assert Knows(c.h, s.table, s.threads[i].pc);
  }

  lemma OnlyEffectsOwe<K(!new), V(!new)>(c: Config<K>, s: State<K, V>, i: nat, any: Call<K, V>, x: nat)
    requires Inv(c, s) && CanStep(c, s, i) && x < |s.threads|
    requires x == i ==> !TakesEffect(s.table, s.threads[i].pc)
    ensures x < |Fire(c, s, i, any).threads| && Fire(c, s, i, any).threads[x].owed == s.threads[x].owed
  {
    FireThreads(c, s, i, any);
  }

  lemma EditExplained<K(!new), V(!new)>(c: Config<K>, s: State<K, V>, i: nat, call: Call<K, V>, any: Call<K, V>)
    requires Inv(c, s) && CanStep(c, s, i) && Ahead(s.threads[i].pc, call) && TakesEffect(s.table, s.threads[i].pc)
    requires Inv(c, Fire(c, s, i, any)) && (call.CallInsert? || call.CallRemove?)
    ensures Explains(c.h, s.table, Fire(c, s, i, any).table, call, Fire(c, s, i, any).threads[i].reply)
  {
    var pc, s' := s.threads[i].pc, Fire(c, s, i, any);
    StepOnPairs(c, s, i, any, call.k);
    assert Knows(c.h, s.table, pc);
    GetIsFirst(c.h, s.table, call.k);
    if pc.ReadingBucket? {
      ReplyIsCurrent(c, s, i, any);
    } else if pc.InBucket? && pc.e.Remove? {
      NothingToRemove(c, s, i, any);
    }
    forall q: K | q != call.k ensures PairsOf(c.h, s'.table, q) == PairsOf(c.h, s.table, q) {
      StepOnPairs(c, s, i, any, q);
    }
  }
}
