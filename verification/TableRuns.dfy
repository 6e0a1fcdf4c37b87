/** Whole runs of table operations by one thread: refinement of a map, the load bounds and
    the cost of rehashing. */
module TableRuns {
  import opened Common
  import opened TableSpec
  import opened TableOps
  import opened TableNumbers

  datatype Op<K, V> = OpGet(k: K) | OpInsert(k: K, v: V) | OpRemove(k: K) | OpAssign(k: K, v: V)

  ghost function Perform<K(!new), V(!new)>(h: K -> nat, t: Table<K, V>, resizable: bool, op: Op<K, V>): (r: Table<K, V>)
    requires WellFormed(h, t)
    ensures WellFormed(h, r)
  {
    match op
    case OpGet(k) => t
    case OpInsert(k, v) => Inserted(h, t, resizable, k, v)
    case OpRemove(k) => Removed(h, t, resizable, k)
    case OpAssign(k, v) => Assigned(h, t, resizable, k, v)
  }

  /** What the operation answers. `remove` reads the bucket after its resizes. */
  ghost function ReplyTo<K(!new), V(!new)>(h: K -> nat, t: Table<K, V>, resizable: bool, op: Op<K, V>): Reply<K, V>
    requires WellFormed(h, t)
  {
    match op
    case OpGet(k) => Found(Get(h, t, k))
    case OpInsert(k, v) => Added(Get(h, t, k).None?)
    case OpRemove(k) => Found(Get(h, Prepared(h, t, resizable, -1), k))
    case OpAssign(k, v) => NoReply
  }

  ghost function MapPerform<K, V>(m: map<K, V>, op: Op<K, V>): map<K, V> {
    match op
    case OpGet(k) => m
    case OpInsert(k, v) => if k in m then m else m[k := v]
    case OpRemove(k) => m - {k}
    case OpAssign(k, v) => m[k := v]
  }

  ghost function MapReply<K, V>(m: map<K, V>, op: Op<K, V>): Reply<K, V> {
    match op
    case OpGet(k) => Found(if k in m then Some(m[k]) else None)
    case OpInsert(k, v) => Added(k !in m)
    case OpRemove(k) => Found(if k in m then Some(m[k]) else None)
    case OpAssign(k, v) => NoReply
  }

  ghost function Run<K(!new), V(!new)>(
      h: K -> nat, t: Table<K, V>, resizable: bool, ops: seq<Op<K, V>>): (r: Table<K, V>)
    requires WellFormed(h, t)
    ensures WellFormed(h, r)
  {
    if ops == [] then t else Perform(h, Run(h, t, resizable, ops[..|ops| - 1]), resizable, ops[|ops| - 1])
  }

  ghost function Replies<K(!new), V(!new)>(
      h: K -> nat, t: Table<K, V>, resizable: bool, ops: seq<Op<K, V>>): seq<Reply<K, V>>
    requires WellFormed(h, t)
  {
    if ops == [] then []
    else
      var n := |ops| - 1;
      Replies(h, t, resizable, ops[..n]) + [ReplyTo(h, Run(h, t, resizable, ops[..n]), resizable, ops[n])]
  }

  ghost function MapRun<K, V>(m: map<K, V>, ops: seq<Op<K, V>>): map<K, V> {
    if ops == [] then m else MapPerform(MapRun(m, ops[..|ops| - 1]), ops[|ops| - 1])
  }

  ghost function MapReplies<K, V>(m: map<K, V>, ops: seq<Op<K, V>>): seq<Reply<K, V>> {
    if ops == [] then []
    else
      var n := |ops| - 1;
      MapReplies(m, ops[..n]) + [MapReply(MapRun(m, ops[..n]), ops[n])]
  }

  lemma PerformRefines<K(!new), V(!new)>(h: K -> nat, t: Table<K, V>, resizable: bool, op: Op<K, V>)
    requires Valid(h, t)
    ensures Valid(h, Perform(h, t, resizable, op))
    ensures MapOf(h, Perform(h, t, resizable, op)) == MapPerform(MapOf(h, t), op)
    ensures ReplyTo(h, t, resizable, op) == MapReply(MapOf(h, t), op)
  {
    MapOfGet(h, t, op.k);
    match op
    case OpGet(k) =>
    case OpInsert(k, v) => InsertedMap(h, t, resizable, k, v);
    case OpRemove(k) =>
      RemovedMap(h, t, resizable, k);
      PreparedKeepsOrder(h, t, resizable, -1, k);
      GetIsFirst(h, t, k);
      GetIsFirst(h, Prepared(h, t, resizable, -1), k);
    case OpAssign(k, v) => AssignedMap(h, t, resizable, k, v);
  }

  /** Over every sequence of operations, resizable or not, the table answers as a map does,
      keeps its keys unique, and `_size` is the number of keys. */
  lemma {:induction false} RunRefinesMap<K(!new), V(!new)>(
      h: K -> nat, t: Table<K, V>, resizable: bool, ops: seq<Op<K, V>>)
    requires Valid(h, t)
    ensures Valid(h, Run(h, t, resizable, ops))
    ensures MapOf(h, Run(h, t, resizable, ops)) == MapRun(MapOf(h, t), ops)
    ensures Replies(h, t, resizable, ops) == MapReplies(MapOf(h, t), ops)
    ensures Run(h, t, resizable, ops).size == |MapRun(MapOf(h, t), ops)|
  {
    if ops == [] {
    } else {
      var n := |ops| - 1;
      RunRefinesMap(h, t, resizable, ops[..n]);
      PerformRefines(h, Run(h, t, resizable, ops[..n]), resizable, ops[n]);
    }
    SizeIsCardinality(h, Run(h, t, resizable, ops));
  }

  // ----- sizes, capacities and costs -----

  /** The load promise of a resizable table. */
  ghost predicate Balanced(n: nat, cap: nat) {
    n >= 2 ==> cap > 4 && 4 * n < 3 * cap && cap < 10 * n
  }

  /** The retry loop of a remove that finds nothing keeps the promise as well: at most two
      halvings lead from one balanced capacity to the next. */
  lemma SettlingKeepsBalance(n: nat, cap: nat)
    requires cap > 0 && Balanced(n, cap)
    ensures Balanced(n, SettledCap(n, cap, -1))
  {
  }

  lemma InsertedBalance<K(!new), V(!new)>(h: K -> nat, t: Table<K, V>, k: K, v: V)
    requires WellFormed(h, t) && Balanced(t.size, t.cap)
    ensures var r := Inserted(h, t, true, k, v); Balanced(r.size, r.cap)
  {
  }

  lemma RemovedBalance<K(!new), V(!new)>(h: K -> nat, t: Table<K, V>, k: K)
    requires WellFormed(h, t) && Balanced(t.size, t.cap)
    ensures var r := Removed(h, t, true, k); Balanced(r.size, r.cap)
  {
    SettledCapacity(h, t, -1);
    SettlingKeepsBalance(t.size, t.cap);
  }

  lemma AssignedBalance<K(!new), V(!new)>(h: K -> nat, t: Table<K, V>, k: K, v: V)
    requires WellFormed(h, t) && Balanced(t.size, t.cap)
    ensures var r := Assigned(h, t, true, k, v); Balanced(r.size, r.cap)
  {
    if Get(h, t, k).Some? {
      RemovedBalance(h, t, k);
      InsertedBalance(h, Removed(h, t, true, k), k, v);
    } else {
      InsertedBalance(h, t, k, v);
    }
  }

  lemma PerformBalance<K(!new), V(!new)>(h: K -> nat, t: Table<K, V>, op: Op<K, V>)
    requires WellFormed(h, t) && Balanced(t.size, t.cap)
    ensures var r := Perform(h, t, true, op); Balanced(r.size, r.cap)
  {
    match op
    case OpGet(k) =>
    case OpInsert(k, v) => InsertedBalance(h, t, k, v);
    case OpRemove(k) => RemovedBalance(h, t, k);
    case OpAssign(k, v) => AssignedBalance(h, t, k, v);
  }

  /** Two-sided load invariant: from an empty resizable table, after every run, a table of two
      or more entries has more than four buckets and a load strictly between 1/10 and 3/4. */
  lemma {:induction false} RunStaysBalanced<K(!new), V(!new)>(h: K -> nat, t: Table<K, V>, ops: seq<Op<K, V>>)
    requires WellFormed(h, t) && t.size == 0
    ensures var r := Run(h, t, true, ops);
            r.size >= 2 ==> r.cap > 4 && 4 * r.size < 3 * r.cap && r.cap < 10 * r.size
  {
    if ops == [] {
    } else {
      var n := |ops| - 1;
      RunStaysBalanced(h, t, ops[..n]);
      PerformBalance(h, Run(h, t, true, ops[..n]), ops[n]);
    }
  }

  /** How often a capacity can be halved before it drops below 20. */
  ghost function Halvings(cap: nat): nat {
    if cap < 20 then 0 else 1 + Halvings((cap + 1) / 2)
  }

  /** Twenty times the rehash work saved up at this load. */
  ghost function Potential(n: nat, cap: nat): nat {
    if n <= 1 then 20 * Halvings(cap)
    else (if 40 * n > 15 * cap then 40 * n - 15 * cap else 0) + (if 4 * cap > 20 * n then 4 * cap - 20 * n else 0)
  }

  /** An insert pays for its resizes: work done plus work saved up rises by a constant. */
  lemma InsertPays(n: nat, cap: nat)
    requires cap > 0 && Balanced(n, cap)
    ensures 20 * SettlingCost(n, cap, 1) + Potential(n + 1, SettledCap(n, cap, 1)) <= Potential(n, cap) + 105
  {
    if n == 1 {
      SecondInsert(cap);
    } else if Policy(n, cap, 1) == Grow {
      assert Policy(n, cap * 2, 1) == Keep;
      ResizeLowersMeasure(n, cap, 1);
      assert SettlingCost(n, cap, 1) == n + SettlingCost(n, cap * 2, 1) == n;
    }
  }

  /** With one entry, an insert pays for the halvings of a large initial capacity. */
  lemma {:induction false} SecondInsert(cap: nat)
    requires cap > 0
    ensures SettlingCost(1, cap, 1) <= Halvings(cap) + (if cap <= 4 then 5 - cap else 0)
    ensures cap != 1 ==> SettlingCost(1, cap, 1) <= Halvings(cap) + 2
    ensures SettlingCost(1, cap, 1) <= Halvings(cap) + 3
    ensures 4 < SettledCap(1, cap, 1) < 20
    decreases Measure(1, cap)
  {
    var v := Policy(1, cap, 1);
    if v == Keep {
    } else {
      ResizeLowersMeasure(1, cap, 1);
      SecondInsert(NewCap(v, cap));
    }
  }

  /** So does a remove, whether or not it finds its key. */
  lemma RemovePays(n: nat, cap: nat)
    requires cap > 0 && Balanced(n, cap)
    ensures 20 * SettlingCost(n, cap, -1) + Potential(n, SettledCap(n, cap, -1)) <= Potential(n, cap) + 105
    ensures n > 0 ==>
      20 * SettlingCost(n, cap, -1) + Potential(n - 1, SettledCap(n, cap, -1)) <= Potential(n, cap) + 105
  {
    if n == 1 {
      RemoveLast(cap);
    } else if Policy(n, cap, -1) != Keep {
      assert Policy(n, cap, -1) == Shrink;
      var c := (cap + 1) / 2;
      ResizeLowersMeasure(n, cap, -1);
      if Policy(n, c, -1) != Keep {
        assert n == 2 && c == 10;
        ResizeLowersMeasure(n, c, -1);
        assert Policy(2, 5, -1) == Keep;
        assert SettlingCost(2, 10, -1) == 2 + SettlingCost(2, 5, -1) == 2;
      }
    }
  }

  lemma {:induction false} RemoveLast(cap: nat)
    requires cap > 0
    ensures SettlingCost(1, cap, -1) <= if cap <= 4 then 5 - cap else 0
    ensures Halvings(SettledCap(1, cap, -1)) == Halvings(cap)
    decreases Measure(1, cap)
  {
    var v := Policy(1, cap, -1);
    if v == Keep {
    } else {
      ResizeLowersMeasure(1, cap, -1);
      RemoveLast(NewCap(v, cap));
    }
  }

  ghost function Cost<K(!new), V(!new)>(h: K -> nat, t: Table<K, V>, op: Op<K, V>): nat
    requires WellFormed(h, t)
  {
    match op
    case OpGet(k) => 0
    case OpInsert(k, v) => InsertCost(h, t, k)
    case OpRemove(k) => RemoveCost(t)
    case OpAssign(k, v) => AssignCost(h, t, k)
  }

  /** The number of `insert` and `remove` calls behind the operations: an assignment makes two. */
  ghost function Calls<K, V>(ops: seq<Op<K, V>>): nat {
    if ops == [] then 0
    else Calls(ops[..|ops| - 1]) + (match ops[|ops| - 1] case OpGet(_) => 0 case OpAssign(_, _) => 2 case _ => 1)
  }

  ghost function RunCost<K(!new), V(!new)>(h: K -> nat, t: Table<K, V>, ops: seq<Op<K, V>>): nat
    requires WellFormed(h, t)
  {
    if ops == [] then 0
    else
      var n := |ops| - 1;
      RunCost(h, t, ops[..n]) + Cost(h, Run(h, t, true, ops[..n]), ops[n])
  }

  lemma InsertedPays<K(!new), V(!new)>(h: K -> nat, t: Table<K, V>, k: K, v: V)
    requires WellFormed(h, t) && Balanced(t.size, t.cap)
    ensures var r := Inserted(h, t, true, k, v);
            20 * InsertCost(h, t, k) + Potential(r.size, r.cap) <= Potential(t.size, t.cap) + 105
  {
    SettledCapacity(h, t, 1);
    InsertPays(t.size, t.cap);
  }

  lemma RemovedPays<K(!new), V(!new)>(h: K -> nat, t: Table<K, V>, k: K)
    requires WellFormed(h, t) && Balanced(t.size, t.cap)
    ensures var r := Removed(h, t, true, k);
            20 * RemoveCost(t) + Potential(r.size, r.cap) <= Potential(t.size, t.cap) + 105
  {
    SettledCapacity(h, t, -1);
    RemovePays(t.size, t.cap);
  }

  lemma AssignedPays<K(!new), V(!new)>(h: K -> nat, t: Table<K, V>, k: K, v: V)
    requires WellFormed(h, t) && Balanced(t.size, t.cap)
    ensures var r := Assigned(h, t, true, k, v);
            20 * AssignCost(h, t, k) + Potential(r.size, r.cap) <= Potential(t.size, t.cap) + 210
  {
    if Get(h, t, k).Some? {
      RemovedPays(h, t, k);
      RemovedBalance(h, t, k);
      InsertedPays(h, Removed(h, t, true, k), k, v);
    } else {
      InsertedPays(h, t, k, v);
    }
  }

  lemma PerformPays<K(!new), V(!new)>(h: K -> nat, t: Table<K, V>, op: Op<K, V>)
    requires WellFormed(h, t) && Balanced(t.size, t.cap)
    ensures var r := Perform(h, t, true, op);
            20 * Cost(h, t, op) + Potential(r.size, r.cap) <= Potential(t.size, t.cap) + 105 * Calls([op])
  {
    assert [op][..0] == [];
    match op
    case OpGet(k) =>
    case OpInsert(k, v) => InsertedPays(h, t, k, v);
    case OpRemove(k) => RemovedPays(h, t, k);
    case OpAssign(k, v) => AssignedPays(h, t, k, v);
  }

  lemma {:induction false} RunPays<K(!new), V(!new)>(h: K -> nat, t: Table<K, V>, ops: seq<Op<K, V>>)
    requires WellFormed(h, t) && t.size == 0
    ensures var r := Run(h, t, true, ops);
            20 * RunCost(h, t, ops) + Potential(r.size, r.cap) <= 20 * Halvings(t.cap) + 105 * Calls(ops)
    ensures Balanced(Run(h, t, true, ops).size, Run(h, t, true, ops).cap)
  {
    if ops == [] {
    } else {
      var n := |ops| - 1;
      RunPays(h, t, ops[..n]);
      PerformPays(h, Run(h, t, true, ops[..n]), ops[n]);
      PerformBalance(h, Run(h, t, true, ops[..n]), ops[n]);
      assert [ops[n]][..0] == [];
    }
  }

  /** Amortised cost: on an initially empty resizable table of any capacity, all resizes of a
      run together re-insert at most six pairs per call, plus one per halving of the initial
      capacity. */
  lemma RehashingIsAmortised<K(!new), V(!new)>(h: K -> nat, t: Table<K, V>, ops: seq<Op<K, V>>)
    requires WellFormed(h, t) && t.size == 0
    ensures RunCost(h, t, ops) <= 6 * Calls(ops) + Halvings(t.cap)
  {
    RunPays(h, t, ops);
  }
}
