/**
 The order in which an Avalanche node proposes transactions. Pooled transactions wait in a DAG
 with a counter of pending parents each; those whose counter is 0 queue in the frontier and leave
 for a batch from there.

 `Pending` is the real set of pending parents. The counter never falls below its size, so no
 decrement underflows and what leaves the DAG has no pending parent. The difference between the
 two never changes: a transaction recorded with some but not all of its parents pending keeps a
 positive difference and gets stuck. A transaction may also be stranded, with no entry in the
 frontier. What waits for a stuck or a stranded one stays pending, and nothing else does.
 */
module AvalancheBatching {
  import opened Collections
  import opened Ledger
  import opened Values

  datatype DagNode = DagNode(numParents: nat, children: set<Hash>)

  /** `seen` lists the pooled transactions in the order they were recorded, `out` those that left the DAG. */
  datatype Batcher = Batcher(pool: TxnPool, dag: map<Hash, DagNode>, frontier: seq<Hash>, seen: seq<Hash>, out: seq<Hash>)

  function ParentsOf(t: Txn): seq<Hash> {
    if t.Send? then t.inputs else []
  }

  ghost function PendingOf(dag: map<Hash, DagNode>, parents: seq<Hash>): set<Hash> {
    set p | p in dag && p in parents
  }

  ghost function Pending(s: Batcher, h: Hash): set<Hash> {
    set p | p in s.dag && h in s.pool && p in ParentsOf(s.pool[h])
  }

  /** Nobody comes before its parents. */
  ghost predicate ParentsFirst(pool: TxnPool, hs: seq<Hash>) {
    forall i :: 0 <= i < |hs| ==> hs[i] in pool && Precede(pool[hs[i]], hs[..i])
  }

  ghost predicate Precede(t: Txn, hs: seq<Hash>) {
    forall p :: p in ParentsOf(t) ==> p in hs
  }

  // ---------------------------------------------------------------- the invariant

  /** Pending nodes know exactly their pending children. */
  ghost predicate Edges(s: Batcher) {
    && (forall p {:trigger s.dag[p].children} :: p in s.dag ==> s.dag[p].children <= s.pool.Keys)
    && (forall p, h {:trigger h in s.dag[p].children} ::
          p in s.dag && h in s.dag ==> (h in s.dag[p].children <==> p in Pending(s, h)))
  }

  ghost predicate Counted(s: Batcher) {
    forall h {:trigger s.dag[h].numParents} :: h in s.dag ==> s.dag[h].numParents >= |Pending(s, h)|
  }

  ghost predicate FrontOk(s: Batcher) {
    forall h :: h in s.frontier ==> h in s.pool && (h in s.dag ==> Pending(s, h) == {})
  }

  ghost predicate Orders(s: Batcher) {
    && Distinct(s.seen) && Elems(s.seen) == s.pool.Keys && ParentsFirst(s.pool, s.seen)
    && Distinct(s.out) && s.dag.Keys !! Elems(s.out) && s.dag.Keys + Elems(s.out) == s.pool.Keys
    && ParentsFirst(s.pool, s.out)
  }

  ghost predicate Inv(s: Batcher) {
    Orders(s) && Edges(s) && Counted(s) && FrontOk(s)
  }

  /** How much the counter exceeds the pending parents. */
  ghost function Excess(s: Batcher, h: Hash): int
    requires h in s.dag
  {
    s.dag[h].numParents - |Pending(s, h)|
  }

  ghost predicate Stuck(s: Batcher, h: Hash) {
    h in s.dag && h !in s.frontier && Excess(s, h) > 0
  }

  /** It could be proposed, but its entry in the frontier is lost. */
  ghost predicate Stranded(s: Batcher, h: Hash) {
    h in s.dag && h !in s.frontier && s.dag[h].numParents == 0
  }

  // ---------------------------------------------------------------- steps

  function LinkUp(dag: map<Hash, DagNode>, h: Hash, parents: seq<Hash>): map<Hash, DagNode> {
    map p | p in dag :: if p in parents then dag[p].(children := dag[p].children + {h}) else dag[p]
  }

  /** A new transaction joins the DAG with the given counter. */
  function Join(s: Batcher, t: Txn, n: nat): Batcher {
    s.(pool := s.pool[t.id := t], dag := LinkUp(s.dag, t.id, ParentsOf(t))[t.id := DagNode(n, {})], seen := s.seen + [t.id])
  }

  function Release(dag: map<Hash, DagNode>, done: set<Hash>): map<Hash, DagNode> {
    map c | c in dag :: if c in done && dag[c].numParents > 0 then dag[c].(numParents := dag[c].numParents - 1) else dag[c]
  }

  /** A transaction without pending parents leaves the DAG; its children count one parent less. */
  function Leave(s: Batcher, h: Hash): Batcher
    requires h in s.dag
  {
    s.(dag := Release(s.dag - {h}, s.dag[h].children), out := s.out + [h])
  }

  // ---------------------------------------------------------------- joining

  lemma PrefixSnoc(pool: TxnPool, t: Txn, hs: seq<Hash>)
    requires ParentsFirst(pool, hs) && t.id !in pool && Precede(t, hs)
    ensures ParentsFirst(pool[t.id := t], hs + [t.id])
  {
    hide Precede;
    var hs' := hs + [t.id];
    forall i | 0 <= i < |hs'| ensures hs'[i] in pool[t.id := t] && Precede(pool[t.id := t][hs'[i]], hs'[..i]) {
      assert hs'[..i] == hs[..i];
      assert i == |hs| ==> hs[..i] == hs;
    }
  }

  lemma OutGrows(pool: TxnPool, t: Txn, hs: seq<Hash>)
    requires ParentsFirst(pool, hs) && t.id !in pool
    ensures ParentsFirst(pool[t.id := t], hs)
  {
    hide Precede;
  }

  lemma JoinOrders(s: Batcher, t: Txn, n: nat)
    requires Orders(s) && t.id !in s.pool && Precede(t, s.seen)
    ensures Orders(Join(s, t, n))
  {
    hide Precede, ParentsFirst, Distinct;
    PrefixSnoc(s.pool, t, s.seen);
    OutGrows(s.pool, t, s.out);
    assert (s.seen + [t.id])[..|s.seen|] == s.seen;
    Snoc(s.seen + [t.id]);
    assert t.id !in Elems(s.seen) && t.id !in Elems(s.out);
  }

  /** A known transaction's parents are known. */
  lemma ParentsKnown(s: Batcher, h: Hash, p: Hash)
    requires Orders(s) && h in s.pool && p in ParentsOf(s.pool[h])
    ensures p in s.pool
  {
    hide Distinct;
    assert h in Elems(s.seen);
    var i :| 0 <= i < |s.seen| && s.seen[i] == h;
    assert Precede(s.pool[h], s.seen[..i]);
    assert p in s.seen && p in Elems(s.seen);
  }

  /** A newcomer is nobody's parent, so it changes no set of pending parents. */
  lemma JoinPending(s: Batcher, t: Txn, n: nat, h: Hash)
    requires Orders(s) && t.id !in s.pool && Precede(t, s.seen) && h in s.dag
    ensures Pending(Join(s, t, n), h) == Pending(s, h) && h != t.id && h in s.pool
  {
    hide Distinct, ParentsFirst, Precede;
    forall p | p in ParentsOf(s.pool[h]) ensures p != t.id { ParentsKnown(s, h, p); }
  }

  lemma JoinPendingSelf(s: Batcher, t: Txn, n: nat)
    requires Orders(s) && t.id !in s.pool && Precede(t, s.seen)
    ensures Pending(Join(s, t, n), t.id) == PendingOf(s.dag, ParentsOf(t))
  {
    hide Distinct, ParentsFirst;
    forall p | p in ParentsOf(t) ensures p != t.id { assert p in Elems(s.seen); }
  }

  lemma JoinEdges(s: Batcher, t: Txn, n: nat)
    requires Orders(s) && Edges(s) && t.id !in s.pool && Precede(t, s.seen)
    ensures Edges(Join(s, t, n))
  {
    hide Orders, Precede, Pending;
    var s' := Join(s, t, n);
    JoinPendingSelf(s, t, n);
    forall h | h in s.dag ensures Pending(s', h) == Pending(s, h) && h != t.id { JoinPending(s, t, n, h); }
    forall h | h in s.dag ensures t.id !in Pending(s, h) { PendingInDag(s, h, t.id); }
  }

  lemma PendingInDag(s: Batcher, h: Hash, p: Hash)
    requires Orders(s) && p !in s.pool
    ensures p !in Pending(s, h)
  {
  }

  /** A newcomer with a sufficient counter keeps the invariant and everybody else's excess. */
  lemma JoinKeeps(s: Batcher, t: Txn, n: nat)
    requires Inv(s) && t.id !in s.pool && Precede(t, s.seen)
    requires n >= |PendingOf(s.dag, ParentsOf(t))|
    ensures Inv(Join(s, t, n))
    ensures forall h :: h in s.dag ==> h in Join(s, t, n).dag && Excess(Join(s, t, n), h) == Excess(s, h)
  {
    hide Orders, Edges, Precede, Pending;
    var s' := Join(s, t, n);
    JoinOrders(s, t, n);
    JoinEdges(s, t, n);
    JoinPendingSelf(s, t, n);
    forall h | h in s.dag ensures Pending(s', h) == Pending(s, h) && h != t.id && h in s.pool { JoinPending(s, t, n, h); }
  }

  // ---------------------------------------------------------------- leaving

  lemma LeavePending(s: Batcher, h: Hash, c: Hash)
    requires h in s.dag
    ensures Pending(Leave(s, h), c) == Pending(s, c) - {h}
  {
  }

  /** A pending child counts its parent, so the decrement of its counter cannot underflow. */
  lemma NoUnderflow(s: Batcher, h: Hash, c: Hash)
    requires Edges(s) && Counted(s) && h in s.dag && c in s.dag && c in s.dag[h].children
    ensures s.dag[c].numParents > 0
  {
    hide Pending;
    assert h in Pending(s, c);
  }

  lemma LeaveCount(s: Batcher, h: Hash, c: Hash)
    requires Edges(s) && Counted(s) && h in s.dag && c in s.dag && c != h
    ensures c in Leave(s, h).dag && Excess(Leave(s, h), c) == Excess(s, c)
  {
    hide Pending;
    LeavePending(s, h, c);
    if c in s.dag[h].children {
      NoUnderflow(s, h, c);
      assert |Pending(s, c) - {h}| == |Pending(s, c)| - 1;
    } else {
      assert Pending(s, c) - {h} == Pending(s, c);
    }
  }

  lemma LeaveOrders(s: Batcher, h: Hash)
    requires Orders(s) && h in s.dag && Pending(s, h) == {}
    ensures Orders(Leave(s, h))
  {
    hide Distinct, ParentsFirst;
    assert (s.out + [h])[..|s.out|] == s.out;
    Snoc(s.out + [h]);
    forall p | p in ParentsOf(s.pool[h]) ensures p in s.out {
      ParentsKnown(s, h, p);
      assert p !in s.dag;
      assert p in Elems(s.out);
    }
    OutSnoc(s.pool, s.out, h);
    assert Leave(s, h).dag.Keys == s.dag.Keys - {h};
  }

  lemma OutSnoc(pool: TxnPool, hs: seq<Hash>, h: Hash)
    requires ParentsFirst(pool, hs) && h in pool && Precede(pool[h], hs)
    ensures ParentsFirst(pool, hs + [h])
  {
    hide Precede;
    var hs' := hs + [h];
    forall i | 0 <= i < |hs'| ensures hs'[i] in pool && Precede(pool[hs'[i]], hs'[..i]) {
      assert hs'[..i] == hs[..i];
      assert i == |hs| ==> hs[..i] == hs;
    }
  }

  lemma LeaveEdges(s: Batcher, h: Hash)
    requires Edges(s) && h in s.dag
    ensures Edges(Leave(s, h))
  {
    hide Pending;
    forall c ensures Pending(Leave(s, h), c) == Pending(s, c) - {h} { LeavePending(s, h, c); }
  }

  lemma LeaveKeeps(s: Batcher, h: Hash)
    requires Inv(s) && h in s.dag && Pending(s, h) == {}
    ensures Inv(Leave(s, h))
    ensures forall c :: c in s.dag && c != h ==> c in Leave(s, h).dag && Excess(Leave(s, h), c) == Excess(s, c)
  {
    hide Pending, Edges, Orders;
    LeaveOrders(s, h);
    LeaveEdges(s, h);
    forall c | c in s.dag && c != h ensures c in Leave(s, h).dag && Excess(Leave(s, h), c) == Excess(s, c) { LeaveCount(s, h, c); }
    forall c ensures Pending(Leave(s, h), c) == Pending(s, c) - {h} { LeavePending(s, h, c); }
  }

  // ---------------------------------------------------------------- who waits

  /** Stuck, or else stranded unless only stuck ones are asked for. */
  ghost predicate Blocked(s: Batcher, h: Hash, onlyStuck: bool) {
    Stuck(s, h) || (!onlyStuck && Stranded(s, h))
  }

  /** A chain of `n` pending parents leads from `h` to a blocked transaction. */
  ghost predicate WaitsOn(s: Batcher, h: Hash, n: nat, onlyStuck: bool)
    decreases n
  {
    if n == 0 then Blocked(s, h, onlyStuck)
    else h in s.dag && exists p :: p in Pending(s, h) && WaitsOn(s, p, n - 1, onlyStuck)
  }

  ghost predicate Waits(s: Batcher, h: Hash, onlyStuck: bool) {
    exists n: nat :: WaitsOn(s, h, n, onlyStuck)
  }

  lemma WaitsInDag(s: Batcher, h: Hash, n: nat, onlyStuck: bool)
    requires WaitsOn(s, h, n, onlyStuck)
    ensures h in s.dag
  {
  }

  lemma ParentEarlier(s: Batcher, i: nat, p: Hash) returns (j: nat)
    requires Orders(s) && i < |s.seen| && p in Pending(s, s.seen[i])
    ensures j < i && s.seen[j] == p
  {
    hide Distinct;
    assert Precede(s.pool[s.seen[i]], s.seen[..i]);
    j :| 0 <= j < i && s.seen[j] == p;
  }

  lemma InDag(s: Batcher, h: Hash, p: Hash)
    requires p in Pending(s, h)
    ensures p in s.dag
  {
  }

  lemma {:induction false} IdleWaits(s: Batcher, i: nat)
    requires Inv(s) && s.frontier == [] && i < |s.seen| && s.seen[i] in s.dag
    ensures Waits(s, s.seen[i], false)
    decreases i
  {
    hide Orders, Edges, Pending;
    var h := s.seen[i];
    if Excess(s, h) > 0 || Pending(s, h) == {} {
      assert s.dag[h].numParents >= |Pending(s, h)|;
      assert WaitsOn(s, h, 0, false);
    } else {
      var p :| p in Pending(s, h);
      var j := ParentEarlier(s, i, p);
      InDag(s, h, p);
      IdleWaits(s, j);
      var n: nat :| WaitsOn(s, p, n, false);
      assert WaitsOn(s, h, n + 1, false);
    }
  }

  /** With an empty frontier, whatever is still pending waits for a stuck or a stranded transaction. */
  lemma IdleMeansBlocked(s: Batcher, h: Hash)
    requires Inv(s) && s.frontier == [] && h in s.dag
    ensures Waits(s, h, false)
  {
    hide Edges, Counted, FrontOk, Waits, Distinct, ParentsFirst;
    assert h in Elems(s.seen);
    var i :| 0 <= i < |s.seen| && s.seen[i] == h;
    IdleWaits(s, i);
  }
}
