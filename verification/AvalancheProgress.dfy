/**
 Which transactions an Avalanche node never proposes. However long it goes on batching, exactly
 those stay pending that wait for a stuck or a stranded transaction.
 */
module AvalancheProgress {
  import opened Collections
  import opened Ledger
  import opened Values
  import opened AvalancheBatching
  import opened AvalancheBlockManagement

  /** `s'` is reached from `s` by `n` steps of the batching loop. */
  ghost predicate Batched(s: Batcher, s': Batcher, n: nat)
    decreases n
  {
    if n == 0 then s' == s else exists m :: Batched(s, m, n - 1) && Advanced(m, s')
  }

  /** Batching never proposes `h`. */
  ghost predicate PendingForever(s: Batcher, h: Hash) {
    forall s', n: nat :: Batched(s, s', n) ==> h in s'.dag
  }

  lemma {:induction false} BatchedKeeps(s: Batcher, s': Batcher, n: nat)
    requires Inv(s) && Batched(s, s', n)
    ensures Inv(s') && forall h :: Waits(s, h, false) ==> Waits(s', h, false)
    decreases n
  {
    hide Inv, Advanced, Waits;
    if n > 0 {
      var m :| Batched(s, m, n - 1) && Advanced(m, s');
      BatchedKeeps(s, m, n - 1);
      AdvanceKeeps(m, s');
      AdvanceWaits(m, s');
    }
  }

  // ---------------------------------------------------------------- looking back

  lemma {:induction false} WaitedBefore(s: Batcher, s': Batcher, h: Hash, n: nat)
    requires Inv(s) && Advanced(s, s') && WaitsOn(s', h, n, false)
    ensures WaitsOn(s, h, n, false)
    decreases n
  {
    hide Inv, Stuck, Stranded, Advanced, Pending;
    AdvanceKeeps(s, s');
    if n > 0 {
      var p :| p in Pending(s', h) && WaitsOn(s', p, n - 1, false);
      WaitedBefore(s, s', p, n - 1);
      AdvanceShrinks(s, s', h, p);
    }
  }

  lemma AdvanceShrinks(s: Batcher, s': Batcher, h: Hash, p: Hash)
    requires Advanced(s, s') && h in s'.dag && p in Pending(s', h)
    ensures h in s.dag && p in Pending(s, h)
  {
  }

  lemma {:induction false} BatchedBefore(s: Batcher, s': Batcher, n: nat, h: Hash)
    requires Inv(s) && Batched(s, s', n) && Waits(s', h, false)
    ensures Waits(s, h, false)
    decreases n
  {
    hide Inv, Advanced, WaitsOn;
    if n > 0 {
      var m :| Batched(s, m, n - 1) && Advanced(m, s');
      BatchedKeeps(s, m, n - 1);
      var k: nat :| WaitsOn(s', h, k, false);
      WaitedBefore(m, s', h, k);
      BatchedBefore(s, m, n - 1, h);
    }
  }

  // ---------------------------------------------------------------- until the frontier is empty

  lemma {:induction false} Listed(c: set<Hash>) returns (q: seq<Hash>)
    ensures Elems(q) == c
    decreases c
  {
    if c == {} {
      q := [];
    } else {
      var x :| x in c;
      q := Listed(c - {x});
      ElemsSnoc(q, x);
      q := q + [x];
    }
  }

  lemma NextStep(s: Batcher) returns (s': Batcher)
    requires s.frontier != []
    ensures Advanced(s, s') && (|s'.dag| < |s.dag| || (s'.dag == s.dag && |s'.frontier| < |s.frontier|))
  {
    var h, rest := s.frontier[0], s.frontier[1..];
    if h in s.dag {
      var q := Listed(Freed(s.dag - {h}, s.dag[h].children));
      hide Freed;
      LeaveSize(s, h);
      s' := Leave(s, h).(frontier := rest + q);
      assert (rest + q)[|rest|..] == q;
    } else {
      s' := s.(frontier := rest);
    }
  }

  /** The loop gets to an empty frontier. */
  lemma {:induction false} Drained(s: Batcher) returns (s': Batcher, n: nat)
    ensures Batched(s, s', n) && s'.frontier == []
    decreases |s.dag|, |s.frontier|
  {
    hide Advanced;
    if s.frontier == [] {
      s', n := s, 0;
    } else {
      var m := NextStep(s);
      var k;
      s', k := Drained(m);
      BatchedFirst(s, m, s', k);
      n := k + 1;
    }
  }

  lemma {:induction false} BatchedFirst(s: Batcher, m: Batcher, s': Batcher, n: nat)
    requires Advanced(s, m) && Batched(m, s', n)
    ensures Batched(s, s', n + 1)
    decreases n
  {
    hide Advanced;
    if n == 0 {
      assert Batched(s, s, 0);
    } else {
      var r :| Batched(m, r, n - 1) && Advanced(r, s');
      BatchedFirst(s, m, r, n - 1);
    }
  }

  /** A pending transaction is never proposed by batching if and only if it waits for a stuck or a stranded one. */
  lemma PendingForeverIff(s: Batcher, h: Hash)
    requires Inv(s)
    ensures PendingForever(s, h) <==> Waits(s, h, false)
  {
    hide Inv, Batched, WaitsOn;
    if Waits(s, h, false) {
      forall s', n: nat | Batched(s, s', n) ensures h in s'.dag {
        BatchedKeeps(s, s', n);
        var k: nat :| WaitsOn(s', h, k, false);
        WaitsInDag(s', h, k, false);
      }
    }
    if PendingForever(s, h) {
      var s', n := Drained(s);
      BatchedKeeps(s, s', n);
      IdleMeansBlocked(s', h);
      BatchedBefore(s, s', n, h);
    }
  }

  // ---------------------------------------------------------------- an unrequested reply

  const G := Grant(1, 7, 5, 1)
  const CHILD := Send(2, 7, [1], 8, 5, 0, true, 1)

  lemma ChildParents(dag: map<Hash, DagNode>)
    requires 1 in dag
    ensures ParentsOf(CHILD) == [1] && PendingOf(dag, [1]) == {1}
  {
  }

  lemma ChildWaits(s: Batcher)
    requires Stranded(s, 1) && 2 in s.dag && 2 in s.pool && s.pool[2] == CHILD
    ensures Waits(s, 1, false) && Waits(s, 2, false)
  {
    assert WaitsOn(s, 1, 0, false);
    assert 1 in Pending(s, 2);
    assert WaitsOn(s, 2, 1, false);
  }

  /** A pooled grant that never left has no counted parents unless it is stuck. */
  lemma GrantStranded(s: Batcher)
    requires Inv(s) && s.out == [] && s.frontier == [] && 1 in s.pool && s.pool[1] == G && forall x :: !Stuck(s, x)
    ensures 1 in s.dag && s.dag[1].numParents == 0 && 1 in s.seen
  {
    hide Edges, FrontOk;
    assert Elems(s.out) == {} && 1 in Elems(s.seen);
    assert Pending(s, 1) == {};
    assert !Stuck(s, 1);
    assert Excess(s, 1) >= 0;
  }

  /**
   A run in which nothing is stuck and still two transactions are never proposed: a reply that was
   not requested brings a new grant, whose entry in the frontier is dropped; its child comes later.
   */
  method UnrequestedReplyStrands() returns (m: BlockManagement)
    ensures m.Valid() && 1 in m.dag && 2 in m.dag
    ensures forall x :: !Stuck(m.View(), x)
    ensures PendingForever(m.View(), 1) && PendingForever(m.View(), 2)
  {
    hide Inv, Waits, PendingForever, AllWaitingOk, SubPool, Masks, Replaces, AllPooled, PendingOf, ParentsOf;
    m := new BlockManagement(1);
    ghost var entries := [Known(G)];
    var v := m.ValidateBlock(0, 0, 1, [Known(G)]);
    assert entries[0] == Known(G) && v.Unexpected?;
    forall x | x in m.txnPool ensures x == 1 && m.txnPool[x] == G { assert Known(m.txnPool[x]) in entries; }
    NothingNewStuck(m.View());
    GrantStranded(m.View());
    ChildParents(m.dag);
    ghost var s1 := m.View();
    assert Stranded(s1, 1);
    var isNew := m.RecordNewTxn(CHILD);
    ChildPending(m.View());
    ChildWaits(m.View());
    PendingForeverIff(m.View(), 1);
    PendingForeverIff(m.View(), 2);
  }

  lemma NothingNewStuck(s: Batcher)
    requires s.pool.Keys <= {1} && (1 in s.pool ==> s.pool[1] == G)
    requires forall x :: Stuck(s, x) ==> NewRepeats(Batcher(map[], map[], [], [], []), s, x)
    ensures forall x :: !Stuck(s, x)
  {
  }

  lemma ChildPending(s: Batcher)
    requires Inv(s) && s.out == [] && 2 in s.pool
    ensures 2 in s.dag
  {
    hide Edges, Counted, FrontOk;
    assert Elems(s.out) == {};
  }

  // ---------------------------------------------------------------- a recorded transaction that gets stuck

  const H := Grant(2, 7, 5, 1)
  const BOTH := Send(3, 7, [1, 2], 8, 10, 0, true, 1)

  /** The two grants are pooled, and nothing is blocked. */
  ghost predicate TwoGrants(s: Batcher) {
    && Inv(s) && s.pool == map[1 := G, 2 := H]
    && forall x :: !Stuck(s, x) && !Stranded(s, x)
  }

  lemma NotIdle(s: Batcher)
    requires TwoGrants(s) && s.out == []
    ensures s.frontier != []
  {
    hide Edges, FrontOk;
    assert Elems(s.out) == {} && 1 in s.pool.Keys && 1 in s.dag;
    assert Pending(s, 1) == {} && Excess(s, 1) == s.dag[1].numParents;
    assert !Stuck(s, 1) && !Stranded(s, 1);
  }

  lemma OneLeft(s: Batcher)
    requires TwoGrants(s) && |s.out| == 1
    ensures |PendingOf(s.dag, [1, 2])| == 1 && ParentsOf(BOTH) == [1, 2] && Precede(BOTH, s.seen)
  {
    hide Edges, Counted, FrontOk;
    var x := s.out[0];
    assert s.out == [x] && Elems(s.out) == {x} && x in s.pool.Keys;
    assert s.dag.Keys == {1, 2} - {x};
    assert PendingOf(s.dag, [1, 2]) == {1, 2} - {x} == {3 - x};
    assert 1 in Elems(s.seen) && 2 in Elems(s.seen);
  }

  lemma StuckWaits(s: Batcher, h: Hash)
    requires Inv(s) && Stuck(s, h)
    ensures PendingForever(s, h)
  {
    hide Inv, Stuck;
    assert WaitsOn(s, h, 0, false);
    PendingForeverIff(s, h);
  }

  lemma Parentless(seen: seq<Hash>)
    ensures ParentsOf(G) == [] && ParentsOf(H) == [] && Precede(G, seen) && Precede(H, seen)
  {
  }

  /**
   Not every recorded transaction is proposed. Two grants are recorded and one of them leaves for a
   batch; their child then counts two parents, sees one leave, and waits for ever.
   */
  method RecordedButNeverProposed() returns (m: BlockManagement)
    ensures m.Valid() && 3 in m.txnPool && Stuck(m.View(), 3) && PendingForever(m.View(), 3)
  {
    hide Inv, Stuck, Stranded, Waits, PendingForever, AllWaitingOk, PendingOf, ParentsOf, Precede;
    m := new BlockManagement(1);
    EmptyUnblocked();
    Parentless(m.seen);
    var _ := m.RecordNewTxn(G);
    Parentless(m.seen);
    var _ := m.RecordNewTxn(H);
    assert m.txnPool == map[1 := G, 2 := H];
    var full := m.PrepareNewBlock();
    assert TwoGrants(m.View());
    if !full { NotIdle(m.View()); }
    OneLeft(m.View());
    var _ := m.RecordNewTxn(BOTH);
    StuckWaits(m.View(), 3);
  }

  lemma EmptyUnblocked()
    ensures forall x :: !Stuck(Batcher(map[], map[], [], [], []), x) && !Stranded(Batcher(map[], map[], [], [], []), x)
  {
  }
}
