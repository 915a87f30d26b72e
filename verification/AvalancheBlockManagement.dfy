/** The Avalanche block management stage: it pools transactions, batches them and checks peers' blocks. */
module AvalancheBlockManagement {
  import opened Collections
  import opened Ledger
  import opened Values
  import opened AvalancheBatching
  import TxnValidation

  // ---------------------------------------------------------------- one parent, one child at a time

  lemma LinkNone(dag: map<Hash, DagNode>, h: Hash)
    ensures LinkUp(dag, h, []) == dag
  {
  }

  lemma LinkNext(dag: map<Hash, DagNode>, h: Hash, parents: seq<Hash>, i: nat)
    requires i < |parents|
    ensures var done := LinkUp(dag, h, parents[..i]);
            LinkUp(dag, h, parents[..i + 1]) ==
            if parents[i] in done then done[parents[i] := done[parents[i]].(children := done[parents[i]].children + {h})] else done
  {
    assert parents[..i + 1] == parents[..i] + [parents[i]];
  }

  /** How many entries of the list are pending. */
  function CountIn(dag: map<Hash, DagNode>, parents: seq<Hash>): nat {
    if parents == [] then 0
    else CountIn(dag, parents[..|parents| - 1]) + if parents[|parents| - 1] in dag then 1 else 0
  }

  lemma PendingOfSnoc(dag: map<Hash, DagNode>, parents: seq<Hash>)
    requires parents != []
    ensures var n := |parents| - 1;
            var a := PendingOf(dag, parents[..n]);
            PendingOf(dag, parents) == if parents[n] in dag then a + {parents[n]} else a
  {
    var n := |parents| - 1;
    assert parents == parents[..n] + [parents[n]];
  }

  lemma {:induction false} CountCovers(dag: map<Hash, DagNode>, parents: seq<Hash>)
    ensures |PendingOf(dag, parents)| <= CountIn(dag, parents) <= |parents|
    ensures CountIn(dag, parents) == 0 <==> PendingOf(dag, parents) == {}
    ensures Distinct(parents) ==> CountIn(dag, parents) == |PendingOf(dag, parents)|
  {
    hide Distinct, PendingOf;
    if parents == [] {
      NoParents(dag);
    } else {
      var n := |parents| - 1;
      var x := parents[n];
      CountCovers(dag, parents[..n]);
      PendingOfSnoc(dag, parents);
      Snoc(parents);
      PendingOfIn(dag, parents[..n], x);
    }
  }

  lemma NoParents(dag: map<Hash, DagNode>)
    ensures PendingOf(dag, []) == {}
  {
  }

  lemma PendingOfIn(dag: map<Hash, DagNode>, parents: seq<Hash>, x: Hash)
    ensures x in PendingOf(dag, parents) <==> x in dag && x in parents
  {
  }

  /** The children whose last pending parent leaves. */
  ghost function Freed(dag: map<Hash, DagNode>, children: set<Hash>): set<Hash> {
    set c | c in dag && c in children && dag[c].numParents == 1
  }

  lemma ReleaseNone(dag: map<Hash, DagNode>)
    ensures Release(dag, {}) == dag && Freed(dag, {}) == {}
  {
  }

  lemma ReleaseNext(dag: map<Hash, DagNode>, done: set<Hash>, c: Hash)
    requires c !in done && (c in dag ==> dag[c].numParents > 0)
    ensures var d := Release(dag, done);
            && (c in d <==> c in dag) && (c in dag ==> d[c] == dag[c])
            && Release(dag, done + {c}) == (if c in d then d[c := d[c].(numParents := d[c].numParents - 1)] else d)
            && Freed(dag, done + {c}) == Freed(dag, done) + if c in dag && dag[c].numParents == 1 then {c} else {}
  {
  }

  /** The frontier loses its first entry and gains the freed children, in some order. */
  ghost predicate Advanced(s: Batcher, s': Batcher) {
    && s.frontier != []
    && var h := s.frontier[0];
    if h in s.dag
    then
      && s.frontier[1..] <= s'.frontier
      && Elems(s'.frontier[|s.frontier| - 1..]) == Freed(s.dag - {h}, s.dag[h].children)
      && s' == Leave(s, h).(frontier := s'.frontier)
    else s' == s.(frontier := s.frontier[1..])
  }

  lemma FreedZero(s: Batcher, h: Hash, c: Hash)
    requires Inv(s) && h in s.dag && c in s.dag && c != h
    ensures c in Leave(s, h).dag
    ensures c in Freed(s.dag - {h}, s.dag[h].children) ==> Leave(s, h).dag[c].numParents == 0
    ensures Leave(s, h).dag[c].numParents == 0 ==> s.dag[c].numParents == 0 || c in Freed(s.dag - {h}, s.dag[h].children)
    ensures s.dag[c].numParents == 0 ==> Leave(s, h).dag[c].numParents == 0 && c !in Freed(s.dag - {h}, s.dag[h].children)
  {
  }

  /** The same transactions are stuck and the same are stranded. */
  ghost predicate SameBlocked(s: Batcher, s': Batcher) {
    && (forall x :: Stuck(s', x) <==> Stuck(s, x))
    && (forall x :: Stranded(s', x) <==> Stranded(s, x))
  }

  lemma AdvanceKeeps(s: Batcher, s': Batcher)
    requires Inv(s) && Advanced(s, s')
    ensures Inv(s') && SameBlocked(s, s')
  {
    hide Orders, Edges, Pending;
    var h := s.frontier[0];
    assert s.frontier == [h] + s.frontier[1..];
    if h in s.dag {
      LeaveKeeps(s, h);
      LeaveShifts(s, s', h);
      FrontierAdds(s, s', h);
      ShiftedBlocked(s, s', h, Freed(s.dag - {h}, s.dag[h].children));
    } else {
      FrontierDrops(s, s');
    }
  }

  lemma FrontierDrops(s: Batcher, s': Batcher)
    requires Inv(s) && s.frontier != [] && s.frontier[0] !in s.dag && s' == s.(frontier := s.frontier[1..])
    ensures Inv(s') && SameBlocked(s, s')
  {
    hide Orders, Pending;
    assert s.frontier == [s.frontier[0]] + s.frontier[1..];
    assert forall x :: Pending(s', x) == Pending(s, x) by { SamePending(s, s'); }
    SameOrders(s, s');
  }

  lemma SamePending(s: Batcher, s': Batcher)
    requires s'.pool == s.pool && s'.dag == s.dag
    ensures forall x :: Pending(s', x) == Pending(s, x)
  {
  }

  lemma SameOrders(s: Batcher, s': Batcher)
    requires Orders(s) && s' == s.(frontier := s'.frontier)
    ensures Orders(s')
  {
  }

  /** What the frontier of an advanced state holds, and how counters and pending parents moved. */
  ghost predicate Shifted(s: Batcher, s': Batcher, h: Hash, freed: set<Hash>)
    requires s.frontier != []
  {
    && s'.pool == s.pool && s'.dag.Keys == s.dag.Keys - {h}
    && (forall x :: x in s'.frontier <==> x in s.frontier[1..] || x in freed)
    && (forall c :: c in s'.dag ==> (s'.dag[c].numParents == 0 <==> s.dag[c].numParents == 0 || c in freed))
    && (forall c :: c in freed ==> c in s.dag && c != h && s.dag[c].numParents > 0)
    && (forall c :: c in s'.dag ==> Excess(s', c) == Excess(s, c))
  }

  lemma LeaveShifts(s: Batcher, s': Batcher, h: Hash)
    requires Inv(s) && Advanced(s, s') && h == s.frontier[0] && h in s.dag
    requires forall c :: c in s.dag && c != h ==> c in Leave(s, h).dag && Excess(Leave(s, h), c) == Excess(s, c)
    ensures Shifted(s, s', h, Freed(s.dag - {h}, s.dag[h].children))
  {
    hide Orders, Pending, Edges, Counted;
    var t := Leave(s, h);
    var freed := Freed(s.dag - {h}, s.dag[h].children);
    var n := |s.frontier| - 1;
    assert s'.frontier == s.frontier[1..] + s'.frontier[n..];
    forall x ensures x in s'.frontier <==> x in s.frontier[1..] || x in freed {
      assert x in s'.frontier[n..] <==> x in Elems(s'.frontier[n..]);
    }
    forall x ensures Pending(s', x) == Pending(t, x) { SamePending(t, s'); }
    forall c | c in t.dag ensures t.dag[c].numParents == 0 <==> s.dag[c].numParents == 0 || c in freed { FreedZero(s, h, c); }
  }

  lemma SameInv(s: Batcher, s': Batcher)
    requires Inv(s) && s' == s.(frontier := s'.frontier) && FrontOk(s')
    ensures Inv(s')
  {
    hide Orders, Pending, FrontOk;
    SamePending(s, s');
    SameOrders(s, s');
  }

  lemma FrontierAdds(s: Batcher, s': Batcher, h: Hash)
    requires Inv(s) && Advanced(s, s') && h == s.frontier[0] && h in s.dag && Inv(Leave(s, h))
    requires Shifted(s, s', h, Freed(s.dag - {h}, s.dag[h].children))
    ensures Inv(s')
  {
    hide Orders, Edges, Pending, Freed, Release;
    var t := Leave(s, h);
    SamePending(t, s');
    forall x | x in s'.frontier ensures x in s'.pool && (x in s'.dag ==> Pending(s', x) == {}) {
      assert x in s.frontier[1..] ==> x in s.frontier;
      LeavePending(s, h, x);
      FreedPooled(s, h);
      if x in s'.dag { assert t.dag[x].numParents >= |Pending(t, x)|; }
    }
    SameInv(t, s');
  }

  lemma FreedPooled(s: Batcher, h: Hash)
    requires Inv(s) && h in s.dag
    ensures forall x :: x in Freed(s.dag - {h}, s.dag[h].children) ==> x in s.pool
  {
    hide Edges, Counted, FrontOk;
    InDagPooled(s);
  }

  lemma ShiftedBlocked(s: Batcher, s': Batcher, h: Hash, freed: set<Hash>)
    requires s.frontier != [] && h == s.frontier[0] && h in s.dag && Shifted(s, s', h, freed) && Inv(s')
    ensures SameBlocked(s, s')
  {
    hide Pending, Orders, Edges, FrontOk;
    assert s.frontier == [h] + s.frontier[1..];
    forall x | x in freed ensures x in s'.dag && Excess(s', x) == 0 {
      assert s'.dag[x].numParents >= |Pending(s', x)|;
    }
  }

  // ---------------------------------------------------------------- waiting goes on

  /** Who is blocked stays blocked, and who has a pending parent keeps it unless the parent leaves. */
  ghost predicate Carries(s: Batcher, s': Batcher, onlyStuck: bool) {
    && (forall x :: Blocked(s, x, onlyStuck) ==> Blocked(s', x, onlyStuck))
    && (forall h :: h in s.dag && Pending(s, h) != {} ==> h in s'.dag)
    && (forall h, p :: p in Pending(s, h) && h in s'.dag && p in s'.dag ==> p in Pending(s', h))
  }

  lemma {:induction false} WaitsCarried(s: Batcher, s': Batcher, h: Hash, n: nat, onlyStuck: bool)
    requires Carries(s, s', onlyStuck) && WaitsOn(s, h, n, onlyStuck)
    ensures WaitsOn(s', h, n, onlyStuck)
    decreases n
  {
    hide Pending, Blocked;
    if n > 0 {
      var p :| p in Pending(s, h) && WaitsOn(s, p, n - 1, onlyStuck);
      WaitsCarried(s, s', p, n - 1, onlyStuck);
      WaitsInDag(s', p, n - 1, onlyStuck);
      assert h in s.dag && Pending(s, h) != {};
    }
  }

  lemma StillWaits(s: Batcher, s': Batcher, onlyStuck: bool)
    requires Carries(s, s', onlyStuck)
    ensures forall h :: Waits(s, h, onlyStuck) ==> Waits(s', h, onlyStuck)
  {
    hide WaitsOn, Carries;
    forall h | Waits(s, h, onlyStuck) ensures Waits(s', h, onlyStuck) {
      var n: nat :| WaitsOn(s, h, n, onlyStuck);
      WaitsCarried(s, s', h, n, onlyStuck);
    }
  }

  lemma AdvanceCarries(s: Batcher, s': Batcher, onlyStuck: bool)
    requires Inv(s) && Advanced(s, s')
    ensures Inv(s') && Carries(s, s', onlyStuck)
  {
    hide Orders, Edges, Counted, Stuck, Stranded;
    AdvanceKeeps(s, s');
  }

  lemma AdvanceWaits(s: Batcher, s': Batcher)
    requires Inv(s) && Advanced(s, s')
    ensures forall h, onlyStuck :: Waits(s, h, onlyStuck) ==> Waits(s', h, onlyStuck)
  {
    hide Inv, Advanced, Waits, Carries;
    AdvanceCarries(s, s', true);
    StillWaits(s, s', true);
    AdvanceCarries(s, s', false);
    StillWaits(s, s', false);
  }

  lemma GrowsCarries(s: Batcher, s': Batcher)
    requires Inv(s) && Grows(s, s')
    ensures Carries(s, s', true)
  {
    hide Orders, Edges, Counted, FrontOk, Stuck, Distinct, ParentsOf, SubPool;
    GrowsBlocked(s, s');
    forall h, p | p in Pending(s, h) && h in s'.dag && p in s'.dag ensures p in Pending(s', h) {
      PendingPooled(s, h, p);
    }
  }

  lemma PendingPooled(s: Batcher, h: Hash, p: Hash)
    requires p in Pending(s, h)
    ensures h in s.pool
  {
  }

  lemma PushCarries(s: Batcher, s': Batcher)
    requires s' == s.(frontier := s'.frontier) && forall x :: Stuck(s', x) <==> Stuck(s, x)
    ensures Carries(s, s', true)
  {
    hide Stuck;
    SamePending(s, s');
  }

  // ---------------------------------------------------------------- pushing onto the frontier

  /** Nobody is pending that this transaction counts. */
  ghost predicate Idle(s: Batcher, x: Hash) {
    x in s.pool && (x in s.dag ==> s.dag[x].numParents == 0)
  }

  ghost predicate FrontReady(s: Batcher, xs: seq<Hash>) {
    forall x :: x in xs ==> Idle(s, x)
  }

  lemma PushIdle(s: Batcher, xs: seq<Hash>)
    requires Inv(s) && FrontReady(s, xs)
    ensures var s' := s.(frontier := xs + s.frontier);
            && Inv(s') && (forall x :: Stuck(s', x) <==> Stuck(s, x))
            && (forall x :: Stranded(s', x) <==> Stranded(s, x) && x !in xs)
  {
    hide Orders, Pending;
    var s' := s.(frontier := xs + s.frontier);
    SamePending(s, s');
    SameOrders(s, s');
  }

  /** A transaction without pending parents joins and queues, whatever its counter. */
  lemma PushNew(s: Batcher, x: Hash)
    requires Inv(s) && x in s.dag && Pending(s, x) == {}
    ensures Inv(s.(frontier := s.frontier + [x]))
  {
    hide Orders, Pending;
    var s' := s.(frontier := s.frontier + [x]);
    SamePending(s, s');
    SameOrders(s, s');
  }

  /** Of those without counted parents, `xs` are the ones new since `s0` and the ones in `ids`. */
  ghost predicate FrontExact(s0: Batcher, s: Batcher, xs: seq<Hash>, ids: set<Hash>) {
    forall x :: x in s.dag && s.dag[x].numParents == 0 ==> (x in xs <==> x !in s0.pool || x in ids)
  }

  /** Transactions join; everybody else keeps counter and pending parents. Newcomers with distinct inputs have no excess. */
  ghost predicate Grows(s: Batcher, s': Batcher) {
    && s'.out == s.out && s'.frontier == s.frontier && s.seen <= s'.seen && SubPool(s.pool, s'.pool)
    && (forall h :: h in s.dag ==> h in s'.dag && s'.dag[h].numParents == s.dag[h].numParents && Pending(s', h) == Pending(s, h))
    && (forall h :: h in s.pool && h in s'.dag ==> h in s.dag)
    && (forall h :: h in s'.dag && h !in s.pool ==> h in s'.pool && (Distinct(ParentsOf(s'.pool[h])) ==> Excess(s', h) == 0))
  }

  lemma GrowsTrans(s: Batcher, s1: Batcher, s2: Batcher)
    requires Grows(s, s1) && Grows(s1, s2)
    ensures Grows(s, s2)
  {
    hide Pending;
  }

  /** Who was there is as stuck and as stranded as before; a newcomer is stuck only if it repeats an input. */
  lemma GrowsBlocked(s: Batcher, s': Batcher)
    requires Inv(s) && Grows(s, s')
    ensures forall x :: Stuck(s, x) ==> Stuck(s', x)
    ensures forall x :: Stuck(s', x) ==> Stuck(s, x) || NewRepeats(s, s', x)
    ensures forall x :: Stranded(s', x) <==> Stranded(s, x) || (x !in s.pool && x in s'.dag && s'.dag[x].numParents == 0)
  {
    hide Pending, Distinct, ParentsOf, Edges, Counted;
    InDagPooled(s);
  }

  ghost predicate NewRepeats(s: Batcher, s': Batcher, x: Hash) {
    x !in s.pool && x in s'.pool && !Distinct(ParentsOf(s'.pool[x]))
  }

  lemma JoinIs(s: Batcher, t: Txn, n: nat)
    requires Orders(s) && t.id !in s.pool
    ensures var s' := Join(s, t, n);
            && t.id !in s.dag && t.id in s'.dag && s'.dag[t.id].numParents == n && s'.dag.Keys == s.dag.Keys + {t.id}
            && s'.pool.Keys == s.pool.Keys + {t.id} && SubPool(s.pool, s'.pool)
            && forall h :: h in s.dag ==> s'.dag[h].numParents == s.dag[h].numParents
  {
  }

  /** One transaction of a peer's block joins, with its pending parents counted. */
  lemma JoinGrows(s: Batcher, t: Txn, n: nat)
    requires Inv(s) && t.id !in s.pool && Precede(t, s.seen) && n == CountIn(s.dag, ParentsOf(t))
    ensures Inv(Join(s, t, n)) && Grows(s, Join(s, t, n))
    ensures t.id in Join(s, t, n).dag && (Distinct(ParentsOf(t)) ==> Excess(Join(s, t, n), t.id) == 0)
  {
    hide Pending, Precede, Distinct, ParentsOf, LinkUp, PendingOf, CountIn, SubPool, Orders, Edges, Counted, FrontOk;
    CountCovers(s.dag, ParentsOf(t));
    JoinKeeps(s, t, n);
    JoinPendingSelf(s, t, n);
    JoinIs(s, t, n);
    InDagPooled(s);
    forall h | h in s.dag ensures Pending(Join(s, t, n), h) == Pending(s, h) { JoinPending(s, t, n, h); }
  }

  lemma InDagPooled(s: Batcher)
    requires Orders(s)
    ensures s.dag.Keys <= s.pool.Keys
  {
  }

  lemma JoinFront(s0: Batcher, s: Batcher, t: Txn, n: nat, xs: seq<Hash>, ids: set<Hash>)
    requires Orders(s) && t.id !in s.pool && SubPool(s0.pool, s.pool)
    ensures var s', xs' := Join(s, t, n), if n == 0 then xs + [t.id] else xs;
            && (FrontExact(s0, s, xs, ids) ==> FrontExact(s0, s', xs', ids))
            && (FrontReady(s, xs) ==> FrontReady(s', xs'))
  {
    hide Orders, LinkUp;
    JoinIs(s, t, n);
    InDagPooled(s);
  }

  /** How recording changes who is stuck: the newcomer is if some but not all of its parents are pending. */
  lemma RecordStuck(s: Batcher, s': Batcher, t: Txn)
    requires Inv(s) && t.id !in s.pool && Precede(t, s.seen)
    requires s' == Join(s, t, |ParentsOf(t)|).(frontier := if PendingOf(s.dag, ParentsOf(t)) == {} then s.frontier + [t.id] else s.frontier)
    ensures Inv(s') && forall h :: Stranded(s', h) <==> Stranded(s, h)
    ensures forall h :: Stuck(s', h) <==> Stuck(s, h) || (h == t.id && 0 < |PendingOf(s.dag, ParentsOf(t))| < |ParentsOf(t)|)
  {
    hide Pending, Precede, Distinct, Orders, Edges, PendingOf, ParentsOf;
    var n := |ParentsOf(t)|;
    CountCovers(s.dag, ParentsOf(t));
    JoinKeeps(s, t, n);
    JoinPendingSelf(s, t, n);
    var s1 := Join(s, t, n);
    if PendingOf(s.dag, ParentsOf(t)) == {} { PushNew(s1, t.id); }
    SamePending(s1, s');
    NewcomerApart(s, t);
  }

  lemma RecordCarries(s: Batcher, s': Batcher, t: Txn)
    requires Inv(s) && t.id !in s.pool && Precede(t, s.seen) && (forall h :: Stuck(s, h) ==> Stuck(s', h))
    requires s' == Join(s, t, |ParentsOf(t)|).(frontier := s'.frontier)
    ensures Carries(s, s', true)
  {
    hide Stuck, Precede, Distinct, ParentsOf, Orders, Edges, Counted, FrontOk, Pending, LinkUp;
    var s1 := Join(s, t, |ParentsOf(t)|);
    SamePending(s1, s');
    JoinIs(s, t, |ParentsOf(t)|);
    forall h | h in s.dag ensures Pending(s', h) == Pending(s, h) { JoinPending(s, t, |ParentsOf(t)|, h); }
    forall h, p | p in Pending(s, h) && h in s'.dag && p in s'.dag ensures p in Pending(s', h) { PendingPooled(s, h, p); }
  }

  lemma NewcomerApart(s: Batcher, t: Txn)
    requires Orders(s) && FrontOk(s) && t.id !in s.pool
    ensures t.id !in s.dag && t.id !in s.frontier
  {
  }

  // ---------------------------------------------------------------- peers' blocks

  /** What a block holds at one place. */
  datatype Entry = Known(txn: Txn) | Noop | Placeholder

  datatype BlockKey = BlockKey(proposer: nat, id: nat, depth: nat)

  /** A block that waits for missing transactions, and the places to check again. */
  datatype Waiting = Waiting(entries: seq<Entry>, recheck: seq<nat>)

  datatype Verdict = Emitted(entries: seq<Entry>) | Deferred | Unexpected

  /** Every transaction of the block is pooled, apart from those to check again. */
  ghost predicate WaitingOk(pool: TxnPool, w: Waiting) {
    && (forall i :: i in w.recheck ==> i < |w.entries| && w.entries[i].Known? && w.entries[i].txn.Send?)
    && forall i :: 0 <= i < |w.entries| && w.entries[i].Known? ==> w.entries[i].txn.id in pool || i in w.recheck
  }

  /** A payment that does not pass validation. */
  ghost predicate Invalid(pool: TxnPool, e: Entry) {
    e.Known? && e.txn.Send? && !ValidTxn(pool, e.txn)
  }

  /** A payment that does not pass validation although all its inputs are known. */
  ghost predicate Refused(pool: TxnPool, e: Entry) {
    Invalid(pool, e) && forall p :: p in e.txn.inputs ==> p in pool
  }

  /** The block as the proposer sent it, with placeholders for payments whose inputs are known and that are not valid. */
  ghost predicate Masks(pool: TxnPool, sent: seq<Entry>, kept: seq<Entry>) {
    |kept| == |sent| && forall i :: 0 <= i < |sent| ==> kept[i] == sent[i] || (kept[i] == Placeholder && Refused(pool, sent[i]))
  }

  /** The same after a second look, where inputs may still be missing. */
  ghost predicate Replaces(pool: TxnPool, sent: seq<Entry>, kept: seq<Entry>) {
    |kept| == |sent| && forall i :: 0 <= i < |sent| ==> kept[i] == sent[i] || (kept[i] == Placeholder && Invalid(pool, sent[i]))
  }

  lemma MasksGrow(pool: TxnPool, pool': TxnPool, sent: seq<Entry>, kept: seq<Entry>)
    requires Masks(pool, sent, kept) && SubPool(pool, pool')
    ensures Masks(pool', sent, kept)
  {
    hide ValidTxn;
    forall i | 0 <= i < |sent| && Refused(pool, sent[i]) ensures Refused(pool', sent[i]) {
      TxnValidation.VerdictFinal(pool, pool', sent[i].txn);
    }
  }

  lemma InvalidBefore(pool: TxnPool, pool': TxnPool, e: Entry)
    requires Invalid(pool', e) && SubPool(pool, pool')
    ensures Invalid(pool, e)
  {
    if ValidTxn(pool, e.txn) { InputValueMonotone(pool, pool', e.txn.sender, e.txn.inputs); }
  }

  lemma ReplacesBefore(pool: TxnPool, pool': TxnPool, sent: seq<Entry>, kept: seq<Entry>)
    requires Replaces(pool', sent, kept) && SubPool(pool, pool')
    ensures Replaces(pool, sent, kept)
  {
    hide Invalid, SubPool;
    forall i | 0 <= i < |sent| && Invalid(pool', sent[i]) ensures Invalid(pool, sent[i]) { InvalidBefore(pool, pool', sent[i]); }
  }

  /** A payment with an input that is not known. */
  ghost predicate Lacks(pool: TxnPool, e: Entry) {
    e.Known? && e.txn.Send? && exists p :: p in e.txn.inputs && p !in pool
  }

  lemma LackedBefore(pool: TxnPool, pool': TxnPool, e: Entry)
    requires Lacks(pool', e) && SubPool(pool, pool')
    ensures Lacks(pool, e)
  {
  }

  ghost predicate AllPooled(pool: TxnPool, entries: seq<Entry>) {
    forall i :: 0 <= i < |entries| && entries[i].Known? ==> entries[i].txn.id in pool
  }

  ghost predicate AllWaitingOk(pool: TxnPool, blks: map<BlockKey, Waiting>) {
    forall k :: k in blks ==> WaitingOk(pool, blks[k])
  }

  lemma WaitingGrows(pool: TxnPool, pool': TxnPool, blks: map<BlockKey, Waiting>)
    requires AllWaitingOk(pool, blks) && SubPool(pool, pool')
    ensures AllWaitingOk(pool', blks)
  {
    forall k | k in blks ensures WaitingOk(pool', blks[k]) { assert WaitingOk(pool, blks[k]); }
  }

  /** What is new in the pool spends rightfully, and came with these entries. */
  ghost predicate Brought(pool: TxnPool, pool': TxnPool, entries: seq<Entry>) {
    forall x :: x in pool' && x !in pool ==>
      pool'[x].id == x && Rightful(pool', pool'[x]) && Known(pool'[x]) in entries
  }

  /** What is new in the pool spends rightfully, and came with these entries or with a block that waited. */
  ghost predicate BroughtByAny(pool: TxnPool, pool': TxnPool, entries: seq<Entry>, blks: map<BlockKey, Waiting>) {
    forall x :: x in pool' && x !in pool ==>
      && pool'[x].id == x && Rightful(pool', pool'[x])
      && (Known(pool'[x]) in entries || exists k :: k in blks && Known(pool'[x]) in blks[k].entries)
  }

  lemma RightfulStays(pool: TxnPool, pool': TxnPool, t: Txn)
    requires SubPool(pool, pool') && Rightful(pool, t)
    ensures Rightful(pool', t)
  {
    hide Rightful, ValidTxn;
    ValidIff(pool, t);
    ValidIff(pool', t);
    TxnValidation.ValidGrows(pool, pool', t);
  }

  ghost predicate AllGrantsPooled(pool: TxnPool, entries: seq<Entry>) {
    forall i :: 0 <= i < |entries| && entries[i].Known? && entries[i].txn.Grant? ==> entries[i].txn.id in pool
  }

  lemma BroughtNone(pool: TxnPool, entries: seq<Entry>)
    ensures Brought(pool, pool, entries)
  {
  }

  lemma BroughtMore(pool: TxnPool, pool1: TxnPool, pool2: TxnPool, entries: seq<Entry>, i: nat)
    requires Brought(pool, pool1, entries) && i < |entries|
    requires pool2 == pool1 || Admits(pool1, pool2, entries[i])
    ensures Brought(pool, pool2, entries)
  {
    hide Rightful, ValidTxn;
    assert entries[i] in entries;
    forall x | x in pool2 && x !in pool ensures Rightful(pool2, pool2[x]) {
      if x !in pool1 { ValidIff(pool1, pool2[x]); }
      RightfulStays(pool1, pool2, pool2[x]);
    }
  }

  /** The transaction of an entry was not known, passes validation, and is pooled. */
  ghost predicate Admits(pool: TxnPool, pool': TxnPool, e: Entry) {
    e.Known? && e.txn.id !in pool && ValidTxn(pool, e.txn) && pool' == pool[e.txn.id := e.txn]
  }

  lemma BroughtFirst(pool: TxnPool, pool': TxnPool, entries: seq<Entry>, blks: map<BlockKey, Waiting>)
    requires Brought(pool, pool', entries)
    ensures BroughtByAny(pool, pool', entries, blks)
  {
  }

  lemma BroughtLater(pool: TxnPool, pool1: TxnPool, pool2: TxnPool, entries: seq<Entry>, blks: map<BlockKey, Waiting>, key: BlockKey)
    requires BroughtByAny(pool, pool1, entries, blks) && key in blks && Brought(pool1, pool2, blks[key].entries) && SubPool(pool1, pool2)
    ensures BroughtByAny(pool, pool2, entries, blks)
  {
    hide Rightful;
    forall x | x in pool2 && x !in pool
      ensures pool2[x].id == x && Rightful(pool2, pool2[x])
      ensures Known(pool2[x]) in entries || exists k :: k in blks && Known(pool2[x]) in blks[k].entries
    {
      if x in pool1 {
        assert pool2[x] == pool1[x];
        RightfulStays(pool1, pool2, pool2[x]);
      }
    }
  }

  lemma GrantsPooled(pool: TxnPool, sent: seq<Entry>, kept: seq<Entry>, recheck: seq<nat>)
    requires Masks(pool, sent, kept) && WaitingOk(pool, Waiting(kept, recheck))
    ensures AllGrantsPooled(pool, sent)
  {
  }

  lemma GrantsStay(pool: TxnPool, pool': TxnPool, entries: seq<Entry>)
    requires AllGrantsPooled(pool, entries) && SubPool(pool, pool')
    ensures AllGrantsPooled(pool', entries)
  {
  }

  /** The levels of a block from `low` up to `depth`. */
  ghost function Above(proposer: nat, id: nat, low: nat, depth: nat): set<BlockKey> {
    set d | low <= d < depth :: BlockKey(proposer, id, d)
  }

  ghost function Levels(proposer: nat, id: nat, depth: nat): set<BlockKey> {
    set d: nat | d < depth :: BlockKey(proposer, id, d)
  }

  lemma AboveNext(blks: map<BlockKey, Waiting>, proposer: nat, id: nat, low: nat, depth: nat)
    requires low < depth
    ensures var key := BlockKey(proposer, id, low);
            && Above(proposer, id, low, depth) == Above(proposer, id, low + 1, depth) + {key}
            && blks - Above(proposer, id, low, depth) == (blks - Above(proposer, id, low + 1, depth)) - {key}
            && key !in Above(proposer, id, low + 1, depth)
  {
    var key := BlockKey(proposer, id, low);
    forall k ensures k in Above(proposer, id, low, depth) <==> k in Above(proposer, id, low + 1, depth) || k == key {
      if k in Above(proposer, id, low, depth) { assert k == BlockKey(proposer, id, k.depth); }
    }
  }

  lemma AboveEnds(blks: map<BlockKey, Waiting>, proposer: nat, id: nat, depth: nat)
    ensures Above(proposer, id, depth, depth) == {} && blks - {} == blks
    ensures Above(proposer, id, 0, depth) == Levels(proposer, id, depth)
  {
  }

  /** The ids of the transactions in a block. */
  function Mentioned(entries: seq<Entry>): set<Hash> {
    set i | 0 <= i < |entries| && entries[i].Known? :: entries[i].txn.id
  }

  lemma {:induction false} CountNone(dag: map<Hash, DagNode>, parents: seq<Hash>)
    ensures CountIn(dag, parents) == 0 <==> forall p :: p in parents ==> p !in dag
  {
    if parents != [] {
      var n := |parents| - 1;
      CountNone(dag, parents[..n]);
      assert forall p :: p in parents <==> p in parents[..n] || p == parents[n];
    }
  }

  class BlockManagement {
    const blkLen: nat
    var txnPool: TxnPool
    var dag: map<Hash, DagNode>
    var frontier: seq<Hash>
    var blkCounter: nat
    var batch: seq<Hash>
    var blkQuota: nat
    var pendingBlks: map<BlockKey, Waiting>
    ghost var seen: seq<Hash>
    ghost var out: seq<Hash>
    /** The transactions of all blocks proposed so far. */
    ghost var proposed: seq<Hash>

    ghost function View(): Batcher
      reads this
    {
      Batcher(txnPool, dag, frontier, seen, out)
    }

    ghost predicate Valid()
      reads this
    {
      Inv(View()) && out == proposed + batch && AllWaitingOk(txnPool, pendingBlks)
    }

    constructor (blkLen: nat)
      ensures this.blkLen == blkLen
      ensures Valid() && View() == Batcher(map[], map[], [], [], []) && proposed == [] && pendingBlks == map[] && blkQuota == 0 && blkCounter == 0
    {
      this.blkLen := blkLen;
      txnPool, dag, frontier, blkCounter, batch, blkQuota, pendingBlks := map[], map[], [], 0, [], 0, map[];
      seen, out, proposed := [], [], [];
    }

    /** Tell the pending parents about a new child; count them. */
    method LinkParents(h: Hash, parents: seq<Hash>) returns (count: nat)
      modifies this`dag
      ensures dag == LinkUp(old(dag), h, parents) && count == CountIn(old(dag), parents)
    {
      hide LinkUp;
      count := 0;
      ghost var dag0 := dag;
      assert parents[..0] == [];
      LinkNone(dag0, h);
      for i := 0 to |parents|
        invariant dag == LinkUp(dag0, h, parents[..i]) && dag.Keys == dag0.Keys
        invariant count == CountIn(dag0, parents[..i])
      {
        LinkNext(dag0, h, parents, i);
        assert parents[..i + 1][..i] == parents[..i];
        if parents[i] in dag {
          dag := dag[parents[i] := dag[parents[i]].(children := dag[parents[i]].children + {h})];
          count := count + 1;
        }
      }
      assert parents[..|parents|] == parents;
    }

    /**
     Pool a transaction whose parents are pooled. Its counter is set to the number of all its
     parents, so it gets stuck exactly if some but not all of them are pending.
     */
    method RecordNewTxn(t: Txn) returns (isNew: bool)
      requires Valid() && (t.id !in txnPool ==> Precede(t, seen))
      modifies this`txnPool, this`dag, this`frontier, this`seen
      ensures Valid() && isNew == (t.id !in old(txnPool))
      ensures !isNew ==> View() == old(View())
      ensures isNew ==> txnPool == old(txnPool)[t.id := t] && seen == old(seen) + [t.id]
      // it queues at the end if none of its inputs is pending
      ensures isNew ==> frontier == if t.Send? && (exists p :: p in t.inputs && p in old(dag)) then old(frontier) else old(frontier) + [t.id]
      ensures forall h :: Stranded(View(), h) <==> old(Stranded(View(), h))
      ensures forall h :: old(Waits(View(), h, true)) ==> Waits(View(), h, true)
      ensures forall h :: Stuck(View(), h) <==>
                old(Stuck(View(), h)) || (isNew && h == t.id && 0 < |PendingOf(old(dag), ParentsOf(t))| < |ParentsOf(t)|)
    {
      hide Inv, Stuck, Stranded, Waits, Precede, PendingOf, LinkUp, CountIn, AllWaitingOk;
      isNew := t.id !in txnPool;
      if !isNew { return; }
      ghost var s0 := View();
      var parents := ParentsOf(t);
      txnPool := txnPool[t.id := t];
      var count := LinkParents(t.id, parents);
      CountCovers(s0.dag, parents);
      CountNone(s0.dag, parents);
      dag := dag[t.id := DagNode(|parents|, {})];
      seen := seen + [t.id];
      if count == 0 { frontier := frontier + [t.id]; }
      RecordStuck(s0, View(), t);
      RecordCarries(s0, View(), t);
      StillWaits(s0, View(), true);
      WaitingGrows(s0.pool, txnPool, pendingBlks);
    }

    /** Take the first of the frontier and release its children. */
    method TakeNext()
      requires Valid() && frontier != []
      modifies this`dag, this`frontier, this`batch, this`out
      ensures Valid() && Advanced(old(View()), View())
      ensures batch == if old(frontier[0] in dag) then old(batch) + [old(frontier[0])] else old(batch)
      ensures |dag| < |old(dag)| || (dag == old(dag) && |frontier| < |old(frontier)|)
      ensures SameBlocked(old(View()), View())
      ensures forall h, onlyStuck :: old(Waits(View(), h, onlyStuck)) ==> Waits(View(), h, onlyStuck)
    {
      hide Inv, SameBlocked, Waits, Release, Freed, AllWaitingOk;
      ghost var s0 := View();
      var h := frontier[0];
      frontier := frontier[1..];
      if h in dag {
        var node := dag[h];
        dag := dag - {h};
        ReleaseChildren(s0, h, node.children);
        batch := batch + [h];
        out := out + [h];
        LeaveSize(s0, h);
      }
      AdvanceKeeps(s0, View());
      AdvanceWaits(s0, View());
    }

    method ReleaseChildren(ghost s0: Batcher, h: Hash, children: set<Hash>)
      requires Inv(s0) && h in s0.dag && children == s0.dag[h].children && dag == s0.dag - {h}
      modifies this`dag, this`frontier
      ensures dag == Release(s0.dag - {h}, children)
      ensures old(frontier) <= frontier && Elems(frontier[|old(frontier)|..]) == Freed(s0.dag - {h}, children)
    {
      hide Inv, Release, Freed;
      var rest, done: set<Hash> := children, {};
      ghost var dag0, front0 := dag, frontier;
      var freed: seq<Hash> := [];
      ReleaseNone(dag0);
      while rest != {}
        invariant rest !! done && rest + done == children
        invariant dag == Release(dag0, done) && frontier == front0 + freed && Elems(freed) == Freed(dag0, done)
        decreases rest
      {
        var c :| c in rest;
        if c in s0.dag { NoUnderflow0(s0, h, c); }
        ReleaseNext(dag0, done, c);
        ElemsSnoc(freed, c);
        if c in dag {
          dag := dag[c := dag[c].(numParents := dag[c].numParents - 1)];
          if dag[c].numParents == 0 {
            frontier := frontier + [c];
            freed := freed + [c];
          }
        }
        rest, done := rest - {c}, done + {c};
      }
      assert done == children && frontier[|front0|..] == freed;
    }

    /** Move transactions from the frontier to the batch until it is full or the frontier empty. */
    method PrepareNewBlock() returns (full: bool)
      requires Valid()
      modifies this`dag, this`frontier, this`batch, this`out
      ensures Valid() && old(batch) <= batch && full == (|batch| >= blkLen) && (!full ==> frontier == [])
      ensures |batch| <= blkLen || batch == old(batch)
      ensures SameBlocked(old(View()), View())
      ensures forall h, onlyStuck :: old(Waits(View(), h, onlyStuck)) ==> Waits(View(), h, onlyStuck)
    {
      hide Inv, Stuck, Stranded, Waits, Advanced, AllWaitingOk;
      ghost var s0 := View();
      while |batch| < blkLen && frontier != []
        invariant Valid() && old(batch) <= batch && (|batch| <= blkLen || batch == old(batch))
        invariant SameBlocked(s0, View())
        invariant forall h, onlyStuck :: Waits(s0, h, onlyStuck) ==> Waits(View(), h, onlyStuck)
        decreases |dag|, |frontier|
      {
        TakeNext();
      }
      full := |batch| >= blkLen;
    }

    /** Propose the batch. */
    method GetNewBlock() returns (id: nat, txns: seq<Txn>)
      requires Valid() && blkQuota > 0
      modifies this`batch, this`proposed, this`blkCounter, this`blkQuota
      ensures Valid() && batch == [] && proposed == old(proposed) + old(batch)
      ensures id == old(blkCounter) && blkCounter == id + 1 && blkQuota == old(blkQuota) - 1
      ensures |txns| == |old(batch)| && forall i :: 0 <= i < |txns| ==> old(batch[i]) in txnPool && txns[i] == txnPool[old(batch[i])]
    {
      hide Inv, AllWaitingOk;
      OutPooled(View(), proposed, batch);
      id, txns := blkCounter, [];
      for i := 0 to |batch|
        invariant |txns| == i && forall j :: 0 <= j < i ==> txns[j] == txnPool[batch[j]]
      {
        txns := txns + [txnPool[batch[i]]];
      }
      proposed := proposed + batch;
      batch := [];
      blkCounter, blkQuota := blkCounter + 1, blkQuota - 1;
    }

    /** Pool a transaction of a peer's block, counting its pending parents; queue it if there are none. */
    method AdmitTxn(t: Txn, front: seq<Hash>, ghost s0: Batcher, ghost ids: set<Hash>) returns (front': seq<Hash>)
      requires Inv(View()) && t.id !in txnPool && Precede(t, seen) && FrontReady(View(), front)
      requires SubPool(s0.pool, txnPool) && FrontExact(s0, View(), front, ids)
      modifies this`txnPool, this`dag, this`seen
      ensures Inv(View()) && Grows(old(View()), View()) && txnPool == old(txnPool)[t.id := t]
      ensures FrontReady(View(), front') && FrontExact(s0, View(), front', ids)
      // no transaction of a peer's block gets stuck
      ensures t.id in dag && (Distinct(ParentsOf(t)) ==> Excess(View(), t.id) == 0)
    {
      hide Inv, Precede, LinkUp, CountIn, Grows, FrontExact, Excess, SubPool;
      ghost var s1 := View();
      txnPool := txnPool[t.id := t];
      var count := LinkParents(t.id, ParentsOf(t));
      dag := dag[t.id := DagNode(count, {})];
      seen := seen + [t.id];
      JoinGrows(s1, t, count);
      InvOrders(s1);
      JoinFront(s0, s1, t, count, front, ids);
      front' := if count == 0 then front + [t.id] else front;
    }

    /** Check one entry of a peer's block; `missing` inputs postpone the verdict. */
    method CheckEntry(e: Entry, front: seq<Hash>, ghost s0: Batcher, ghost ids: set<Hash>)
      returns (kept: Entry, missing: seq<Hash>, front': seq<Hash>)
      requires Inv(View()) && FrontReady(View(), front)
      requires SubPool(s0.pool, txnPool) && FrontExact(s0, View(), front, ids)
      modifies this`txnPool, this`dag, this`seen
      ensures Inv(View()) && Grows(old(View()), View())
      ensures FrontReady(View(), front') && FrontExact(s0, View(), front', if e.Known? then ids + {e.txn.id} else ids)
      ensures kept == e || (kept == Placeholder && Refused(txnPool, e))
      ensures txnPool == old(txnPool) || Admits(old(txnPool), txnPool, e)
      ensures missing == [] && kept.Known? ==> kept.txn.id in txnPool
      ensures missing != [] ==> kept == e && e.Known? && e.txn.Send? && Lacks(txnPool, e) && txnPool == old(txnPool)
    {
      hide Inv, Precede, LinkUp, CountIn, Grows, FrontExact, FrontReady, ValidTxn, SubPool;
      kept, missing, front' := e, [], front;
      GrowsSelf(View());
      if !e.Known? { return; }
      var t := e.txn;
      if t.id in txnPool {
        if t.id in dag && dag[t.id].numParents == 0 {
          FrontAdd(s0, View(), front, t.id, ids);
          front' := front + [t.id];
        } else {
          FrontSkip(s0, View(), front, t.id, ids);
        }
        return;
      }
      InvOrders(View());
      InDagPooled(View());
      FrontSkip(s0, View(), front, t.id, ids);
      if t.Send? {
        missing := Missing(t.inputs);
        if missing != [] { return; }
        if !ValidTxn(txnPool, t) {
          kept := Placeholder;
          return;
        }
      }
      PooledPrecede(View(), t);
      GrantsValid(txnPool, t);
      front' := AdmitTxn(t, front, s0, ids + {t.id});
    }

    method Missing(inputs: seq<Hash>) returns (missing: seq<Hash>)
      ensures missing == [] <==> forall p :: p in inputs ==> p in txnPool
      ensures forall p :: p in missing <==> p in inputs && p !in txnPool
    {
      missing := [];
      for i := 0 to |inputs|
        invariant forall p :: p in missing <==> p in inputs[..i] && p !in txnPool
      {
        assert inputs[..i + 1] == inputs[..i] + [inputs[i]];
        if inputs[i] !in txnPool { missing := missing + [inputs[i]]; }
      }
      assert inputs[..|inputs|] == inputs;
      assert missing != [] ==> missing[0] in missing;
    }

    /** Check the entries of a peer's block in order. */
    method FirstPass(entries: seq<Entry>) returns (kept: seq<Entry>, missing: seq<Hash>, recheck: seq<nat>, front: seq<Hash>)
      requires Inv(View())
      modifies this`txnPool, this`dag, this`seen
      ensures Inv(View()) && Grows(old(View()), View())
      ensures FrontReady(View(), front) && FrontExact(old(View()), View(), front, Mentioned(entries))
      ensures Brought(old(txnPool), txnPool, entries)
      ensures Masks(txnPool, entries, kept) && WaitingOk(txnPool, Waiting(kept, recheck)) && (missing == [] <==> recheck == [])
      ensures forall i :: i in recheck ==> i < |entries| && Lacks(old(txnPool), entries[i])
    {
      hide Inv, Grows, FrontExact, FrontReady, WaitingOk, Refused, SubPool, Mentioned, Brought, Admits, Lacks;
      kept, missing, recheck, front := [], [], [], [];
      ghost var s0 := View();
      GrowsSelf(s0);
      PassStart(s0);
      BroughtNone(s0.pool, entries);
      for i := 0 to |entries|
        invariant Inv(View()) && Grows(s0, View()) && SubPool(s0.pool, txnPool)
        invariant FrontReady(View(), front) && FrontExact(s0, View(), front, Mentioned(entries[..i]))
        invariant Brought(s0.pool, txnPool, entries)
        invariant Masks(txnPool, entries[..i], kept) && WaitingOk(txnPool, Waiting(kept, recheck)) && (missing == [] <==> recheck == [])
        invariant forall j :: j in recheck ==> j < |entries| && Lacks(s0.pool, entries[j])
      {
        ghost var s1 := View();
        var e, deps;
        e, deps, front := CheckEntry(entries[i], front, s0, Mentioned(entries[..i]));
        MentionedNext(entries, i);
        BroughtMore(s0.pool, s1.pool, txnPool, entries, i);
        GrowsTrans(s0, s1, View());
        GrowsPool(s0, View());
        GrowsPool(s1, View());
        MasksGrow(s1.pool, txnPool, entries[..i], kept);
        WaitingSnoc(s1.pool, txnPool, Waiting(kept, recheck), e, deps != []);
        kept := kept + [e];
        if deps != [] {
          LackedBefore(s0.pool, txnPool, entries[i]);
          missing, recheck := missing + deps, recheck + [i];
        }
      }
      assert entries[..|entries|] == entries;
    }

    /** Put the transactions of a peer's block at the head of the frontier, in their order. */
    method Requeue(front: seq<Hash>)
      modifies this`frontier
      ensures frontier == front + old(frontier)
    {
      var rest := front;
      assert front == front[..|front|];
      while rest != []
        invariant rest <= front && frontier == front[|rest|..] + old(frontier)
        decreases |rest|
      {
        frontier := [rest[|rest| - 1]] + frontier;
        rest := rest[..|rest| - 1];
      }
    }

    /** Check again what had missing inputs; what is still not valid becomes a placeholder. */
    method Recheck(w: Waiting, front: seq<Hash>, ghost from: Batcher, ghost ids: set<Hash>)
      returns (kept: seq<Entry>, front': seq<Hash>)
      requires Inv(View()) && FrontReady(View(), front) && WaitingOk(txnPool, w)
      requires SubPool(from.pool, txnPool) && FrontExact(from, View(), front, ids)
      modifies this`txnPool, this`dag, this`seen
      ensures Inv(View()) && Grows(old(View()), View())
      ensures FrontReady(View(), front') && FrontExact(from, View(), front', ids)
      ensures Replaces(old(txnPool), w.entries, kept) && AllPooled(txnPool, kept)
      ensures Brought(old(txnPool), txnPool, w.entries)
    {
      hide Inv, Grows, FrontExact, FrontReady, ValidTxn, Precede, Brought;
      BroughtNone(txnPool, w.entries);
      kept, front' := w.entries, front;
      ghost var s0 := View();
      GrowsSelf(s0);
      for j := 0 to |w.recheck|
        invariant Inv(View()) && Grows(s0, View()) && FrontReady(View(), front') && FrontExact(from, View(), front', ids)
        invariant SubPool(from.pool, txnPool) && Brought(s0.pool, txnPool, w.entries)
        invariant Replaces(s0.pool, w.entries, kept) && SubPool(s0.pool, txnPool)
        invariant forall i :: 0 <= i < |kept| && kept[i].Known? ==> kept[i].txn.id in txnPool || i in w.recheck[j..]
      {
        var i := w.recheck[j];
        assert i in w.recheck && w.recheck[j..] == [i] + w.recheck[j + 1..];
        if kept[i].Known? && kept[i].txn.id !in txnPool {
          var t := kept[i].txn;
          if ValidTxn(txnPool, t) {
            ghost var s1 := View();
            ValidKnown(View(), t);
            front' := AdmitTxn(t, front', from, ids);
            BroughtMore(s0.pool, s1.pool, txnPool, w.entries, i);
            GrowsTrans(s0, s1, View());
            GrowsPool(s0, View());
            GrowsPool(s1, View());
          } else {
            InvalidBefore(s0.pool, txnPool, kept[i]);
            kept := kept[i := Placeholder];
          }
        }
      }
    }

    /**
     Validate a peer's block. With missing inputs it waits; a reply of a deeper level resumes the
     blocks that wait for it. What is emitted is the proposer's block, with placeholders for what
     is not valid, and every transaction in it is pooled.
     */
    method ValidateBlock(proposer: nat, id: nat, depth: nat, entries: seq<Entry>) returns (v: Verdict)
      requires Valid()
      modifies this`txnPool, this`dag, this`seen, this`frontier, this`pendingBlks
      ensures Valid() && SubPool(old(txnPool), txnPool)
      // nobody else gets stuck than a newcomer that repeats an input
      ensures forall x :: old(Stuck(View(), x)) ==> Stuck(View(), x)
      ensures forall x :: Stuck(View(), x) ==> old(Stuck(View(), x)) || NewRepeats(old(View()), View(), x)
      // a stranded transaction is rescued by a block that mentions it
      ensures !v.Unexpected? ==> forall x :: Stranded(View(), x) <==> old(Stranded(View(), x)) && x !in Mentioned(entries)
      // an unexpected reply strands every newcomer without counted parents
      ensures v.Unexpected? ==>
                forall x :: Stranded(View(), x) <==> old(Stranded(View(), x)) || (x !in old(txnPool) && x in dag && dag[x].numParents == 0)
      ensures forall h :: old(Waits(View(), h, true)) ==> Waits(View(), h, true)
      // a block waits only for inputs of payments, under its own key; only a reply can be unexpected
      ensures v.Deferred? ==> exists i :: 0 <= i < |entries| && Lacks(old(txnPool), entries[i])
      ensures v.Deferred? ==>
                var key := BlockKey(proposer, id, depth);
                && key in pendingBlks && pendingBlks == old(pendingBlks)[key := pendingBlks[key]]
                && Masks(txnPool, entries, pendingBlks[key].entries)
      // an emitted block waits no more at any level, and others wait on
      ensures v.Emitted? ==> pendingBlks == old(pendingBlks) - Levels(proposer, id, depth)
      ensures v.Emitted? ==> Levels(proposer, id, depth) <= old(pendingBlks).Keys
      // what can leave goes to the head of the frontier
      ensures !v.Unexpected? ==> exists front :: frontier == front + old(frontier)
      ensures v.Unexpected? ==> depth > 0 && frontier == old(frontier)
      // newcomers come with the block or with one that waited; its grants are pooled in any case
      ensures BroughtByAny(old(txnPool), txnPool, entries, old(pendingBlks))
      ensures AllGrantsPooled(txnPool, entries)
      ensures v.Emitted? ==> AllPooled(txnPool, v.entries)
      ensures v.Emitted? ==>
                var first := BlockKey(proposer, id, 0);
                if depth == 0 then Masks(txnPool, entries, v.entries)
                else first in old(pendingBlks) && Replaces(old(txnPool), old(pendingBlks)[first].entries, v.entries)
    {
      hide Inv, Grows, FrontExact, FrontReady, Stranded, Stuck, Waits, NewRepeats, Masks, Replaces, AllPooled, WaitingOk, SubPool, Mentioned, Brought, BroughtByAny;
      ghost var s0, blks0 := View(), pendingBlks;
      var kept, missing, recheck, front := FirstPass(entries);
      GrowsPool(s0, View());
      GrantsPooled(txnPool, entries, kept, recheck);
      BroughtFirst(s0.pool, txnPool, entries, blks0);
      WaitingGrows(s0.pool, txnPool, pendingBlks);
      if missing != [] {
        GrowsAndPush(s0, View(), front, Mentioned(entries));
        assert recheck[0] in recheck;
        Requeue(front);
        pendingBlks := pendingBlks[BlockKey(proposer, id, depth) := Waiting(kept, recheck)];
        return Deferred;
      }
      NoneWaiting(txnPool, kept);
      var curr := depth;
      AboveEnds(blks0, proposer, id, depth);
      while curr > 0
        invariant 0 <= curr <= depth && Inv(View()) && Grows(s0, View()) && FrontReady(View(), front)
        invariant FrontExact(s0, View(), front, Mentioned(entries))
        invariant AllWaitingOk(txnPool, pendingBlks) && SubPool(s0.pool, txnPool) && frontier == s0.frontier
        invariant BroughtByAny(s0.pool, txnPool, entries, blks0) && AllGrantsPooled(txnPool, entries)
        invariant pendingBlks == blks0 - Above(proposer, id, curr, depth) && Above(proposer, id, curr, depth) <= blks0.Keys
        invariant curr == 0 || depth == 0 ==> AllPooled(txnPool, kept)
        invariant depth == 0 ==> Masks(txnPool, entries, kept)
        invariant curr == 0 < depth ==>
                    BlockKey(proposer, id, 0) in blks0 && Replaces(s0.pool, blks0[BlockKey(proposer, id, 0)].entries, kept)
        decreases curr
      {
        ghost var s1 := View();
        curr := curr - 1;
        var key := BlockKey(proposer, id, curr);
        if key !in pendingBlks {
          GrowsOnly(s0, View());
          return Unexpected;
        }
        var w := pendingBlks[key];
        AboveNext(blks0, proposer, id, curr, depth);
        pendingBlks := pendingBlks - {key};
        assert WaitingOk(txnPool, w);
        var again;
        again, front := Recheck(w, front, s0, Mentioned(entries));
        GrowsTrans(s0, s1, View());
        GrowsPool(s0, View());
        GrowsPool(s1, View());
        BroughtLater(s0.pool, s1.pool, txnPool, entries, blks0, key);
        GrantsStay(s1.pool, txnPool, entries);
        WaitingGrows(s1.pool, txnPool, pendingBlks);
        if curr == 0 {
          ReplacesBefore(s0.pool, s1.pool, w.entries, again);
          kept := again;
        }
      }
      GrowsAndPush(s0, View(), front, Mentioned(entries));
      Requeue(front);
      return Emitted(kept);
    }

    method HandlePmakerMsg()
      requires Valid()
      modifies this`blkQuota
      ensures Valid() && blkQuota == old(blkQuota) + 1
    {
      blkQuota := blkQuota + 1;
    }
  }

  lemma NoUnderflow0(s: Batcher, h: Hash, c: Hash)
    requires Inv(s) && h in s.dag && c in s.dag && c in s.dag[h].children
    ensures s.dag[c].numParents > 0
  {
    hide Orders;
    NoUnderflow(s, h, c);
  }

  lemma ElemsSnoc<T>(s: seq<T>, x: T)
    ensures Elems(s + [x]) == Elems(s) + {x}
  {
  }

  lemma LeaveSize(s: Batcher, h: Hash)
    requires h in s.dag
    ensures |Leave(s, h).dag| < |s.dag|
  {
    assert Leave(s, h).dag.Keys == s.dag.Keys - {h};
    assert |s.dag.Keys - {h}| == |s.dag.Keys| - 1;
  }

  lemma OutPooled(s: Batcher, proposed: seq<Hash>, batch: seq<Hash>)
    requires Inv(s) && s.out == proposed + batch
    ensures forall i :: 0 <= i < |batch| ==> batch[i] in s.pool
  {
    hide Edges, Counted, FrontOk, Distinct;
    forall i | 0 <= i < |batch| ensures batch[i] in s.pool { assert s.out[|proposed| + i] == batch[i]; }
  }

  /** In every state the proposed transactions never repeat and come after their parents. */
  lemma ProposalsOrdered(m: BlockManagement)
    requires m.Valid()
    ensures Distinct(m.proposed)
    ensures forall h :: h in m.proposed ==> h in m.txnPool
    ensures forall i, p :: 0 <= i < |m.proposed| && m.txnPool[m.proposed[i]].Send? && p in m.txnPool[m.proposed[i]].inputs ==>
              p in m.proposed[..i]
  {
    hide Edges, Counted, FrontOk, Precede;
    DistinctConcat(m.proposed, m.batch);
    forall i | 0 <= i < |m.proposed|
      ensures m.proposed[i] in m.txnPool && Precede(m.txnPool[m.proposed[i]], m.proposed[..i])
    {
      assert m.out[i] == m.proposed[i] && m.out[..i] == m.proposed[..i];
    }
    InputsPrecede(m.txnPool, m.proposed);
  }

  lemma GrantsValid(pool: TxnPool, t: Txn)
    ensures t.Grant? ==> ValidTxn(pool, t)
  {
  }

  lemma InputsPrecede(pool: TxnPool, hs: seq<Hash>)
    requires ParentsFirst(pool, hs)
    ensures forall h :: h in hs ==> h in pool
    ensures forall i, p :: 0 <= i < |hs| && pool[hs[i]].Send? && p in pool[hs[i]].inputs ==> p in hs[..i]
  {
  }

  lemma InvOrders(s: Batcher)
    requires Inv(s)
    ensures Orders(s)
  {
  }

  lemma GrowsSelf(s: Batcher)
    requires Inv(s)
    ensures Grows(s, s)
  {
    hide Edges, Counted, FrontOk;
  }

  lemma GrowsPool(s: Batcher, s': Batcher)
    requires Grows(s, s')
    ensures SubPool(s.pool, s'.pool) && s'.out == s.out && s'.frontier == s.frontier
  {
  }

  lemma FrontAdd(s0: Batcher, s: Batcher, xs: seq<Hash>, x: Hash, ids: set<Hash>)
    requires FrontReady(s, xs) && FrontExact(s0, s, xs, ids) && x in s.pool && x in s.dag && s.dag[x].numParents == 0
    ensures FrontReady(s, xs + [x]) && FrontExact(s0, s, xs + [x], ids + {x})
  {
  }

  lemma FrontSkip(s0: Batcher, s: Batcher, xs: seq<Hash>, x: Hash, ids: set<Hash>)
    requires FrontExact(s0, s, xs, ids) && !(x in s.dag && s.dag[x].numParents == 0)
    ensures FrontExact(s0, s, xs, ids + {x})
  {
  }

  lemma MentionedNext(entries: seq<Entry>, i: nat)
    requires i < |entries|
    ensures Mentioned(entries[..i + 1]) == if entries[i].Known? then Mentioned(entries[..i]) + {entries[i].txn.id} else Mentioned(entries[..i])
  {
    assert entries[..i + 1] == entries[..i] + [entries[i]];
  }

  /** The outcome for the frontier when a block's free transactions are queued, and when they are not. */
  lemma GrowsAndPush(s: Batcher, s1: Batcher, xs: seq<Hash>, ids: set<Hash>)
    requires Inv(s) && Inv(s1) && Grows(s, s1) && FrontReady(s1, xs) && FrontExact(s, s1, xs, ids)
    ensures var s' := s1.(frontier := xs + s1.frontier);
            && Inv(s') && (forall x :: Stuck(s, x) ==> Stuck(s', x))
            && (forall x :: Stuck(s', x) ==> Stuck(s, x) || NewRepeats(s, s', x))
            && (forall x :: Stranded(s', x) <==> Stranded(s, x) && x !in ids)
            && (forall h :: Waits(s, h, true) ==> Waits(s', h, true))
  {
    hide Inv, Grows, FrontReady, Stuck, Waits, Carries;
    var s' := s1.(frontier := xs + s1.frontier);
    GrowsBlocked(s, s1);
    GrowsPool(s, s1);
    PushIdle(s1, xs);
    GrowsCarries(s, s1);
    StillWaits(s, s1, true);
    PushCarries(s1, s');
    StillWaits(s1, s', true);
    StrandedPooled(s);
  }

  lemma StrandedPooled(s: Batcher)
    requires Inv(s)
    ensures forall x :: Stranded(s, x) ==> x in s.pool
  {
    hide Edges, Counted, FrontOk;
  }

  lemma GrowsOnly(s: Batcher, s': Batcher)
    requires Inv(s) && Grows(s, s')
    ensures forall x :: Stuck(s, x) ==> Stuck(s', x)
    ensures forall x :: Stuck(s', x) ==> Stuck(s, x) || NewRepeats(s, s', x)
    ensures forall x :: Stranded(s', x) <==> Stranded(s, x) || (x !in s.pool && x in s'.dag && s'.dag[x].numParents == 0)
    ensures forall h :: Waits(s, h, true) ==> Waits(s', h, true)
  {
    hide Inv, Grows, Stuck, Stranded, Waits, Carries;
    GrowsBlocked(s, s');
    GrowsCarries(s, s');
    StillWaits(s, s', true);
  }

  lemma PassStart(s: Batcher)
    requires Inv(s)
    ensures FrontReady(s, []) && FrontExact(s, s, [], Mentioned([])) && WaitingOk(s.pool, Waiting([], [])) && SubPool(s.pool, s.pool)
  {
  }

  lemma PooledPrecede(s: Batcher, t: Txn)
    requires Inv(s) && forall p :: p in ParentsOf(t) ==> p in s.pool
    ensures Precede(t, s.seen)
  {
    hide Edges, Counted, FrontOk, Distinct, ParentsFirst;
    forall p | p in ParentsOf(t) ensures p in s.seen { assert p in Elems(s.seen); }
  }

  lemma ValidKnown(s: Batcher, t: Txn)
    requires Inv(s) && ValidTxn(s.pool, t)
    ensures Precede(t, s.seen)
  {
    hide Inv;
    forall p | p in ParentsOf(t) ensures p in s.pool {
      var i :| 0 <= i < |t.inputs| && t.inputs[i] == p;
      InputValueKnown(s.pool, t.sender, t.inputs, i);
    }
    PooledPrecede(s, t);
  }

  lemma WaitingSnoc(pool: TxnPool, pool': TxnPool, w: Waiting, e: Entry, again: bool)
    requires WaitingOk(pool, w) && SubPool(pool, pool')
    requires if again then e.Known? && e.txn.Send? else e.Known? ==> e.txn.id in pool'
    ensures WaitingOk(pool', Waiting(w.entries + [e], if again then w.recheck + [|w.entries|] else w.recheck))
  {
  }

  lemma NoneWaiting(pool: TxnPool, kept: seq<Entry>)
    requires WaitingOk(pool, Waiting(kept, []))
    ensures AllPooled(pool, kept)
  {
  }
}
