/**
 A run in which the tail does not end the longest valid chain. A block that double-spends waits for
 its parent; when the parent arrives, the manager tries the waiting block only, rejects it, and
 stays at genesis although the parent alone makes a valid longer chain.
 */
module RejectedBest {
  import opened Collections
  import opened Ledger
  import opened BlockTree
  import opened Values
  import opened ChainState
  import opened LongestChain
  import opened BitcoinBlockManagement

  const G := Grant(1, 7, 10, 1)
  const S := Send(2, 7, [1], 8, 10, 0, true, 1)
  const DOUBLE := Send(3, 7, [1], 9, 10, 0, true, 1)
  const PARENT := Block(GENESIS, [G, S], 1, true, 0)
  const CHILD := Block(11, [DOUBLE], 1, true, 0)

  lemma Keys()
    ensures InKeys(G) == [] && OutKeys(G) == [Utxo(1, 7)]
    ensures InKeys(S) == [Utxo(1, 7)] && OutKeys(S) == [Utxo(2, 8)]
    ensures InKeys(DOUBLE) == [Utxo(1, 7)] && OutKeys(DOUBLE) == [Utxo(3, 9)]
    ensures Distinct(InKeys(G)) && Distinct(OutKeys(G)) && Distinct(OutKeys(S)) && Distinct(OutKeys(DOUBLE))
  {
  }

  /** The two payments are valid, each on its own. */
  lemma Balanced(pool: TxnPool)
    requires 1 in pool && pool[1] == G
    ensures ValidTxn(pool, S) && ValidTxn(pool, DOUBLE)
  {
    assert [1][..0] == [];
    assert InputValue(pool, 7, [1]) == Some(10);
  }

  lemma ParentReplays()
    ensures Replay([G, S], {}) == Some({Utxo(2, 8)}) && Replay([G, S, DOUBLE], {}).None?
  {
    Keys();
    hide InKeys, OutKeys, Replay;
    ReplayEmpty({});
    ReplaySnoc([], G, {});
    ReplaySnoc([G], S, {});
    ReplaySnoc([G, S], DOUBLE, {});
    assert [] + [G] == [G] && [G] + [S] == [G, S] && [G, S] + [DOUBLE] == [G, S, DOUBLE];
    assert Elems([Utxo(1, 7)]) == {Utxo(1, 7)} && Elems([Utxo(2, 8)]) == {Utxo(2, 8)} && Elems<Utxo>([]) == {};
    assert Apply(G, {}) == {Utxo(1, 7)} && Apply(S, {Utxo(1, 7)}) == {Utxo(2, 8)};
  }

  ghost predicate Two(p: Pool) {
    p.Keys == {11, 12} && p[11].block == PARENT && p[12].block == CHILD
  }

  lemma TwoPaths(p: Pool)
    requires Two(p)
    ensures Linked(p, 11, 1) && Path(p, 11, 1) == [Link(11, PARENT)]
    ensures Linked(p, 12, 2) && Path(p, 12, 2) == [Link(11, PARENT), Link(12, CHILD)]
  {
    assert Linked(p, GENESIS, 0) && Path(p, GENESIS, 0) == [];
    assert Linked(p, 11, 1) && Path(p, 11, 1) == [] + [Link(11, PARENT)];
    assert Linked(p, 12, 2) && Path(p, 12, 2) == Path(p, 11, 1) + [Link(12, CHILD)];
  }

  lemma TwoTxns()
    ensures Txns([Link(11, PARENT)]) == [G, S] && Txns([Link(11, PARENT), Link(12, CHILD)]) == [G, S, DOUBLE]
  {
    var a, b := [Link(11, PARENT)], [Link(11, PARENT), Link(12, CHILD)];
    assert a[..0] == [] && b[..1] == a;
    assert Txns(a) == [] + [G, S];
    assert Txns(b) == [G, S] + [DOUBLE];
  }

  /** The chains of the two blocks. */
  lemma Paths(p: Pool)
    requires Two(p)
    ensures Linked(p, 11, 1) && Txns(Path(p, 11, 1)) == [G, S]
    ensures Linked(p, 12, 2) && Txns(Path(p, 12, 2)) == [G, S, DOUBLE]
    ensures forall h: Hash, n: nat :: Linked(p, h, n) ==> (h == GENESIS && n == 0) || (h == 11 && n == 1) || (h == 12 && n == 2)
  {
    TwoPaths(p);
    TwoTxns();
    hide Path, Txns;
    forall h: Hash, n: nat | Linked(p, h, n) ensures (h == GENESIS && n == 0) || (h == 11 && n == 1) || (h == 12 && n == 2) {
      if n > 0 { LinkedTwo(p, h, n); }
    }
  }

  lemma LinkedTwo(p: Pool, h: Hash, n: nat)
    requires Two(p) && n > 0 && Linked(p, h, n)
    ensures (h == 11 && n == 1) || (h == 12 && n == 2)
  {
    assert h in p.Keys;
    if h == 11 {
      assert Linked(p, GENESIS, n - 1);
    } else {
      assert Linked(p, 11, n - 1);
      assert n - 1 > 0 ==> Linked(p, GENESIS, n - 2);
    }
  }

  /** Nothing is linked to genesis while the parent is missing. */
  lemma OrphanAddable(rank: Hash -> nat)
    requires rank(11) < rank(12)
    ensures Addable(map[], 12, CHILD, rank) && IdsAgree(map[1 := G], [DOUBLE])
  {
    Keys();
    var p: Pool := map[][12 := Entry(CHILD, 0)];
    forall h: Hash, n: nat | Linked(p, h, n) ensures SourcesOnce(Txns(Path(p, h, n))) {
      assert n > 0 ==> h == 12 && Linked(p, 11, n - 1);
    }
  }

  lemma ParentAddable(p: Pool, pool: TxnPool, rank: Hash -> nat)
    requires p.Keys == {12} && p[12].block == CHILD && pool == map[1 := G, 3 := DOUBLE]
    ensures Addable(p, 11, PARENT, rank) && IdsAgree(pool, [G, S])
  {
    Keys();
    hide Linked, Path, Txns, InKeys, OutKeys, Distinct;
    var p' := p[11 := Entry(PARENT, 0)];
    assert Two(p');
    Paths(p');
    TxnsOnce();
    hide SourcesOnce;
    forall h: Hash, n: nat | Linked(p', h, n) ensures SourcesOnce(Txns(Path(p', h, n))) {
      if n == 0 { NoTxns(p', h); }
    }
  }

  lemma TxnsOnce()
    ensures SourcesOnce([G, S]) && SourcesOnce([G, S, DOUBLE]) && SourcesOnce([])
  {
  }

  lemma NoTxns(p: Pool, h: Hash)
    requires Linked(p, h, 0)
    ensures Txns(Path(p, h, 0)) == []
  {
  }

  lemma Sounds(p: Pool)
    ensures 12 !in p ==> Sound(p, map[1 := G], 12, CHILD)
    ensures AddTxns(map[1 := G], [DOUBLE]) == map[1 := G, 3 := DOUBLE]
    ensures 11 !in p ==> Sound(p, map[1 := G, 3 := DOUBLE], 11, PARENT)
  {
    Balanced(map[1 := G]);
    Balanced(map[1 := G, 3 := DOUBLE]);
    hide ValidTxn;
    assert [DOUBLE][..0] == [] && [G, S][..1] == [G] && [G][..0] == [];
    var pool, pool' := map[1 := G], map[1 := G, 3 := DOUBLE];
    assert AddTxns(pool, []) == pool && TxnsValid(pool, []) && TxnsValid(pool, [DOUBLE]);
    assert AddTxns(pool', []) == pool' && TxnsValid(pool', []) && TxnsValid(pool', [G]) && AddTxns(pool', [G]) == pool';
    assert TxnsValid(pool', [G, S]);
  }

  /** Which of the two newly connected blocks is best, and what becomes of it. */
  lemma ChildIsBest(s: State, rank: Hash -> nat, p: Pool, best: Hash)
    requires Inv(s, rank) && Two(s.blocks) && p.Keys == {12} && p[12].height == 0 && BestOf(p, s.blocks, best)
    ensures best == 12 && s.blocks[11].height == 1 && Replays(s.blocks, 11) && !Replays(s.blocks, 12)
  {
    hide Replay, MempoolOk, BuildOk, PoolOk, Known, Honest, Ranked;
    Paths(s.blocks);
    ParentReplays();
    hide Linked, Path, Txns, TreeInv;
    HeightIsDistance(s.blocks, s.orphans, 11);
    HeightIsDistance(s.blocks, s.orphans, 12);
    assert best in s.blocks.Keys;
  }

  lemma OrphanHeight(s: State, rank: Hash -> nat)
    requires Inv(s, rank) && s.blocks.Keys == {12} && s.blocks[12].block == CHILD
    ensures s.blocks[12].height == 0
  {
    hide Replay, MempoolOk, BuildOk, PoolOk, Known, Honest, Ranked;
    assert HeightOk(s.blocks, 12);
  }

  lemma ParentHeight(s: State, rank: Hash -> nat)
    requires Inv(s, rank) && Two(s.blocks)
    ensures s.blocks[11].height == 1 && GENESIS !in s.blocks
  {
    hide Replay, MempoolOk, BuildOk, PoolOk, Known, Honest, Ranked;
    assert HeightOk(s.blocks, 11);
  }

  lemma NotLongest(p: Pool)
    requires 11 in p && p[11].height == 1 && Replays(p, 11) && GENESIS !in p
    ensures !Longest(p, GENESIS) && Length(p, GENESIS) == 0
  {
  }

  /** The grant is known, and the double-spending child arrives before its parent. */
  method ChildFirst(ghost rank: Hash -> nat) returns (m: BlockManager)
    requires rank(11) < rank(12)
    ensures m.Valid() && m.rank == rank && m.chainTail == GENESIS && m.txnPool == map[1 := G, 3 := DOUBLE]
    ensures m.blockPool.Keys == {12} && m.blockPool[12] == Entry(CHILD, 0) && fresh(m)
  {
    hide Inv, Replay, Addable, IdsAgree, Sound, Moved, BestOf, Held, Ids, Longest, AllReplay, Spared, SubPool, AllBalanced, Grew,
         Chain, Active, InKeys, OutKeys, Distinct, AddTxns, Length;
    m := new BlockManager(0, rank);
    Keys();
    var _ := m.RecordNewTxn(G);
    assert m.txnPool == map[1 := G];
    OrphanAddable(rank);
    Sounds(m.blockPool);
    ghost var f, b;
    var t, r;
    t, r, b, f := m.ValidateBlock(12, CHILD);
    assert m.blockPool.Keys == {12};
    OrphanHeight(m.Snap(), rank);
  }

  /** Then the parent arrives: the manager stays at genesis, although the parent's chain is longer and valid. */
  method TailMissesLongest(ghost rank: Hash -> nat) returns (m: BlockManager)
    requires rank(11) < rank(12)
    ensures m.Valid() && m.chainTail == GENESIS && m.ChainLength() == 0
    ensures 11 in m.blockPool && m.blockPool[11].height == 1 && Replays(m.blockPool, 11)
    ensures !Longest(m.blockPool, m.chainTail)
  {
    hide Inv, Addable, IdsAgree, Sound, Moved, BestOf, Held, Ids, Longest, AllReplay, Spared, SubPool, AllBalanced,
         Chain, Active, AddTxns, Replay;
    m := ChildFirst(rank);
    ghost var p := m.blockPool;
    ParentAddable(p, m.txnPool, rank);
    Sounds(p);
    ghost var f, b;
    var t, r;
    t, r, b, f := m.ValidateBlock(11, PARENT);
    assert Two(m.blockPool);
    ParentHeight(m.Snap(), rank);
    ChildIsBest(m.Snap(), rank, p, b);
    NotLongest(m.blockPool);
  }
}
