/**
 What one node mines, another accepts: a peer that has the parent chain and the transactions pools
 the mined block, and moves to it unless its own chain is longer already.
 */
module MinedBlocks {
  import opened Collections
  import opened Ledger
  import opened BlockTree
  import opened Values
  import opened ChainState
  import opened LongestChain
  import opened BitcoinBlockManagement

  lemma {:induction false} PooledValid(pool: TxnPool, ts: seq<Txn>)
    requires forall t :: t in ts ==> t.id in pool
    ensures TxnsValid(pool, ts) && AddTxns(pool, ts) == pool
  {
    hide ValidTxn;
    if ts != [] {
      var n := |ts| - 1;
      assert forall t :: t in ts[..n] ==> t in ts;
      PooledValid(pool, ts[..n]);
      assert ts[n] in ts;
    }
  }

  /** The transactions under construction are pooled by the peer as they are by the miner. */
  ghost predicate SharesTxns(s: State, pool: TxnPool) {
    forall h :: h in s.building ==> h in s.txnPool && h in pool && pool[h] == s.txnPool[h]
  }

  lemma MinedTxns(s: State, rank: Hash -> nat, id: nat, pool: TxnPool)
    requires Inv(s, rank) && SharesTxns(s, pool)
    ensures AllIn(s.building, s.txnPool)
    ensures forall t :: t in MinedBlock(s, id).txns ==> t.id in pool && pool[t.id] == t
  {
    hide TreeOk, Replay, Known, MempoolOk, BuildOk, Spendable, Active, OutKeys;
    var ts := Lookup(s.txnPool, s.building);
    forall t | t in ts ensures t.id in pool && pool[t.id] == t {
      var i :| 0 <= i < |ts| && ts[i] == t;
      assert s.building[i] in s.building;
    }
  }

  /** A mined block passes every check of a peer that does not have it yet. */
  lemma MinedIsSound(s: State, rank: Hash -> nat, hash: Hash, id: nat, p: Pool, pool: TxnPool)
    requires Inv(s, rank) && SharesTxns(s, pool) && hash !in p
    ensures AllIn(s.building, s.txnPool) && Sound(p, pool, hash, MinedBlock(s, id))
  {
    hide Inv, SharesTxns, TxnsValid;
    MinedTxns(s, rank, id, pool);
    PooledValid(pool, MinedBlock(s, id).txns);
  }

  /** A chain that avoids the new block was there before. */
  lemma {:induction false} LinkedBefore(p: Pool, p': Pool, hash: Hash, block: Block, h: Hash, n: nat)
    requires Pooled(p, p', hash, block) && (forall x :: x in p ==> p[x].block.prev != hash)
    requires h != hash && Linked(p', h, n)
    ensures Linked(p, h, n)
    decreases n
  {
    if n > 0 {
      assert h in p && p'[h].block == p[h].block;
      LinkedBefore(p, p', hash, block, p[h].block.prev, n - 1);
    }
  }

  /** If no block waits for it, a new block connects nothing but itself. */
  lemma ConnectsOnlyItself(p: Pool, o: Orphans, p': Pool, o': Orphans, hash: Hash, block: Block, h: Hash)
    requires Settled(p, o) && Settled(p', o') && Pooled(p, p', hash, block)
    requires forall x :: x in p ==> p[x].block.prev != hash
    requires h in p' && p'[h].height > 0 && h != hash
    ensures h in p && p[h].height > 0
  {
    hide Settled, Linked, TreeInv;
    SettledTree(p', o');
    HeightSound(p', o', {}, h);
    LinkedBefore(p, p', hash, block, h, p'[h].height);
    HeightComplete(p, o, h, p'[h].height);
  }

  lemma SettledTree(p: Pool, o: Orphans)
    requires Settled(p, o)
    ensures TreeInv(p, o, {})
  {
  }

  // ---------------------------------------------------------------- two nodes

  /** The pool has the chain `ls`, which ends in `h`. */
  ghost predicate HasChain(p: Pool, h: Hash, ls: seq<Link>) {
    Linked(p, h, |ls|) && Path(p, h, |ls|) == ls
  }

  lemma OwnChain(s: State, rank: Hash -> nat)
    requires Inv(s, rank)
    ensures HasChain(s.blocks, s.tail, Chain(s.blocks, s.tail)) && Honest(s.blocks) && Settled(s.blocks, s.orphans)
    ensures Replay(Txns(Chain(s.blocks, s.tail)), {}) == Some(s.utxo) && |Chain(s.blocks, s.tail)| == Length(s.blocks, s.tail)
  {
    hide Replay, Linked, Path, Settled, Honest, MempoolOk, BuildOk, PoolOk, Known;
    ChainFacts(s, rank);
  }

  /** The invariant of the miner with its block covers the peer's chain with that block. */
  lemma PeerTakes(s: State, rank: Hash -> nat, hash: Hash, id: nat, q: State, prank: Hash -> nat)
    requires Inv(s, rank) && Fresh(s.blocks, s.tail, hash, rank) && Inv(q, prank) && Fresh(q.blocks, s.tail, hash, prank)
    requires SharesTxns(s, q.txnPool) && HasChain(q.blocks, s.tail, Chain(s.blocks, s.tail))
    ensures AllIn(s.building, s.txnPool) && Addable(q.blocks, hash, MinedBlock(s, id), prank)
    ensures IdsAgree(q.txnPool, MinedBlock(s, id).txns)
  {
    hide Inv, Honest, SourcesOnce, Linked, Path, Chain, SharesTxns, Settled, Replay, IdsAgree, Txns, Held;
    MinedTxns(s, rank, id, q.txnPool);
    MineKeeps(s, rank, hash, id);
    OwnChain(Mine(s, hash, id), rank);
    OwnChain(q, prank);
    var block, chain := MinedBlock(s, id), Chain(s.blocks, s.tail);
    HonestAlong(Mine(s, hash, id).blocks, hash, chain + [Link(hash, block)]);
    MineHonest(q.blocks, s.tail, |chain|, hash, Entry(block, 0));
    TxnsAgree(q, prank, block.txns);
  }

  lemma HonestAlong(p: Pool, h: Hash, ls: seq<Link>)
    requires Honest(p) && HasChain(p, h, ls)
    ensures SourcesOnce(Txns(ls))
  {
    hide SourcesOnce, Txns;
  }

  lemma TxnsAgree(q: State, rank: Hash -> nat, ts: seq<Txn>)
    requires Inv(q, rank) && forall t :: t in ts ==> t.id in q.txnPool && q.txnPool[t.id] == t
    ensures IdsAgree(q.txnPool, ts)
  {
    hide TreeOk, Replay, Known, MempoolOk, BuildOk, Spendable, Active, OutKeys, Distinct;
  }

  /** The pooled block is connected right after its parent. */
  lemma PeerConnects(p: Pool, p': Pool, o': Orphans, hash: Hash, block: Block, ls: seq<Link>)
    requires Pooled(p, p', hash, block) && Settled(p', o') && hash != GENESIS && HasChain(p, block.prev, ls)
    ensures p'[hash].height == |ls| + 1 && HasChain(p', hash, ls + [Link(hash, block)])
    ensures Chain(p', hash) == ls + [Link(hash, block)]
  {
    hide Settled;
    PathFrame(p, p', block.prev, |ls|);
    assert Linked(p', hash, |ls| + 1);
    HeightComplete(p', o', hash, |ls| + 1);
  }

  lemma BestIsNew(p: Pool, o: Orphans, p': Pool, o': Orphans, hash: Hash, block: Block, best: Hash)
    requires Settled(p, o) && Settled(p', o') && Pooled(p, p', hash, block) && BestOf(p, p', best)
    requires forall x :: x in p ==> p[x].block.prev != hash
    ensures best == hash
  {
    hide Settled, Linked, Pooled;
    if best != hash { ConnectsOnlyItself(p, o, p', o', hash, block, best); }
  }

  lemma PeerOutcome(q: State, q': State, rank: Hash -> nat, hash: Hash, block: Block, ls: seq<Link>, best: Hash)
    requires Inv(q, rank) && Inv(q', rank) && Pooled(q.blocks, q'.blocks, hash, block)
    requires Fresh(q.blocks, block.prev, hash, rank) && HasChain(q.blocks, block.prev, ls)
    ensures q'.blocks[hash] == Entry(block, |ls| + 1) && Length(q'.blocks, hash) == |ls| + 1
    ensures Chain(q'.blocks, hash) == ls + [Link(hash, block)]
    ensures BestOf(q.blocks, q'.blocks, best) ==> best == hash
  {
    hide Inv, HasChain, Chain, Settled, Honest, Replay, BestOf;
    OwnChain(q, rank);
    OwnChain(q', rank);
    PeerConnects(q.blocks, q'.blocks, q'.orphans, hash, block, ls);
    if BestOf(q.blocks, q'.blocks, best) {
      BestIsNew(q.blocks, q.orphans, q'.blocks, q'.orphans, hash, block, best);
    }
  }

  /**
   A node mines a block and a peer validates it. The peer has the parent chain and the
   transactions, and nothing of it waits for the block. It pools the block, and it moves to the
   miner's chain exactly if its own was not longer than the parent chain.
   */
  method PeerFollows(miner: BlockManager, peer: BlockManager, hash: Hash) returns (link: Link, tail: seq<Link>)
    requires miner != peer && miner.Valid() && peer.Valid() && miner.prepared
    requires Fresh(miner.blockPool, miner.chainTail, hash, miner.rank) && Fresh(peer.blockPool, miner.chainTail, hash, peer.rank)
    requires SharesTxns(miner.Snap(), peer.txnPool) && HasChain(peer.blockPool, miner.chainTail, miner.ActiveChain())
    modifies miner, peer
    ensures miner.Valid() && peer.Valid() && miner.ActiveChain() == old(miner.ActiveChain()) + [link]
    ensures hash in peer.blockPool && peer.blockPool[hash] == Entry(link.block, |miner.ActiveChain()|)
    ensures tail != [] <==> |old(peer.ActiveChain())| <= |old(miner.ActiveChain())|
    ensures tail != [] ==>
              peer.chainTail == miner.chainTail == hash && peer.ActiveChain() == miner.ActiveChain() && peer.utxo == miner.utxo
    ensures tail == [] ==> peer.ActiveChain() == old(peer.ActiveChain()) && peer.utxo == old(peer.utxo)
  {
    hide Inv, HasChain, SharesTxns, Held, Chain, Txns, Replay, Sound, Addable, IdsAgree, Settled, Honest, AllBalanced, SubPool, Ids,
         Longest, AllReplay, Spared, MinedBlock, Pooled, BestOf, TxnsValid, AddTxns;
    ghost var s, q := miner.Snap(), peer.Snap();
    PeerTakes(s, miner.rank, hash, miner.id, q, peer.rank);
    MinedIsSound(s, miner.rank, hash, miner.id, q.blocks, q.txnPool);
    link := miner.GetNewBlock(hash);
    var request;
    ghost var best, fork;
    tail, request, best, fork := peer.ValidateBlock(hash, link.block);
    PeerOutcome(q, peer.Snap(), peer.rank, hash, link.block, Chain(s.blocks, s.tail), best);
    OwnChain(q, peer.rank);
    OwnChain(miner.Snap(), miner.rank);
    OwnChain(peer.Snap(), peer.rank);
  }
}
