/**
 When the manager's tail ends a longest valid chain. The manager tries only the highest block that
 a new block connects, so it can miss a shorter one that is valid and still longer than its chain.
 */
module LongestChain {
  import opened Ledger
  import opened BlockTree
  import opened ChainState

  ghost predicate Replays(p: Pool, h: Hash) {
    Replay(Active(p, h), {}).Some?
  }

  /** No connected block whose chain replays is higher than the tail. */
  ghost predicate Longest(p: Pool, tail: Hash) {
    forall h {:trigger Replays(p, h)} :: h in p && p[h].height > 0 && Replays(p, h) ==> p[h].height <= Length(p, tail)
  }

  /** Every connected block ends a chain that replays. */
  ghost predicate AllReplay(p: Pool) {
    forall h {:trigger Replays(p, h)} :: h in p && p[h].height > 0 ==> Replays(p, h)
  }

  ghost predicate Connected(p: Pool, h: Hash) {
    h in p && p[h].height > 0
  }

  /** A connected block's chain is not affected by the growth of the pool. */
  lemma ReplaysFrame(p: Pool, o: Orphans, p': Pool, o': Orphans, rank: Hash -> nat, tail: Hash, h: Hash)
    requires TreeOk(p, o, tail, rank) && Grew(p, p') && Settled(p', o') && Connected(p, h)
    ensures Connected(p', h) && p'[h].height == p[h].height && (Replays(p', h) <==> Replays(p, h))
  {
    hide Replay, Settled, Ranked, Honest, Active;
    GrowChain(p, o, p', o', h, rank);
  }

  /** If the present pool replays throughout, then so did every earlier one. */
  lemma AllReplayBefore(p: Pool, o: Orphans, p': Pool, o': Orphans, rank: Hash -> nat, tail: Hash)
    requires TreeOk(p, o, tail, rank) && Grew(p, p') && Settled(p', o') && AllReplay(p')
    ensures AllReplay(p)
  {
    hide Replays, TreeOk, Settled, Grew;
    forall h | Connected(p, h) ensures Replays(p, h) { ReplaysFrame(p, o, p', o', rank, tail, h); }
  }

  /**
   The manager keeps the tail, or moves to `best`, the highest block connected since `p`, exactly if that is
   longer and replays. Then a longest tail stays longest if and only if `best` replays or no newly
   connected block that replays is higher than the tail.
   */
  lemma LongestStep(p: Pool, o: Orphans, tail: Hash, p': Pool, o': Orphans, tail': Hash, best: Hash, rank: Hash -> nat)
    requires TreeOk(p, o, tail, rank) && Grew(p, p') && Settled(p', o') && TailOk(p', tail')
    requires BestOf(p, p', best) && Longest(p, tail) && Length(p', tail) == Length(p, tail)
    requires tail' == if p'[best].height > Length(p, tail) && Replays(p', best) then best else tail
    ensures Longest(p', tail') <==>
            Replays(p', best) || forall h {:trigger Replays(p', h)} ::
              Connected(p', h) && !Connected(p, h) && Replays(p', h) ==> p'[h].height <= Length(p, tail)
  {
    hide Replays, TreeOk, Settled, Linked, Grew;
    assert BestOf(p, p', best);
    BestNotGenesis(p', o', best);
    forall h | Connected(p, h) ensures Connected(p', h) && p'[h].height == p[h].height && (Replays(p', h) <==> Replays(p, h)) {
      ReplaysFrame(p, o, p', o', rank, tail, h);
    }
  }

  lemma BestNotGenesis(p: Pool, o: Orphans, best: Hash)
    requires Settled(p, o) && best in p
    ensures best != GENESIS
  {
  }

  /** A pool in which nothing new got connected leaves everything as it is. */
  lemma LongestFrame(p: Pool, o: Orphans, p': Pool, o': Orphans, tail: Hash, rank: Hash -> nat)
    requires TreeOk(p, o, tail, rank) && Grew(p, p') && Settled(p', o') && Length(p', tail) == Length(p, tail)
    requires forall h :: Connected(p', h) ==> Connected(p, h)
    ensures Longest(p', tail) <==> Longest(p, tail)
  {
    hide Replays, TreeOk, Settled, Grew, Length;
    forall h | Connected(p, h) ensures Connected(p', h) && p'[h].height == p[h].height && (Replays(p', h) <==> Replays(p, h)) {
      ReplaysFrame(p, o, p', o', rank, tail, h);
    }
  }

  /** Mining extends a longest chain. */
  lemma LongestMine(p: Pool, o: Orphans, p': Pool, o': Orphans, tail: Hash, hash: Hash, rank: Hash -> nat)
    requires TreeOk(p, o, tail, rank) && Grew(p, p') && Settled(p', o') && hash != GENESIS
    requires p'.Keys == p.Keys + {hash} && p'[hash].height == Length(p, tail) + 1
    requires forall h :: h in p ==> p'[h] == p[h]
    ensures Longest(p, tail) ==> Longest(p', hash)
  {
    hide Replays, TreeOk, Settled, Grew;
    forall h | Connected(p, h) ensures Connected(p', h) && p'[h].height == p[h].height && (Replays(p', h) <==> Replays(p, h)) {
      ReplaysFrame(p, o, p', o', rank, tail, h);
    }
  }

  /** The best newly connected block replays, or no newly connected block that does is longer than `n`. */
  ghost predicate Spared(p: Pool, p': Pool, best: Hash, n: nat) {
    Replays(p', best) || forall h {:trigger Replays(p', h)} ::
      Connected(p', h) && !Connected(p, h) && Replays(p', h) ==> p'[h].height <= n
  }

  /** What a peer's block does to the length of the chain. */
  lemma PeerLongest(s: State, s': State, rank: Hash -> nat, accepted: bool, waits: bool, hash: Hash, block: Block, best: Hash)
    requires Inv(s, rank) && Inv(s', rank)
    requires !accepted ==> s'.blocks == s.blocks && s'.tail == s.tail
    requires accepted ==> Pooled(s.blocks, s'.blocks, hash, block)
    requires accepted && waits ==> s'.blocks == s.blocks[hash := Entry(block, 0)] && s'.tail == s.tail
    requires accepted && !waits ==>
               && BestOf(s.blocks, s'.blocks, best)
               && s'.tail == if Length(s'.blocks, best) > Length(s.blocks, s.tail) && Replays(s'.blocks, best) then best else s.tail
    ensures Longest(s.blocks, s.tail) ==>
              (Longest(s'.blocks, s'.tail) <==> (accepted && !waits ==> Spared(s.blocks, s'.blocks, best, Length(s.blocks, s.tail))))
    ensures AllReplay(s'.blocks) ==> AllReplay(s.blocks)
  {
    hide Replays, Replay, MempoolOk, BuildOk, PoolOk, Known, Honest, Ranked, Settled, Linked, Active;
    if accepted {
      if AllReplay(s'.blocks) { AllReplayBefore(s.blocks, s.orphans, s'.blocks, s'.orphans, rank, s.tail); }
      GrowChain(s.blocks, s.orphans, s'.blocks, s'.orphans, s.tail, rank);
      if waits {
        LongestFrame(s.blocks, s.orphans, s'.blocks, s'.orphans, s.tail, rank);
      } else if Longest(s.blocks, s.tail) {
        BestNotGenesis(s'.blocks, s'.orphans, best);
        LongestStep(s.blocks, s.orphans, s.tail, s'.blocks, s'.orphans, s'.tail, best, rank);
      }
    }
  }

  /** If every connected chain replays, the tail is longest; a peer's block keeps this. */
  lemma PeerKeepsLongest(s: State, s': State, rank: Hash -> nat, accepted: bool, waits: bool, best: Hash)
    requires AllReplay(s.blocks) ==> Longest(s.blocks, s.tail)
    requires AllReplay(s'.blocks) ==> AllReplay(s.blocks)
    requires accepted && !waits ==> BestOf(s.blocks, s'.blocks, best)
    requires Longest(s.blocks, s.tail) ==>
               (Longest(s'.blocks, s'.tail) <==> (accepted && !waits ==> Spared(s.blocks, s'.blocks, best, Length(s.blocks, s.tail))))
    ensures AllReplay(s'.blocks) ==> Longest(s'.blocks, s'.tail)
  {
    hide Replays, Longest, Linked;
  }

  lemma MovedTail(s: State, s': State)
    ensures Unmoved(s, s') ==> s'.tail == s.tail
  {
    hide Chain;
  }

  lemma MineLongest(s: State, rank: Hash -> nat, hash: Hash, proposer: nat)
    requires Inv(s, rank) && AllIn(s.building, s.txnPool) && Fresh(s.blocks, s.tail, hash, rank)
    requires Inv(Mine(s, hash, proposer), rank)
    ensures var s' := Mine(s, hash, proposer);
            && (Longest(s.blocks, s.tail) ==> Longest(s'.blocks, s'.tail))
            && (AllReplay(s'.blocks) ==> AllReplay(s.blocks))
  {
    hide Replays, Replay, MempoolOk, BuildOk, PoolOk, Known, Honest, Ranked, Settled, Linked, Active, View;
    var s' := Mine(s, hash, proposer);
    assert Grew(s.blocks, s'.blocks);
    if AllReplay(s'.blocks) { AllReplayBefore(s.blocks, s.orphans, s'.blocks, s'.orphans, rank, s.tail); }
    LongestMine(s.blocks, s.orphans, s'.blocks, s'.orphans, s.tail, hash, rank);
  }
}
