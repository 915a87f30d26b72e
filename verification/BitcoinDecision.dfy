/**
 The Bitcoin decision stage and the consumer of its commits.

 The decision stage is told the chain in tails: each replaces everything after the block it
 attaches to. It commits a block once more than `commitLen` blocks are waiting, oldest first.
 The load generator keeps a table of the transactions committed at each height.
 */
module BitcoinDecision {
  import opened Ledger
  import opened BlockTree

  // ---------------------------------------------------------------- chains told in tails

  /** Each block names the block before it as its parent, and no hash repeats. */
  ghost predicate WellChained(ls: seq<Link>) {
    && (forall i :: 0 <= i < |ls| ==> ls[i].block.prev == HashAt(ls, i))
    && (forall i, j :: 0 <= i < j <= |ls| ==> HashAt(ls, i) != HashAt(ls, j))
  }

  /** `tail` makes a longer chain out of the first `k` blocks of `view`. */
  ghost predicate Attaches(view: seq<Link>, tail: seq<Link>, k: nat) {
    tail != [] && k <= |view| < k + |tail| && WellChained(view[..k] + tail)
  }

  /** The position in `view` of the parent of `tail`. */
  ghost function AttachPoint(view: seq<Link>, tail: seq<Link>): nat
    requires exists k: nat :: Attaches(view, tail, k)
  {
    var k: nat :| Attaches(view, tail, k); k
  }

  /** A tail attaches in one place only: after the block that its first block names. */
  lemma AttachUnique(view: seq<Link>, tail: seq<Link>, k: nat)
    requires WellChained(view) && Attaches(view, tail, k)
    ensures AttachPoint(view, tail) == k
    ensures tail[0].block.prev == HashAt(view, k)
  {
    var m := AttachPoint(view, tail);
    forall n: nat | Attaches(view, tail, n) ensures tail[0].block.prev == HashAt(view, n) {
      var c := view[..n] + tail;
      assert c[n] == tail[0] && HashAt(c, n) == HashAt(view, n);
    }
    assert HashAt(view, m) == HashAt(view, k);
  }

  function Hashes(ls: seq<Link>): (hs: seq<Hash>)
    ensures |hs| == |ls| && forall i :: 0 <= i < |ls| ==> hs[i] == ls[i].hash
  {
    seq(|ls|, i requires 0 <= i < |ls| => ls[i].hash)
  }

  /** Dropping the last or the first of the waiting blocks. */
  lemma HashesFront(view: seq<Link>, base: nat, n: nat)
    requires base < n <= |view|
    ensures var hs := Hashes(view[base..n]);
            |hs| == n - base && hs[|hs| - 1] == view[n - 1].hash && hs[..|hs| - 1] == Hashes(view[base..n - 1])
  {
    assert view[base..n][..n - 1 - base] == view[base..n - 1];
  }

  lemma HashesRest(view: seq<Link>, base: nat)
    requires base < |view|
    ensures var hs := Hashes(view[base..]);
            |hs| == |view| - base && hs[0] == view[base].hash && hs[1..] == Hashes(view[base + 1..])
  {
    assert view[base..][1..] == view[base + 1..];
  }

  /** The blocks of `ls` are pooled with their positions as heights. */
  ghost predicate PooledAt(p: Pool, ls: seq<Link>) {
    forall i :: 0 <= i < |ls| ==> ls[i].hash in p && p[ls[i].hash] == Entry(ls[i].block, i + 1)
  }

  lemma PooledHere(p: Pool, ls: seq<Link>, i: nat)
    requires PooledAt(p, ls) && i < |ls|
    ensures ls[i].hash in p && p[ls[i].hash] == Entry(ls[i].block, i + 1)
  {
  }

  lemma PooledSnoc(p: Pool, ls: seq<Link>, l: Link)
    requires PooledAt(p, ls) && WellChained(ls + [l])
    ensures PooledAt(p[l.hash := Entry(l.block, |ls| + 1)], ls + [l])
  {
    var c := ls + [l];
    forall i | 0 <= i < |ls| ensures ls[i].hash != l.hash {
      assert HashAt(c, i + 1) != HashAt(c, |c|);
    }
  }

  lemma WellChainedPrefix(ls: seq<Link>, k: nat)
    requires k <= |ls| && WellChained(ls)
    ensures WellChained(ls[..k])
  {
    assert forall i :: 0 <= i <= k ==> HashAt(ls[..k], i) == HashAt(ls, i);
  }

  lemma AttachFacts(p: Pool, view: seq<Link>, tail: seq<Link>, k: nat)
    requires WellChained(view) && Attaches(view, tail, k) && PooledAt(p, view)
    ensures tail != [] && k <= |view| < k + |tail| && WellChained(view[..k] + tail) && PooledAt(p, view[..k])
    ensures var ancestor := tail[0].block.prev;
            && ancestor == HashAt(view, k) && (ancestor == GENESIS <==> k == 0)
            && (k > 0 ==> ancestor in p && p[ancestor].height == k)
  {
    AttachUnique(view, tail, k);
    assert k > 0 ==> HashAt(view, k) == view[k - 1].hash && HashAt(view, 0) != HashAt(view, k);
  }

  datatype Commit = Commit(height: nat, txns: seq<Txn>)

  /** What committing the blocks of `ls` at heights 1, 2, 3, ... looks like. */
  function CommitsOf(ls: seq<Link>): (cs: seq<Commit>)
    ensures |cs| == |ls| && forall i :: 0 <= i < |ls| ==> cs[i] == Commit(i + 1, ls[i].block.txns)
  {
    seq(|ls|, i requires 0 <= i < |ls| => Commit(i + 1, ls[i].block.txns))
  }

  lemma CommitsNext(view: seq<Link>, base: nat)
    requires base < |view|
    ensures CommitsOf(view[..base + 1]) == CommitsOf(view[..base]) + [Commit(base + 1, view[base].block.txns)]
  {
  }

  /** Heights rise by at most one, starting after `h`. */
  ghost predicate Climbs(h: nat, cs: seq<Commit>) {
    forall i :: 0 <= i < |cs| ==> 1 <= cs[i].height <= LastHeight(h, cs[..i]) + 1
  }

  function LastHeight(h: nat, cs: seq<Commit>): nat {
    if cs == [] then h else cs[|cs| - 1].height
  }

  lemma ClimbsSnoc(h: nat, cs: seq<Commit>, c: Commit)
    requires Climbs(h, cs) && 1 <= c.height <= LastHeight(h, cs) + 1
    ensures Climbs(h, cs + [c]) && LastHeight(h, cs + [c]) == c.height
  {
    var cs' := cs + [c];
    forall i | 0 <= i < |cs'| ensures 1 <= cs'[i].height <= LastHeight(h, cs'[..i]) + 1 {
      if i < |cs| { assert cs'[..i] == cs[..i]; } else { assert cs'[..i] == cs; }
    }
  }

  /** What a longer chain keeps of the blocks that are no longer waiting. */
  lemma TailKeeps(view: seq<Link>, tail: seq<Link>, k: nat, base: nat, commitLen: nat)
    requires k <= |view| < k + |tail| && base <= |view| && (base > 0 ==> base + commitLen <= |view|)
    ensures var b, view' := if k < base then k else base, view[..k] + tail;
            && view[..k][b..] == view[b..k] && view'[..b] == view[..b]
            && (b > 0 ==> b + commitLen <= |view'|) && (|view| <= k + commitLen ==> b == base)
  {
  }

  /** Each miner is credited with the blocks it proposed. */
  ghost predicate Credited(counts: map<nat, nat>, miners: seq<nat>) {
    forall m: nat :: (if m in counts then counts[m] else 0) == multiset(miners)[m]
  }

  lemma NothingYet()
    ensures WellChained([]) && PooledAt(map[], []) && Climbs(0, []) && Credited(map[], [])
    ensures CommitsOf([]) == [] && Hashes([]) == [] && LastHeight(0, []) == 0
  {
  }

  lemma CreditOne(counts: map<nat, nat>, miners: seq<nat>, m: nat, count: nat)
    requires Credited(counts, miners) && count == if m in counts then counts[m] else 0
    ensures Credited(counts[m := count + 1], miners + [m])
  {
  }

  // ---------------------------------------------------------------- the decision stage

  class Decision {
    const commitLen: nat
    var blockPool: Pool
    var chainTail: seq<Hash>
    var firstBlockSeen: bool
    var minersBlkCnt: map<nat, nat>
    /** The chain told so far, and how many of its blocks are no longer waiting. */
    ghost var view: seq<Link>
    ghost var base: nat
    ghost var commits: seq<Commit>
    /** Who proposed the committed blocks, in commit order. */
    ghost var miners: seq<nat>
    /** No tail so far has discarded more than `commitLen` blocks. */
    ghost var shallow: bool

    ghost predicate Valid()
      reads this
    {
      && WellChained(view) && base <= |view| && chainTail == Hashes(view[base..])
      && PooledAt(blockPool, view) && (firstBlockSeen <==> view != [])
      && base <= LastHeight(0, commits) && Climbs(0, commits)
      && Credited(minersBlkCnt, miners) && |miners| == |commits|
      && (base > 0 ==> base + commitLen <= |view|)
      && (shallow ==> commits == CommitsOf(view[..base]))
    }

    constructor (commitLen: nat)
      ensures Valid() && this.commitLen == commitLen && view == [] && commits == [] && miners == [] && shallow
    {
      hide WellChained, PooledAt, Climbs, Credited, CommitsOf, Hashes, LastHeight;
      NothingYet();
      this.commitLen := commitLen;
      blockPool, chainTail, firstBlockSeen, minersBlkCnt := map[], [], false, map[];
      view, base, commits, miners, shallow := [], 0, [], [], true;
    }

    /** Drop waiting blocks from the end until only those up to the attachment point are left. */
    method Prune(firstHeight: nat, ancestor: Hash, ghost k: nat)
      requires base <= |view| && chainTail == Hashes(view[base..]) && PooledAt(blockPool, view) && (view != [] ==> firstBlockSeen)
      requires k <= |view| && firstHeight == k + 1 && ancestor == HashAt(view, k)
      modifies this`chainTail, this`firstBlockSeen
      ensures chainTail == Hashes(view[if k < base then k else base..k]) && firstBlockSeen
    {
      ghost var n := |view|;
      while true
        invariant base <= n <= |view| && k <= n
        invariant chainTail == Hashes(view[base..n]) && (view != [] ==> firstBlockSeen)
        decreases n
      {
        // everything waiting has been dropped
        if chainTail == [] {
          firstBlockSeen := true;
          break;
        }
        HashesFront(view, base, n);
        var oldTail := chainTail[|chainTail| - 1];
        var oldHeight := blockPool[oldTail].height;
        if oldHeight >= firstHeight {
          chainTail := chainTail[..|chainTail| - 1];
          n := n - 1;
        } else {
          // the common ancestor: neither of the two panics of the original can happen here
          assert oldHeight == firstHeight - 1;
          assert oldTail == ancestor;
          break;
        }
      }
      assert view[k..k] == [];
    }

    /** Append the blocks of the tail, at consecutive heights. */
    method Extend(tail: seq<Link>, firstHeight: nat, ghost kept: seq<Link>, ghost b: nat)
      requires b <= |kept| && firstHeight == |kept| + 1 && WellChained(kept + tail)
      requires PooledAt(blockPool, kept) && chainTail == Hashes(kept[b..])
      modifies this`blockPool, this`chainTail
      ensures PooledAt(blockPool, kept + tail) && chainTail == Hashes((kept + tail)[b..])
    {
      hide WellChained;
      ghost var all, k := kept + tail, |kept|;
      assert all[..k] == kept && all[b..k] == kept[b..];
      for i := 0 to |tail|
        invariant PooledAt(blockPool, all[..k + i]) && chainTail == Hashes(all[b..k + i])
      {
        WellChainedPrefix(all, k + i + 1);
        assert all[..k + i + 1] == all[..k + i] + [tail[i]];
        PooledSnoc(blockPool, all[..k + i], tail[i]);
        blockPool := blockPool[tail[i].hash := Entry(tail[i].block, firstHeight + i)];
        chainTail := chainTail + [tail[i].hash];
      }
      assert all[..|all|] == all && all[b..|all|] == all[b..];
    }

    /** Replace the end of the chain by a new tail; an empty tail changes nothing. */
    method NewTail(tail: seq<Link>, ghost k: nat)
      requires Valid() && (tail != [] ==> Attaches(view, tail, k))
      modifies this
      ensures Valid() && commits == old(commits) && miners == old(miners)
      ensures tail == [] ==> view == old(view) && shallow == old(shallow)
      ensures tail != [] ==> view == old(view)[..k] + tail && shallow == (old(shallow) && |old(view)| <= k + commitLen)
      // a block leaves the waiting queue only through a commit, unless the tail digs below it
      ensures tail != [] ==> base == if k < old(base) then k else old(base)
    {
      hide WellChained, Climbs, HashAt, PooledAt, Attaches, Credited, LastHeight, CommitsOf, Hashes;
      if tail == [] { return; }
      AttachFacts(blockPool, view, tail, k);
      var ancestor := tail[0].block.prev;
      var firstHeight := 1;
      if ancestor != GENESIS {
        firstHeight := blockPool[ancestor].height + 1;
      }
      ghost var kept, b := view[..k], if k < base then k else base;
      Prune(firstHeight, ancestor, k);
      TailKeeps(view, tail, k, base, commitLen);
      Extend(tail, firstHeight, kept, b);
      shallow := shallow && |view| <= k + commitLen;
      view, base := kept + tail, b;
    }

    predicate CommitReady()
      reads this
    {
      |chainTail| > commitLen
    }

    /** Commit the oldest waiting block. */
    method NextToCommit() returns (commit: Commit)
      requires Valid() && CommitReady()
      modifies this
      ensures Valid() && view == old(view) && shallow == old(shallow)
      ensures old(base) < |view| && commit == Commit(old(base) + 1, view[old(base)].block.txns)
      ensures base == old(base) + 1 && commits == old(commits) + [commit]
      ensures miners == old(miners) + [view[old(base)].block.proposer]
    {
      hide WellChained, Climbs, CommitsOf, Credited, PooledAt;
      PooledHere(blockPool, view, base);
      HashesRest(view, base);
      CommitsNext(view, base);
      var h := chainTail[0];
      chainTail := chainTail[1..];
      var Entry(block, height) := blockPool[h];
      var count := if block.proposer in minersBlkCnt then minersBlkCnt[block.proposer] else 0;
      CreditOne(minersBlkCnt, miners, block.proposer, count);
      minersBlkCnt := minersBlkCnt[block.proposer := count + 1];
      miners := miners + [block.proposer];
      commit := Commit(height, block.txns);
      ClimbsSnoc(0, commits, commit);
      commits := commits + [commit];
      base := base + 1;
    }

    /** Commit for as long as blocks are ready: exactly the newest `commitLen` blocks are left to wait. */
    method CommitAll() returns (done: seq<Commit>)
      requires Valid()
      modifies this
      ensures Valid() && view == old(view) && shallow == old(shallow) && commits == old(commits) + done
      ensures base == if |view| > commitLen then |view| - commitLen else 0
      ensures |done| == base - old(base)
      ensures forall i :: 0 <= i < |done| ==> done[i] == Commit(old(base) + i + 1, view[old(base) + i].block.txns)
    {
      hide WellChained, Climbs, CommitsOf, PooledAt, Credited, Hashes, LastHeight;
      done := [];
      ReadyIff(this);
      while CommitReady()
        invariant Valid() && view == old(view) && shallow == old(shallow) && commits == old(commits) + done
        invariant CommitReady() <==> base + commitLen < |view|
        invariant old(base) <= base && |done| == base - old(base)
        invariant forall i :: 0 <= i < |done| ==> done[i] == Commit(old(base) + i + 1, view[old(base) + i].block.txns)
        decreases |view| - base
      {
        var commit := NextToCommit();
        done := done + [commit];
        ReadyIff(this);
      }
    }
  }

  /** A block may be committed exactly if more than `commitLen` blocks of the chain are not committed yet. */
  lemma ReadyIff(d: Decision)
    requires d.Valid()
    ensures d.CommitReady() <==> d.base + d.commitLen < |d.view|
  {
    hide WellChained, Climbs, CommitsOf, PooledAt, Credited;
    assert |Hashes(d.view[d.base..])| == |d.view| - d.base;
  }
}
