/**
 The Bitcoin pipeline of one validator: block manager, FIFO channel of tails, decision stage,
 FIFO channel of commits, and the height table of the load generator. Each method is one atomic
 step of one of the threads.
 */
module BitcoinNode {
  import opened Collections
  import opened Ledger
  import opened BlockTree
  import opened Reorg
  import opened ChainState
  import opened BitcoinBlockManagement
  import opened BitcoinDecision
  import opened BlockAssembly
  import opened LongestChain
  import Values

  // ---------------------------------------------------------------- the load generator's table

  function Sum(s: seq<nat>): nat {
    if s == [] then 0 else Sum(s[..|s| - 1]) + s[|s| - 1]
  }

  /** What is left of a stream of commits when each replaces all commits at its height and above. */
  ghost function Surviving(cs: seq<Commit>): (r: seq<Commit>)
    requires Climbs(0, cs)
    ensures |r| == LastHeight(0, cs)
    ensures forall i :: 0 <= i < |r| ==> r[i].height == i + 1
  {
    if cs == [] then []
    else
      var n := |cs| - 1;
      assert Climbs(0, cs[..n]) by { ClimbsPrefix(0, cs, n); }
      assert cs[n].height <= LastHeight(0, cs[..n]) + 1;
      Surviving(cs[..n])[..cs[n].height - 1] + [cs[n]]
  }

  lemma ClimbsPrefix(h: nat, cs: seq<Commit>, n: nat)
    requires Climbs(h, cs) && n <= |cs|
    ensures Climbs(h, cs[..n])
  {
    assert forall i :: 0 <= i < n ==> cs[..n][..i] == cs[..i];
  }

  /** Numbers of transactions of the given commits. */
  function Counts(cs: seq<Commit>): (ns: seq<nat>)
    ensures |ns| == |cs| && forall i :: 0 <= i < |cs| ==> ns[i] == |cs[i].txns|
  {
    seq(|cs|, i requires 0 <= i < |cs| => |cs[i].txns|)
  }

  lemma SumSnoc(s: seq<nat>, x: nat)
    ensures Sum(s + [x]) == Sum(s) + x
  {
    assert (s + [x])[..|s|] == s;
  }

  /** The table holds exactly the heights of `cs`, each with the size of its commit. */
  ghost predicate Tabulates(table: map<nat, nat>, cs: seq<Commit>) {
    && (forall i :: i in table <==> 1 <= i <= |cs|)
    && (forall i :: 1 <= i <= |cs| ==> table[i] == |cs[i - 1].txns|)
  }

  /** Dropping the heights from that of a commit on and entering it tabulates the surviving commits. */
  lemma TableMoves(table: map<nat, nat>, rest: map<nat, nat>, cs: seq<Commit>, c: Commit)
    requires Tabulates(table, cs) && 1 <= c.height <= |cs| + 1
    requires forall i :: i in rest <==> i in table && !(c.height <= i <= |cs|)
    requires forall i :: i in rest ==> rest[i] == table[i]
    ensures Tabulates(rest[c.height := |c.txns|], cs[..c.height - 1] + [c])
  {
  }

  lemma SurvivingSnoc(cs: seq<Commit>, c: Commit)
    requires Climbs(0, cs) && 1 <= c.height <= LastHeight(0, cs) + 1
    ensures Climbs(0, cs + [c]) && LastHeight(0, cs + [c]) == c.height
    ensures Surviving(cs + [c]) == Surviving(cs)[..c.height - 1] + [c]
    ensures Sum(Counts(cs + [c])) == Sum(Counts(cs)) + |c.txns|
  {
    hide Climbs, Sum;
    ClimbsSnoc(0, cs, c);
    assert (cs + [c])[..|cs|] == cs;
    assert Counts(cs + [c]) == Counts(cs) + [|c.txns|];
    SumSnoc(Counts(cs), |c.txns|);
  }

  class ChainInfo {
    var chainLength: nat
    var txnCount: map<nat, nat>
    var totalCommitted: nat
    ghost var log: seq<Commit>

    ghost predicate Valid()
      reads this
    {
      && Climbs(0, log) && chainLength == LastHeight(0, log)
      && Tabulates(txnCount, Surviving(log))
      && totalCommitted == Sum(Counts(log))
    }

    constructor ()
      ensures Valid() && log == []
    {
      chainLength, txnCount, totalCommitted, log := 0, map[], 0, [];
    }

    /** Enter a commit. The first requirement after Valid is the original's assertion. */
    method TxnCommitted(c: Commit)
      requires Valid() && c.height <= chainLength + 1 && c.height > 0
      modifies this
      ensures Valid() && log == old(log) + [c]
    {
      hide Climbs, Surviving, Sum, Counts, Tabulates, LastHeight;
      var count := txnCount;
      for h := c.height to chainLength + 1
        invariant forall i :: i in count <==> i in txnCount && !(c.height <= i < h)
        invariant forall i :: i in count ==> count[i] == txnCount[i]
      {
        count := count - {h};
      }
      SurvivingSnoc(log, c);
      TableMoves(txnCount, count, Surviving(log), c);
      txnCount := count[c.height := |c.txns|];
      chainLength := c.height;
      totalCommitted := totalCommitted + |c.txns|;
      log := log + [c];
    }

    /** Transactions on the committed chain; no height is missing from the table. */
    method NumCommitted() returns (n: nat)
      requires Valid()
      ensures n == Sum(Counts(Surviving(log)))
    {
      hide Climbs;
      n := 0;
      ghost var counts := Counts(Surviving(log));
      for h := 1 to chainLength + 1
        invariant n == Sum(counts[..h - 1])
      {
        SumSnoc(counts[..h - 1], counts[h - 1]);
        assert counts[..h] == counts[..h - 1] + [counts[h - 1]];
        n := n + txnCount[h];
      }
      assert counts[..chainLength] == counts;
    }
  }

  // ---------------------------------------------------------------- chains and channels

  lemma PathWellChained(p: Pool, h: Hash, n: nat)
    requires Linked(p, h, n)
    ensures WellChained(Path(p, h, n))
  {
    hide Linked, Path;
    var ls := Path(p, h, n);
    forall i | 0 <= i < |ls| ensures ls[i].block.prev == HashAt(ls, i) { PathStep(p, h, n, i + 1); }
    forall i, j | 0 <= i < j <= |ls| ensures HashAt(ls, i) != HashAt(ls, j) { PathDistinct(p, h, n, i, j); }
  }

  lemma ActiveWellChained(s: State, rank: Hash -> nat)
    requires Inv(s, rank)
    ensures WellChained(Chain(s.blocks, s.tail))
  {
    hide Inv, Linked, Path, Chain, WellChained;
    ChainFacts(s, rank);
    PathWellChained(s.blocks, s.tail, Length(s.blocks, s.tail));
  }

  /** Applying the tails in the channel one after the other turns `view` into `target`. */
  ghost predicate Leads(view: seq<Link>, tails: seq<seq<Link>>, target: seq<Link>)
    decreases |tails|
  {
    if tails == [] then view == target
    else exists k: nat :: Attaches(view, tails[0], k) && Leads(view[..k] + tails[0], tails[1..], target)
  }

  lemma {:induction false} LeadsSnoc(view: seq<Link>, tails: seq<seq<Link>>, mid: seq<Link>, tail: seq<Link>, k: nat)
    requires Leads(view, tails, mid) && Attaches(mid, tail, k)
    ensures Leads(view, tails + [tail], mid[..k] + tail)
    decreases |tails|
  {
    hide WellChained;
    var all := tails + [tail];
    if tails == [] {
      assert all[0] == tail && all[1..] == [];
      assert Leads(mid[..k] + tail, all[1..], mid[..k] + tail);
    } else {
      var m: nat :| Attaches(view, tails[0], m) && Leads(view[..m] + tails[0], tails[1..], mid);
      LeadsSnoc(view[..m] + tails[0], tails[1..], mid, tail, k);
      assert all[0] == tails[0] && all[1..] == tails[1..] + [tail];
    }
  }

  /** A longer chain with a common part is the old one with a tail attached. */
  lemma ForkAttaches(new_: seq<Link>, old_: seq<Link>, k: nat)
    requires WellChained(new_) && ForksAt(new_, old_, k) && |new_| > |old_|
    ensures Attaches(old_, new_[k..], k) && old_[..k] + new_[k..] == new_
  {
    hide WellChained;
    assert new_[..k] + new_[k..] == new_;
  }

  // ---------------------------------------------------------------- finality

  /** No tail in the channel discards more than `depth` blocks of the chain before it. */
  ghost predicate Shallow(view: seq<Link>, tails: seq<seq<Link>>, target: seq<Link>, depth: nat)
    requires Leads(view, tails, target)
    decreases |tails|
  {
    tails != [] ==>
      forall k: nat :: Attaches(view, tails[0], k) && Leads(view[..k] + tails[0], tails[1..], target) ==>
        |view| <= k + depth && Shallow(view[..k] + tails[0], tails[1..], target, depth)
  }

  lemma {:induction false} ShallowSnoc(view: seq<Link>, tails: seq<seq<Link>>, mid: seq<Link>, tail: seq<Link>, k: nat, depth: nat)
    requires WellChained(view) && Leads(view, tails, mid) && Shallow(view, tails, mid, depth)
    requires Attaches(mid, tail, k) && |mid| <= k + depth
    ensures Leads(view, tails + [tail], mid[..k] + tail) && Shallow(view, tails + [tail], mid[..k] + tail, depth)
    decreases |tails|
  {
    hide WellChained;
    LeadsSnoc(view, tails, mid, tail, k);
    var all, target := tails + [tail], mid[..k] + tail;
    if tails == [] {
      assert all[0] == tail && all[1..] == [];
      forall n: nat | Attaches(view, tail, n) ensures n == k { SamePlace(view, tail, n, k); }
    } else {
      var m: nat :| Attaches(view, tails[0], m) && Leads(view[..m] + tails[0], tails[1..], mid);
      ShallowSnoc(view[..m] + tails[0], tails[1..], mid, tail, k, depth);
      assert all[0] == tails[0] && all[1..] == tails[1..] + [tail];
      forall n: nat | Attaches(view, tails[0], n) ensures n == m { SamePlace(view, tails[0], n, m); }
    }
  }

  lemma SamePlace(view: seq<Link>, tail: seq<Link>, m: nat, n: nat)
    requires WellChained(view) && Attaches(view, tail, m) && Attaches(view, tail, n)
    ensures m == n
  {
    hide Attaches, WellChained;
    AttachUnique(view, tail, m);
    AttachUnique(view, tail, n);
  }

  /**
   k-deep finality across the channel: blocks buried deeper than `depth` in the decision stage's
   view are on the block manager's chain too, at the same heights.
   */
  lemma {:induction false} BuriedIsFinal(view: seq<Link>, tails: seq<seq<Link>>, target: seq<Link>, depth: nat, b: nat)
    requires Leads(view, tails, target) && Shallow(view, tails, target, depth) && b + depth <= |view|
    ensures b <= |target| && target[..b] == view[..b]
    decreases |tails|
  {
    if tails != [] {
      var k: nat :| Attaches(view, tails[0], k) && Leads(view[..k] + tails[0], tails[1..], target);
      var view' := view[..k] + tails[0];
      assert |view| < |view'| by { hide WellChained; }
      hide Attaches, Leads, Shallow;
      BuriedIsFinal(view', tails[1..], target, depth, b);
      assert view'[..b] == view[..b];
    }
  }

  /** Without deep reorganisations nothing is ever replaced in the table. */
  lemma {:induction false} CommitsSurvive(ls: seq<Link>)
    ensures Climbs(0, CommitsOf(ls)) && Surviving(CommitsOf(ls)) == CommitsOf(ls)
  {
    if ls != [] {
      var n := |ls| - 1;
      CommitsSurvive(ls[..n]);
      hide Climbs, Surviving;
      var cs := CommitsOf(ls[..n]);
      CommitsNext(ls, n);
      assert ls[..n + 1] == ls;
      SurvivingSnoc(cs, Commit(n + 1, ls[n].block.txns));
      assert cs[..n] == cs;
    }
  }

  // ---------------------------------------------------------------- the pipeline

  class Node {
    const manager: BlockManager
    const decision: Decision
    const info: ChainInfo
    var tails: seq<seq<Link>>
    var commits: seq<Commit>
    /** No reorganisation of the manager's chain so far discarded more than `commitLen` blocks. */
    ghost var shallow: bool

    ghost predicate Valid()
      reads this, manager, decision, info
    {
      && manager.Valid() && decision.Valid() && info.Valid()
      && Leads(decision.view, tails, manager.ActiveChain())
      && decision.commits == info.log + commits
      && (shallow ==> decision.shallow && Shallow(decision.view, tails, manager.ActiveChain(), decision.commitLen))
      && (AllReplay(manager.blockPool) ==> Longest(manager.blockPool, manager.chainTail))
    }

    constructor (id: nat, commitLen: nat, ghost rank: Hash -> nat)
      ensures Valid() && decision.commitLen == commitLen && tails == [] && commits == [] && shallow
      ensures fresh(manager) && fresh(decision) && fresh(info)
    {
      hide Inv, Leads, Shallow, Longest, AllReplay, Held, Chain, WellChained, Climbs, PooledAt, Tabulates, Surviving, CommitsOf;
      EmptyChain(commitLen);
      manager := new BlockManager(id, rank);
      decision := new Decision(commitLen);
      info := new ChainInfo();
      tails, commits, shallow := [], [], true;
      new;
    }

    /** The block manager records a transaction. */
    method RecordTxn(t: Txn) returns (fresh_: bool)
      requires Valid()
      modifies manager
      ensures fresh_ == (t.id !in old(manager.txnPool)) && (Distinct(OutKeys(t)) && Distinct(InKeys(t)) ==> Valid())
      ensures old(Held(manager.Snap())) <= Held(manager.Snap())
      ensures manager.Snap() == if fresh_ then Record(old(manager.Snap()), t) else old(manager.Snap())
    {
      hide Inv, Leads, Shallow, Longest, AllReplay, Held, Chain, WellChained, Climbs, PooledAt, Tabulates, Surviving, Elems, Distinct, InKeys, OutKeys;
      RecordHeld(manager.Snap(), t);
      fresh_ := manager.RecordNewTxn(t);
    }

    /** The block manager works on its block. */
    method Prepare(limit: nat) returns (state: BuildState)
      requires Valid()
      modifies manager
      ensures Valid() && manager.ActiveChain() == old(manager.ActiveChain()) && manager.utxo == old(manager.utxo)
      ensures Held(manager.Snap()) == old(Held(manager.Snap()))
      ensures state.EmptyMempool? ==> manager.pendingTxns == [] && manager.prepared
      ensures state.Full? ==> manager.blockSize > MAX_BLOCK_SIZE && manager.prepared
    {
      hide Inv, Leads, Shallow, Longest, AllReplay, Held, Chain, WellChained, Climbs, PooledAt, Tabulates, Surviving, Passes, AllIn;
      state := manager.PrepareNewBlock(limit);
    }

    /** The block manager mines its block and sends it on. */
    method Propose(hash: Hash)
      requires Valid() && manager.prepared && Fresh(manager.blockPool, manager.chainTail, hash, manager.rank)
      modifies this`tails, manager
      ensures Valid() && old(AllIn(manager.building, manager.txnPool))
      ensures tails == old(tails) + [[Link(hash, old(MinedBlock(manager.Snap(), manager.id)))]]
      ensures var link := tails[|old(tails)|][0];
              && link.hash == hash && link.block == Block(old(manager.chainTail), link.block.txns, 1, true, manager.id)
              && |link.block.txns| == |old(manager.building)|
              && forall i :: 0 <= i < |link.block.txns| ==>
                   old(manager.building)[i] in old(manager.txnPool) && link.block.txns[i] == old(manager.txnPool)[old(manager.building)[i]]
      ensures Held(manager.Snap()) == old(Held(manager.Snap())) && shallow == old(shallow)
    {
      hide Inv, Leads, Shallow, Longest, AllReplay, Held, Chain, WellChained, Climbs, PooledAt, Tabulates, Surviving, Fresh, AllIn, Held;
      ghost var chain0 := manager.ActiveChain();
      var link := manager.GetNewBlock(hash);
      ActiveWellChained(manager.Snap(), manager.rank);
      assert chain0[..|chain0|] == chain0;
      AppendAttaches(chain0, link);
      LeadsSnoc(decision.view, tails, chain0, [link], |chain0|);
      if shallow { ShallowSnoc(decision.view, tails, chain0, [link], |chain0|, decision.commitLen); }
      tails := tails + [[link]];
    }

    /** The block manager validates a peer's block and sends on the tail of a new chain, if any. */
    method PeerBlock(hash: Hash, block: Block) returns (tail: seq<Link>, request: Option<Hash>, ghost fork: nat)
      requires Valid() && hash != GENESIS
      requires hash !in manager.blockPool ==>
                 && Addable(manager.blockPool, hash, block, manager.rank) && IdsAgree(manager.txnPool, block.txns)
      modifies this`tails, this`shallow, manager
      ensures Valid() && old(Held(manager.Snap())) <= Held(manager.Snap())
      ensures shallow == (old(shallow) && (tail != [] ==> |old(manager.ActiveChain())| <= fork + decision.commitLen))
      ensures tail == [] ==> tails == old(tails) && manager.ActiveChain() == old(manager.ActiveChain())
      ensures tail != [] ==> tails == old(tails) + [tail] && fork <= |old(manager.ActiveChain())|
      ensures tail != [] ==> manager.ActiveChain() == old(manager.ActiveChain())[..fork] + tail
    {
      hide Inv, Leads, Shallow, Longest, AllReplay, Held, Chain, WellChained, Climbs, PooledAt, Tabulates, Surviving, Addable, IdsAgree, Held, Pooled, BestOf,
           Sound, Values.AllBalanced, Replay, Active, Values.SubPool, ForksAt, Spared;
      ghost var chain0, s0 := manager.ActiveChain(), manager.Snap();
      ghost var best;
      tail, request, best, fork := manager.ValidateBlock(hash, block);
      PeerKeepsLongest(s0, manager.Snap(), manager.rank, Sound(s0.blocks, s0.txnPool, hash, block), request.Some?, best);
      if tail != [] {
        ActiveWellChained(manager.Snap(), manager.rank);
        ForkAttaches(manager.ActiveChain(), chain0, fork);
        LeadsSnoc(decision.view, tails, chain0, tail, fork);
        if shallow && |chain0| <= fork + decision.commitLen {
          ShallowSnoc(decision.view, tails, chain0, tail, fork, decision.commitLen);
        }
        shallow := shallow && |chain0| <= fork + decision.commitLen;
        tails := tails + [tail];
      }
    }

    /** The decision stage receives the next tail. */
    method DeliverTail()
      requires Valid() && tails != []
      modifies this`tails, decision
      ensures Valid() && tails == old(tails)[1..] && decision.commits == old(decision.commits)
      ensures |decision.view| > |old(decision.view)|
    {
      hide Inv, Longest, AllReplay, Held, Chain, WellChained, Climbs, PooledAt, Tabulates, Surviving, LastHeight, CommitsOf;
      ghost var k: nat :| Attaches(decision.view, tails[0], k) &&
                          Leads(decision.view[..k] + tails[0], tails[1..], manager.ActiveChain());
      decision.NewTail(tails[0], k);
      tails := tails[1..];
    }

    /** The decision stage commits a block that is deep enough. */
    method CommitBlock()
      requires Valid() && decision.base + decision.commitLen < |decision.view|
      modifies this`commits, decision
      ensures Valid() && old(decision.base) < |old(decision.view)|
      ensures decision.base == old(decision.base) + 1 && decision.view == old(decision.view)
      ensures commits == old(commits) +
                         [Commit(old(decision.base) + 1, old(decision.view[decision.base]).block.txns)]
    {
      hide Inv, Leads, Shallow, Longest, AllReplay, Held, Chain, WellChained, Climbs, PooledAt, Tabulates, Surviving;
      ReadyIff(decision);
      var c := decision.NextToCommit();
      commits := commits + [c];
    }

    /** The load generator receives the next commit; its assertion on heights always holds. */
    method ReportCommit()
      requires Valid() && commits != []
      modifies this`commits, info
      ensures Valid() && commits == old(commits)[1..] && info.log == old(info.log) + [old(commits)[0]]
    {
      hide Inv, Leads, Shallow, Longest, AllReplay, Held, Chain, WellChained, PooledAt, Tabulates, Surviving, Climbs, CommitsOf, LastHeight;
      NextClimbs(info.log, commits);
      info.TxnCommitted(commits[0]);
      commits := commits[1..];
    }
  }

  /**
   k-deep finality of the whole pipeline. If no reorganisation of the block manager's chain ever
   discarded more than `commitLen` blocks, then the commits so far, reported or not, are the blocks
   of its present chain at heights 1, 2, 3, ..., and the table counts them all.
   */
  lemma CommittedIsFinal(node: Node)
    requires node.Valid() && node.shallow
    ensures var chain, cs := node.manager.ActiveChain(), node.info.log + node.commits;
            && |cs| <= |chain| && cs == CommitsOf(chain[..|cs|])
            && node.info.totalCommitted == Sum(Counts(Surviving(node.info.log)))
  {
    hide Inv, Leads, Shallow, Longest, AllReplay, Held, Chain, WellChained, Climbs, PooledAt, Tabulates, Shallow, Surviving;
    var d, chain := node.decision, node.manager.ActiveChain();
    if d.base > 0 {
      BuriedIsFinal(d.view, node.tails, chain, d.commitLen, d.base);
    } else {
      assert chain[..0] == d.view[..0];
    }
    var n := |node.info.log|;
    assert node.info.log == (node.info.log + node.commits)[..n];
    assert node.info.log == CommitsOf(d.view[..n]);
    CommitsSurvive(d.view[..n]);
  }

  /** In every run: as long as every connected chain replays, no connected block is higher than the tail. */
  lemma TailIsLongest(node: Node)
    requires node.Valid() && AllReplay(node.manager.blockPool)
    ensures forall h :: Connected(node.manager.blockPool, h) ==>
                        node.manager.blockPool[h].height <= Length(node.manager.blockPool, node.manager.chainTail)
  {
    hide Inv, Leads, Shallow, Chain, WellChained, Climbs, PooledAt, Tabulates, Replays;
    var p := node.manager.blockPool;
    forall h | Connected(p, h) ensures p[h].height <= Length(p, node.manager.chainTail) { assert Replays(p, h); }
  }

  lemma RecordHeld(s: State, t: Txn)
    ensures Held(s) <= Held(Record(s, t)) && Held(s) <= Held(s)
  {
    hide Active, Ids;
    assert Elems(s.pending + [t.id]) == Elems(s.pending) + {t.id};
  }

  lemma EmptyChain(commitLen: nat)
    ensures Chain(map[], GENESIS) == [] && Leads([], [], []) && Shallow([], [], [], commitLen) && Longest(map[], GENESIS)
  {
  }

  lemma AppendAttaches(chain: seq<Link>, link: Link)
    requires WellChained(chain + [link])
    ensures Attaches(chain, [link], |chain|)
  {
    hide WellChained;
    assert chain[..|chain|] == chain;
  }

  lemma NextClimbs(log: seq<Commit>, commits: seq<Commit>)
    requires Climbs(0, log + commits) && commits != []
    ensures 1 <= commits[0].height <= LastHeight(0, log) + 1
    ensures log + commits == (log + [commits[0]]) + commits[1..]
  {
    var all := log + commits;
    assert all[..|log|] == log && all[|log|] == commits[0];
  }
}
