/**
 The control loop of an Avalanche node: the pacemaker hands out a fixed number of permissions to
 propose, the block management stage spends one for each block, and the decision stage returns it
 when the query of the block is finished.
 */
module AvalancheNode {
  import opened Collections
  import opened Ledger
  import opened Blizzard
  import opened BlizzardDecision
  import opened AvalancheBlockManagement
  import AvalancheBatching
  import BlizzardSafety

  class FixedInflightPacemaker {
    var quota: nat

    constructor (maxInflight: nat)
      ensures quota == maxInflight
    {
      quota := maxInflight;
    }

    method GetProposeMsg()
      requires quota > 0
      modifies this
      ensures quota == old(quota) - 1
    {
      quota := quota - 1;
    }

    method HandleFeedback()
      modifies this
      ensures quota == old(quota) + 1
    {
      quota := quota + 1;
    }
  }

  datatype Queued = Queued(id: nat, txns: seq<Option<AvaxTxn>>)

  /** What the decision stage sees of a transaction. */
  function Abstract(t: Txn): AvaxTxn {
    match t
    case Send(id, sender, inputs, _, _, _, _, _) => Payment(id, sender, inputs)
    case Grant(id, _, _, _) => Endow(id)
  }

  ghost predicate WellFormed(txns: seq<Option<AvaxTxn>>) {
    forall i :: 0 <= i < |txns| && txns[i].Some? ==> Distinct(Keys(txns[i].value))
  }

  function QueuedIds(pipe: seq<Queued>): (ids: seq<nat>)
    ensures |ids| == |pipe| && forall i :: 0 <= i < |pipe| ==> ids[i] == pipe[i].id
  {
    seq(|pipe|, i requires 0 <= i < |pipe| => pipe[i].id)
  }

  /** The blocks numbered below `n` are in the pipe or were queried, and none twice. */
  ghost predicate Partition(ids: seq<nat>, own: set<nat>, n: nat) {
    && Distinct(ids) && Elems(ids) !! own
    && forall id: nat :: id in Elems(ids) + own <==> id < n
  }

  class Node {
    const maxInflight: nat
    const pacemaker: FixedInflightPacemaker
    const manager: BlockManagement
    const decision: Decision
    /** Messages and blocks in transit. */
    var proposeMsgs: nat
    var pipe: seq<Queued>
    var fedBack: nat

    /** Every permission is with the pacemaker, on the way, or spent on a block not yet fed back. */
    ghost predicate Balanced()
      reads this, pacemaker, manager, decision
    {
      && pacemaker.quota + proposeMsgs + manager.blkQuota + |pipe| + |decision.own| - fedBack == maxInflight
      && fedBack <= decision.feedback
    }

    ghost predicate Tracked()
      reads this, manager, decision
    {
      && Partition(QueuedIds(pipe), decision.own, manager.blkCounter)
      && forall i :: 0 <= i < |pipe| ==> WellFormed(pipe[i].txns)
    }

    ghost predicate Valid()
      reads this, pacemaker, manager, decision
    {
      && manager.Valid() && decision.Valid() && decision.QueriesOk() && decision.Traced()
      && Balanced() && Tracked()
    }

    constructor (maxInflight: nat, blkLen: nat, b: Betas, k: nat, voteThresh: nat)
      ensures Valid() && this.maxInflight == maxInflight && fresh(pacemaker) && fresh(manager) && fresh(decision)
      ensures pacemaker.quota == maxInflight && proposeMsgs == 0 && fedBack == 0
      ensures manager.View() == AvalancheBatching.Batcher(map[], map[], [], [], []) && manager.blkQuota == 0 && manager.blkCounter == 0
      ensures pipe == [] && decision.votes == map[] && decision.timeQueue == [] && decision.commitQueue == []
    {
      hide BlockManagement.Valid, Decision.Valid, Decision.QueriesOk, Decision.Traced, Partition, WellFormed;
      var p := new FixedInflightPacemaker(maxInflight);
      var m := new BlockManagement(blkLen);
      var d := new Decision(b, k, voteThresh);
      this.maxInflight, pacemaker, manager, decision := maxInflight, p, m, d;
      proposeMsgs, pipe, fedBack := 0, [], 0;
      new;
      EmptyPartition();
      OwnQueriesSplit(decision);
    }

    method PacemakerProposes()
      requires Valid() && pacemaker.quota > 0
      modifies this`proposeMsgs, pacemaker
      ensures Valid() && proposeMsgs == old(proposeMsgs) + 1 && pacemaker.quota == old(pacemaker.quota) - 1
    {
      hide BlockManagement.Valid, Decision.Valid, Decision.QueriesOk, Decision.Traced, Partition, WellFormed;
      pacemaker.GetProposeMsg();
      proposeMsgs := proposeMsgs + 1;
    }

    method ManagerTakesPermission()
      requires Valid() && proposeMsgs > 0
      modifies this`proposeMsgs, manager`blkQuota
      ensures Valid() && proposeMsgs == old(proposeMsgs) - 1 && manager.blkQuota == old(manager.blkQuota) + 1
    {
      hide BlockManagement.Valid, Decision.Valid, Decision.QueriesOk, Decision.Traced, Partition, WellFormed;
      manager.HandlePmakerMsg();
      proposeMsgs := proposeMsgs - 1;
    }

    /** A validated transaction reaches the manager, after its parents. */
    method RecordTxn(t: Txn)
      requires Valid() && (t.id !in manager.txnPool ==> AvalancheBatching.Precede(t, manager.seen))
      modifies manager`txnPool, manager`dag, manager`frontier, manager`seen
      ensures Valid() && t.id in manager.txnPool
    {
      hide BlockManagement.Valid, Decision.Valid, Decision.QueriesOk, Decision.Traced, Partition, WellFormed;
      var _ := manager.RecordNewTxn(t);
    }

    method Prepare() returns (full: bool)
      requires Valid()
      modifies manager`dag, manager`frontier, manager`batch, manager`out
      ensures Valid() && old(manager.batch) <= manager.batch && full == (|manager.batch| >= manager.blkLen)
    {
      hide BlockManagement.Valid, Decision.Valid, Decision.QueriesOk, Decision.Traced, Partition, WellFormed;
      full := manager.PrepareNewBlock();
    }

    /** The manager checks a peer's block; this moves no permission. */
    method CheckPeerBlock(proposer: nat, id: nat, depth: nat, entries: seq<Entry>) returns (v: Verdict)
      requires Valid()
      modifies manager`txnPool, manager`dag, manager`seen, manager`frontier, manager`pendingBlks
      ensures Valid() && (v.Emitted? ==> AllPooled(manager.txnPool, v.entries))
    {
      hide BlockManagement.Valid, Decision.Valid, Decision.QueriesOk, Decision.Traced, Partition, WellFormed;
      v := manager.ValidateBlock(proposer, id, depth, entries);
    }

    /** The manager proposes its batch, which must not spend one output twice in a transaction. */
    method Propose()
      requires Valid() && manager.blkQuota > 0
      requires forall h :: h in manager.txnPool ==> Distinct(Keys(Abstract(manager.txnPool[h])))
      modifies this`pipe, manager`batch, manager`proposed, manager`blkCounter, manager`blkQuota
      ensures Valid() && |pipe| == |old(pipe)| + 1 && pipe[..|old(pipe)|] == old(pipe)
      ensures pipe[|old(pipe)|].id == old(manager.blkCounter)
    {
      hide BlockManagement.Valid, Decision.Valid, Decision.QueriesOk, Decision.Traced, Partition, WellFormed;
      ghost var pipe0 := pipe;
      var id, txns := manager.GetNewBlock();
      var q := Queued(id, seq(|txns|, i requires 0 <= i < |txns| => Some(Abstract(txns[i]))));
      pipe := pipe + [q];
      Enqueued(pipe0, q, decision.own, id);
      OutKnown(txns, q.txns);
    }

    /** An own block reaches the decision stage and opens a query with the node's own votes. */
    method Deliver(vs: seq<bool>)
      requires Valid() && pipe != [] && |vs| == |pipe[0].txns|
      requires pipe[0].id in decision.votes ==> |decision.votes[pipe[0].id].accepts| == |vs|
      modifies this`pipe, decision
      ensures Valid() && pipe == old(pipe[1..]) && decision.own == old(decision.own) + {old(pipe[0].id)}
    {
      hide BlockManagement.Valid, Decision.Valid, Decision.QueriesOk, Decision.Traced, Partition, WellFormed;
      var q := pipe[0];
      Dequeued(pipe, decision.own, manager.blkCounter);
      QueuedTxns(q.txns);
      ghost var finished0 := decision.finishedQuery;
      OwnQueriesSplit(decision);
      decision.NewTail(q.id, true, q.txns, vs);
      pipe := pipe[1..];
      SubsetCard(finished0, decision.finishedQuery);
      OwnQueriesSplit(decision);
    }

    /** A peer's block is recorded; it moves no permission. */
    method PeerBlock(id: nat, txns: seq<Option<AvaxTxn>>, vs: seq<bool>)
      requires Valid() && |vs| == |txns| && forall i :: 0 <= i < |txns| && txns[i].Some? ==> Distinct(Keys(txns[i].value))
      modifies decision
      ensures Valid() && decision.own == old(decision.own) && old(decision.finishedQuery) <= decision.finishedQuery
    {
      hide BlockManagement.Valid, Decision.Valid, Decision.QueriesOk, Decision.Traced, Partition, WellFormed;
      ghost var finished0 := decision.finishedQuery;
      OwnQueriesSplit(decision);
      decision.NewTail(id, false, txns, vs);
      SubsetCard(finished0, decision.finishedQuery);
      OwnQueriesSplit(decision);
    }

    /** Votes of a peer; the last one needed finishes the query. */
    method PeerVotes(id: nat, vs: seq<bool>)
      requires Valid()
      requires id !in decision.finishedQuery && id in decision.votes ==> |decision.votes[id].accepts| == |vs|
      requires id in decision.queryPool ==> |decision.queryPool[id]| == |vs|
      modifies decision
      ensures Valid() && decision.own == old(decision.own) && old(decision.finishedQuery) <= decision.finishedQuery
    {
      hide BlockManagement.Valid, Decision.Valid, Decision.QueriesOk, Decision.Traced, Partition, WellFormed;
      ghost var finished0 := decision.finishedQuery;
      OwnQueriesSplit(decision);
      decision.RecordVotes(id, vs);
      SubsetCard(finished0, decision.finishedQuery);
      OwnQueriesSplit(decision);
    }

    /** A query times out. */
    method Timeout()
      requires Valid() && decision.timeQueue != []
      modifies decision
      ensures Valid() && decision.own == old(decision.own) && old(decision.finishedQuery) <= decision.finishedQuery
    {
      hide BlockManagement.Valid, Decision.Valid, Decision.QueriesOk, Decision.Traced, Partition, WellFormed;
      ghost var finished0 := decision.finishedQuery;
      OwnQueriesSplit(decision);
      decision.HandleTimeout();
      SubsetCard(finished0, decision.finishedQuery);
      OwnQueriesSplit(decision);
    }

    /** Feedback reaches the pacemaker. */
    method Feedback()
      requires Valid() && fedBack < decision.feedback
      modifies this`fedBack, pacemaker
      ensures Valid() && fedBack == old(fedBack) + 1 && pacemaker.quota == old(pacemaker.quota) + 1
    {
      hide BlockManagement.Valid, Decision.Valid, Decision.QueriesOk, Decision.Traced, Partition, WellFormed;
      pacemaker.HandleFeedback();
      fedBack := fedBack + 1;
    }
  }

  lemma EmptyPartition()
    ensures Partition(QueuedIds([]), {}, 0)
  {
  }

  lemma Enqueued(pipe: seq<Queued>, q: Queued, own: set<nat>, n: nat)
    requires Partition(QueuedIds(pipe), own, n) && q.id == n
    ensures Partition(QueuedIds(pipe + [q]), own, n + 1)
  {
    hide Distinct;
    var ids := QueuedIds(pipe);
    assert QueuedIds(pipe + [q]) == ids + [n];
    assert n !in Elems(ids) + own;
    assert (ids + [n])[..|ids|] == ids;
    Snoc(ids + [n]);
  }

  lemma Dequeued(pipe: seq<Queued>, own: set<nat>, n: nat)
    requires pipe != [] && Partition(QueuedIds(pipe), own, n)
    ensures pipe[0].id !in own && Partition(QueuedIds(pipe[1..]), own + {pipe[0].id}, n)
  {
    hide Distinct;
    var id, rest := pipe[0].id, QueuedIds(pipe[1..]);
    assert QueuedIds(pipe) == [id] + rest;
    DistinctConcat([id], rest);
    assert Elems([id] + rest) == {id} + Elems(rest);
    assert id in Elems([id]);
    forall x: nat ensures x in Elems(rest) + (own + {id}) <==> x < n {
      assert x in Elems(QueuedIds(pipe)) + own <==> x < n;
    }
  }

  lemma OutKnown(txns: seq<Txn>, queued: seq<Option<AvaxTxn>>)
    requires |queued| == |txns| && forall i :: 0 <= i < |txns| ==> queued[i] == Some(Abstract(txns[i])) && Distinct(Keys(Abstract(txns[i])))
    ensures WellFormed(queued)
  {
  }

  lemma QueuedTxns(txns: seq<Option<AvaxTxn>>)
    requires WellFormed(txns)
    ensures forall i :: 0 <= i < |txns| && txns[i].Some? ==> Distinct(Keys(txns[i].value))
  {
  }

  /**
   Permissions are conserved: those with the pacemaker, those on the way to the manager, those of
   the manager, the own blocks in the pipe, the open queries and the feedback on its way back
   always make up the limit.
   */
  lemma QuotaConserved(n: Node)
    requires n.Valid()
    ensures n.fedBack <= n.decision.feedback
    ensures n.pacemaker.quota + n.proposeMsgs + n.manager.blkQuota + |n.pipe| + |n.decision.queryPool|
            + (n.decision.feedback - n.fedBack) == n.maxInflight
  {
    hide BlockManagement.Valid, Decision.Valid, Decision.QueriesOk, Decision.Traced, Partition, WellFormed;
    OwnQueriesSplit(n.decision);
  }

  /** Each own block is in the pipe, queried or finished, in one of them only, and finished at most once. */
  lemma FinishedOnce(n: Node)
    requires n.Valid()
    ensures forall id: nat :: id < n.manager.blkCounter <==>
              id in QueuedIds(n.pipe) || id in n.decision.queryPool || id in BlkIds(n.decision.commitLog)
    ensures Distinct(BlkIds(n.decision.commitLog))
    ensures forall id :: id in QueuedIds(n.pipe) ==> id !in n.decision.queryPool && id !in BlkIds(n.decision.commitLog)
    ensures forall id :: id in n.decision.queryPool ==> id !in BlkIds(n.decision.commitLog)
  {
    hide BlockManagement.Valid, Decision.Valid, CommitList, Flat, Distinct, WellFormed;
    var ids, done := QueuedIds(n.pipe), BlkIds(n.decision.commitLog);
    forall id: nat ensures id < n.manager.blkCounter <==> id in ids || id in n.decision.queryPool || id in done {
      assert id in Elems(ids) + n.decision.own <==> id < n.manager.blkCounter;
      assert id in done <==> id in Elems(done);
    }
    forall id | id in ids ensures id !in n.decision.queryPool && id !in done { assert id in Elems(ids); }
    forall id | id in n.decision.queryPool ensures id !in done { assert id in done ==> id in Elems(done); }
  }
}
