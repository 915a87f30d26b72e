/**
 Chain replication can commit: from the initial state some run does, exactly if the chain has two
 nodes or more. One transaction is proposed, carried from node to node and acknowledged.
 */
module ChainProgress {
  import opened Collections
  import opened ChainStages
  import opened ChainProtocol

  lemma RunSnoc(order: seq<nat>, blockSize: nat, actions: seq<Action>, a: Action)
    requires order != []
    ensures Run(order, blockSize, actions + [a]) == Act(Run(order, blockSize, actions), a)
  {
    assert (actions + [a])[..|actions|] == actions;
  }

  /** The head has block 1 in flight and has passed it on as far as position `p`; nobody further has seen anything. */
  ghost predicate Carried(s: System, order: seq<nat>, blockSize: nat, p: nat, b: Block) {
    && p < |order| == |s.nodes| && b.id == 1
    && (forall q :: p < q < |order| ==> s.nodes[q] == NewNode(order, q, blockSize))
    && (p + 1 < |order| ==> NewBlock(order[p], order[p + 1], b) in s.net)
    && HeadWaits(s.nodes[0], order, b)
    && (p > 0 ==> Arrives(s.nodes[p], order, p, b))
  }

  ghost predicate HeadWaits(n: Node, order: seq<nat>, b: Block)
    requires order != []
  {
    && n.me == order[0] && n.decider.role == Head && n.decider.tail == order[|order| - 1]
    && n.decider.next == 1 && 1 in n.decider.inflight && n.decider.inflight[1] == b
  }

  ghost predicate Arrives(n: Node, order: seq<nat>, p: nat, b: Block)
    requires p < |order|
  {
    n.me == order[p] && n.decider == NewDecider(order, order[p]) && n.toDecide != [] && n.toDecide[0].blk == b
  }

  // ---------------------------------------------------------------- the head proposes

  /** The manager of the head after it has batched one transaction of the block size. */
  lemma OneBatch(m: Manager)
    requires m.isHead && m.pool == [Txn(1, m.blockSize)] && m.len == 0 && m.size == 0
    ensures Fill(m).size >= m.blockSize && Fill(m).len <= 1 && Fill(m).nextId == m.nextId
  {
    assert Batching(m);
    FillSettles(m);
    assert [Txn(1, m.blockSize)][..1] == [Txn(1, m.blockSize)] && [Txn(1, m.blockSize)][..0] == [];
  }

  /** Nobody but the head has done anything. */
  ghost predicate HeadOnly(s: System, order: seq<nat>, blockSize: nat) {
    && |s.nodes| == |order| > 1
    && (forall q :: 0 < q < |order| ==> s.nodes[q] == NewNode(order, q, blockSize))
    && s.nodes[0].me == order[0] && s.nodes[0].link == LinkAt(order, 0)
    && s.nodes[0].decider == NewDecider(order, order[0])
  }

  lemma Batches(order: seq<nat>, blockSize: nat) returns (s: System)
    requires |order| > 1
    ensures s == Run(order, blockSize, [Submit(0, Txn(1, blockSize))] + [Prepare(0)])
    ensures HeadOnly(s, order, blockSize)
    ensures var n := s.nodes[0];
            && n.toSend == [] && n.toDecide == [] && n.manager.isHead && n.manager.nextId == 1
            && n.manager.size >= n.manager.blockSize && n.manager.len <= |n.manager.pool|
  {
    var t := Txn(1, blockSize);
    var s0 := Init(order, blockSize);
    assert s0.nodes[0] == NewNode(order, 0, blockSize);
    RunSnoc(order, blockSize, [], Submit(0, t));
    assert [] + [Submit(0, t)] == [Submit(0, t)];
    var s1 := Act(s0, Submit(0, t));
    RunSnoc(order, blockSize, [Submit(0, t)], Prepare(0));
    assert s1.nodes[0].manager.pool == [t];
    OneBatch(s1.nodes[0].manager);
    s := Act(s1, Prepare(0));
  }

  lemma ProposesAndSends(s: System, order: seq<nat>, blockSize: nat) returns (b: Block)
    requires HeadOnly(s, order, blockSize)
    requires var n := s.nodes[0];
             && n.toSend == [] && n.toDecide == [] && n.manager.isHead && n.manager.nextId == 1
             && n.manager.size >= n.manager.blockSize && n.manager.len <= |n.manager.pool|
    ensures Carried(Act(Act(Act(s, Propose(0)), Send(0)), Decide(0)), order, blockSize, 0, b)
  {
    var s1 := Act(s, Propose(0));
    b := Cut(s.nodes[0].manager).1;
    assert s1.nodes[0].toSend == [Envelope(order[0], b)];
    var s2 := Act(s1, Send(0));
    assert s2.nodes[0].toDecide == [Envelope(order[0], b)];
  }

  lemma HeadProposes(order: seq<nat>, blockSize: nat) returns (actions: seq<Action>, b: Block)
    requires |order| > 1
    ensures Carried(Run(order, blockSize, actions), order, blockSize, 0, b)
  {
    hide Carried, Act, HeadOnly, Run;
    var a := [Submit(0, Txn(1, blockSize))] + [Prepare(0)];
    var s := Batches(order, blockSize);
    b := ProposesAndSends(s, order, blockSize);
    RunSnoc(order, blockSize, a, Propose(0));
    RunSnoc(order, blockSize, a + [Propose(0)], Send(0));
    RunSnoc(order, blockSize, a + [Propose(0)] + [Send(0)], Decide(0));
    actions := a + [Propose(0)] + [Send(0)] + [Decide(0)];
  }

  // ---------------------------------------------------------------- one node further

  lemma OneFurther(s: System, order: seq<nat>, blockSize: nat, p: nat, b: Block)
    requires Distinct(order) && Carried(s, order, blockSize, p, b) && p + 1 < |order|
    ensures var s1 := Act(s, Receive(p + 1, NewBlock(order[p], order[p + 1], b)));
            var s2 := Act(s1, Check(p + 1, Envelope(order[p], b), true));
            Carried(Act(s2, Send(p + 1)), order, blockSize, p + 1, b)
  {
    var q := p + 1;
    assert s.nodes[q] == NewNode(order, q, blockSize);
    assert order[p] != order[q] && order[0] != order[q];
    hide Distinct;
    var s1 := Act(s, Receive(q, NewBlock(order[p], order[q], b)));
    assert s1.nodes[q].checking == {Envelope(order[p], b)} && s1.nodes[q].toSend == [];
    var s2 := Act(s1, Check(q, Envelope(order[p], b), true));
    assert s2.nodes[q].toSend == [Envelope(order[p], b)];
    var s3 := Act(s2, Send(q));
    assert s3.nodes[q].toDecide == [Envelope(order[p], b)];
  }

  lemma {:induction false} CarriedTo(order: seq<nat>, blockSize: nat, p: nat) returns (actions: seq<Action>, b: Block)
    requires |order| > 1 && Distinct(order) && p < |order|
    ensures Carried(Run(order, blockSize, actions), order, blockSize, p, b)
    decreases p
  {
    hide Distinct, Carried, Act;
    if p == 0 {
      actions, b := HeadProposes(order, blockSize);
    } else {
      var a;
      a, b := CarriedTo(order, blockSize, p - 1);
      OneFurther(Run(order, blockSize, a), order, blockSize, p - 1, b);
      var r, c := Receive(p, NewBlock(order[p - 1], order[p], b)), Check(p, Envelope(order[p - 1], b), true);
      RunSnoc(order, blockSize, a, r);
      RunSnoc(order, blockSize, a + [r], c);
      RunSnoc(order, blockSize, a + [r] + [c], Send(p));
      actions := a + [r] + [c] + [Send(p)];
    }
  }

  // ---------------------------------------------------------------- acknowledged and committed

  lemma Acknowledge(s: System, order: seq<nat>, blockSize: nat, b: Block)
    requires |order| > 1 && Distinct(order) && Carried(s, order, blockSize, |order| - 1, b)
    ensures var last := |order| - 1;
            var s1 := Act(s, Decide(last));
            var s2 := Act(s1, Receive(0, Ack(order[last], order[0], 1)));
            var s3 := Act(s2, Commit(0));
            |s3.nodes| > 0 && s3.nodes[0].committed != []
  {
    var last := |order| - 1;
    assert order[0] != order[last];
    hide Distinct;
    assert RoleOf(order, order[last]) == Tail;
    var s1 := Act(s, Decide(last));
    assert Ack(order[last], order[0], 1) in s1.net && s1.nodes[0] == s.nodes[0];
    var s2 := Act(s1, Receive(0, Ack(order[last], order[0], 1)));
    assert 1 in s2.nodes[0].decider.ready;
  }

  ghost predicate CanCommit(order: seq<nat>, blockSize: nat)
    requires order != []
  {
    exists actions :: Commits(order, blockSize, actions)
  }

  ghost predicate Commits(order: seq<nat>, blockSize: nat, actions: seq<Action>)
    requires order != []
  {
    var s := Run(order, blockSize, actions);
    s.nodes != [] && s.nodes[0].committed != []
  }

  /** Some run commits if and only if the head is not alone. */
  lemma CommitsPossibleIff(order: seq<nat>, blockSize: nat)
    requires order != [] && Distinct(order)
    ensures CanCommit(order, blockSize) <==> |order| > 1
  {
    hide Distinct, Act, Carried;
    var last := |order| - 1;
    if |order| > 1 {
      var a, b := CarriedTo(order, blockSize, last);
      Acknowledge(Run(order, blockSize, a), order, blockSize, b);
      var r := Receive(0, Ack(order[last], order[0], 1));
      RunSnoc(order, blockSize, a, Decide(last));
      RunSnoc(order, blockSize, a + [Decide(last)], r);
      RunSnoc(order, blockSize, a + [Decide(last)] + [r], Commit(0));
      assert Commits(order, blockSize, a + [Decide(last)] + [r] + [Commit(0)]);
    } else {
      assert order == [order[0]];
      forall actions ensures !Commits(order, blockSize, actions) { LoneNodeNeverCommits(order[0], blockSize, actions); }
    }
  }
}
