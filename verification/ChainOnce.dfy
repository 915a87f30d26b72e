/**
 Chain replication and repeated messages: however often the network delivers a block, every node
 handles it once. No block reaches a decision stage twice.
 */
module ChainOnce {
  import opened Collections
  import opened ChainStages
  import opened ChainProtocol

  function BlockIds(es: seq<Envelope>): (ids: seq<nat>)
    ensures |ids| == |es| && forall i :: 0 <= i < |es| ==> ids[i] == es[i].blk.id
  {
    seq(|es|, i requires 0 <= i < |es| => es[i].blk.id)
  }

  /** The blocks that a node has let in, in the order they reach its decision stage. */
  function Line(n: Node): seq<nat> {
    n.decided + BlockIds(n.toDecide) + BlockIds(n.toSend)
  }

  /** No block is in the line twice, none in the line is still being checked, and all were seen. */
  ghost predicate Once(n: Node) {
    && Distinct(Line(n))
    && (forall id :: id in Line(n) ==> id in n.seen)
    && (forall e :: e in n.checking ==> e.blk.id in n.seen && e.blk.id !in Line(n))
    && (forall e, f :: e in n.checking && f in n.checking && e.blk.id == f.blk.id ==> e == f)
    && (n.manager.isHead ==> forall id :: id in n.seen ==> id < n.manager.nextId)
  }

  ghost predicate AllOnce(s: System) {
    forall p :: 0 <= p < |s.nodes| ==> Once(s.nodes[p])
  }

  /** A node whose line, set of seen blocks and manager stay is as before. */
  lemma OnceSame(n: Node, n': Node)
    requires Once(n) && Line(n') == Line(n) && n'.seen == n.seen && n'.checking <= n.checking
    requires n'.manager.isHead == n.manager.isHead && n'.manager.nextId == n.manager.nextId
    ensures Once(n')
  {
    hide Line, Distinct;
  }

  /** A block joins the line for the first time. */
  lemma OnceJoins(n: Node, n': Node, id: nat)
    requires Once(n) && Line(n') == Line(n) + [id] && id !in Line(n) && n.seen <= n'.seen && id in n'.seen
    requires n'.checking <= n.checking && forall e :: e in n'.checking ==> e.blk.id != id
    requires n'.manager.isHead == n.manager.isHead
    requires n.manager.isHead ==> forall x :: x in n'.seen ==> x < n'.manager.nextId
    ensures Once(n')
  {
    hide Line;
    DistinctConcat(Line(n), [id]);
    assert forall x :: x in Line(n) + [id] <==> x in Line(n) || x == id;
  }

  lemma BlockIdsSnoc(es: seq<Envelope>, e: Envelope)
    ensures BlockIds(es + [e]) == BlockIds(es) + [e.blk.id]
  {
  }

  lemma BlockIdsFirst(es: seq<Envelope>)
    requires es != []
    ensures BlockIds(es) == [es[0].blk.id] + BlockIds(es[1..])
  {
  }

  lemma ProposeOnce(s: System, p: nat)
    requires p < |s.nodes| && Once(s.nodes[p])
    ensures Once(DoPropose(s, p).nodes[p])
  {
    hide Distinct, Batching;
    var n, n' := s.nodes[p], DoPropose(s, p).nodes[p];
    if n' != n {
      var b := Cut(n.manager).1;
      BlockIdsSnoc(n.toSend, Envelope(n.me, b));
      assert Line(n') == Line(n) + [b.id];
      OnceJoins(n, n', b.id);
    }
  }

  lemma ReceiveOnce(s: System, p: nat, w: Wire)
    requires Inv(s) && p < |s.nodes| && Once(s.nodes[p])
    ensures Once(DoReceive(s, p, w).nodes[p])
  {
    hide Distinct, Piped, Passive, Books, Queues, Acked, Line, Held;
    var n, n' := s.nodes[p], DoReceive(s, p, w).nodes[p];
    if n' != n {
      assert Fixed(s, p) && Sent(s, w);
      SameLine(n, n');
    }
  }

  lemma SameLine(n: Node, n': Node)
    requires n'.decided == n.decided && n'.toDecide == n.toDecide && n'.toSend == n.toSend
    ensures Line(n') == Line(n)
  {
  }

  lemma CheckOnce(s: System, p: nat, e: Envelope, valid: bool)
    requires p < |s.nodes| && Once(s.nodes[p])
    ensures Once(DoCheck(s, p, e, valid).nodes[p])
  {
    hide Distinct;
    var n, n' := s.nodes[p], DoCheck(s, p, e, valid).nodes[p];
    if n'.toSend != n.toSend {
      BlockIdsSnoc(n.toSend, e);
      assert Line(n') == Line(n) + [e.blk.id];
      OnceJoins(n, n', e.blk.id);
    } else {
      OnceSame(n, n');
    }
  }

  /** Passing a block from one queue to the next leaves the line as it is. */
  lemma Shift(a: seq<nat>, b: seq<Envelope>, c: seq<Envelope>)
    requires c != []
    ensures a + BlockIds(b + [c[0]]) + BlockIds(c[1..]) == a + BlockIds(b) + BlockIds(c)
    ensures a + [c[0].blk.id] + BlockIds(c[1..]) + BlockIds(b) == a + BlockIds(c) + BlockIds(b)
  {
    BlockIdsFirst(c);
    BlockIdsSnoc(b, c[0]);
  }

  lemma SendOnce(s: System, p: nat)
    requires p < |s.nodes| && Once(s.nodes[p])
    ensures Once(DoSend(s, p).nodes[p])
  {
    hide Distinct, Once, BlockIds;
    var n, n' := s.nodes[p], DoSend(s, p).nodes[p];
    if n' != n {
      Shift(n.decided, n.toDecide, n.toSend);
      OnceSame(n, n');
    }
  }

  lemma DecideOnce(s: System, p: nat)
    requires p < |s.nodes| && Once(s.nodes[p])
    ensures Once(DoDecide(s, p).nodes[p])
  {
    hide Distinct, Once, BlockIds;
    var n, n' := s.nodes[p], DoDecide(s, p).nodes[p];
    if n' != n {
      Shift(n.decided, n.toSend, n.toDecide);
      OnceSame(n, n');
    }
  }

  /** Recording, batching and committing leave the line as it is. */
  lemma QuietOnce(s: System, a: Action)
    requires a.at < |s.nodes| && Once(s.nodes[a.at]) && (a.Submit? || a.Prepare? || a.Commit?)
    ensures Once(Act(s, a).nodes[a.at])
  {
    hide Distinct, Once, Line, Fill, Committed;
    var n, n' := s.nodes[a.at], Act(s, a).nodes[a.at];
    if n' != n {
      if a.Prepare? { FillSame(n.manager); }
      SameLine(n, n');
      OnceSame(n, n');
    }
  }

  lemma ActOnce(s: System, a: Action)
    requires Inv(s) && AllOnce(s)
    ensures AllOnce(Act(s, a))
  {
    hide Inv, Once;
    ActOrder(s, a);
    OthersStay(s, a);
    if a.at < |s.nodes| {
      match a
      case Propose(p) => ProposeOnce(s, p);
      case Receive(p, w) => ReceiveOnce(s, p, w);
      case Check(p, e, valid) => CheckOnce(s, p, e, valid);
      case Send(p) => SendOnce(s, p);
      case Decide(p) => DecideOnce(s, p);
      case _ => QuietOnce(s, a);
    }
    hide Act;
  }

  lemma OthersStay(s: System, a: Action)
    ensures |Act(s, a).nodes| == |s.nodes| && forall p :: 0 <= p < |s.nodes| && p != a.at ==> Act(s, a).nodes[p] == s.nodes[p]
  {
  }

  lemma FillSame(m: Manager)
    requires m.len <= |m.pool|
    ensures Fill(m).isHead == m.isHead && Fill(m).nextId == m.nextId
  {
  }

  lemma {:induction false} RunOnce(order: seq<nat>, blockSize: nat, actions: seq<Action>)
    requires order != [] && Distinct(order)
    ensures AllOnce(Run(order, blockSize, actions))
  {
    hide Act, Inv, Once;
    if actions == [] {
      forall p | 0 <= p < |order| ensures Once(NewNode(order, p, blockSize)) { NewOnce(order, p, blockSize); }
    } else {
      var n := |actions| - 1;
      RunOnce(order, blockSize, actions[..n]);
      RunInv(order, blockSize, actions[..n]);
      ActOnce(Run(order, blockSize, actions[..n]), actions[n]);
      ActOrder(Run(order, blockSize, actions[..n]), actions[n]);
    }
  }

  lemma NewOnce(order: seq<nat>, p: nat, blockSize: nat)
    requires p < |order|
    ensures Once(NewNode(order, p, blockSize))
  {
    assert Line(NewNode(order, p, blockSize)) == [];
  }

  lemma OnceDecided(n: Node)
    requires Once(n)
    ensures Distinct(n.decided)
  {
    var rest := BlockIds(n.toDecide) + BlockIds(n.toSend);
    assert Line(n) == n.decided + rest;
    DistinctConcat(n.decided, rest);
  }

  /** In every run, with any repetition of messages, no node's decision stage gets a block twice. */
  lemma DecidedOnce(order: seq<nat>, blockSize: nat, actions: seq<Action>)
    requires order != [] && Distinct(order)
    ensures var s := Run(order, blockSize, actions); forall p :: 0 <= p < |s.nodes| ==> Distinct(s.nodes[p].decided)
  {
    hide Once, Act;
    RunOnce(order, blockSize, actions);
    var s := Run(order, blockSize, actions);
    forall p | 0 <= p < |s.nodes| ensures Distinct(s.nodes[p].decided) { OnceDecided(s.nodes[p]); }
  }
}
