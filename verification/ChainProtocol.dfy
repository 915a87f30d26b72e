/**
 Chain replication as a protocol of any number of nodes. Each node is a pipeline of stages joined
 by queues; nodes exchange messages over a network that may lose, delay, reorder and repeat them.

 An assertion or an unwrap that would fail at run time sets `panicked`. The invariant shows that
 none can, in any run.
 */
module ChainProtocol {
  import opened Collections
  import opened ChainStages

  // ---------------------------------------------------------------- the system

  datatype Envelope = Envelope(src: nat, blk: Block)

  datatype Wire = NewBlock(src: nat, to: nat, blk: Block) | Ack(src: nat, to: nat, id: nat)

  /**
   One node. `checking` holds the received blocks whose transactions are being verified in tasks
   of their own. `passed` logs the blocks that it proposed or found valid, `decided` the numbers of
   those that reached its decision stage, and `committed` what it reported.
   */
  datatype Node = Node(me: nat, link: Link, manager: Manager, decider: Decider,
                       seen: set<nat>, checking: set<Envelope>,
                       toSend: seq<Envelope>, toDecide: seq<Envelope>,
                       passed: set<Block>, decided: seq<nat>, committed: seq<Block>)

  /**
   The nodes by position on the chain. `net` holds every message sent so far: delivering one does
   not remove it, so it may arrive again, and one that is never delivered is lost. `recorded` and
   `proposed` log the head's input and output.
   */
  datatype System = System(order: seq<nat>, nodes: seq<Node>, net: set<Wire>,
                           recorded: seq<Txn>, proposed: seq<Block>, panicked: bool)

  datatype Action =
    | Submit(at: nat, txn: Txn)
    | Prepare(at: nat)
    | Propose(at: nat)
    | Receive(at: nat, wire: Wire)
    | Check(at: nat, env: Envelope, valid: bool)
    | Send(at: nat)
    | Decide(at: nat)
    | Commit(at: nat)

  function NewNode(order: seq<nat>, p: nat, blockSize: nat): Node
    requires p < |order|
  {
    Node(order[p], LinkAt(order, p), Manager(p == 0, blockSize, [], 1, 0, 0), NewDecider(order, order[p]),
         {}, {}, [], [], {}, [], [])
  }

  function Init(order: seq<nat>, blockSize: nat): System
    requires order != []
  {
    System(order, seq(|order|, p requires 0 <= p < |order| => NewNode(order, p, blockSize)), {}, [], [], false)
  }

  function Put(s: System, p: nat, n: Node): System
    requires p < |s.nodes|
  {
    s.(nodes := s.nodes[p := n])
  }

  function Panic(s: System): System {
    s.(panicked := true)
  }

  // ---------------------------------------------------------------- the steps

  function DoSubmit(s: System, p: nat, t: Txn): System
    requires p < |s.nodes|
  {
    var n := s.nodes[p];
    Put(s, p, n.(manager := Record(n.manager, t))).(recorded := if n.manager.isHead then s.recorded + [t] else s.recorded)
  }

  function DoPrepare(s: System, p: nat): System
    requires p < |s.nodes|
  {
    var n := s.nodes[p];
    if n.manager.len > |n.manager.pool| then Panic(s) else Put(s, p, n.(manager := Fill(n.manager)))
  }

  function DoPropose(s: System, p: nat): System
    requires p < |s.nodes|
  {
    var n := s.nodes[p];
    var m := n.manager;
    if !m.isHead || m.size < m.blockSize then s
    else if m.len > |m.pool| then Panic(s)
    else
      var (m', b) := Cut(m);
      Put(s, p, n.(manager := m', seen := n.seen + {b.id}, toSend := n.toSend + [Envelope(n.me, b)], passed := n.passed + {b}))
      .(proposed := s.proposed + [b])
  }

  function DoReceive(s: System, p: nat, w: Wire): System
    requires p < |s.nodes|
  {
    var n := s.nodes[p];
    if w !in s.net || w.to != n.me then s
    else
      match w
      case NewBlock(src, _, b) =>
        if src == n.me || b.id in n.seen then s
        else Put(s, p, n.(seen := n.seen + {b.id}, checking := n.checking + {Envelope(src, b)}))
      case Ack(src, _, id) =>
        if !n.decider.role.Head? || src != n.decider.tail then Panic(s)
        else Put(s, p, n.(decider := Acknowledged(n.decider, id)))
  }

  function DoCheck(s: System, p: nat, e: Envelope, valid: bool): System
    requires p < |s.nodes|
  {
    var n := s.nodes[p];
    if e !in n.checking then s
    else if !valid then Put(s, p, n.(checking := n.checking - {e}))
    else if n.manager.isHead then Panic(s)
    else Put(s, p, n.(checking := n.checking - {e}, toSend := n.toSend + [e], passed := n.passed + {e.blk}))
  }

  function DoSend(s: System, p: nat): System
    requires p < |s.nodes|
  {
    var n := s.nodes[p];
    if n.toSend == [] then s
    else
      var e := n.toSend[0];
      if e.src != n.link.prev then Panic(s)
      else
        Put(s, p, n.(toSend := n.toSend[1..], toDecide := n.toDecide + [e]))
        .(net := if n.link.next.Some? then s.net + {NewBlock(n.me, n.link.next.value, e.blk)} else s.net)
  }

  function DoDecide(s: System, p: nat): System
    requires p < |s.nodes|
  {
    var n := s.nodes[p];
    if n.toDecide == [] then s
    else
      var e := n.toDecide[0];
      Put(s, p, n.(toDecide := n.toDecide[1..], decider := Decided(n.decider, e.blk), decided := n.decided + [e.blk.id]))
      .(net := if n.decider.role.Tail? then s.net + {Ack(n.me, n.decider.head, e.blk.id)} else s.net)
  }

  function DoCommit(s: System, p: nat): System
    requires p < |s.nodes|
  {
    var n := s.nodes[p];
    var d := n.decider;
    if d.next !in d.ready then s
    else if d.next !in d.inflight then Panic(s)
    else Put(s, p, n.(decider := Committed(d), committed := n.committed + [d.inflight[d.next]]))
  }

  function Act(s: System, a: Action): System {
    if a.at >= |s.nodes| then s
    else
      match a
      case Submit(p, t) => DoSubmit(s, p, t)
      case Prepare(p) => DoPrepare(s, p)
      case Propose(p) => DoPropose(s, p)
      case Receive(p, w) => DoReceive(s, p, w)
      case Check(p, e, valid) => DoCheck(s, p, e, valid)
      case Send(p) => DoSend(s, p)
      case Decide(p) => DoDecide(s, p)
      case Commit(p) => DoCommit(s, p)
  }

  // ---------------------------------------------------------------- the invariant

  ghost predicate Numbered(proposed: seq<Block>) {
    forall i :: 0 <= i < |proposed| ==> proposed[i].id == i + 1
  }

  /** The first n nodes passed this block, which the head proposed under its number. */
  ghost predicate Held(s: System, b: Block, n: nat) {
    && 1 <= b.id <= |s.proposed| && s.proposed[b.id - 1] == b
    && forall p :: 0 <= p < n && p < |s.nodes| ==> b in s.nodes[p].passed
  }

  /** What configuration fixes. */
  ghost predicate Fixed(s: System, p: nat)
    requires p < |s.nodes| == |s.order|
  {
    var n, d := s.nodes[p], s.nodes[p].decider;
    && n.me == s.order[p] && n.link == LinkAt(s.order, p) && n.manager.isHead == (p == 0)
    && d.role == RoleOf(s.order, n.me) && d.head == s.order[0] && d.tail == s.order[|s.order| - 1]
  }

  /** Blocks inside a node came from its predecessor, and all nodes before it passed them; this one too, once checked. */
  ghost predicate Piped(s: System, p: nat)
    requires p < |s.nodes|
  {
    var n := s.nodes[p];
    && (forall e :: e in n.checking ==> p > 0 && e.src == n.link.prev && Held(s, e.blk, p))
    && (forall e :: e in n.toSend ==> e.src == n.link.prev && Held(s, e.blk, p + 1))
    && (forall e :: e in n.toDecide ==> Held(s, e.blk, p + 1))
  }

  ghost predicate Sent(s: System, w: Wire)
    requires s.order != []
  {
    var last := |s.order| - 1;
    match w
    case NewBlock(src, to, b) =>
      forall q :: 0 <= q <= last && s.order[q] == to ==> q > 0 && src == s.order[q - 1] && Held(s, b, q)
    case Ack(src, to, id) =>
      last > 0 && to == s.order[0] && src == s.order[last] && 1 <= id <= |s.proposed| && Held(s, s.proposed[id - 1], last + 1)
  }

  /** Other nodes than the head batch nothing and decide nothing. */
  ghost predicate Passive(n: Node) {
    && n.decider.inflight == map[] && n.decider.ready == {} && n.committed == [] && n.decider.next == 1
    && n.manager.pool == [] && n.manager.len == 0
  }

  /** The head's pool is what its proposals left of the recorded transactions. */
  ghost predicate Books(s: System)
    requires s.nodes != []
  {
    var m := s.nodes[0].manager;
    && Batching(m) && m.nextId == |s.proposed| + 1
    && s.recorded == Flat(s.proposed) + m.pool
    && Numbered(s.proposed)
    && forall i :: 0 <= i < |s.proposed| ==> Snug(s.proposed[i].txns, m.blockSize)
  }

  /** How many proposals the head's decision stage has seen. */
  function Arrived(s: System): int
    requires s.nodes != []
  {
    |s.proposed| - |s.nodes[0].toDecide| - |s.nodes[0].toSend|
  }

  /** The head's queues hold its latest proposals in order; before them come the blocks in flight and the committed. */
  ghost predicate Queues(s: System)
    requires s.nodes != []
  {
    var n, d, k := s.nodes[0], s.nodes[0].decider, Arrived(s);
    && 1 <= d.next <= k + 1
    && n.committed == s.proposed[..d.next - 1]
    && (forall i :: 0 <= i < |n.toDecide| ==> n.toDecide[i].blk == s.proposed[k + i])
    && (forall i :: 0 <= i < |n.toSend| ==> n.toSend[i].blk == s.proposed[k + |n.toDecide| + i])
    && (forall id :: id in d.inflight <==> d.next <= id <= k)
    && (forall id :: id in d.inflight ==> d.inflight[id] == s.proposed[id - 1])
  }

  /** Every node passed the blocks that are acknowledged or committed. */
  ghost predicate Acked(s: System)
    requires s.nodes != []
  {
    var n, d, last := s.nodes[0], s.nodes[0].decider, |s.nodes| - 1;
    && (forall id :: id in d.ready ==> last > 0 && id in d.inflight && Held(s, d.inflight[id], last + 1))
    && (forall b :: b in n.committed ==> last > 0 && Held(s, b, last + 1))
  }

  ghost predicate Inv(s: System) {
    && !s.panicked
    && |s.order| == |s.nodes| > 0 && Distinct(s.order)
    && (forall p :: 0 <= p < |s.nodes| ==> Fixed(s, p))
    && (forall p :: 0 <= p < |s.nodes| ==> Piped(s, p))
    && (forall p :: 0 < p < |s.nodes| ==> Passive(s.nodes[p]))
    && (forall w :: w in s.net ==> Sent(s, w))
    && Books(s) && Queues(s) && Acked(s)
  }

  function Flat(blocks: seq<Block>): seq<Txn> {
    if blocks == [] then [] else Flat(blocks[..|blocks| - 1]) + blocks[|blocks| - 1].txns
  }

  // ---------------------------------------------------------------- what grows

  /** The logs of the system grow and its configuration stays. */
  ghost predicate Grown(s: System, t: System) {
    && t.order == s.order && |t.nodes| == |s.nodes| && s.proposed <= t.proposed
    && forall p :: 0 <= p < |s.nodes| ==> s.nodes[p].passed <= t.nodes[p].passed
  }

  lemma HeldGrows(s: System, t: System, b: Block, n: nat)
    requires Grown(s, t) && Held(s, b, n)
    ensures Held(t, b, n)
  {
  }

  lemma SentGrows(s: System, t: System, w: Wire)
    requires s.order != [] && Grown(s, t) && Sent(s, w)
    ensures Sent(t, w)
  {
    hide Held, Grown;
    assert t.order == s.order && s.proposed <= t.proposed by { HeldGrowsFrame(s, t); }
    forall b: Block, n: nat | Held(s, b, n) ensures Held(t, b, n) { HeldGrows(s, t, b, n); }
  }

  lemma HeldGrowsFrame(s: System, t: System)
    requires Grown(s, t)
    ensures t.order == s.order && s.proposed <= t.proposed && |t.nodes| == |s.nodes|
  {
  }

  lemma PipedGrows(s: System, t: System, p: nat)
    requires Grown(s, t) && p < |s.nodes| && Piped(s, p)
    requires t.nodes[p].link == s.nodes[p].link && t.nodes[p].checking <= s.nodes[p].checking
    requires forall e :: e in t.nodes[p].toSend ==> e in s.nodes[p].toSend
    requires forall e :: e in t.nodes[p].toDecide ==> e in s.nodes[p].toDecide
    ensures Piped(t, p)
  {
    hide Held, Grown;
    HeldGrowsFrame(s, t);
    forall b: Block, n: nat | Held(s, b, n) ensures Held(t, b, n) { HeldGrows(s, t, b, n); }
  }

  // ---------------------------------------------------------------- every step keeps the invariant

  lemma InitInv(order: seq<nat>, blockSize: nat)
    requires order != [] && Distinct(order)
    ensures Inv(Init(order, blockSize))
  {
  }

  /** A step of the node at p, whose own part of the invariant is known. */
  lemma Assemble(s: System, t: System, p: nat)
    requires Inv(s) && Grown(s, t) && p < |s.nodes| && !t.panicked
    requires forall q :: 0 <= q < |s.nodes| && q != p ==> t.nodes[q] == s.nodes[q]
    requires Fixed(t, p) && Piped(t, p) && (p > 0 ==> Passive(t.nodes[p]))
    requires forall w :: w in t.net && w !in s.net ==> Sent(t, w)
    requires Books(t) && Queues(t) && Acked(t)
    ensures Inv(t)
  {
    hide Held, Sent, Passive, Books, Queues, Acked, Grown, Piped, Distinct;
    HeldGrowsFrame(s, t);
    forall q | 0 <= q < |t.nodes| ensures Fixed(t, q) && Piped(t, q) {
      assert Fixed(s, q);
      if q != p { PipedGrows(s, t, q); }
    }
    forall w | w in t.net ensures Sent(t, w) {
      if w in s.net { SentGrows(s, t, w); }
    }
  }

  lemma AckedFrame(s: System, t: System)
    requires s.nodes != [] && Grown(s, t) && Acked(s)
    requires t.nodes[0].decider == s.nodes[0].decider && t.nodes[0].committed == s.nodes[0].committed
    ensures Acked(t)
  {
    hide Held, Grown;
    HeldGrowsFrame(s, t);
    forall b: Block, n: nat | Held(s, b, n) ensures Held(t, b, n) { HeldGrows(s, t, b, n); }
  }

  /** The head's part of the invariant does not depend on what other nodes do. */
  lemma HeadFrame(s: System, t: System)
    requires s.nodes != [] && Grown(s, t) && Queues(s) && Acked(s)
    requires t.proposed == s.proposed
    requires var n, n' := s.nodes[0], t.nodes[0];
             n'.toSend == n.toSend && n'.toDecide == n.toDecide && n'.decider == n.decider && n'.committed == n.committed
    ensures Queues(t) && Acked(t)
    ensures Books(s) && t.recorded == s.recorded && t.nodes[0].manager == s.nodes[0].manager ==> Books(t)
  {
    hide Held, Grown, Batching, Snug, Flat, Acked;
    HeldGrowsFrame(s, t);
    AckedFrame(s, t);
  }

  lemma SubmitInv(s: System, p: nat, x: Txn)
    requires Inv(s) && p < |s.nodes|
    ensures Inv(DoSubmit(s, p, x))
  {
    hide Held, Sent, Passive, Queues, Acked, Distinct, Batching, Snug, Flat;
    var t := DoSubmit(s, p, x);
    assert Fixed(s, p) && Piped(s, p);
    PipedGrows(s, t, p);
    RecordBatching(s.nodes[0].manager, x);
    HeadFrame(s, t);
    Assemble(s, t, p);
  }

  lemma PrepareInv(s: System, p: nat)
    requires Inv(s) && p < |s.nodes|
    ensures Inv(DoPrepare(s, p))
  {
    hide Held, Sent, Queues, Acked, Distinct, Snug, Flat, Settled, Weight;
    assert Fixed(s, p) && Piped(s, p);
    if p == 0 {
      FillSettles(s.nodes[0].manager);
      var t := DoPrepare(s, p);
      PipedGrows(s, t, p);
      HeadFrame(s, t);
      Assemble(s, t, p);
    } else {
      assert DoPrepare(s, p) == s;
    }
  }

  lemma FlatSnoc(blocks: seq<Block>, b: Block)
    ensures Flat(blocks + [b]) == Flat(blocks) + b.txns
  {
    assert (blocks + [b])[..|blocks|] == blocks;
  }

  lemma BatchFits(m: Manager)
    requires Batching(m)
    ensures m.len <= |m.pool|
  {
  }

  /** The next number goes to a snug prefix of the pool. */
  lemma ProposeBooks(s: System)
    requires s.nodes != [] && Books(s)
    requires s.nodes[0].manager.isHead && s.nodes[0].manager.size >= s.nodes[0].manager.blockSize
    ensures Books(DoPropose(s, 0))
  {
    hide Batching, Snug, Flat;
    var m := s.nodes[0].manager;
    BatchFits(m);
    CutSnug(m);
    FlatSnoc(s.proposed, Cut(m).1);
  }

  lemma ProposePiped(s: System, t: System)
    requires Inv(s) && t == DoPropose(s, 0)
    requires s.nodes[0].manager.size >= s.nodes[0].manager.blockSize
    ensures Grown(s, t) && Piped(t, 0)
  {
    hide Sent, Passive, Distinct, Batching, Snug, Flat, Queues, Acked;
    assert Fixed(s, 0) && Piped(s, 0);
    BatchFits(s.nodes[0].manager);
    assert Grown(s, t);
    hide Grown;
    forall b: Block, n: nat | Held(s, b, n) ensures Held(t, b, n) { HeldGrows(s, t, b, n); }
  }

  lemma ProposeQueues(s: System, t: System)
    requires s.nodes != [] && Books(s) && Queues(s) && t == DoPropose(s, 0)
    ensures Queues(t)
  {
    hide Snug, Flat, Weight;
  }

  lemma ProposeInv(s: System, p: nat)
    requires Inv(s) && p < |s.nodes|
    ensures Inv(DoPropose(s, p))
  {
    hide Held, Sent, Passive, Distinct, Batching, Snug, Flat, Queues, Acked, Piped;
    assert Fixed(s, p);
    BatchFits(s.nodes[0].manager);
    var t := DoPropose(s, p);
    if t != s {
      ProposeBooks(s);
      ProposePiped(s, t);
      ProposeQueues(s, t);
      AckedFrame(s, t);
      Assemble(s, t, p);
    }
  }

  lemma ReceiveBlockInv(s: System, p: nat, w: Wire)
    requires Inv(s) && p < |s.nodes| && w.NewBlock? && w in s.net && w.to == s.nodes[p].me
    ensures Inv(DoReceive(s, p, w))
  {
    hide Distinct, Books, Queues, Acked;
    var t := DoReceive(s, p, w);
    assert Fixed(s, p) && Piped(s, p) && Sent(s, w);
    assert Grown(s, t);
    if t != s {
      hide Held, Grown, Sent;
      forall b: Block, n: nat | Held(s, b, n) ensures Held(t, b, n) { HeldGrows(s, t, b, n); }
      HeadFrame(s, t);
      Assemble(s, t, p);
    }
  }

  lemma AckReady(s: System, t: System, w: Wire)
    requires |s.nodes| == |s.order| > 0 && !s.panicked && Books(s) && Queues(s)
    requires w.Ack? && w in s.net && w.to == s.nodes[0].me && t == DoReceive(s, 0, w)
    requires Fixed(s, 0) && Sent(s, w)
    ensures Grown(s, t) && !t.panicked && Books(t) && Queues(t)
  {
    hide Batching, Snug, Flat, Held, Numbered;
  }

  lemma AckedMore(s: System, t: System, w: Wire)
    requires |s.nodes| == |s.order| > 0 && Queues(s) && Acked(s) && Grown(s, t) && !t.panicked
    requires w.Ack? && w in s.net && w.to == s.nodes[0].me && t == DoReceive(s, 0, w) && Sent(s, w)
    ensures Acked(t)
  {
    hide Held, Grown;
    forall b: Block, n: nat | Held(s, b, n) ensures Held(t, b, n) { HeldGrows(s, t, b, n); }
  }

  lemma ReceiveAckInv(s: System, p: nat, w: Wire)
    requires Inv(s) && p < |s.nodes| && w.Ack? && w in s.net && w.to == s.nodes[p].me
    ensures Inv(DoReceive(s, p, w))
  {
    hide Passive, Books, Queues, Acked, Held, Piped;
    assert p == 0 && Fixed(s, p) && Piped(s, p) by { assert Sent(s, w) && Fixed(s, p); }
    var t := DoReceive(s, p, w);
    AckReady(s, t, w);
    AckedMore(s, t, w);
    PipedGrows(s, t, p);
    Assemble(s, t, p);
  }

  lemma CheckInv(s: System, p: nat, e: Envelope, valid: bool)
    requires Inv(s) && p < |s.nodes|
    ensures Inv(DoCheck(s, p, e, valid))
  {
    hide Held, Sent, Distinct, Books, Queues, Acked;
    var t := DoCheck(s, p, e, valid);
    assert Fixed(s, p) && Piped(s, p);
    if t != s {
      assert Grown(s, t);
      hide Grown;
      forall b: Block, n: nat | Held(s, b, n) ensures Held(t, b, n) { HeldGrows(s, t, b, n); }
      if valid { HeldHere(t, e.blk, p); }
      HeadFrame(s, t);
      Assemble(s, t, p);
    }
  }

  lemma HeldHere(s: System, b: Block, p: nat)
    requires p < |s.nodes| && Held(s, b, p) && b in s.nodes[p].passed
    ensures Held(s, b, p + 1)
  {
  }

  /** What the node at p passes on is addressed to its successor, who is the only node of that name. */
  lemma SuccessorSent(s: System, p: nat, b: Block)
    requires s.order != [] && Distinct(s.order) && p + 1 < |s.order| && Held(s, b, p + 1)
    ensures Sent(s, NewBlock(s.order[p], s.order[p + 1], b))
  {
    hide Held;
    forall q | 0 <= q < |s.order| && s.order[q] == s.order[p + 1] ensures q == p + 1 {
      SameIndex(s.order, q, p + 1);
    }
  }

  lemma SendQueues(s: System, t: System)
    requires |s.nodes| == |s.order| > 0 && Fixed(s, 0) && Piped(s, 0) && Books(s) && Queues(s)
    requires s.nodes[0].toSend != [] && t == DoSend(s, 0)
    ensures Books(t) && Queues(t)
  {
    hide Batching, Snug, Flat, Held;
    assert s.nodes[0].toSend[0] in s.nodes[0].toSend;
  }

  lemma SendInv(s: System, p: nat)
    requires Inv(s) && p < |s.nodes|
    ensures Inv(DoSend(s, p))
  {
    hide Held, Sent, Distinct, Books, Queues, Acked;
    var t := DoSend(s, p);
    assert Fixed(s, p) && Piped(s, p);
    var n := s.nodes[p];
    if n.toSend != [] {
      var e := n.toSend[0];
      assert e in n.toSend;
      assert Grown(s, t);
      hide Grown;
      forall b: Block, k: nat | Held(s, b, k) ensures Held(t, b, k) { HeldGrows(s, t, b, k); }
      if n.link.next.Some? { SuccessorSent(t, p, e.blk); }
      if p == 0 {
        SendQueues(s, t);
        AckedFrame(s, t);
      } else {
        HeadFrame(s, t);
      }
      assert forall x :: x in n.toSend[1..] ==> x in n.toSend;
      Assemble(s, t, p);
    }
  }

  lemma DecideQueues(s: System, t: System)
    requires |s.nodes| == |s.order| > 0 && Fixed(s, 0) && Books(s) && Queues(s)
    requires s.nodes[0].toDecide != [] && t == DoDecide(s, 0)
    ensures Books(t) && Queues(t)
  {
    hide Batching, Snug, Flat;
    assert s.nodes[0].toDecide[0].blk == s.proposed[Arrived(s)];
  }

  lemma DecideAcked(s: System, t: System)
    requires |s.nodes| == |s.order| > 0 && Fixed(s, 0) && Books(s) && Queues(s) && Acked(s) && Grown(s, t)
    requires s.nodes[0].toDecide != [] && t == DoDecide(s, 0)
    ensures Acked(t)
  {
    hide Batching, Snug, Flat, Held, Grown;
    assert s.nodes[0].toDecide[0].blk == s.proposed[Arrived(s)];
    forall b: Block, n: nat | Held(s, b, n) ensures Held(t, b, n) { HeldGrows(s, t, b, n); }
  }

  /** The tail sends acknowledgements only after everybody has the block, and is not the head. */
  lemma TailSent(s: System, b: Block)
    requires |s.order| > 1 && Held(s, b, |s.order|)
    ensures Sent(s, Ack(s.order[|s.order| - 1], s.order[0], b.id))
  {
  }

  lemma TailIsLast(order: seq<nat>, p: nat)
    requires p < |order| && Distinct(order) && RoleOf(order, order[p]).Tail?
    ensures p == |order| - 1 > 0
  {
    SameIndex(order, p, |order| - 1);
  }

  lemma DecideInv(s: System, p: nat)
    requires Inv(s) && p < |s.nodes|
    ensures Inv(DoDecide(s, p))
  {
    hide Held, Sent, Distinct, Books, Queues, Acked;
    var t := DoDecide(s, p);
    assert Fixed(s, p) && Piped(s, p);
    var n := s.nodes[p];
    if n.toDecide != [] {
      var e := n.toDecide[0];
      assert e in n.toDecide;
      assert Grown(s, t);
      hide Grown;
      forall b: Block, k: nat | Held(s, b, k) ensures Held(t, b, k) { HeldGrows(s, t, b, k); }
      if n.decider.role.Tail? {
        TailIsLast(s.order, p);
        TailSent(t, e.blk);
      }
      HeadIsFirst(s.order, p);
      if p == 0 {
        DecideQueues(s, t);
        DecideAcked(s, t);
      } else {
        HeadFrame(s, t);
      }
      assert forall x :: x in n.toDecide[1..] ==> x in n.toDecide;
      Assemble(s, t, p);
    }
  }

  lemma HeadIsFirst(order: seq<nat>, p: nat)
    requires p < |order| && Distinct(order)
    ensures RoleOf(order, order[p]).Head? <==> p == 0
  {
    if RoleOf(order, order[p]).Head? { SameIndex(order, 0, p); }
  }

  lemma CommitQueues(s: System, t: System)
    requires s.nodes != [] && !s.panicked && Books(s) && Queues(s) && Acked(s)
    requires s.nodes[0].decider.next in s.nodes[0].decider.ready && t == DoCommit(s, 0)
    ensures !t.panicked && Grown(s, t) && Books(t) && Queues(t)
  {
    hide Batching, Snug, Flat, Held, Numbered;
    var d := s.nodes[0].decider;
    assert d.next in d.inflight;
    assert t.nodes[0].committed == s.proposed[..d.next];
  }

  lemma CommitAcked(s: System, t: System)
    requires s.nodes != [] && Acked(s) && Grown(s, t)
    requires s.nodes[0].decider.next in s.nodes[0].decider.ready && t == DoCommit(s, 0)
    ensures Acked(t)
  {
    hide Held, Grown;
    forall b: Block, n: nat | Held(s, b, n) ensures Held(t, b, n) { HeldGrows(s, t, b, n); }
  }

  lemma CommitInv(s: System, p: nat)
    requires Inv(s) && p < |s.nodes|
    ensures Inv(DoCommit(s, p))
  {
    hide Held, Sent, Distinct, Books, Queues, Acked;
    var t := DoCommit(s, p);
    assert Fixed(s, p) && Piped(s, p);
    if t != s {
      CommitQueues(s, t);
      CommitAcked(s, t);
      PipedGrows(s, t, p);
      Assemble(s, t, p);
    }
  }

  /**
   The stage and the protocol agree on when to commit: the stage is ready exactly if a commit step
   of its node commits a block, the next one in flight, and otherwise that step does nothing.
   */
  lemma CommitReadyIff(d: Decision, s: System, p: nat)
    requires Inv(s) && p < |s.nodes| && s.nodes[p].decider == d.View()
    ensures d.CommitReady() <==> |Act(s, Commit(p)).nodes[p].committed| == |s.nodes[p].committed| + 1
    ensures d.CommitReady() ==>
              && d.next in d.inflight && !Act(s, Commit(p)).panicked
              && Act(s, Commit(p)).nodes[p].committed == s.nodes[p].committed + [d.inflight[d.next]]
    ensures !d.CommitReady() ==> Act(s, Commit(p)) == s
  {
    hide Fixed, Piped, Passive, Sent, Books, Queues, Acked, Inv, Distinct;
    CommitInv(s, p);
    InvCalm(s);
    InvCalm(DoCommit(s, p));
  }

  lemma InvCalm(s: System)
    requires Inv(s)
    ensures !s.panicked
  {
    hide Fixed, Piped, Passive, Sent, Books, Queues, Acked, Distinct;
  }

  lemma ActInv(s: System, a: Action)
    requires Inv(s)
    ensures Inv(Act(s, a))
  {
    hide Inv;
    if a.at < |s.nodes| {
      match a
      case Submit(p, x) => SubmitInv(s, p, x);
      case Prepare(p) => PrepareInv(s, p);
      case Propose(p) => ProposeInv(s, p);
      case Receive(p, w) =>
        if w in s.net && w.to == s.nodes[p].me {
          if w.NewBlock? { ReceiveBlockInv(s, p, w); } else { ReceiveAckInv(s, p, w); }
        }
      case Check(p, e, valid) => CheckInv(s, p, e, valid);
      case Send(p) => SendInv(s, p);
      case Decide(p) => DecideInv(s, p);
      case Commit(p) => CommitInv(s, p);
    }
  }

  // ---------------------------------------------------------------- whole runs

  /** The system after a sequence of actions. */
  function Run(order: seq<nat>, blockSize: nat, actions: seq<Action>): System
    requires order != []
  {
    if actions == [] then Init(order, blockSize)
    else Act(Run(order, blockSize, actions[..|actions| - 1]), actions[|actions| - 1])
  }

  lemma {:induction false} RunInv(order: seq<nat>, blockSize: nat, actions: seq<Action>)
    requires order != [] && Distinct(order)
    ensures Inv(Run(order, blockSize, actions)) && Run(order, blockSize, actions).order == order
    ensures Run(order, blockSize, actions).nodes[0].manager.blockSize == blockSize
  {
    if actions == [] {
      InitInv(order, blockSize);
    } else {
      var before, a := actions[..|actions| - 1], actions[|actions| - 1];
      RunInv(order, blockSize, before);
      ActInv(Run(order, blockSize, before), a);
      ActOrder(Run(order, blockSize, before), a);
    }
  }

  /** Configuration does not change. */
  lemma ActOrder(s: System, a: Action)
    ensures Act(s, a).order == s.order && |Act(s, a).nodes| == |s.nodes|
    ensures s.nodes != [] ==> Act(s, a).nodes[0].manager.blockSize == s.nodes[0].manager.blockSize
  {
  }

  lemma {:induction false} FlatPrefix(blocks: seq<Block>, n: nat)
    requires n <= |blocks|
    ensures Flat(blocks[..n]) <= Flat(blocks)
  {
    if n == |blocks| {
      assert blocks[..n] == blocks;
    } else {
      assert blocks[..|blocks| - 1][..n] == blocks[..n];
      FlatPrefix(blocks[..|blocks| - 1], n);
    }
  }

  /**
   In every run no assertion fails, and the head commits the blocks 1, 2, 3, ... without gap or
   repetition. Every node of the chain has found each committed block valid, with its contents, and
   the committed transactions are, in order, the first ones recorded at the head. Other nodes
   commit nothing.
   */
  lemma ChainReplicationIsSafe(order: seq<nat>, blockSize: nat, actions: seq<Action>)
    requires order != [] && Distinct(order)
    ensures var s := Run(order, blockSize, actions);
            && !s.panicked && |s.nodes| == |order|
            && Numbered(s.nodes[0].committed)
            && Flat(s.nodes[0].committed) <= s.recorded
            && (forall b, p :: b in s.nodes[0].committed && 0 <= p < |s.nodes| ==> b in s.nodes[p].passed)
            && (forall p :: 0 < p < |s.nodes| ==> s.nodes[p].committed == [])
  {
    hide Flat, Fixed, Piped, Sent, Distinct, Batching, Snug;
    RunInv(order, blockSize, actions);
    var s := Run(order, blockSize, actions);
    FlatPrefix(s.proposed, s.nodes[0].decider.next - 1);
  }

  ghost predicate FoundValid(actions: seq<Action>, p: nat, b: Block) {
    exists k :: 0 <= k < |actions| && actions[k].Check? && actions[k].at == p && actions[k].valid && actions[k].env.blk == b
  }

  /** What a node passed, it checked, or it is the head. */
  lemma {:induction false} PassedWasChecked(order: seq<nat>, blockSize: nat, actions: seq<Action>, p: nat, b: Block)
    requires order != [] && Distinct(order) && 0 < p < |order|
    requires |Run(order, blockSize, actions).nodes| == |order| && b in Run(order, blockSize, actions).nodes[p].passed
    ensures FoundValid(actions, p, b)
  {
    hide Act, Inv;
    if actions != [] {
      var n := |actions| - 1;
      RunInv(order, blockSize, actions[..n]);
      var s, a := Run(order, blockSize, actions[..n]), actions[n];
      ActOrder(s, a);
      PassedBy(s, a, p, b);
      if b in s.nodes[p].passed {
        PassedWasChecked(order, blockSize, actions[..n], p, b);
        var k :| 0 <= k < n && actions[k].Check? && actions[k].at == p && actions[k].valid && actions[k].env.blk == b;
      }
    }
  }

  lemma PassedBy(s: System, a: Action, p: nat, b: Block)
    requires Inv(s) && 0 < p < |s.nodes| && |Act(s, a).nodes| == |s.nodes| && b in Act(s, a).nodes[p].passed
    ensures b in s.nodes[p].passed || (a.Check? && a.at == p && a.valid && a.env.blk == b)
  {
    hide Piped, Passive, Sent, Books, Queues, Acked, Distinct;
    assert Fixed(s, p);
  }

  /** A block is committed only after a check at every node but the head has found it valid. */
  lemma CommittedWasChecked(order: seq<nat>, blockSize: nat, actions: seq<Action>, b: Block, p: nat)
    requires order != [] && Distinct(order) && 0 < p < |order|
    requires var s := Run(order, blockSize, actions); s.nodes != [] && b in s.nodes[0].committed
    ensures FoundValid(actions, p, b)
  {
    hide Run, FoundValid;
    ChainReplicationIsSafe(order, blockSize, actions);
    PassedWasChecked(order, blockSize, actions, p, b);
  }

  /** Proposals cut the recorded transactions into the shortest pieces that reach the block size. */
  lemma ProposalsAreSnug(order: seq<nat>, blockSize: nat, actions: seq<Action>)
    requires order != [] && Distinct(order)
    ensures var s := Run(order, blockSize, actions);
            && s.nodes != [] && s.recorded == Flat(s.proposed) + s.nodes[0].manager.pool
            && Numbered(s.proposed)
            && forall b :: b in s.proposed ==>
                 Weight(b.txns) >= blockSize && forall k :: 0 <= k < |b.txns| ==> Weight(b.txns[..k]) < blockSize
  {
    hide Flat, Fixed, Piped, Sent, Distinct, Batching, Weight;
    RunInv(order, blockSize, actions);
  }

  lemma CommitNeedsPeer(s: System)
    requires s.nodes != [] && Acked(s) && s.nodes[0].committed != []
    ensures |s.nodes| > 1
  {
    assert s.nodes[0].committed[0] in s.nodes[0].committed;
  }

  /** A node alone on the chain is its head and never acknowledges, so it never commits. */
  lemma LoneNodeNeverCommits(me: nat, blockSize: nat, actions: seq<Action>)
    ensures var s := Run([me], blockSize, actions);
            s.nodes != [] && s.nodes[0].committed == []
  {
    hide Flat, Fixed, Piped, Sent, Batching, Snug;
    RunInv([me], blockSize, actions);
    var s := Run([me], blockSize, actions);
    if s.nodes[0].committed != [] { CommitNeedsPeer(s); }
  }
}
