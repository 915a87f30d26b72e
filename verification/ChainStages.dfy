/**
 The stages of one chain replication node: the head batches transactions into numbered blocks, each
 node passes blocks to its successor, the tail acknowledges them to the head, and the head commits
 in the order of the numbers. The order of the nodes comes from a validated configuration.
 */
module ChainStages {
  import opened Collections

  datatype Txn = Txn(id: nat, size: nat)

  datatype Block = Block(id: nat, txns: seq<Txn>)

  // ---------------------------------------------------------------- the order of the chain

  ghost predicate Ascending(s: seq<nat>) {
    forall i, j :: 0 <= i < j < |s| ==> s[i] < s[j]
  }

  method Smallest(nodes: set<nat>) returns (low: nat)
    requires nodes != {}
    ensures low in nodes && forall n :: n in nodes ==> low <= n
  {
    low :| low in nodes;
    var rest := nodes - {low};
    while rest != {}
      invariant low in nodes && rest <= nodes
      invariant forall n :: n in nodes ==> n in rest || low <= n
      decreases rest
    {
      var n :| n in rest;
      low, rest := if n < low then n else low, rest - {n};
    }
  }

  lemma AscendingSnoc(s: seq<nat>, high: nat)
    requires Ascending(s) && forall n :: n in s ==> n < high
    ensures Ascending(s + [high]) && Elems(s + [high]) == Elems(s) + {high}
  {
    assert (s + [high])[..|s|] == s;
    Snoc(s + [high]);
    forall i | 0 <= i < |s| ensures s[i] < high { assert s[i] in s; }
  }

  method Sorted(nodes: set<nat>) returns (order: seq<nat>)
    ensures Ascending(order) && Elems(order) == nodes
  {
    order := [];
    var rest := nodes;
    while rest != {}
      invariant rest <= nodes && Elems(order) == nodes - rest && Ascending(order)
      invariant forall a, b :: a in order && b in rest ==> a < b
      decreases rest
    {
      var low := Smallest(rest);
      AscendingSnoc(order, low);
      order, rest := order + [low], rest - {low};
    }
  }

  /** Every configured node exists and appears once. */
  ghost predicate ValidOrder(order: seq<nat>, nodes: set<nat>) {
    Distinct(order) && Elems(order) <= nodes
  }

  method CheckOrder(order: seq<nat>, nodes: set<nat>) returns (valid: bool, onChain: set<nat>)
    ensures valid <==> ValidOrder(order, nodes)
    ensures valid ==> onChain == Elems(order)
  {
    onChain, valid := {}, true;
    for i := 0 to |order|
      invariant valid && onChain == Elems(order[..i]) && ValidOrder(order[..i], nodes)
    {
      assert order[..i + 1] == order[..i] + [order[i]];
      if order[i] in nodes && order[i] !in onChain {
        onChain := onChain + {order[i]};
      } else {
        valid := false;
        if order[i] in onChain {
          var j :| 0 <= j < i && order[j] == order[i];
        }
        return;
      }
    }
    assert order[..|order|] == order;
  }

  method Append(order: seq<nat>, nodes: set<nat>, onChain: set<nat>) returns (full: seq<nat>)
    requires Distinct(order) && onChain == Elems(order)
    ensures order <= full && Distinct(full) && Elems(full) == Elems(order) + nodes
  {
    full := order;
    var rest := nodes;
    while rest != {}
      invariant rest <= nodes && order <= full && Distinct(full)
      invariant Elems(full) == Elems(order) + (nodes - rest)
      decreases rest
    {
      var n :| n in rest;
      ghost var full0 := full;
      if n !in onChain {
        assert n !in Elems(full);
        full := full + [n];
        Snoc(full);
        assert full[..|full| - 1] == full0;
      }
      rest := rest - {n};
    }
  }

  /**
   The configured order is kept and completed when it is valid and replaced by the sorted nodes
   when it is not. Either way each node is on the chain exactly once.
   */
  method ValidateOrder(order: seq<nat>, nodes: set<nat>) returns (full: seq<nat>)
    ensures Distinct(full) && Elems(full) == nodes
    ensures ValidOrder(order, nodes) ==> order <= full
    ensures !ValidOrder(order, nodes) ==> Ascending(full)
  {
    var valid, onChain := CheckOrder(order, nodes);
    if valid {
      full := Append(order, nodes, onChain);
    } else {
      full := Sorted(nodes);
    }
  }

  // ---------------------------------------------------------------- dissemination

  /** The neighbours of a node. The first node counts as its own predecessor. */
  datatype Link = Link(prev: nat, next: Option<nat>)

  function LinkAt(order: seq<nat>, p: nat): Link
    requires p < |order|
  {
    Link(if p == 0 then order[0] else order[p - 1], if p + 1 == |order| then None else Some(order[p + 1]))
  }

  /** The search for a node's neighbours finds those of its one position. */
  method FindLink(order: seq<nat>, me: nat) returns (link: Link)
    requires me in order
    ensures Distinct(order) ==> forall p :: 0 <= p < |order| && order[p] == me ==> link == LinkAt(order, p)
  {
    var i := 0;
    while order[i] != me
      invariant 0 <= i < |order| && me !in order[..i]
      decreases |order| - i
    {
      assert order == order[..i] + [order[i]] + order[i + 1..];
      i := i + 1;
      assert order[..i] == order[..i - 1] + [order[i - 1]];
    }
    link := Link(if i == 0 then order[0] else order[i - 1], if i == |order| - 1 then None else Some(order[i + 1]));
  }

  // ---------------------------------------------------------------- batching at the head

  datatype Manager = Manager(isHead: bool, blockSize: nat, pool: seq<Txn>, nextId: nat, len: nat, size: nat)

  function Weight(txns: seq<Txn>): nat {
    if txns == [] then 0 else Weight(txns[..|txns| - 1]) + txns[|txns| - 1].size
  }

  /** The batch is a prefix of the pool that was still short of a block one transaction ago. */
  ghost predicate Batching(m: Manager) {
    && m.len <= |m.pool|
    && m.size == Weight(m.pool[..m.len])
    && forall k :: 0 <= k < m.len ==> Weight(m.pool[..k]) < m.blockSize
  }

  /** The transactions reach the block size, and no shorter prefix of them does. */
  ghost predicate Snug(txns: seq<Txn>, blockSize: nat) {
    Weight(txns) >= blockSize && forall k :: 0 <= k < |txns| ==> Weight(txns[..k]) < blockSize
  }

  function Record(m: Manager, t: Txn): Manager {
    if m.isHead then m.(pool := m.pool + [t]) else m
  }

  /** Nothing more can join the batch: it is full, or the pool is used up. */
  predicate Settled(m: Manager) {
    m.size >= m.blockSize || m.len == |m.pool|
  }

  /** The batch after `prepare_new_block`. */
  function Fill(m: Manager): (r: Manager)
    requires m.len <= |m.pool|
    ensures r == m.(len := r.len, size := r.size) && m.len <= r.len <= |m.pool|
    decreases |m.pool| - m.len
  {
    if !m.isHead || Settled(m) then m else Fill(m.(len := m.len + 1, size := m.size + m.pool[m.len].size))
  }

  function Cut(m: Manager): (r: (Manager, Block))
    requires m.len <= |m.pool|
  {
    (m.(pool := m.pool[m.len..], nextId := m.nextId + 1, len := 0, size := 0), Block(m.nextId, m.pool[..m.len]))
  }

  lemma RecordBatching(m: Manager, t: Txn)
    requires Batching(m)
    ensures Batching(Record(m, t))
  {
    if m.isHead {
      assert forall k :: 0 <= k <= m.len ==> (m.pool + [t])[..k] == m.pool[..k];
    }
  }

  lemma {:induction false} FillSettles(m: Manager)
    requires Batching(m)
    ensures Batching(Fill(m)) && (m.isHead ==> Settled(Fill(m)))
    decreases |m.pool| - m.len
  {
    if m.isHead && !Settled(m) {
      assert m.pool[..m.len + 1][..m.len] == m.pool[..m.len];
      FillSettles(m.(len := m.len + 1, size := m.size + m.pool[m.len].size));
    }
  }

  /** There is only one settled batch, so how often `prepare_new_block` was called does not matter. */
  lemma SettledUnique(a: Manager, b: Manager)
    requires Batching(a) && Batching(b) && Settled(a) && Settled(b)
    requires a.pool == b.pool && a.blockSize == b.blockSize
    ensures a.len == b.len && a.size == b.size
  {
  }

  lemma CutSnug(m: Manager)
    requires Batching(m) && m.size >= m.blockSize
    ensures Batching(Cut(m).0) && Snug(Cut(m).1.txns, m.blockSize)
    ensures Cut(m).1.txns + Cut(m).0.pool == m.pool
  {
    var b := m.pool[..m.len];
    assert forall k :: 0 <= k < m.len ==> b[..k] == m.pool[..k];
  }

  class BlockManagement {
    var isHead: bool
    var blockSize: nat
    var pool: seq<Txn>
    var nextId: nat
    var len: nat
    var size: nat

    ghost function View(): Manager reads this {
      Manager(isHead, blockSize, pool, nextId, len, size)
    }

    constructor (order: seq<nat>, me: nat, limit: nat)
      requires order != []
      ensures View() == Manager(order[0] == me, limit, [], 1, 0, 0) && Batching(View())
    {
      isHead, blockSize, pool, nextId, len, size := order[0] == me, limit, [], 1, 0, 0;
    }

    method RecordNewTxn(t: Txn) returns (ok: bool)
      requires Batching(View())
      modifies this
      ensures ok && View() == Record(old(View()), t) && Batching(View())
    {
      ghost var m := View();
      ok := true;
      if isHead {
        pool := pool + [t];
      }
      RecordBatching(m, t);
    }

    /** The head's batch ends settled; other nodes never batch and report a full block. */
    method PrepareNewBlock() returns (full: bool)
      requires Batching(View())
      modifies this
      ensures View() == Fill(old(View())) && Batching(View())
      ensures isHead ==> Settled(View())
      ensures full == (isHead ==> size >= blockSize)
    {
      FillSettles(View());
      if !isHead {
        return true;
      }
      while size < blockSize && len < |pool|
        invariant len <= |pool| && isHead && Fill(View()) == Fill(old(View()))
        decreases |pool| - len
      {
        len, size := len + 1, size + pool[len].size;
      }
      full := size >= blockSize;
    }

    method GetNewBlock() returns (blk: Block)
      requires Batching(View()) && isHead
      modifies this
      ensures (View(), blk) == Cut(old(View()))
    {
      blk := Block(nextId, pool[..len]);
      pool := pool[len..];
      len, size := 0, 0;
      nextId := nextId + 1;
    }
  }

  // ---------------------------------------------------------------- decision

  datatype Role = Head | Intermediate | Tail

  function RoleOf(order: seq<nat>, me: nat): Role
    requires order != []
  {
    if order[0] == me then Head else if order[|order| - 1] == me then Tail else Intermediate
  }

  datatype Decider = Decider(role: Role, head: nat, tail: nat, inflight: map<nat, Block>, ready: set<nat>, next: nat)

  function NewDecider(order: seq<nat>, me: nat): Decider
    requires order != []
  {
    Decider(RoleOf(order, me), order[0], order[|order| - 1], map[], {}, 1)
  }

  /** A block at the decision stage: the head keeps it, and the tail acknowledges it. */
  function Decided(d: Decider, b: Block): Decider {
    if d.role.Head? then d.(inflight := d.inflight[b.id := b]) else d
  }

  function Acknowledged(d: Decider, id: nat): Decider {
    if id in d.inflight then d.(ready := d.ready + {id}) else d
  }

  function Committed(d: Decider): Decider {
    d.(ready := d.ready - {d.next}, inflight := d.inflight - {d.next}, next := d.next + 1)
  }

  class Decision {
    var role: Role
    var head: nat
    var tail: nat
    var inflight: map<nat, Block>
    var ready: set<nat>
    var next: nat

    ghost function View(): Decider reads this {
      Decider(role, head, tail, inflight, ready, next)
    }

    constructor (order: seq<nat>, me: nat)
      requires order != []
      ensures View() == NewDecider(order, me)
    {
      role := if order[0] == me then Head else if order[|order| - 1] == me then Tail else Intermediate;
      head, tail, inflight, ready, next := order[0], order[|order| - 1], map[], {}, 1;
    }

    method NewTail(b: Block) returns (ack: Option<(nat, nat)>)
      modifies this
      ensures View() == Decided(old(View()), b)
      ensures ack == if role.Tail? then Some((head, b.id)) else None
    {
      ack := None;
      match role
      case Head => inflight := inflight[b.id := b];
      case Tail => ack := Some((head, b.id));
      case Intermediate =>
    }

    method HandlePeerMsg(src: nat, id: nat)
      requires role.Head? && src == tail
      modifies this
      ensures View() == Acknowledged(old(View()), id)
    {
      if id in inflight {
        ready := ready + {id};
      }
    }

    predicate CommitReady() reads this {
      next in ready
    }

    method NextToCommit() returns (id: nat, txns: seq<Txn>)
      requires CommitReady() && next in inflight
      modifies this
      ensures id == old(next) && txns == old(inflight[next].txns)
      ensures View() == Committed(old(View()))
    {
      ready := ready - {next};
      id, txns := next, inflight[next].txns;
      inflight := inflight - {next};
      next := next + 1;
    }
  }
}
