/**
 The loops of block validation that move the ledger from one branch to another: the two
 ancestor walks, the undo pass over the abandoned blocks and the redo pass over the new ones.
 Each is proved against the functions of `Ledger` and `BlockTree`.
 */
module Reorg {
  import opened Collections
  import opened Ledger
  import opened BlockTree

  ghost predicate IsReverse<T>(a: seq<T>, b: seq<T>) {
    |a| == |b| && forall i :: 0 <= i < |a| ==> a[i] == b[|b| - 1 - i]
  }

  lemma ReverseExtend<T>(a: seq<T>, s: seq<T>, j: nat)
    requires 0 < j <= |s| && IsReverse(a, s[j..])
    ensures IsReverse(a + [s[j - 1]], s[j - 1..])
  {
    assert forall i :: 0 <= i < |s| - j ==> s[j..][i] == s[j - 1..][i + 1];
  }

  lemma ReverseUnique<T>(a: seq<T>, b: seq<T>, c: seq<T>)
    requires IsReverse(a, b) && IsReverse(a, c)
    ensures b == c
  {
    forall i | 0 <= i < |b| ensures b[i] == c[i] {
      assert a[|a| - 1 - i] == b[i] && a[|a| - 1 - i] == c[i];
    }
  }

  method Reverse<T>(a: seq<T>) returns (b: seq<T>)
    ensures IsReverse(a, b)
  {
    b := [];
    for i := 0 to |a|
      invariant |b| == i && forall j :: 0 <= j < i ==> b[j] == a[i - 1 - j]
    {
      b := [a[i]] + b;
    }
  }

  /** `k` is the number of blocks that the two paths share. */
  ghost predicate ForksAt(a: seq<Link>, b: seq<Link>, k: nat) {
    k <= |a| && k <= |b| && a[..k] == b[..k] && (k < |a| && k < |b| ==> a[k] != b[k])
  }

  /** Length of the longest common prefix, where two chains from genesis part. */
  ghost function Common(a: seq<Link>, b: seq<Link>): (k: nat)
    ensures k <= |a| && k <= |b|
  {
    if a == [] || b == [] || a[0] != b[0] then 0 else 1 + Common(a[1..], b[1..])
  }

  lemma {:induction false} ForkUnique(a: seq<Link>, b: seq<Link>, k: nat)
    requires ForksAt(a, b, k)
    ensures k == Common(a, b)
  {
    if k > 0 {
      assert a[0] == a[..k][0] && b[0] == b[..k][0];
      assert a[1..][..k - 1] == a[..k][1..] && b[1..][..k - 1] == b[..k][1..];
      ForkUnique(a[1..], b[1..], k - 1);
    }
  }

  /** Walk back from `tail` until height `stop`, collecting the blocks passed, tail first. */
  method WalkBack(p: Pool, ghost o: Orphans, tail: Hash, height: nat, stop: nat)
    returns (passed: seq<Link>, ancestor: Hash)
    requires Settled(p, o) && Linked(p, tail, height) && stop < height
    ensures ancestor == HashAt(Path(p, tail, height), stop)
    ensures IsReverse(passed, Path(p, tail, height)[stop..])
  {
    ghost var ls := Path(p, tail, height);
    PathStep(p, tail, height, height);
    PathPrefix(p, tail, height, height);
    hide Linked, Path, Settled;
    passed := [Link(tail, p[tail].block)];
    ancestor := p[tail].block.prev;
    var j := height - 1;
    while j > stop
      invariant stop <= j < height
      invariant ancestor == HashAt(ls, j)
      invariant IsReverse(passed, ls[j..])
    {
      PathStep(p, tail, height, j);
      PathPrefix(p, tail, height, j);
      HeightComplete(p, o, ancestor, j);
      assert p[ancestor].height == j;
      ReverseExtend(passed, ls, j);
      passed := passed + [Link(ancestor, p[ancestor].block)];
      ancestor, j := p[ancestor].block.prev, j - 1;
    }
  }

  /**
   Walk back from both tails to their lowest common ancestor. The new path's part after the
   ancestor comes out in chain order, the old path's part tail first.
   */
  method FindFork(p: Pool, ghost o: Orphans, newTail: Hash, newHeight: nat, oldTail: Hash, oldHeight: nat)
    returns (newChain: seq<Link>, oldChain: seq<Link>, ghost k: nat)
    requires Settled(p, o) && oldHeight < newHeight
    requires Linked(p, newTail, newHeight) && Linked(p, oldTail, oldHeight)
    ensures ForksAt(Path(p, newTail, newHeight), Path(p, oldTail, oldHeight), k) && k <= oldHeight
    ensures k == Common(Path(p, newTail, newHeight), Path(p, oldTail, oldHeight))
    ensures newChain == Path(p, newTail, newHeight)[Common(Path(p, newTail, newHeight), Path(p, oldTail, oldHeight))..]
    ensures IsReverse(oldChain, Path(p, oldTail, oldHeight)[Common(Path(p, newTail, newHeight), Path(p, oldTail, oldHeight))..])
  {
    ghost var pn, po := Path(p, newTail, newHeight), Path(p, oldTail, oldHeight);
    assert oldTail == HashAt(po, oldHeight) by {
      if oldHeight > 0 { PathStep(p, oldTail, oldHeight, oldHeight); }
    }
    assert IsReverse([], po[oldHeight..]);
    hide Linked, Path, Settled, IsReverse, Common;
    var newRev, newAncestor := WalkBack(p, o, newTail, newHeight, oldHeight);
    oldChain := [];
    var oldAncestor, j := oldTail, oldHeight;
    while newAncestor != oldAncestor
      invariant 0 <= j <= oldHeight
      invariant newAncestor == HashAt(pn, j) && oldAncestor == HashAt(po, j)
      invariant j < oldHeight ==> pn[j] != po[j]
      invariant IsReverse(newRev, pn[j..]) && IsReverse(oldChain, po[j..])
      decreases j
    {
      PathStep(p, newTail, newHeight, j);
      PathStep(p, oldTail, oldHeight, j);
      SameHeight(p, o, newTail, newHeight, oldTail, oldHeight, j);
      assert p[newAncestor].height == p[oldAncestor].height;
      ReverseExtend(newRev, pn, j);
      newRev := newRev + [Link(newAncestor, p[newAncestor].block)];
      ReverseExtend(oldChain, po, j);
      oldChain := oldChain + [Link(oldAncestor, p[oldAncestor].block)];
      newAncestor, oldAncestor, j := p[newAncestor].block.prev, p[oldAncestor].block.prev, j - 1;
    }
    k := j;
    PathPrefix(p, newTail, newHeight, k);
    PathPrefix(p, oldTail, oldHeight, k);
    newChain := Reverse(newRev);
    ReverseUnique(newRev, newChain, pn[k..]);
    ForkUnique(pn, po, k);
  }

  lemma SameHeight(p: Pool, o: Orphans, a: Hash, n: nat, b: Hash, m: nat, j: nat)
    requires Settled(p, o) && Linked(p, a, n) && Linked(p, b, m) && 0 < j <= n && j <= m
    ensures var x, y := HashAt(Path(p, a, n), j), HashAt(Path(p, b, m), j);
            x in p && y in p && p[x].height == p[y].height == j
  {
    hide Path, Settled;
    PathPrefix(p, a, n, j);
    PathPrefix(p, b, m, j);
    HeightComplete(p, o, HashAt(Path(p, a, n), j), j);
    HeightComplete(p, o, HashAt(Path(p, b, m), j), j);
  }

  // ---------------------------------------------------------------- undo pass

  /** Undo one transaction of the abandoned branch. */
  method UndoOne(t: Txn, d: Delta) returns (r: Delta)
    ensures r == UndoTxn(t, d)
  {
    r := d;
    match t
    case Send(id, sender, inputs, receiver, out, remainder, _, _) =>
      for i := 0 to |inputs|
        invariant r == d.(added := d.added + Elems(InKeys(t)[..i]))
      {
        assert InKeys(t)[..i + 1] == InKeys(t)[..i] + [Utxo(inputs[i], sender)];
        r := r.(added := r.added + {Utxo(inputs[i], sender)});
      }
      assert InKeys(t)[..|inputs|] == InKeys(t);
      ghost var d' := r;
      if out > 0 { r := Uncreate(Utxo(id, receiver), r); }
      if remainder > 0 { r := Uncreate(Utxo(id, sender), r); }
      OutsUndone(t, d');
    case Grant(id, receiver, _, _) =>
      r := Uncreate(Utxo(id, receiver), r);
      OutsUndone(t, d);
      assert d.(added := d.added + Elems(InKeys(t))) == d;
  }

  lemma OutsUndone(t: Txn, d: Delta)
    ensures t.Grant? ==> UncreateAll(OutKeys(t), d) == Uncreate(Utxo(t.id, t.receiver), d)
    ensures t.Send? ==>
              var d1 := if t.out > 0 then Uncreate(Utxo(t.id, t.receiver), d) else d;
              UncreateAll(OutKeys(t), d) == if t.remainder > 0 then Uncreate(Utxo(t.id, t.sender), d1) else d1
  {
    var ks := OutKeys(t);
    if ks != [] { Uncreate1(ks[0], d); }
    if |ks| == 2 { assert ks[..1] == [ks[0]]; } else if |ks| == 1 { assert ks == [ks[0]]; }
  }

  lemma OutsRedone(t: Txn, d: Delta)
    ensures t.Grant? ==> CreateAll(OutKeys(t), d) == Create(Utxo(t.id, t.receiver), d)
    ensures t.Send? ==>
              var d1 := if t.out > 0 then Create(Utxo(t.id, t.receiver), d) else d;
              CreateAll(OutKeys(t), d) == if t.remainder > 0 then Create(Utxo(t.id, t.sender), d1) else d1
  {
    var ks := OutKeys(t);
    if ks != [] { Create1(ks[0], d); }
    if |ks| == 2 { assert ks[..1] == [ks[0]]; } else if |ks| == 1 { assert ks == [ks[0]]; }
  }

  lemma {:induction false} UndoConcat(a: seq<Txn>, b: seq<Txn>, d: Delta)
    ensures UndoTxns(a + b, d) == UndoTxns(a, UndoTxns(b, d))
    decreases |b|
  {
    if b == [] {
      assert a + b == a;
    } else {
      var t, b' := b[|b| - 1], b[..|b| - 1];
      assert (a + b)[..|a + b| - 1] == a + b';
      UndoConcat(a, b', UndoTxn(t, d));
    }
  }

  lemma TxnsDrop(ls: seq<Link>, j: nat)
    requires 0 < j <= |ls|
    ensures Txns(ls[j - 1..]) == ls[j - 1].block.txns + Txns(ls[j..])
  {
    assert ls[j - 1..] == [ls[j - 1]] + ls[j..];
    TxnsConcat([ls[j - 1]], ls[j..]);
    assert [ls[j - 1]][..0] == [];
  }

  /** Undo a whole block, last transaction first. */
  method UndoBlock(txns: seq<Txn>, d0: Delta, undone0: set<Hash>) returns (d: Delta, undone: set<Hash>)
    ensures d == UndoTxns(txns, d0) && undone == undone0 + Ids(txns)
  {
    hide UndoTxn;
    d, undone := d0, undone0;
    assert txns[|txns|..] == [];
    for i := |txns| downto 0
      invariant d == UndoTxns(txns[i..], d0) && undone == undone0 + Ids(txns[i..])
    {
      var t := txns[i];
      ghost var rest := txns[i + 1..];
      assert txns[i..] == [t] + rest;
      UndoConcat([t], rest, d0);
      IdsConcat([t], rest);
      assert [t][..0] == [] && Ids([t]) == {t.id};
      d := UndoOne(t, d);
      undone := undone + {t.id};
    }
    assert txns[0..] == txns;
  }

  /** Undo a whole branch, given tail first; also collect the ids of its transactions. */
  method UndoChain(oldChain: seq<Link>, ghost ls: seq<Link>) returns (d: Delta, undone: set<Hash>)
    requires IsReverse(oldChain, ls)
    ensures d == UndoTxns(Txns(ls), NO_CHANGE) && undone == Ids(Txns(ls))
  {
    hide UndoTxn;
    d, undone := NO_CHANGE, {};
    assert ls[|ls|..] == [];
    for i := 0 to |oldChain|
      invariant d == UndoTxns(Txns(ls[|ls| - i..]), NO_CHANGE) && undone == Ids(Txns(ls[|ls| - i..]))
    {
      ghost var j := |ls| - i;
      TxnsDrop(ls, j);
      UndoConcat(ls[j - 1].block.txns, Txns(ls[j..]), NO_CHANGE);
      IdsConcat(ls[j - 1].block.txns, Txns(ls[j..]));
      d, undone := UndoBlock(oldChain[i].block.txns, d, undone);
    }
    assert ls[0..] == ls;
  }

  // ---------------------------------------------------------------- redo pass

  /** Apply one transaction of the new branch, or report a double spend or a failed script. */
  method RedoOne(u: set<Utxo>, t: Txn, d: Delta) returns (r: Option<Delta>)
    ensures r == RedoTxn(u, t, d)
  {
    var m := d;
    ghost var ks := InKeys(t);
    if t.Send? {
      for i := 0 to |t.inputs|
        invariant SpendAll(u, ks[..i], d) == Some(m)
      {
        var k := Utxo(t.inputs[i], t.sender);
        assert ks[..i + 1][..i] == ks[..i];
        if k in m.added {
          m := m.(added := m.added - {k});
        } else if k in u && k !in m.removed {
          m := m.(removed := m.removed + {k});
        } else {
          SpendAllFails(u, ks, i + 1, d);
          return None;
        }
      }
      assert ks[..|ks|] == ks;
      if !t.scriptOk { return None; }
    }
    OutsRedone(t, m);
    match t {
      case Send(id, sender, _, receiver, out, remainder, _, _) =>
        if out > 0 { m := Create(Utxo(id, receiver), m); }
        if remainder > 0 { m := Create(Utxo(id, sender), m); }
      case Grant(id, receiver, _, _) =>
        m := Create(Utxo(id, receiver), m);
    }
    r := Some(m);
  }

  lemma {:induction false} SpendAllFails(u: set<Utxo>, ks: seq<Utxo>, i: nat, d: Delta)
    requires i <= |ks| && SpendAll(u, ks[..i], d).None?
    ensures SpendAll(u, ks, d).None?
  {
    if i == |ks| {
      assert ks[..i] == ks;
    } else {
      assert ks[..|ks| - 1][..i] == ks[..i];
      SpendAllFails(u, ks[..|ks| - 1], i, d);
    }
  }

  lemma {:induction false} RedoConcat(u: set<Utxo>, a: seq<Txn>, b: seq<Txn>, d: Delta)
    ensures RedoTxns(u, a, d).None? ==> RedoTxns(u, a + b, d).None?
    ensures RedoTxns(u, a, d).Some? ==> RedoTxns(u, a + b, d) == RedoTxns(u, b, RedoTxns(u, a, d).value)
  {
    if b == [] {
      assert a + b == a;
    } else {
      var b' := b[..|b| - 1];
      RedoConcat(u, a, b', d);
      assert (a + b)[..|a + b| - 1] == a + b';
    }
  }

  /** Undone transactions that go back to the mempool, and newly applied ones that leave it. */
  datatype Moves = Moves(undone: set<Hash>, applied: set<Hash>)

  function Move(m: Moves, h: Hash): Moves {
    if h in m.undone then m.(undone := m.undone - {h}) else m.(applied := m.applied + {h})
  }

  function MoveAll(m: Moves, ts: seq<Txn>): Moves {
    if ts == [] then m else Move(MoveAll(m, ts[..|ts| - 1]), ts[|ts| - 1].id)
  }

  lemma {:induction false} MoveConcat(m: Moves, a: seq<Txn>, b: seq<Txn>)
    ensures MoveAll(m, a + b) == MoveAll(MoveAll(m, a), b)
  {
    if b == [] {
      assert a + b == a;
    } else {
      MoveConcat(m, a, b[..|b| - 1]);
      assert (a + b)[..|a + b| - 1] == a + b[..|b| - 1];
    }
  }

  /** Without repetition, a transaction on both branches moves nowhere. */
  lemma {:induction false} MoveAllExact(undone: set<Hash>, ts: seq<Txn>)
    requires DistinctIds(ts)
    ensures MoveAll(Moves(undone, {}), ts) == Moves(undone - Ids(ts), Ids(ts) - undone)
  {
    if ts != [] {
      hide DistinctIds;
      var t, ts' := ts[|ts| - 1], ts[..|ts| - 1];
      assert Ids([t]) == {t.id} by { assert [t][0].id == t.id; }
      hide Ids;
      assert ts == ts' + [t];
      DistinctIdsSplit(ts', [t]);
      IdsConcat(ts', [t]);
      MoveAllExact(undone, ts');
    }
  }

  /** Apply a whole block, or report that it cannot be applied. */
  method RedoBlock(u: set<Utxo>, txns: seq<Txn>, d0: Delta, m0: Moves) returns (r: Option<Delta>, m: Moves)
    ensures r == RedoTxns(u, txns, d0)
    ensures r.Some? ==> m == MoveAll(m0, txns)
  {
    hide RedoTxn;
    var d := d0;
    m := m0;
    for i := 0 to |txns|
      invariant RedoTxns(u, txns[..i], d0) == Some(d) && m == MoveAll(m0, txns[..i])
    {
      assert txns[..i + 1][..i] == txns[..i];
      var d' := RedoOne(u, txns[i], d);
      if d'.None? {
        RedoConcat(u, txns[..i + 1], txns[i + 1..], d0);
        assert txns[..i + 1] + txns[i + 1..] == txns;
        return None, m;
      }
      d := d'.value;
      m := Move(m, txns[i].id);
    }
    assert txns[..|txns|] == txns;
    r := Some(d);
  }

  /** Apply a whole branch in chain order, or report that it cannot be applied. */
  method RedoChain(u: set<Utxo>, ls: seq<Link>, d0: Delta, m0: Moves) returns (r: Option<Delta>, m: Moves)
    ensures r == RedoTxns(u, Txns(ls), d0)
    ensures r.Some? ==> m == MoveAll(m0, Txns(ls))
  {
    hide RedoTxn, Move;
    var d := d0;
    m := m0;
    for i := 0 to |ls|
      invariant RedoTxns(u, Txns(ls[..i]), d0) == Some(d) && m == MoveAll(m0, Txns(ls[..i]))
    {
      ghost var done, txns := Txns(ls[..i]), ls[i].block.txns;
      assert ls[..i + 1][..i] == ls[..i];
      RedoConcat(u, done, txns, d0);
      MoveConcat(m0, done, txns);
      var d';
      d', m := RedoBlock(u, ls[i].block.txns, d, m);
      if d'.None? {
        TxnsConcat(ls[..i + 1], ls[i + 1..]);
        RedoConcat(u, done + txns, Txns(ls[i + 1..]), d0);
        assert ls[..i + 1] + ls[i + 1..] == ls;
        return None, m;
      }
      d := d'.value;
    }
    assert ls[..|ls|] == ls;
    r := Some(d);
  }
}
