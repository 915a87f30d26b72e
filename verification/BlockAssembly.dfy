/**
 Assembling a block from the mempool. One pass of the loop looks at the first pending
 transaction: it moves it into the block if it can be spent now, and otherwise puts it back at
 the end of the queue. The loop ends only when the block is full or the queue is empty, so it
 never ends once the block has room and nothing left in the queue can be spent.
 */
module BlockAssembly {
  import opened Collections
  import opened Ledger
  import opened Values
  import opened ChainState

  const MAX_BLOCK_SIZE: nat := 0x100000

  datatype Assembly = Assembly(s: State, size: nat)

  predicate Finished(a: Assembly) {
    a.size > MAX_BLOCK_SIZE || a.s.pending == []
  }

  predicate CanAdmit(s: State, h: Hash)
    requires h in s.txnPool
  {
    Elems(InKeys(s.txnPool[h])) <= Spendable(s) && ScriptOk(s.txnPool[h])
  }

  /** The size of a block with these transactions. */
  function TotalSize(pool: TxnPool, hs: seq<Hash>): nat {
    if hs == [] then 0
    else
      var h := hs[|hs| - 1];
      TotalSize(pool, hs[..|hs| - 1]) + if h in pool then pool[h].size else 0
  }

  lemma SizeNone(pool: TxnPool)
    ensures TotalSize(pool, []) == 0
  {
  }

  lemma SizeSnoc(pool: TxnPool, hs: seq<Hash>, h: Hash)
    requires h in pool
    ensures TotalSize(pool, hs + [h]) == TotalSize(pool, hs) + pool[h].size
  {
    assert (hs + [h])[..|hs|] == hs;
  }

  lemma {:induction false} SizeFrame(pool: TxnPool, pool': TxnPool, hs: seq<Hash>)
    requires AllIn(hs, pool) && SubPool(pool, pool')
    ensures TotalSize(pool', hs) == TotalSize(pool, hs)
  {
    if hs != [] {
      assert forall h :: h in hs[..|hs| - 1] ==> h in hs;
      assert hs[|hs| - 1] in hs;
      SizeFrame(pool, pool', hs[..|hs| - 1]);
    }
  }

  ghost predicate Ready(a: Assembly) {
    AllIn(a.s.pending, a.s.txnPool)
  }

  /** One pass of the loop. */
  ghost function Pass(a: Assembly): (r: Assembly)
    requires Ready(a)
    ensures Ready(r) && r.s.txnPool == a.s.txnPool && |r.s.pending| <= |a.s.pending|
  {
    if Finished(a) then a
    else if CanAdmit(a.s, a.s.pending[0]) then Assembly(Admit(a.s), a.size + a.s.txnPool[a.s.pending[0]].size)
    else Assembly(Rotate(a.s), a.size)
  }

  ghost function Passes(a: Assembly, n: nat): (r: Assembly)
    requires Ready(a)
    ensures Ready(r)
  {
    if n == 0 then a else Pass(Passes(a, n - 1))
  }

  lemma {:induction false} PassesAdd(a: Assembly, m: nat, n: nat)
    requires Ready(a)
    ensures Passes(a, m + n) == Passes(Passes(a, m), n)
  {
    hide Pass;
    if n > 0 { PassesAdd(a, m, n - 1); }
  }

  /** There is room and work, but no pending transaction can be admitted. */
  ghost predicate Stuck(a: Assembly)
    requires Ready(a)
  {
    !Finished(a) && forall h :: h in a.s.pending ==> !CanAdmit(a.s, h)
  }

  lemma {:induction false} FinishedForever(a: Assembly, n: nat)
    requires Ready(a) && Finished(a)
    ensures Passes(a, n) == a
  {
    if n > 0 { FinishedForever(a, n - 1); }
  }

  lemma NotYetFinished(a: Assembly, n: nat)
    requires Ready(a) && Stuck(Passes(a, n))
    ensures !Finished(a)
  {
    if Finished(a) { FinishedForever(a, n); }
  }

  lemma {:induction false} StuckForever(a: Assembly, n: nat)
    requires Ready(a) && Stuck(a)
    ensures Stuck(Passes(a, n)) && !Finished(Passes(a, n))
  {
    if n > 0 {
      StuckForever(a, n - 1);
      var b := Passes(a, n - 1);
      hide Passes, CanAdmit, Admit;
      forall h | h in Rotate(b.s).pending ensures h in b.s.pending && !CanAdmit(Rotate(b.s), h) {
        AdmitFrame(b.s, Rotate(b.s).pending, h);
      }
    }
  }

  lemma RotateOne(q: seq<Hash>, j: nat)
    requires 0 < j <= |q|
    ensures var r := q[j - 1..] + q[..j - 1];
            r != [] && r[0] == q[j - 1] && r[1..] + [r[0]] == q[j..] + q[..j]
  {
    assert q[j - 1..][1..] == q[j..];
    assert q[..j] == q[..j - 1] + [q[j - 1]];
  }

  /** Passes that admit nothing only rotate the queue. */
  lemma {:induction false} RotateMany(a: Assembly, j: nat)
    requires Ready(a) && a.size <= MAX_BLOCK_SIZE && j <= |a.s.pending|
    requires forall i :: 0 <= i < j ==> !CanAdmit(a.s, a.s.pending[i])
    ensures Passes(a, j) == Assembly(a.s.(pending := a.s.pending[j..] + a.s.pending[..j]), a.size)
  {
    hide Pass, CanAdmit, Admit;
    var q := a.s.pending;
    if j == 0 {
      assert q[0..] + q[..0] == q;
    } else {
      RotateMany(a, j - 1);
      var b := Passes(a, j - 1);
      RotateOne(q, j);
      AdmitFrame(a.s, b.s.pending, q[j - 1]);
      PassCases(b);
    }
  }

  /** Unless stuck, the queue gets shorter within one round of it. */
  lemma Shortens(a: Assembly) returns (m: nat)
    requires Ready(a) && !Finished(a) && !Stuck(a)
    ensures 0 < m <= |a.s.pending| && |Passes(a, m).s.pending| == |a.s.pending| - 1
  {
    hide CanAdmit, Admit, Rotate;
    var q := a.s.pending;
    var i0 :| 0 <= i0 < |q| && CanAdmit(a.s, q[i0]);
    var j := 0;
    while !CanAdmit(a.s, q[j])
      invariant 0 <= j <= i0 && forall i :: 0 <= i < j ==> !CanAdmit(a.s, q[i])
      decreases i0 - j
    {
      j := j + 1;
    }
    RotateMany(a, j);
    AdmitFrame(a.s, q[j..] + q[..j], q[j]);
    m := j + 1;
    PassAdmits(Passes(a, j));
  }

  lemma PassAdmits(b: Assembly)
    requires Ready(b) && !Finished(b) && CanAdmit(b.s, b.s.pending[0])
    ensures |Pass(b).s.pending| == |b.s.pending| - 1
  {
    hide CanAdmit;
  }

  lemma AdmitFrame(s: State, pending': seq<Hash>, h: Hash)
    requires h in s.txnPool
    ensures CanAdmit(s.(pending := pending'), h) <==> CanAdmit(s, h)
  {
  }

  /** 1 + 2 + ... + n */
  function Triangle(n: nat): nat {
    if n == 0 then 0 else n + Triangle(n - 1)
  }

  lemma {:induction false} Converges(a: Assembly) returns (n: nat)
    requires Ready(a)
    ensures n <= Triangle(|a.s.pending|)
    ensures Finished(Passes(a, n)) || Stuck(Passes(a, n))
    decreases |a.s.pending|
  {
    hide Pass, CanAdmit;
    if Finished(a) || Stuck(a) {
      n := 0;
    } else {
      var m := Shortens(a);
      var k := Converges(Passes(a, m));
      PassesAdd(a, m, k);
      n := m + k;
    }
  }

  /**
   When the loop ends. With n pending transactions it either ends within 1 + 2 + ... + n passes
   or never: after that many passes the outcome is decided.
   */
  lemma AssemblyTerminates(a: Assembly)
    requires Ready(a)
    ensures var b := Passes(a, Triangle(|a.s.pending|));
            && ((exists n: nat :: Finished(Passes(a, n))) <==> Finished(b))
            && (!Finished(b) ==> Stuck(b))
  {
    hide Pass, Passes, Finished, Stuck, Triangle, Ready;
    var bound := Triangle(|a.s.pending|);
    var n := Converges(a);
    PassesAdd(a, n, bound - n);
    if Stuck(Passes(a, n)) {
      StuckForever(Passes(a, n), bound - n);
      forall m: nat ensures !Finished(Passes(a, m)) {
        if m <= n {
          PassesAdd(a, m, n - m);
          NotYetFinished(Passes(a, m), n - m);
        } else {
          PassesAdd(a, n, m - n);
          StuckForever(Passes(a, n), m - n);
        }
      }
    } else {
      FinishedForever(Passes(a, n), bound - n);
    }
  }

  /** Nothing provides this output: it is not spendable now, and no pending transaction creates it. */
  ghost predicate Dead(s: State, k: Utxo)
    requires AllIn(s.pending, s.txnPool)
  {
    k !in Spendable(s) && forall h :: h in s.pending ==> k !in OutKeys(s.txnPool[h])
  }

  lemma PassDead(a: Assembly, h: Hash, k: Utxo)
    requires Ready(a) && Dead(a.s, k) && h in a.s.pending && k in InKeys(a.s.txnPool[h])
    ensures Dead(Pass(a).s, k) && h in Pass(a).s.pending
  {
    hide InKeys, OutKeys, ScriptOk;
    var r := Pass(a).s;
    if !Finished(a) {
      assert a.s.pending == [a.s.pending[0]] + a.s.pending[1..];
      assert k in Elems(InKeys(a.s.txnPool[h]));
      assert CanAdmit(a.s, a.s.pending[0]) ==> a.s.pending[0] != h;
    }
  }

  /**
   A pending transaction with a dead input, which shows before the call, stays in the queue: from
   then on the loop can only end by filling the block.
   */
  lemma {:induction false} DeadInputBlocksAssembly(a: Assembly, h: Hash, k: Utxo, n: nat)
    requires Ready(a) && Dead(a.s, k) && h in a.s.pending && k in InKeys(a.s.txnPool[h])
    ensures h in Passes(a, n).s.pending && Dead(Passes(a, n).s, k) && Passes(a, n).s.txnPool == a.s.txnPool
    ensures Finished(Passes(a, n)) ==> Passes(a, n).size > MAX_BLOCK_SIZE
  {
    hide Pass, Dead, InKeys;
    if n > 0 {
      DeadInputBlocksAssembly(a, h, k, n - 1);
      PassDead(Passes(a, n - 1), h, k);
    }
  }

  /** A pass moves a transaction within what the manager holds. */
  lemma PassHeld(a: Assembly)
    requires Ready(a)
    ensures Held(Pass(a).s) == Held(a.s) && Pass(a).s.blocks == a.s.blocks && Pass(a).s.tail == a.s.tail
  {
    hide CanAdmit, Ids, Active, InKeys, OutKeys;
    if !Finished(a) {
      var h, rest := a.s.pending[0], a.s.pending[1..];
      assert a.s.pending == [h] + rest;
      assert Elems(a.s.pending) == {h} + Elems(rest) && Elems(rest + [h]) == Elems(rest) + {h};
      assert Elems(a.s.building + [h]) == Elems(a.s.building) + {h};
    }
  }

  lemma {:induction false} PassesHeld(a: Assembly, n: nat)
    requires Ready(a)
    ensures Held(Passes(a, n).s) == Held(a.s)
  {
    hide Pass, Held;
    if n > 0 {
      PassesHeld(a, n - 1);
      PassHeld(Passes(a, n - 1));
    }
  }

  // ---------------------------------------------------------------- the loop keeps the manager's invariant

  lemma PendingPooled(s: State, rank: Hash -> nat)
    requires Inv(s, rank)
    ensures AllIn(s.pending, s.txnPool)
  {
    hide Replay, TreeOk, BuildOk, Ids, Active;
    assert forall h :: h in s.pending ==> h in Elems(s.pending);
  }

  /** For a pending transaction the assembly's test is the replay's. */
  lemma AdmitApplies(s: State, rank: Hash -> nat, h: Hash)
    requires Inv(s, rank) && h in s.pending
    ensures h in s.txnPool && (CanAdmit(s, h) <==> Applies(s.txnPool[h], Spendable(s)))
  {
    hide Replay, TreeOk, BuildOk, Ids, Active, View;
    assert h in Elems(s.pending);
  }

  lemma PassCases(a: Assembly)
    requires Ready(a) && !Finished(a)
    ensures CanAdmit(a.s, a.s.pending[0]) ==>
              Pass(a) == Assembly(Admit(a.s), a.size + a.s.txnPool[a.s.pending[0]].size)
    ensures !CanAdmit(a.s, a.s.pending[0]) ==> Pass(a) == Assembly(Rotate(a.s), a.size)
  {
  }
}
