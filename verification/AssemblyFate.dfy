/**
 Whether assembling a block ever ends, from what shows before the call. The queue is looked at as
 a set of rules: a pending transaction is enabled by the outputs there are and by those of other
 pending ones. `Closure` is the least set these rules give. If no two pending transactions want
 the same output, the loop admits exactly the closure unless the block fills up first.
 */
module AssemblyFate {
  import opened Collections
  import opened Ledger
  import opened BlockTree
  import opened ChainState
  import opened BlockAssembly
  import opened Values

  // ---------------------------------------------------------------- sizes

  /** Total size of the listed transactions that are in `c`. */
  function Sizes(pool: TxnPool, hs: seq<Hash>, c: set<Hash>): nat
    requires AllIn(hs, pool)
  {
    if hs == [] then 0
    else
      var h := hs[|hs| - 1];
      assert h in hs && forall x :: x in hs[..|hs| - 1] ==> x in hs;
      Sizes(pool, hs[..|hs| - 1], c) + if h in c then pool[h].size else 0
  }

  lemma {:induction false} SizesConcat(pool: TxnPool, a: seq<Hash>, b: seq<Hash>, c: set<Hash>)
    requires AllIn(a, pool) && AllIn(b, pool)
    ensures AllIn(a + b, pool) && Sizes(pool, a + b, c) == Sizes(pool, a, c) + Sizes(pool, b, c)
  {
    if b == [] {
      assert a + b == a;
    } else {
      assert b[|b| - 1] in b && forall x :: x in b[..|b| - 1] ==> x in b;
      SizesConcat(pool, a, b[..|b| - 1], c);
      assert (a + b)[..|a + b| - 1] == a + b[..|b| - 1];
    }
  }

  lemma SizesSplit(pool: TxnPool, hs: seq<Hash>, c: set<Hash>)
    requires AllIn(hs, pool) && hs != []
    ensures AllIn(hs[1..], pool) && hs[0] in pool
    ensures Sizes(pool, hs, c) == Sizes(pool, hs[1..], c) + if hs[0] in c then pool[hs[0]].size else 0
    ensures AllIn(hs[1..] + [hs[0]], pool) && Sizes(pool, hs[1..] + [hs[0]], c) == Sizes(pool, hs, c)
  {
    var a, b := [hs[0]], hs[1..];
    assert hs == a + b && a[..0] == [];
    assert AllIn(a, pool) && AllIn(b, pool);
    SizesConcat(pool, a, b, c);
    SizesConcat(pool, b, a, c);
  }

  lemma {:induction false} SizesNone(pool: TxnPool, hs: seq<Hash>, c: set<Hash>)
    requires AllIn(hs, pool) && forall h :: h in hs ==> h !in c
    ensures Sizes(pool, hs, c) == 0
  {
    if hs != [] {
      assert hs[|hs| - 1] in hs && forall x :: x in hs[..|hs| - 1] ==> x in hs;
      SizesNone(pool, hs[..|hs| - 1], c);
    }
  }

  /** What the block has and what the queue has of `c` stay the same together, if only members of `c` are admitted. */
  lemma PassSizes(a: Assembly, c: set<Hash>)
    requires Ready(a) && (!Finished(a) && CanAdmit(a.s, a.s.pending[0]) ==> a.s.pending[0] in c)
    ensures Pass(a).size + Sizes(a.s.txnPool, Pass(a).s.pending, c) == a.size + Sizes(a.s.txnPool, a.s.pending, c)
  {
    hide CanAdmit, Sizes;
    if !Finished(a) { SizesSplit(a.s.txnPool, a.s.pending, c); }
  }

  // ---------------------------------------------------------------- a dead input

  lemma {:induction false} SizesKept(a: Assembly, n: nat)
    requires Ready(a)
    ensures Passes(a, n).s.txnPool == a.s.txnPool && Elems(Passes(a, n).s.pending) <= Elems(a.s.pending)
    ensures Passes(a, n).size + Sizes(a.s.txnPool, Passes(a, n).s.pending, Elems(a.s.pending)) ==
            a.size + Sizes(a.s.txnPool, a.s.pending, Elems(a.s.pending))
  {
    if n > 0 {
      SizesKept(a, n - 1);
      var b := Passes(a, n - 1);
      PassPending(b);
      hide Pass, Sizes, CanAdmit;
      if !Finished(b) { assert b.s.pending[0] in Elems(b.s.pending); }
      PassSizes(b, Elems(a.s.pending));
    }
  }

  lemma PassPending(a: Assembly)
    requires Ready(a)
    ensures Elems(Pass(a).s.pending) <= Elems(a.s.pending)
    ensures forall h :: h in a.s.pending && h !in Pass(a).s.pending ==> !Finished(a) && CanAdmit(a.s, a.s.pending[0]) && h == a.s.pending[0]
  {
    hide CanAdmit;
    if !Finished(a) { assert a.s.pending == [a.s.pending[0]] + a.s.pending[1..]; }
  }

  /**
   A pending transaction with a dead input, in a queue that cannot fill the block, means that the
   loop never ends. All of this shows before the call.
   */
  lemma DeadInputNeverEnds(a: Assembly, h: Hash, k: Utxo, n: nat)
    requires Ready(a) && Dead(a.s, k) && h in a.s.pending && k in InKeys(a.s.txnPool[h])
    requires a.size + Sizes(a.s.txnPool, a.s.pending, Elems(a.s.pending)) <= MAX_BLOCK_SIZE
    ensures !Finished(Passes(a, n))
  {
    hide Passes, Sizes, Dead, InKeys;
    DeadInputBlocksAssembly(a, h, k, n);
    SizesKept(a, n);
  }

  /** One such queue: an empty manager records a single payment from a transaction that does not exist. */
  lemma AssemblyMayNeverEnd(rank: Hash -> nat, n: nat)
    ensures var t := Send(2, 7, [1], 8, 5, 0, true, 100);
            var a := Assembly(State(map[2 := t], map[], map[], {}, 0, [2], [], {}, {}), 0);
            Inv(a.s, rank) && Ready(a) && !Finished(Passes(a, n))
  {
    FirstPayment(rank);
    hide Inv;
    var t := Send(2, 7, [1], 8, 5, 0, true, 100);
    var a := Assembly(State(map[2 := t], map[], map[], {}, 0, [2], [], {}, {}), 0);
    assert a.s.pending[..0] == [];
    assert Sizes(a.s.txnPool, a.s.pending, Elems(a.s.pending)) <= 100;
    assert InKeys(t) == [Utxo(1, 7)] && OutKeys(t) == [Utxo(2, 8)];
    DeadInputNeverEnds(a, 2, Utxo(1, 7), n);
  }

  lemma FirstPayment(rank: Hash -> nat)
    ensures Inv(State(map[2 := Send(2, 7, [1], 8, 5, 0, true, 100)], map[], map[], {}, 0, [2], [], {}, {}), rank)
  {
    hide Inv;
    var t := Send(2, 7, [1], 8, 5, 0, true, 100);
    var s := State(map[], map[], map[], {}, GENESIS, [], [], {}, {});
    EmptyInv(rank);
    RecordKeeps(s, rank, t);
    assert s.txnPool[2 := t] == map[2 := t] && s.pending + [2] == [2];
  }

  // ---------------------------------------------------------------- the closure

  /** The output is there and not spent, or a transaction of `c` creates it. */
  ghost predicate Provided(s: State, k: Utxo, c: set<Hash>) {
    && k !in s.utxoSpent
    && (k in s.utxo || k in s.newUtxo || exists h :: h in c && h in s.txnPool && k in OutKeys(s.txnPool[h]))
  }

  ghost predicate Enabled(s: State, h: Hash, c: set<Hash>)
    requires h in s.txnPool
  {
    ScriptOk(s.txnPool[h]) && forall k :: k in InKeys(s.txnPool[h]) ==> Provided(s, k, c)
  }

  ghost predicate Closed(s: State, c: set<Hash>) {
    forall h :: h in s.pending && h in s.txnPool && Enabled(s, h, c) ==> h in c
  }

  /** The pending transactions in every closed set. */
  ghost function Closure(s: State): set<Hash> {
    set h | h in s.pending && forall c {:trigger Closed(s, c)} :: Closed(s, c) ==> h in c
  }

  lemma EnabledMore(s: State, h: Hash, c: set<Hash>, c': set<Hash>)
    requires h in s.txnPool && c <= c' && Enabled(s, h, c)
    ensures Enabled(s, h, c')
  {
    hide InKeys, OutKeys;
    forall k | k in InKeys(s.txnPool[h]) ensures Provided(s, k, c') { assert Provided(s, k, c); }
  }

  lemma ClosureClosed(s: State)
    ensures Closed(s, Closure(s))
  {
    hide Enabled;
    forall h | h in s.pending && h in s.txnPool && Enabled(s, h, Closure(s)) ensures h in Closure(s) {
      forall c | Closed(s, c) ensures h in c { EnabledMore(s, h, Closure(s), c); }
    }
  }

  /** No two pending transactions want the same output. */
  ghost predicate NoSharing(s: State)
    requires AllIn(s.pending, s.txnPool)
  {
    forall h, h' :: h in s.pending && h' in s.pending && h != h' ==>
      Elems(InKeys(s.txnPool[h])) !! Elems(InKeys(s.txnPool[h']))
  }

  // ---------------------------------------------------------------- the loop against the closure

  /** Who has left the queue of `s` in `b`. */
  ghost function Gone(s: State, b: State): set<Hash> {
    Elems(s.pending) - Elems(b.pending)
  }

  /** Outputs and inputs of those who left, and of nobody else, are what the block has gained. */
  ghost predicate Gained(s: State, b: State)
    requires AllIn(s.pending, s.txnPool)
  {
    && b.txnPool == s.txnPool && b.utxo == s.utxo && Elems(b.pending) <= Elems(s.pending) && Distinct(b.pending)
    && (forall k :: k in b.newUtxo <==> k in s.newUtxo || exists h :: h in Gone(s, b) && k in OutKeys(s.txnPool[h]))
    && (forall k :: k in b.utxoSpent <==> k in s.utxoSpent || exists h :: h in Gone(s, b) && k in InKeys(s.txnPool[h]))
  }

  /** Against the original queue, a transaction can be admitted exactly if those who left enable it. */
  lemma AdmitIsEnabled(s: State, b: State, h: Hash)
    requires AllIn(s.pending, s.txnPool) && NoSharing(s) && Gained(s, b) && h in b.pending
    ensures h in s.txnPool && (CanAdmit(b, h) <==> Enabled(s, h, Gone(s, b)))
  {
    hide InKeys, OutKeys, ScriptOk, Distinct;
    assert h in Elems(b.pending) && h in Elems(s.pending);
    var ks := InKeys(s.txnPool[h]);
    forall k | k in ks ensures k in b.utxoSpent <==> k in s.utxoSpent {
      assert k in Elems(ks);
      forall h' | h' in Gone(s, b) ensures k !in InKeys(s.txnPool[h']) {
        assert h' in s.pending && h' != h;
        assert k !in Elems(InKeys(s.txnPool[h']));
      }
    }
    forall k | k in ks ensures k in Spendable(b) <==> Provided(s, k, Gone(s, b)) {
      assert forall h' :: h' in Gone(s, b) ==> h' in s.txnPool;
    }
  }

  lemma GoneMore(s: State, b: State, b': State, h: Hash)
    requires h in b.pending && Elems(b.pending) <= Elems(s.pending) && Elems(b'.pending) == Elems(b.pending) - {h}
    ensures Gone(s, b') == Gone(s, b) + {h}
  {
    assert h in Elems(b.pending);
  }

  lemma PassGained(s: State, a: Assembly)
    requires AllIn(s.pending, s.txnPool) && Ready(a) && Gained(s, a.s)
    ensures Gained(s, Pass(a).s)
    ensures Gone(s, Pass(a).s) == Gone(s, a.s) + if !Finished(a) && CanAdmit(a.s, a.s.pending[0]) then {a.s.pending[0]} else {}
  {
    hide InKeys, OutKeys, CanAdmit, Distinct;
    if !Finished(a) {
      var h, rest := a.s.pending[0], a.s.pending[1..];
      assert a.s.pending == [h] + rest;
      DistinctConcat([h], rest);
      DistinctConcat(rest, [h]);
      assert Elems([h]) == {h} && Elems(rest + [h]) == Elems(a.s.pending);
      if CanAdmit(a.s, h) {
        assert Elems(rest) == Elems(a.s.pending) - {h};
        GoneMore(s, a.s, Pass(a).s, h);
        assert h in Elems(s.pending);
      }
    }
  }

  /** Whoever leaves the queue is in the closure, and sizes are kept. */
  lemma {:induction false} PassesInClosure(a: Assembly, n: nat)
    requires Ready(a) && Distinct(a.s.pending) && NoSharing(a.s)
    ensures var b := Passes(a, n);
            && Gained(a.s, b.s) && Gone(a.s, b.s) <= Closure(a.s)
            && b.size + Sizes(a.s.txnPool, b.s.pending, Closure(a.s)) == a.size + Sizes(a.s.txnPool, a.s.pending, Closure(a.s))
  {
    hide NoSharing, Closure, Sizes, Distinct, InKeys, OutKeys, Pass, CanAdmit;
    var s, c := a.s, Closure(a.s);
    if n == 0 {
      assert Gone(s, s) == {};
    } else {
      PassesInClosure(a, n - 1);
      var b := Passes(a, n - 1);
      hide Gained;
      GainedPool(s, b.s);
      if !Finished(b) && CanAdmit(b.s, b.s.pending[0]) {
        AdmitIsEnabled(s, b.s, b.s.pending[0]);
        AdmittedInClosure(s, b.s, b.s.pending[0]);
      }
      PassGained(s, b);
      PassSizes(b, c);
    }
  }

  lemma GainedPool(s: State, b: State)
    requires AllIn(s.pending, s.txnPool) && Gained(s, b)
    ensures b.txnPool == s.txnPool && Elems(b.pending) <= Elems(s.pending)
  {
  }

  lemma AdmittedInClosure(s: State, b: State, h: Hash)
    requires AllIn(s.pending, s.txnPool) && Elems(b.pending) <= Elems(s.pending) && h in b.pending
    requires Gone(s, b) <= Closure(s) && h in s.txnPool && Enabled(s, h, Gone(s, b))
    ensures h in Closure(s)
  {
    hide Closure, Enabled;
    assert h in Elems(b.pending) && h in Elems(s.pending);
    EnabledMore(s, h, Gone(s, b), Closure(s));
    ClosureClosed(s);
  }

  /** When nothing can be admitted any more, the whole closure has left the queue. */
  lemma StuckIsClosed(s: State, b: State)
    requires AllIn(s.pending, s.txnPool) && NoSharing(s) && Gained(s, b)
    requires forall h :: h in b.pending ==> h in b.txnPool && !CanAdmit(b, h)
    ensures forall h :: h in b.pending ==> h !in Closure(s)
  {
    hide Enabled, CanAdmit, NoSharing, Gained;
    GainedPool(s, b);
    var gone := Gone(s, b);
    forall h | h in s.pending && h in s.txnPool && Enabled(s, h, gone) ensures h in gone {
      assert h in Elems(s.pending);
      if h in b.pending { AdmitIsEnabled(s, b, h); }
    }
    assert Closed(s, gone);
    forall h | h in b.pending ensures h !in gone { assert h in Elems(b.pending); }
  }

  /**
   The exact condition. If no two pending transactions want the same output, the loop never ends
   if and only if the closure is not the whole queue and still fits into the block.
   */
  lemma NeverEndsIff(a: Assembly)
    requires Ready(a) && Distinct(a.s.pending) && NoSharing(a.s)
    ensures (forall n: nat :: !Finished(Passes(a, n))) <==>
            && (exists h :: h in a.s.pending && h !in Closure(a.s))
            && a.size + Sizes(a.s.txnPool, a.s.pending, Closure(a.s)) <= MAX_BLOCK_SIZE
  {
    hide Pass, Passes, Sizes, Closure, NoSharing, Gained, CanAdmit, Distinct;
    var fits := a.size + Sizes(a.s.txnPool, a.s.pending, Closure(a.s)) <= MAX_BLOCK_SIZE;
    if fits && exists h :: h in a.s.pending && h !in Closure(a.s) {
      var h :| h in a.s.pending && h !in Closure(a.s);
      forall n: nat ensures !Finished(Passes(a, n)) { OutsiderStays(a, h, n); }
    }
    var bound := Triangle(|a.s.pending|);
    AssemblyTerminates(a);
    if !Finished(Passes(a, bound)) { StuckOutsider(a, bound); }
  }

  lemma OutsiderStays(a: Assembly, h: Hash, n: nat)
    requires Ready(a) && Distinct(a.s.pending) && NoSharing(a.s) && h in a.s.pending && h !in Closure(a.s)
    requires a.size + Sizes(a.s.txnPool, a.s.pending, Closure(a.s)) <= MAX_BLOCK_SIZE
    ensures !Finished(Passes(a, n))
  {
    hide Passes, Sizes, Closure, NoSharing, Gained, Distinct;
    PassesInClosure(a, n);
    assert h in Elems(a.s.pending);
    assert h in Elems(Passes(a, n).s.pending);
  }

  lemma StuckOutsider(a: Assembly, n: nat)
    requires Ready(a) && Distinct(a.s.pending) && NoSharing(a.s) && Stuck(Passes(a, n))
    ensures exists h :: h in a.s.pending && h !in Closure(a.s)
    ensures a.size + Sizes(a.s.txnPool, a.s.pending, Closure(a.s)) <= MAX_BLOCK_SIZE
  {
    hide Passes, Sizes, Closure, NoSharing, Gained, Distinct, CanAdmit;
    var b := Passes(a, n);
    PassesInClosure(a, n);
    GainedPool(a.s, b.s);
    StuckIsClosed(a.s, b.s);
    SizesNone(a.s.txnPool, b.s.pending, Closure(a.s));
    var h := b.s.pending[0];
    assert h in Elems(b.s.pending) && h in Elems(a.s.pending);
  }
}
