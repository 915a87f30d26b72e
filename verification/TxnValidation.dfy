/**
 The transaction validation stage. Transactions may arrive before the transactions whose outputs
 they spend; they then wait, filed under each missing input, and are looked at again when one
 arrives.

 The reference is a least fixpoint: a received transaction is acceptable if it is a Grant, or a
 balanced Send by the owner of inputs that are acceptable themselves. The stage accepts exactly
 the least such set, whatever the order and the batching of arrivals.
 */
module TxnValidation {
  import opened Collections
  import opened Ledger
  import opened Values

  type NodeId = nat
  datatype Emission = Emission(src: NodeId, txn: Txn)
  datatype Waiting = Waiting(txn: Txn, src: NodeId)
  type Pending = map<Hash, map<Hash, Waiting>>

  // ---------------------------------------------------------------- the reference

  ghost predicate Inputs(t: Txn, s: set<Hash>) {
    t.Send? ==> forall d :: d in t.inputs ==> d in s
  }

  /** `s` contains every received transaction that is valid and has all its inputs in `s`. */
  ghost predicate Closed(received: TxnPool, s: set<Hash>) {
    forall h :: h in received && Inputs(received[h], s) && Rightful(received, received[h]) ==> h in s
  }

  /** Membership in the least closed set. */
  ghost predicate Acceptable(received: TxnPool, h: Hash) {
    h in received && forall s :: Closed(received, s) ==> h in s
  }

  lemma {:induction false} InputValueAgrees(pool: TxnPool, received: TxnPool, who: PubKey, inputs: seq<Hash>)
    requires SubPool(pool, received) && forall d :: d in inputs ==> d in pool
    ensures InputValue(pool, who, inputs) == InputValue(received, who, inputs)
  {
    if inputs != [] {
      assert forall d :: d in inputs[..|inputs| - 1] ==> d in inputs;
      InputValueAgrees(pool, received, who, inputs[..|inputs| - 1]);
    }
  }

  /** Once the inputs are pooled, the verdict no longer changes. */
  lemma VerdictFinal(pool: TxnPool, received: TxnPool, t: Txn)
    requires SubPool(pool, received) && Inputs(t, pool.Keys)
    ensures ValidTxn(pool, t) <==> ValidTxn(received, t)
  {
    if t.Send? { InputValueAgrees(pool, received, t.sender, t.inputs); }
  }

  // ---------------------------------------------------------------- the invariant

  ghost predicate Filed(pending: Pending, d: Hash, h: Hash) {
    d in pending && h in pending[d]
  }

  /** All inputs are known, and the transaction is invalid. */
  ghost predicate Doomed(pool: TxnPool, t: Txn) {
    Inputs(t, pool.Keys) && !ValidTxn(pool, t)
  }

  /** The transaction waits for an input that has not been accepted. */
  ghost predicate Waits(pool: TxnPool, pending: Pending, t: Txn) {
    t.Send? && exists d :: d in t.inputs && d !in pool && Filed(pending, d, t.id)
  }

  /** Every received transaction is accepted, in hand, doomed or waiting. */
  ghost predicate Accounted(received: TxnPool, pool: TxnPool, pending: Pending, loose: set<Hash>) {
    forall h :: h in received ==> h in pool || h in loose || Doomed(pool, received[h]) || Waits(pool, pending, received[h])
  }

  ghost predicate FilesOk(received: TxnPool, pool: TxnPool, pending: Pending) {
    && (forall d :: d in pending ==> d !in pool)
    && (forall d, h :: Filed(pending, d, h) ==> h in received && pending[d][h].txn == received[h])
  }

  /** Acceptances so far: each at most once, and after all its inputs. */
  ghost predicate ParentsFirst(received: TxnPool, log: seq<Hash>) {
    && Distinct(log)
    && (forall i :: 0 <= i < |log| ==> log[i] in received && ValidTxn(received, received[log[i]]))
    && (forall i :: 0 <= i < |log| ==> log[i] in received && Inputs(received[log[i]], Elems(log[..i])))
  }

  ghost predicate Inv(received: TxnPool, pool: TxnPool, pending: Pending, log: seq<Hash>, loose: set<Hash>) {
    && (forall h :: h in received ==> received[h].id == h)
    && SubPool(pool, received) && pool.Keys == Elems(log)
    && ParentsFirst(received, log) && FilesOk(received, pool, pending)
    && Accounted(received, pool, pending, loose)
  }

  // ---------------------------------------------------------------- consequences

  lemma {:induction false} LogInClosed(received: TxnPool, log: seq<Hash>, s: set<Hash>, i: nat)
    requires ParentsFirst(received, log) && Closed(received, s) && i <= |log|
    ensures Elems(log[..i]) <= s
  {
    hide ValidTxn, Rightful, Distinct;
    if i > 0 {
      LogInClosed(received, log, s, i - 1);
      ValidIff(received, received[log[i - 1]]);
      assert log[..i] == log[..i - 1] + [log[i - 1]];
      assert log[i - 1] in s;
    }
  }

  lemma PoolClosed(received: TxnPool, pool: TxnPool, pending: Pending, log: seq<Hash>)
    requires Inv(received, pool, pending, log, {})
    ensures Closed(received, pool.Keys)
  {
    hide ValidTxn, Rightful, ParentsFirst, FilesOk;
    forall h | h in received && Inputs(received[h], pool.Keys) && Rightful(received, received[h]) ensures h in pool {
      ValidIff(received, received[h]);
      VerdictFinal(pool, received, received[h]);
      assert !Doomed(pool, received[h]) && !Waits(pool, pending, received[h]);
    }
  }

  /** The stage's pool is the least fixpoint. */
  lemma PoolIsLeastFixpoint(received: TxnPool, pool: TxnPool, pending: Pending, log: seq<Hash>)
    requires Inv(received, pool, pending, log, {})
    ensures forall h :: h in pool <==> Acceptable(received, h)
  {
    PoolClosed(received, pool, pending, log);
    forall h | h in pool ensures Acceptable(received, h) {
      forall s | Closed(received, s) ensures h in s {
        LogInClosed(received, log, s, |log|);
        assert log[..|log|] == log;
      }
    }
  }

  /** One step of the fixpoint: accepted are exactly the received transactions that spend accepted ones rightfully. */
  lemma PoolIsFixpoint(received: TxnPool, pool: TxnPool, pending: Pending, log: seq<Hash>, h: Hash)
    requires Inv(received, pool, pending, log, {}) && h in received
    ensures h in pool <==> Rightful(pool, received[h])
  {
    hide ValidTxn, Rightful, FilesOk;
    var t := received[h];
    ValidIff(pool, t);
    if h in pool {
      var i :| 0 <= i < |log| && log[i] == h;
      assert forall d :: d in Elems(log[..i]) ==> d in Elems(log);
      VerdictFinal(pool, received, t);
    }
    if ValidTxn(pool, t) {
      ValidOwns(pool, t);
      assert Inputs(t, pool.Keys) && !Waits(pool, pending, t);
    }
  }

  /** Whatever was accepted spends only what its sender owns. */
  lemma PoolOwned(received: TxnPool, pool: TxnPool, pending: Pending, log: seq<Hash>, h: Hash, d: Hash)
    requires Inv(received, pool, pending, log, {}) && h in pool && pool[h].Send? && d in pool[h].inputs
    ensures d in pool && (pool[d].receiver == pool[h].sender || (pool[d].Send? && pool[d].sender == pool[h].sender))
  {
    hide ValidTxn, ParentsFirst, FilesOk, Accounted, Shares;
    PoolIsFixpoint(received, pool, pending, log, h);
  }

  /** Order and batching do not matter: the same transactions received give the same pool. */
  lemma OrderIrrelevant(received: TxnPool, pool1: TxnPool, pending1: Pending, log1: seq<Hash>,
                        pool2: TxnPool, pending2: Pending, log2: seq<Hash>)
    requires Inv(received, pool1, pending1, log1, {}) && Inv(received, pool2, pending2, log2, {})
    ensures pool1 == pool2
  {
    hide Acceptable, Accounted, FilesOk, ParentsFirst;
    PoolIsLeastFixpoint(received, pool1, pending1, log1);
    PoolIsLeastFixpoint(received, pool2, pending2, log2);
    assert pool1.Keys == pool2.Keys;
  }

  // ---------------------------------------------------------------- steps

  lemma ValidGrows(received: TxnPool, received': TxnPool, t: Txn)
    requires SubPool(received, received') && ValidTxn(received, t)
    ensures ValidTxn(received', t)
  {
    if t.Send? { InputValueMonotone(received, received', t.sender, t.inputs); }
  }

  /** A transaction arrives: it is in hand. */
  lemma ArriveKeeps(received: TxnPool, pool: TxnPool, pending: Pending, log: seq<Hash>, t: Txn)
    requires Inv(received, pool, pending, log, {}) && (t.id in received ==> received[t.id] == t)
    ensures Inv(received[t.id := t], pool, pending, log, {t.id})
  {
    hide ValidTxn, Doomed, Waits, Inputs, Distinct;
    var received' := received[t.id := t];
    forall i | 0 <= i < |log| ensures ValidTxn(received', received'[log[i]]) {
      ValidGrows(received, received', received[log[i]]);
    }
  }

  /** The transaction in hand is accepted: those that waited for it are in hand now. */
  lemma AcceptAccounts(received: TxnPool, pool: TxnPool, pending: Pending, t: Txn, loose: set<Hash>)
    requires Accounted(received, pool, pending, loose + {t.id}) && (forall h :: h in received ==> received[h].id == h)
    requires t.id !in pool
    ensures var kids := if t.id in pending then pending[t.id].Keys else {};
            Accounted(received, pool[t.id := t], pending - {t.id}, loose + kids)
  {
    hide ValidTxn;
    var kids := if t.id in pending then pending[t.id].Keys else {};
    var pool', pending' := pool[t.id := t], pending - {t.id};
    forall h | h in received && h !in pool' && h !in loose + kids
      ensures Doomed(pool', received[h]) || Waits(pool', pending', received[h]) {
      if Doomed(pool, received[h]) {
        VerdictFinal(pool, pool', received[h]);
      } else {
        var d :| d in received[h].inputs && d !in pool && Filed(pending, d, h);
        assert d != t.id && Filed(pending', d, h);
      }
    }
  }

  lemma AcceptLog(received: TxnPool, pool: TxnPool, log: seq<Hash>, t: Txn)
    requires ParentsFirst(received, log) && pool.Keys == Elems(log) && SubPool(pool, received)
    requires t.id in received && received[t.id] == t && t.id !in pool && Inputs(t, pool.Keys) && ValidTxn(pool, t)
    ensures ParentsFirst(received, log + [t.id]) && Elems(log + [t.id]) == pool.Keys + {t.id}
  {
    hide ValidTxn;
    VerdictFinal(pool, received, t);
    var log' := log + [t.id];
    DistinctConcat(log, [t.id]);
    forall i | 0 <= i < |log'| ensures Inputs(received[log'[i]], Elems(log'[..i])) {
      assert log'[..i] == if i < |log| then log[..i] else log;
    }
  }

  lemma AcceptKeeps(received: TxnPool, pool: TxnPool, pending: Pending, log: seq<Hash>, t: Txn, loose: set<Hash>)
    requires Inv(received, pool, pending, log, loose + {t.id})
    requires t.id in received && received[t.id] == t && t.id !in pool && Inputs(t, pool.Keys) && ValidTxn(pool, t)
    ensures var kids := if t.id in pending then pending[t.id].Keys else {};
            Inv(received, pool[t.id := t], pending - {t.id}, log + [t.id], loose + kids)
  {
    hide ValidTxn, ParentsFirst, Accounted, Elems, Inputs;
    AcceptAccounts(received, pool, pending, t, loose);
    AcceptLog(received, pool, log, t);
    assert forall d, h :: Filed(pending - {t.id}, d, h) ==> Filed(pending, d, h);
  }

  /** The transaction in hand is filed under a missing input, and thereby waits. */
  function FileUnder(pending: Pending, d: Hash, w: Waiting): Pending {
    var siblings := if d in pending then pending[d] else map[];
    pending[d := if w.txn.id in siblings then siblings else siblings[w.txn.id := w]]
  }

  lemma FileKeeps(received: TxnPool, pool: TxnPool, pending: Pending, log: seq<Hash>, d: Hash, w: Waiting, loose: set<Hash>)
    requires Inv(received, pool, pending, log, loose + {w.txn.id}) && d !in pool
    requires w.txn.Send? && d in w.txn.inputs && w.txn.id in received && received[w.txn.id] == w.txn
    ensures Inv(received, pool, FileUnder(pending, d, w), log, loose)
  {
    hide ValidTxn, ParentsFirst, Inputs;
    var pending' := FileUnder(pending, d, w);
    assert forall e, h :: Filed(pending', e, h) <==> Filed(pending, e, h) || (e == d && h == w.txn.id);
    assert Waits(pool, pending', w.txn);
    forall h | h in received && Waits(pool, pending, received[h]) ensures Waits(pool, pending', received[h]) {
      var e :| e in received[h].inputs && e !in pool && Filed(pending, e, received[h].id);
      assert Filed(pending', e, received[h].id);
    }
  }

  lemma DropLoose(received: TxnPool, pool: TxnPool, pending: Pending, log: seq<Hash>, h: Hash, loose: set<Hash>)
    requires Inv(received, pool, pending, log, loose + {h})
    requires h in pool || (h in received && Doomed(pool, received[h]))
    ensures Inv(received, pool, pending, log, loose)
  {
    hide ValidTxn, ParentsFirst, Waits, Doomed, FilesOk;
  }

  // ---------------------------------------------------------------- the stage

  /** Result of checking one transaction against the pool. */
  datatype Verdict = Missing(deps: seq<Hash>) | Checked(valid: bool)

  /** Whatever waits was delivered, by the source it is filed with. */
  ghost predicate Sourced(pending: Pending, arrived: set<Emission>) {
    forall d, h :: Filed(pending, d, h) ==> Emission(pending[d][h].src, pending[d][h].txn) in arrived
  }

  lemma FileSourced(pending: Pending, d: Hash, w: Waiting, arrived: set<Emission>)
    requires Sourced(pending, arrived) && Emission(w.src, w.txn) in arrived
    ensures Sourced(FileUnder(pending, d, w), arrived)
  {
  }

  ghost predicate Consistent(arrived: set<Emission>, received: TxnPool) {
    forall e :: e in arrived ==> e.txn.id in received && received[e.txn.id] == e.txn
  }

  /** Accepted transactions that were delivered are pooled as they were delivered. */
  lemma EmittedPooled(received: TxnPool, pool: TxnPool, pending: Pending, log: seq<Hash>, before: seq<Hash>, out: seq<Emission>, arrived: set<Emission>)
    requires Inv(received, pool, pending, log, {}) && log == before + EmittedIds(out) && Consistent(arrived, received)
    requires forall e :: e in out ==> e in arrived
    ensures forall i :: 0 <= i < |out| ==> out[i].txn.id in pool && pool[out[i].txn.id] == out[i].txn
  {
    hide ParentsFirst, FilesOk, Accounted;
    forall i | 0 <= i < |out| ensures out[i].txn.id in pool && pool[out[i].txn.id] == out[i].txn {
      assert log[|before| + i] == out[i].txn.id && out[i].txn.id in Elems(log);
      assert out[i] in out;
    }
  }

  lemma SourcedMore(pending: Pending, arrived: set<Emission>, e: Emission)
    requires Sourced(pending, arrived)
    ensures Sourced(pending, arrived + {e})
  {
  }

  class Validator {
    var txnPool: TxnPool
    var pendingTxns: Pending
    ghost var received: TxnPool
    ghost var log: seq<Hash>
    /** What was delivered, and by whom. */
    ghost var arrived: set<Emission>

    ghost predicate ValidBut(loose: set<Hash>)
      reads this
    {
      Inv(received, txnPool, pendingTxns, log, loose)
    }

    ghost predicate Valid()
      reads this
    {
      ValidBut({})
    }

    constructor ()
      ensures Valid() && received == map[] && txnPool == map[] && log == [] && arrived == {}
      ensures Sourced(pendingTxns, arrived) && Consistent(arrived, received)
    {
      txnPool, pendingTxns, received, log, arrived := map[], map[], map[], [], {};
    }

    /** The inputs that are not pooled. */
    method MissingInputs(inputs: seq<Hash>) returns (deps: seq<Hash>)
      ensures forall d :: d in deps <==> d in inputs && d !in txnPool
    {
      deps := [];
      for i := 0 to |inputs|
        invariant forall d :: d in deps <==> d in inputs[..i] && d !in txnPool
      {
        assert inputs[..i + 1] == inputs[..i] + [inputs[i]];
        if inputs[i] !in txnPool { deps := deps + [inputs[i]]; }
      }
      assert inputs[..|inputs|] == inputs;
    }

    /** Ownership and balance, once all inputs are pooled. */
    method CheckValue(t: Txn) returns (valid: bool)
      requires t.Send? && forall d :: d in t.inputs ==> d in txnPool
      ensures valid <==> Rightful(txnPool, t)
      ensures valid <==> ValidTxn(txnPool, t)
      // nobody spends what belongs to others
      ensures valid ==> forall h :: h in t.inputs ==>
                h in txnPool && (txnPool[h].receiver == t.sender || (txnPool[h].Send? && txnPool[h].sender == t.sender))
    {
      hide Rightful;
      ValidIff(txnPool, t);
      if ValidTxn(txnPool, t) { ValidOwns(txnPool, t); }
      var value := 0;
      for i := 0 to |t.inputs|
        invariant InputValue(txnPool, t.sender, t.inputs[..i]) == Some(value)
      {
        assert t.inputs[..i + 1][..i] == t.inputs[..i];
        assert t.inputs[i] in t.inputs;
        var share := ValueTo(txnPool[t.inputs[i]], t.sender);
        if share.None? {
          InputValueFails(txnPool, t.sender, t.inputs, i + 1);
          return false;
        }
        value := value + share.value;
      }
      assert t.inputs[..|t.inputs|] == t.inputs;
      return value == t.out + t.remainder;
    }

    /** List the missing inputs, or decide ownership and balance if there are none. */
    method ValidateTxn(t: Txn) returns (v: Verdict)
      ensures v.Missing? <==> !Inputs(t, txnPool.Keys)
      ensures v.Missing? ==> v.deps != [] && forall d :: d in v.deps <==> t.Send? && d in t.inputs && d !in txnPool
      ensures v.Checked? ==> (v.valid <==> Rightful(txnPool, t))
      ensures v.Checked? ==> (v.valid <==> ValidTxn(txnPool, t))
      ensures v.Checked? && v.valid && t.Send? ==> forall h :: h in t.inputs ==>
                h in txnPool && (txnPool[h].receiver == t.sender || (txnPool[h].Send? && txnPool[h].sender == t.sender))
    {
      hide InputValue;
      if t.Grant? { return Checked(true); }
      var deps := MissingInputs(t.inputs);
      if deps != [] {
        assert deps[0] in deps;
        return Missing(deps);
      }
      var valid := CheckValue(t);
      return Checked(valid);
    }

    /** File a transaction under each of its missing inputs. */
    method FileUnderAll(deps: seq<Hash>, w: Waiting, ghost loose: set<Hash>)
      requires ValidBut(loose + {w.txn.id}) && deps != []
      requires w.txn.Send? && w.txn.id in received && received[w.txn.id] == w.txn
      requires forall d :: d in deps ==> d in w.txn.inputs && d !in txnPool
      requires Sourced(pendingTxns, arrived) && Emission(w.src, w.txn) in arrived
      modifies this`pendingTxns
      ensures ValidBut(loose) && Sourced(pendingTxns, arrived)
    {
      hide Inv, Sourced;
      for i := 0 to |deps|
        invariant ValidBut(if i == 0 then loose + {w.txn.id} else loose) && Sourced(pendingTxns, arrived)
      {
        ghost var rest := if i == 0 then loose else loose - {w.txn.id};
        if i > 0 { MoreLoose(received, txnPool, pendingTxns, log, loose, rest + {w.txn.id}); }
        assert deps[i] in deps;
        FileKeeps(received, txnPool, pendingTxns, log, deps[i], w, rest);
        FileSourced(pendingTxns, deps[i], w, arrived);
        pendingTxns := FileUnder(pendingTxns, deps[i], w);
        MoreLoose(received, txnPool, pendingTxns, log, rest, loose);
      }
    }

    /**
     Look at a transaction in hand: accept it and all it completes, file it, or drop it. `loose`
     are the transactions that callers still have in hand.
     */
    method ValidateInner(src: NodeId, t: Txn, ghost loose: set<Hash>) returns (out: seq<Emission>)
      requires ValidBut(loose + {t.id}) && t.id in received && received[t.id] == t
      requires Sourced(pendingTxns, arrived) && Emission(src, t) in arrived
      modifies this`txnPool, this`pendingTxns, this`log
      ensures ValidBut(loose) && log == old(log) + EmittedIds(out)
      ensures Sourced(pendingTxns, arrived) && forall e :: e in out ==> e in arrived
      ensures SubPool(old(txnPool), txnPool)
      decreases received.Keys - txnPool.Keys
    {
      hide Inv, ValidTxn, EmittedIds, Inputs;
      ghost var log0 := log;
      NoEmissions();
      if t.id in txnPool {
        DropLoose(received, txnPool, pendingTxns, log, t.id, loose);
        return [];
      }
      var v := ValidateTxn(t);
      if v.Missing? {
        MissingSend(t, txnPool.Keys);
        FileUnderAll(v.deps, Waiting(t, src), loose);
        return [];
      }
      if !v.valid {
        DropLoose(received, txnPool, pendingTxns, log, t.id, loose);
        return [];
      }
      AcceptKeeps(received, txnPool, pendingTxns, log, t, loose);
      ghost var pool0 := txnPool;
      txnPool := txnPool[t.id := t];
      log := log + [t.id];
      out := [Emission(src, t)];
      OneEmission(src, t);
      if t.id !in pendingTxns {
        assert pendingTxns - {t.id} == pendingTxns && loose + {} == loose;
        return;
      }
      var children := pendingTxns[t.id];
      assert forall c :: c in children ==> Filed(pendingTxns, t.id, c);
      pendingTxns := pendingTxns - {t.id};
      ChildrenReceived(received, pool0, old(pendingTxns), log0, t.id, loose + {t.id});
      var rest := children.Keys;
      while rest != {}
        invariant ValidBut(loose + rest) && log == log0 + EmittedIds(out)
        invariant SubPool(pool0[t.id := t], txnPool)
        invariant rest <= children.Keys && Sourced(pendingTxns, arrived) && forall e :: e in out ==> e in arrived
        decreases rest
      {
        var c :| c in rest;
        var Waiting(childTxn, childSrc) := children[c];
        ghost var all := loose + rest;
        rest := rest - {c};
        MoreLoose(received, txnPool, pendingTxns, log, all, loose + rest + {c});
        SmallerMeasure(received.Keys, pool0.Keys, txnPool.Keys, t.id);
        var more := ValidateInner(childSrc, childTxn, loose + rest);
        EmittedConcat(out, more);
        out := out + more;
      }
      assert loose + rest == loose;
    }

    /** One delivered transaction, with all that it completes. */
    method TakeOne(e: Emission) returns (out: seq<Emission>)
      requires Valid() && Sourced(pendingTxns, arrived) && Consistent(arrived, received)
      requires e.txn.id in received ==> received[e.txn.id] == e.txn
      modifies this
      ensures Valid() && Sourced(pendingTxns, arrived) && Consistent(arrived, received)
      ensures received == old(received)[e.txn.id := e.txn] && arrived == old(arrived) + {e}
      ensures log == old(log) + EmittedIds(out) && forall x :: x in out ==> x in arrived
    {
      hide Inv, EmittedIds, Sourced;
      var Emission(src, t) := e;
      ArriveKeeps(received, txnPool, pendingTxns, log, t);
      received := received[t.id := t];
      SourcedMore(pendingTxns, arrived, e);
      arrived := arrived + {e};
      assert {} + {t.id} == {t.id};
      out := ValidateInner(src, t, {});
    }

    /** Validate a batch; the result lists what is accepted by it, each after its inputs. */
    method Validate(batch: seq<Emission>) returns (out: seq<Emission>)
      requires Valid() && Sourced(pendingTxns, arrived) && Consistent(arrived, received)
      requires forall i :: 0 <= i < |batch| && batch[i].txn.id in received ==> received[batch[i].txn.id] == batch[i].txn
      requires forall i, j :: 0 <= i < |batch| && 0 <= j < |batch| && batch[i].txn.id == batch[j].txn.id ==>
                              batch[i].txn == batch[j].txn
      modifies this
      ensures Valid() && received == Arrivals(old(received), batch)
      ensures log == old(log) + EmittedIds(out)
      ensures forall h :: h in txnPool <==> Acceptable(received, h)
      // accepted is exactly what spends accepted transactions of its sender and is balanced
      ensures forall h :: h in received ==> (h in txnPool <==> Rightful(txnPool, received[h]))
      ensures forall h, d :: h in txnPool && txnPool[h].Send? && d in txnPool[h].inputs ==>
                d in txnPool && (txnPool[d].receiver == txnPool[h].sender || (txnPool[d].Send? && txnPool[d].sender == txnPool[h].sender))
      // what is emitted was delivered, now or before, by the source it is emitted with
      ensures Sourced(pendingTxns, arrived) && Consistent(arrived, received)
      ensures arrived == old(arrived) + Elems(batch) && forall e :: e in out ==> e in arrived
      ensures forall i :: 0 <= i < |out| ==> out[i].txn.id in txnPool && txnPool[out[i].txn.id] == out[i].txn
    {
      hide Inv, EmittedIds, Acceptable, Sourced, Consistent, Rightful;
      NoEmissions();
      out := [];
      assert batch[..0] == [];
      for i := 0 to |batch|
        invariant Valid() && received == Arrivals(old(received), batch[..i]) && log == old(log) + EmittedIds(out)
        invariant Sourced(pendingTxns, arrived) && Consistent(arrived, received)
        invariant arrived == old(arrived) + Elems(batch[..i]) && forall e :: e in out ==> e in arrived
      {
        ArrivalsAgree(old(received), batch, i);
        assert batch[..i + 1][..i] == batch[..i] && batch[..i + 1] == batch[..i] + [batch[i]];
        var more := TakeOne(batch[i]);
        EmittedConcat(out, more);
        out := out + more;
      }
      assert batch[..|batch|] == batch;
      PoolIsLeastFixpoint(received, txnPool, pendingTxns, log);
      forall h | h in received ensures h in txnPool <==> Rightful(txnPool, received[h]) {
        PoolIsFixpoint(received, txnPool, pendingTxns, log, h);
      }
      forall h, d | h in txnPool && txnPool[h].Send? && d in txnPool[h].inputs
        ensures d in txnPool && (txnPool[d].receiver == txnPool[h].sender || (txnPool[d].Send? && txnPool[d].sender == txnPool[h].sender))
      {
        PoolOwned(received, txnPool, pendingTxns, log, h, d);
      }
      EmittedPooled(received, txnPool, pendingTxns, log, old(log), out, arrived);
    }
  }

  // ---------------------------------------------------------------- bookkeeping of the stage's proofs

  function EmittedIds(out: seq<Emission>): seq<Hash> {
    seq(|out|, i requires 0 <= i < |out| => out[i].txn.id)
  }

  lemma NoEmissions()
    ensures EmittedIds([]) == [] && forall s: seq<Hash> :: s + [] == s
  {
  }

  lemma OneEmission(src: NodeId, t: Txn)
    ensures EmittedIds([Emission(src, t)]) == [t.id]
  {
  }

  lemma EmittedConcat(a: seq<Emission>, b: seq<Emission>)
    ensures EmittedIds(a + b) == EmittedIds(a) + EmittedIds(b)
    ensures forall s: seq<Hash> :: s + EmittedIds(a) + EmittedIds(b) == s + (EmittedIds(a) + EmittedIds(b))
  {
  }

  /** The transactions received after a batch. */
  ghost function Arrivals(received: TxnPool, batch: seq<Emission>): TxnPool {
    if batch == [] then received
    else Arrivals(received, batch[..|batch| - 1])[batch[|batch| - 1].txn.id := batch[|batch| - 1].txn]
  }

  lemma {:induction false} ArrivalsAgree(received: TxnPool, batch: seq<Emission>, i: nat)
    requires i < |batch|
    requires forall j :: 0 <= j < |batch| && batch[j].txn.id in received ==> received[batch[j].txn.id] == batch[j].txn
    requires forall j, k :: 0 <= j < |batch| && 0 <= k < |batch| && batch[j].txn.id == batch[k].txn.id ==>
                            batch[j].txn == batch[k].txn
    ensures var r := Arrivals(received, batch[..i]);
            forall j :: 0 <= j < |batch| && batch[j].txn.id in r ==> r[batch[j].txn.id] == batch[j].txn
  {
    if i > 0 {
      ArrivalsAgree(received, batch, i - 1);
      assert batch[..i][..i - 1] == batch[..i - 1] && batch[..i][i - 1] == batch[i - 1];
    }
  }

  lemma MissingSend(t: Txn, s: set<Hash>)
    requires !Inputs(t, s)
    ensures t.Send?
  {
  }

  lemma MoreLoose(received: TxnPool, pool: TxnPool, pending: Pending, log: seq<Hash>, loose: set<Hash>, loose': set<Hash>)
    requires Inv(received, pool, pending, log, loose) && loose <= loose'
    ensures Inv(received, pool, pending, log, loose')
  {
    hide ParentsFirst, FilesOk, Doomed, Waits;
  }

  lemma ChildrenReceived(received: TxnPool, pool: TxnPool, pending: Pending, log: seq<Hash>, d: Hash, loose: set<Hash>)
    requires Inv(received, pool, pending, log, loose) && d in pending
    ensures forall c :: c in pending[d] ==> c in received && pending[d][c].txn == received[c] && received[c].id == c
  {
    hide ParentsFirst, Accounted;
    forall c | c in pending[d] ensures c in received && pending[d][c].txn == received[c] { assert Filed(pending, d, c); }
  }

  lemma SmallerMeasure(received: set<Hash>, before: set<Hash>, after: set<Hash>, h: Hash)
    requires h in received && h !in before && before + {h} <= after
    ensures received - after < received - before
  {
    assert h in received - before && h !in received - after;
  }
}
