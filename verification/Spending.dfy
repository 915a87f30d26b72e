/**
 Replay without a running set: which outputs are unspent after a chain, and which chains replay,
 said of the transactions themselves.
 */
module Spending {
  import opened Collections
  import opened Ledger
  import opened ChainState

  /** A Grant pays its receiver. A Send pays its receiver unless the payment is 0, and its sender the change unless that is 0. */
  ghost predicate Creates(t: Txn, k: Utxo) {
    t.id == k.txn &&
    match t
    case Grant(_, receiver, _, _) => k.owner == receiver
    case Send(_, sender, _, receiver, out, remainder, _, _) =>
      (out > 0 && k.owner == receiver) || (remainder > 0 && k.owner == sender)
  }

  ghost predicate Spends(t: Txn, k: Utxo) {
    t.Send? && t.sender == k.owner && k.txn in t.inputs
  }

  /** After the first `n` transactions `k` exists: one of them created it, and none spent it since. */
  ghost predicate Unspent(ts: seq<Txn>, n: nat, k: Utxo)
    requires n <= |ts|
  {
    exists j :: 0 <= j < n && Creates(ts[j], k) && forall m :: j < m < n ==> !Spends(ts[m], k)
  }

  /** The i-th transaction has a script that succeeds, names no input twice, and its inputs are unspent. */
  ghost predicate Admissible(ts: seq<Txn>, i: nat)
    requires i < |ts|
  {
    var t := ts[i];
    t.Send? ==> t.scriptOk && Distinct(t.inputs) && forall h :: h in t.inputs ==> Unspent(ts, i, Utxo(h, t.sender))
  }

  lemma InKeysSpend(t: Txn, k: Utxo)
    ensures k in Elems(InKeys(t)) <==> Spends(t, k)
    ensures Distinct(InKeys(t)) <==> t.Send? ==> Distinct(t.inputs)
  {
    if t.Send? {
      var ks := InKeys(t);
      if Spends(t, k) {
        var i :| 0 <= i < |t.inputs| && t.inputs[i] == k.txn;
        assert ks[i] == k;
      }
      if Distinct(ks) {
        forall i, j | 0 <= i < j < |t.inputs| ensures t.inputs[i] != t.inputs[j] { assert ks[i] != ks[j]; }
      }
    }
  }

  lemma OutKeysCreate(t: Txn, k: Utxo)
    ensures k in Elems(OutKeys(t)) <==> Creates(t, k)
  {
    if t.Send? {
      var a := if t.out > 0 then [Utxo(t.id, t.receiver)] else [];
      var b := if t.remainder > 0 then [Utxo(t.id, t.sender)] else [];
      assert OutKeys(t) == a + b;
      assert k in a + b <==> k in a || k in b;
    }
  }

  /** An output exists after a transaction if it was created by it, or existed and was not spent by it. */
  lemma UnspentSnoc(ts: seq<Txn>, n: nat, k: Utxo)
    requires n < |ts|
    ensures Unspent(ts, n + 1, k) <==> Creates(ts[n], k) || (Unspent(ts, n, k) && !Spends(ts[n], k))
  {
    hide Creates, Spends;
    if Unspent(ts, n, k) && !Spends(ts[n], k) {
      var j :| 0 <= j < n && Creates(ts[j], k) && forall m :: j < m < n ==> !Spends(ts[m], k);
      assert forall m :: j < m < n + 1 ==> !Spends(ts[m], k);
    }
    if Unspent(ts, n + 1, k) && !Creates(ts[n], k) {
      var j :| 0 <= j < n + 1 && Creates(ts[j], k) && forall m :: j < m < n + 1 ==> !Spends(ts[m], k);
      assert j < n && !Spends(ts[n], k);
    }
  }

  lemma ApplyAt(t: Txn, s: set<Utxo>, k: Utxo)
    ensures k in Apply(t, s) <==> Creates(t, k) || (k in s && !Spends(t, k))
  {
    hide Creates, Spends, InKeys, OutKeys;
    InKeysSpend(t, k);
    OutKeysCreate(t, k);
  }

  /** The outputs that the replay of a prefix keeps are exactly the unspent ones. */
  lemma {:induction false} UnspentIff(ts: seq<Txn>, n: nat, k: Utxo)
    requires n <= |ts| && Replay(ts[..n], {}).Some?
    ensures k in Replay(ts[..n], {}).value <==> Unspent(ts, n, k)
  {
    hide Creates, Spends, Applies, Apply;
    if n > 0 {
      assert ts[..n] == ts[..n - 1] + [ts[n - 1]];
      ReplaySnoc(ts[..n - 1], ts[n - 1], {});
      UnspentIff(ts, n - 1, k);
      ApplyAt(ts[n - 1], Replay(ts[..n - 1], {}).value, k);
      UnspentSnoc(ts, n - 1, k);
    }
  }

  lemma AppliesIff(ts: seq<Txn>, i: nat)
    requires i < |ts| && Replay(ts[..i], {}).Some?
    ensures Applies(ts[i], Replay(ts[..i], {}).value) <==> Admissible(ts, i)
  {
    hide Unspent, Replay, InKeys, Distinct;
    var t, s := ts[i], Replay(ts[..i], {}).value;
    InKeysSpend(t, Utxo(0, 0));
    forall k ensures k in s <==> Unspent(ts, i, k) { UnspentIff(ts, i, k); }
    forall k ensures k in Elems(InKeys(t)) <==> Spends(t, k) { InKeysSpend(t, k); }
    if t.Send? {
      forall h | h in t.inputs ensures Spends(t, Utxo(h, t.sender)) {}
    }
  }

  /** A chain replays if and only if each of its transactions is admissible where it stands. */
  lemma {:induction false} ReplaysIff(ts: seq<Txn>, n: nat)
    requires n <= |ts|
    ensures Replay(ts[..n], {}).Some? <==> forall i :: 0 <= i < n ==> Admissible(ts, i)
  {
    hide Applies, Apply, Admissible;
    if n > 0 {
      assert ts[..n] == ts[..n - 1] + [ts[n - 1]];
      ReplaySnoc(ts[..n - 1], ts[n - 1], {});
      ReplaysIff(ts, n - 1);
      if Replay(ts[..n - 1], {}).Some? { AppliesIff(ts, n - 1); }
    }
  }

  lemma ChainReplaysIff(ts: seq<Txn>)
    ensures Replay(ts, {}).Some? <==> forall i :: 0 <= i < |ts| ==> Admissible(ts, i)
  {
    hide Admissible, Replay;
    ReplaysIff(ts, |ts|);
    assert ts[..|ts|] == ts;
  }

  /** In every state of the manager: its chain is admissible throughout, and `utxo` holds exactly its unspent outputs. */
  lemma UtxoIsUnspent(s: State, rank: Hash -> nat, k: Utxo)
    requires Inv(s, rank)
    ensures var ts := Active(s.blocks, s.tail);
            (forall i :: 0 <= i < |ts| ==> Admissible(ts, i)) && (k in s.utxo <==> Unspent(ts, |ts|, k))
  {
    hide Admissible, Replay, TreeOk, MempoolOk, BuildOk, PoolOk, Known, Unspent, Active;
    var ts := Active(s.blocks, s.tail);
    ChainReplaysIff(ts);
    assert ts[..|ts|] == ts;
    UnspentIff(ts, |ts|, k);
  }
}
