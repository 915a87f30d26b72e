/**
 Ownership and balance of transactions, and the conservation law they give: on a chain of
 balanced transactions, the unspent outputs are worth exactly what was granted.
 */
module Values {
  import opened Collections
  import opened Ledger

  type TxnPool = map<Hash, Txn>

  ghost predicate SubPool(pool: TxnPool, pool': TxnPool) {
    forall h :: h in pool ==> h in pool' && pool'[h] == pool[h]
  }

  /** What `who` may spend of transaction `t`: the payment if it is the receiver, else the change. */
  function ValueTo(t: Txn, who: PubKey): Option<nat> {
    if t.receiver == who then Some(t.out)
    else if t.Send? && t.sender == who then Some(t.remainder)
    else None
  }

  /** Total worth of the inputs; None if one is unknown or not owned by `who`. */
  function InputValue(pool: TxnPool, who: PubKey, inputs: seq<Hash>): Option<nat> {
    if inputs == [] then Some(0)
    else
      var before := InputValue(pool, who, inputs[..|inputs| - 1]);
      var h := inputs[|inputs| - 1];
      if before.None? || h !in pool || ValueTo(pool[h], who).None? then None
      else Some(before.value + ValueTo(pool[h], who).value)
  }

  /** Grants are always valid; a Send must own its inputs and pay out exactly what they are worth. */
  predicate ValidTxn(pool: TxnPool, t: Txn) {
    t.Send? ==> InputValue(pool, t.sender, t.inputs) == Some(t.out + t.remainder)
  }

  lemma {:induction false} InputValueKnown(pool: TxnPool, who: PubKey, inputs: seq<Hash>, i: nat)
    requires i < |inputs| && InputValue(pool, who, inputs).Some?
    ensures inputs[i] in pool && ValueTo(pool[inputs[i]], who).Some?
  {
    if i < |inputs| - 1 { InputValueKnown(pool, who, inputs[..|inputs| - 1], i); }
  }

  lemma {:induction false} InputValueMonotone(pool: TxnPool, pool': TxnPool, who: PubKey, inputs: seq<Hash>)
    requires forall h :: h in pool ==> h in pool' && pool'[h] == pool[h]
    requires InputValue(pool, who, inputs).Some?
    ensures InputValue(pool', who, inputs) == InputValue(pool, who, inputs)
  {
    if inputs != [] { InputValueMonotone(pool, pool', who, inputs[..|inputs| - 1]); }
  }

  lemma {:induction false} InputValueFails(pool: TxnPool, who: PubKey, inputs: seq<Hash>, i: nat)
    requires i <= |inputs| && InputValue(pool, who, inputs[..i]).None?
    ensures InputValue(pool, who, inputs).None?
  {
    if i == |inputs| {
      assert inputs[..i] == inputs;
    } else {
      assert inputs[..|inputs| - 1][..i] == inputs[..i];
      InputValueFails(pool, who, inputs[..|inputs| - 1], i);
    }
  }

  // ---------------------------------------------------------------- who may spend what, input by input

  function Sum(shares: seq<nat>): nat {
    if shares == [] then 0 else Sum(shares[..|shares| - 1]) + shares[|shares| - 1]
  }

  /** Each input is known and was paid to the sender, or is a payment of the sender's own. */
  predicate Owns(pool: TxnPool, who: PubKey, inputs: seq<Hash>) {
    forall h :: h in inputs ==> h in pool && (pool[h].receiver == who || (pool[h].Send? && pool[h].sender == who))
  }

  /** Of each input the receiver gets the payment, the other party the change. */
  predicate Shares(pool: TxnPool, who: PubKey, inputs: seq<Hash>, shares: seq<nat>)
    requires Owns(pool, who, inputs)
  {
    && |shares| == |inputs|
    && forall i :: 0 <= i < |shares| ==>
         shares[i] == var t := pool[inputs[i]]; if t.receiver == who then t.out else t.remainder
  }

  /** A Send spends what its sender owns, and pays out exactly what that is worth. */
  ghost predicate Rightful(pool: TxnPool, t: Txn) {
    t.Send? ==> Owns(pool, t.sender, t.inputs) &&
                forall shares :: Shares(pool, t.sender, t.inputs, shares) ==> Sum(shares) == t.out + t.remainder
  }

  lemma {:induction false} InputValueIff(pool: TxnPool, who: PubKey, inputs: seq<Hash>)
    ensures InputValue(pool, who, inputs).Some? <==> Owns(pool, who, inputs)
  {
    if inputs != [] {
      var n := |inputs| - 1;
      InputValueIff(pool, who, inputs[..n]);
      assert forall h :: h in inputs <==> h in inputs[..n] || h == inputs[n];
    }
  }

  lemma {:induction false} InputValueIsSum(pool: TxnPool, who: PubKey, inputs: seq<Hash>, shares: seq<nat>)
    requires Owns(pool, who, inputs) && Shares(pool, who, inputs, shares)
    ensures InputValue(pool, who, inputs) == Some(Sum(shares))
  {
    if inputs != [] {
      var n := |inputs| - 1;
      assert inputs[n] in inputs && forall h :: h in inputs[..n] ==> h in inputs;
      InputValueIsSum(pool, who, inputs[..n], shares[..n]);
    }
  }

  lemma SharesExist(pool: TxnPool, who: PubKey, inputs: seq<Hash>) returns (shares: seq<nat>)
    requires Owns(pool, who, inputs)
    ensures Shares(pool, who, inputs, shares)
  {
    assert forall i :: 0 <= i < |inputs| ==> inputs[i] in inputs;
    shares := seq(|inputs|, i requires 0 <= i < |inputs| =>
                              var t := pool[inputs[i]]; if t.receiver == who then t.out else t.remainder);
  }

  /** The running total with its refusals decides exactly who may spend what. */
  lemma ValidIff(pool: TxnPool, t: Txn)
    ensures ValidTxn(pool, t) <==> Rightful(pool, t)
  {
    hide Sum, Shares, InputValue, Owns;
    if t.Send? {
      InputValueIff(pool, t.sender, t.inputs);
      if Owns(pool, t.sender, t.inputs) {
        var some := SharesExist(pool, t.sender, t.inputs);
        InputValueIsSum(pool, t.sender, t.inputs, some);
        forall shares | Shares(pool, t.sender, t.inputs, shares) ensures InputValue(pool, t.sender, t.inputs) == Some(Sum(shares)) {
          InputValueIsSum(pool, t.sender, t.inputs, shares);
        }
      }
    }
  }

  lemma ValidOwns(pool: TxnPool, t: Txn)
    requires ValidTxn(pool, t)
    ensures t.Send? ==> Owns(pool, t.sender, t.inputs)
  {
    hide ValidTxn;
    ValidIff(pool, t);
  }

  /** No one spends what belongs to others: of a Grant only the receiver, of a Send the receiver or the sender. */
  lemma SpentByOwner(pool: TxnPool, t: Txn, h: Hash)
    requires ValidTxn(pool, t) && t.Send? && h in t.inputs
    ensures h in pool
    ensures pool[h].Grant? ==> t.sender == pool[h].receiver
    ensures pool[h].Send? ==> t.sender == pool[h].receiver || t.sender == pool[h].sender
  {
    hide ValidTxn;
    ValidIff(pool, t);
  }

  /** A transaction with one input pays out the payment of that input if it was paid to it, and else its change. */
  lemma OneInputIff(pool: TxnPool, t: Txn, h: Hash)
    requires t.Send? && t.inputs == [h]
    ensures ValidTxn(pool, t) <==>
            && h in pool
            && (if pool[h].receiver == t.sender then t.out + t.remainder == pool[h].out
                else pool[h].Send? && pool[h].sender == t.sender && t.out + t.remainder == pool[h].remainder)
  {
    hide ValidTxn;
    ValidIff(pool, t);
    if Owns(pool, t.sender, [h]) {
      var shares := SharesExist(pool, t.sender, [h]);
      assert shares == [shares[0]] && shares[..0] == [];
      assert Sum(shares) == shares[0];
    }
    assert h in [h];
  }

  ghost predicate AllBalanced(pool: TxnPool) {
    forall h :: h in pool ==> ValidTxn(pool, pool[h])
  }

  /** Adding a valid transaction under a new id keeps every pooled transaction balanced. */
  lemma BalancedGrows(pool: TxnPool, t: Txn)
    requires AllBalanced(pool) && t.id !in pool && ValidTxn(pool, t)
    ensures AllBalanced(pool[t.id := t])
  {
    var pool' := pool[t.id := t];
    forall h | h in pool' ensures ValidTxn(pool', pool'[h]) {
      if pool'[h].Send? { InputValueMonotone(pool, pool', pool'[h].sender, pool'[h].inputs); }
    }
  }

  // ---------------------------------------------------------------- conservation

  ghost function Worth(pool: TxnPool, k: Utxo): nat {
    if k.txn in pool && ValueTo(pool[k.txn], k.owner).Some? then ValueTo(pool[k.txn], k.owner).value else 0
  }

  ghost function Total(pool: TxnPool, s: set<Utxo>): nat {
    if s == {} then 0 else var k :| k in s; Worth(pool, k) + Total(pool, s - {k})
  }

  lemma {:induction false} TotalSplit(pool: TxnPool, s: set<Utxo>, k: Utxo)
    requires k in s
    ensures Total(pool, s) == Worth(pool, k) + Total(pool, s - {k})
    decreases s
  {
    var x :| x in s && Total(pool, s) == Worth(pool, x) + Total(pool, s - {x});
    if x != k {
      TotalSplit(pool, s - {x}, k);
      TotalSplit(pool, s - {k}, x);
      assert s - {x} - {k} == s - {k} - {x};
    }
  }

  lemma {:induction false} TotalMinusInputs(pool: TxnPool, s: set<Utxo>, who: PubKey, inputs: seq<Hash>, ks: seq<Utxo>)
    requires InputValue(pool, who, inputs).Some?
    requires |ks| == |inputs| && forall i :: 0 <= i < |ks| ==> ks[i] == Utxo(inputs[i], who)
    requires Distinct(ks) && Elems(ks) <= s
    ensures Total(pool, s) == InputValue(pool, who, inputs).value + Total(pool, s - Elems(ks))
    decreases |ks|
  {
    if ks == [] {
      assert s - Elems(ks) == s;
    } else {
      var n := |ks| - 1;
      Snoc(ks);
      TotalMinusInputs(pool, s, who, inputs[..n], ks[..n]);
      assert ks[n] in s - Elems(ks[..n]);
      TotalSplit(pool, s - Elems(ks[..n]), ks[n]);
      assert s - Elems(ks) == s - Elems(ks[..n]) - {ks[n]};
    }
  }

  /** The change of a payment to oneself. Its output is valued as the payment, so the change is lost. */
  function SelfChange(t: Txn): nat {
    if t.Send? && t.sender == t.receiver then t.remainder else 0
  }

  lemma TotalPlusOutputs(pool: TxnPool, s: set<Utxo>, t: Txn)
    requires t.id in pool && pool[t.id] == t && Elems(OutKeys(t)) !! s
    ensures Total(pool, s + Elems(OutKeys(t))) + SelfChange(t) ==
            Total(pool, s) + t.out + if t.Send? then t.remainder else 0
  {
    var ks := OutKeys(t);
    if ks == [] {
      assert s + Elems(ks) == s;
    } else {
      TotalSplit(pool, s + Elems(ks), ks[0]);
      if |ks| == 1 || ks[0] == ks[1] {
        assert s + Elems(ks) - {ks[0]} == s;
      } else {
        TotalSplit(pool, s + Elems(ks) - {ks[0]}, ks[1]);
        assert s + Elems(ks) - {ks[0]} - {ks[1]} == s;
      }
    }
  }

  function Granted(ts: seq<Txn>): nat {
    if ts == [] then 0
    else Granted(ts[..|ts| - 1]) + if ts[|ts| - 1].Grant? then ts[|ts| - 1].out else 0
  }

  lemma ApplyConserves(pool: TxnPool, s: set<Utxo>, t: Txn)
    requires Applies(t, s) && ValidTxn(pool, t) && t.id in pool && pool[t.id] == t
    requires Elems(OutKeys(t)) !! s
    ensures Total(pool, Apply(t, s)) + SelfChange(t) == Total(pool, s) + if t.Grant? then t.out else 0
  {
    var ins := Elems(InKeys(t));
    if t.Send? {
      TotalMinusInputs(pool, s, t.sender, t.inputs, InKeys(t));
    } else {
      assert s - ins == s;
    }
    TotalPlusOutputs(pool, s - ins, t);
  }

  function Lost(ts: seq<Txn>): nat {
    if ts == [] then 0 else Lost(ts[..|ts| - 1]) + SelfChange(ts[|ts| - 1])
  }

  lemma {:induction false} LostNothing(ts: seq<Txn>)
    ensures Lost(ts) == 0 <==> forall t :: t in ts ==> SelfChange(t) == 0
  {
    if ts != [] {
      var n := |ts| - 1;
      LostNothing(ts[..n]);
      assert forall t :: t in ts <==> t in ts[..n] || t == ts[n];
    }
  }

  /** The conservation law of a replayable chain of balanced transactions, with the one leak there is. */
  lemma {:induction false} ReplayConserves(pool: TxnPool, ts: seq<Txn>)
    requires Replay(ts, {}).Some? && DistinctIds(ts)
    requires forall i :: 0 <= i < |ts| ==> ts[i].id in pool && pool[ts[i].id] == ts[i]
    requires forall i :: 0 <= i < |ts| ==> ValidTxn(pool, ts[i])
    ensures Total(pool, Replay(ts, {}).value) + Lost(ts) == Granted(ts)
  {
    if ts != [] {
      hide ValidTxn, Applies, Apply, OutKeys, InKeys, DistinctIds;
      var n := |ts| - 1;
      var pre, t := ts[..n], ts[n];
      OutputsFresh(ts, n);
      assert ts == pre + [t];
      DistinctIdsSplit(pre, [t]);
      ReplayConserves(pool, pre);
      ApplyConserves(pool, Replay(pre, {}).value, t);
    }
  }

  /**
   A payment to oneself that leaves change loses it: the change is valued as the payment, so a
   balanced transfer that keeps everything as change destroys it.
   */
  lemma SelfChangeLosesValue()
    ensures var g, t := Grant(1, 7, 10, 1), Send(2, 7, [1], 7, 0, 10, true, 1);
            var pool: TxnPool := map[1 := g, 2 := t];
            && AllBalanced(pool) && Replay([g, t], {}) == Some({Utxo(2, 7)})
            && Granted([g, t]) == 10 && Total(pool, {Utxo(2, 7)}) == 0
  {
    var g, t := Grant(1, 7, 10, 1), Send(2, 7, [1], 7, 0, 10, true, 1);
    var pool: TxnPool := map[1 := g, 2 := t];
    assert [1][..0] == [];
    assert InputValue(pool, 7, [1]) == Some(10);
    assert AllBalanced(pool);
    assert [g, t][..1] == [g] && [g][..0] == [];
    assert Granted([g, t]) == Granted([g]) && Granted([g]) == Granted([g][..0]) + 10;
    TotalSplit(pool, {Utxo(2, 7)}, Utxo(2, 7));
    assert {Utxo(2, 7)} - {Utxo(2, 7)} == {};
    SelfChangeReplay(g, t);
  }

  lemma SelfChangeReplay(g: Txn, t: Txn)
    requires g == Grant(1, 7, 10, 1) && t == Send(2, 7, [1], 7, 0, 10, true, 1)
    ensures Replay([g, t], {}) == Some({Utxo(2, 7)})
  {
    var kg, kt := Utxo(1, 7), Utxo(2, 7);
    assert InKeys(g) == [] && OutKeys(g) == [kg] && InKeys(t) == [kg] && OutKeys(t) == [kt];
    hide InKeys, OutKeys, Replay;
    ReplayEmpty({});
    ReplaySnoc([], g, {});
    ReplaySnoc([g], t, {});
    assert [] + [g] == [g] && [g] + [t] == [g, t];
    assert Elems([kg]) == {kg} && Elems([kt]) == {kt} && Elems<Utxo>([]) == {};
    assert Apply(g, {}) == {kg} && Applies(t, {kg}) && Apply(t, {kg}) == {kt};
  }
}
