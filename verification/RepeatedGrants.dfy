/**
 When undoing a stretch of the chain is exact although transactions without inputs may repeat on
 it. Each output has a history of its own: it is created and spent, and the two sets of the patch
 remember it in a way that depends only on what comes first and on what is left over.
 */
module RepeatedGrants {
  import opened Collections
  import opened Ledger
  import opened Reorg

  // ---------------------------------------------------------------- the history of one output

  /** The first thing that happens to `k` is that it is spent. */
  ghost predicate FirstSpent(ts: seq<Txn>, k: Utxo) {
    ts != [] && (k in InKeys(ts[0]) || (k !in OutKeys(ts[0]) && FirstSpent(ts[1..], k)))
  }

  /** Some creation of `k` is not followed by its spending: by another creation, or by nothing. */
  ghost predicate Loose(ts: seq<Txn>, k: Utxo) {
    ts != [] && (Loose(ts[1..], k) || (k in OutKeys(ts[0]) && !FirstSpent(ts[1..], k)))
  }

  /** `k` is created while it is unspent. */
  ghost predicate Doubled(ts: seq<Txn>, s: set<Utxo>, k: Utxo) {
    ts != [] && ((k in OutKeys(ts[0]) && k in s) || Doubled(ts[1..], Apply(ts[0], s), k))
  }

  ghost predicate Created(ts: seq<Txn>, k: Utxo) {
    ts != [] && (k in OutKeys(ts[0]) || Created(ts[1..], k))
  }

  /** No transaction spends its own output; ids are hashes of the contents, inputs included. */
  ghost predicate Founded(ts: seq<Txn>) {
    forall i :: 0 <= i < |ts| ==> forall k :: k in InKeys(ts[i]) ==> k !in OutKeys(ts[i])
  }

  lemma FoundedRest(ts: seq<Txn>)
    requires ts != [] && Founded(ts) && OutsDistinct(ts)
    ensures Founded(ts[1..]) && OutsDistinct(ts[1..]) && Distinct(OutKeys(ts[0]))
    ensures forall k :: k in InKeys(ts[0]) ==> k !in OutKeys(ts[0])
  {
    hide InKeys, OutKeys, Distinct;
  }

  // ---------------------------------------------------------------- what the patch remembers

  lemma {:induction false} UncreateBits(ks: seq<Utxo>, d: Delta, k: Utxo)
    requires Distinct(ks)
    ensures var r := UncreateAll(ks, d);
            && (k in r.added <==> k in d.added && k !in ks)
            && (k in r.removed <==> k in d.removed || (k in ks && k !in d.added))
  {
    if ks != [] {
      var n := |ks| - 1;
      Snoc(ks);
      UncreateBits(ks[..n], d, k);
      UncreateBits(ks[..n], d, ks[n]);
      assert k in ks <==> k in ks[..n] || k == ks[n];
    }
  }

  lemma UndoFront(ts: seq<Txn>)
    requires ts != []
    ensures UndoTxns(ts, NO_CHANGE) == UndoTxn(ts[0], UndoTxns(ts[1..], NO_CHANGE))
  {
    var t, rest := ts[0], ts[1..];
    assert ts == [t] + rest && [t][..0] == [];
    UndoConcat([t], rest, NO_CHANGE);
    hide UndoTxn;
    var d := UndoTxns(rest, NO_CHANGE);
    assert UndoTxns([t], d) == UndoTxns([t][..0], UndoTxn(t, d));
  }

  /** After undoing, `k` is to be added if it was first spent, and to be removed if a creation is left over. */
  lemma {:induction false} UndoBits(ts: seq<Txn>, k: Utxo)
    requires Founded(ts) && OutsDistinct(ts)
    ensures k in UndoTxns(ts, NO_CHANGE).added <==> FirstSpent(ts, k)
    ensures k in UndoTxns(ts, NO_CHANGE).removed <==> Loose(ts, k)
  {
    hide InKeys, OutKeys, Founded, OutsDistinct, Distinct, UncreateAll;
    if ts != [] {
      var t, d := ts[0], UndoTxns(ts[1..], NO_CHANGE);
      FoundedRest(ts);
      UndoBits(ts[1..], k);
      UndoFront(ts);
      UncreateBits(OutKeys(t), d.(added := d.added + Elems(InKeys(t))), k);
    }
  }

  // ---------------------------------------------------------------- against the replay

  lemma ReplayFront(ts: seq<Txn>, s: set<Utxo>)
    requires ts != [] && Replay(ts, s).Some?
    ensures Applies(ts[0], s) && Replay(ts[1..], Apply(ts[0], s)) == Replay(ts, s)
  {
    var t, rest := ts[0], ts[1..];
    assert ts == [t] + rest && [t][..0] == [];
    ReplayConcat([t], rest, s);
    ReplayEmpty(s);
  }

  /** An output that is not there at first is left over exactly if it ends up unspent or is doubled. */
  lemma {:induction false} AbsentAtFirst(ts: seq<Txn>, s: set<Utxo>, k: Utxo)
    requires Replay(ts, s).Some? && Founded(ts) && OutsDistinct(ts) && k !in s
    ensures !FirstSpent(ts, k) && (k in Replay(ts, s).value ==> Loose(ts, k))
    ensures Loose(ts, k) <==> Doubled(ts, s, k) || (Created(ts, k) && k in Replay(ts, s).value)
    decreases |ts|
  {
    hide InKeys, OutKeys, Founded, OutsDistinct, Distinct, Replay;
    if ts == [] {
      ReplayEmpty(s);
    } else {
      FoundedRest(ts);
      ReplayFront(ts, s);
      assert k !in Elems(InKeys(ts[0]));
      if k in OutKeys(ts[0]) {
        assert k in Apply(ts[0], s);
        PresentAtFirst(ts[1..], Apply(ts[0], s), k);
      } else {
        assert k !in Apply(ts[0], s);
        AbsentAtFirst(ts[1..], Apply(ts[0], s), k);
      }
    }
  }

  /** An output that is there at first is restored exactly if it is never doubled and no creation survives. */
  lemma {:induction false} PresentAtFirst(ts: seq<Txn>, s: set<Utxo>, k: Utxo)
    requires Replay(ts, s).Some? && Founded(ts) && OutsDistinct(ts) && k in s
    ensures FirstSpent(ts, k) && k in Replay(ts, s).value ==> Loose(ts, k)
    ensures (k in Replay(ts, s).value || FirstSpent(ts, k)) && !Loose(ts, k) <==>
            !Doubled(ts, s, k) && !(Created(ts, k) && k in Replay(ts, s).value)
    decreases |ts|
  {
    hide InKeys, OutKeys, Founded, OutsDistinct, Distinct, Replay;
    if ts == [] {
      ReplayEmpty(s);
    } else {
      FoundedRest(ts);
      ReplayFront(ts, s);
      var s' := Apply(ts[0], s);
      if k in InKeys(ts[0]) {
        assert k in Elems(InKeys(ts[0])) && k !in s';
        AbsentAtFirst(ts[1..], s', k);
      } else {
        assert k in s' by { assert k !in Elems(InKeys(ts[0])); }
        PresentAtFirst(ts[1..], s', k);
      }
    }
  }

  // ---------------------------------------------------------------- the exact condition

  /** `k` is created somewhere in `ts`, on top of `base`, while it is unspent. */
  ghost predicate CreatedTwice(base: seq<Txn>, ts: seq<Txn>, k: Utxo) {
    exists i :: 0 <= i < |ts| && k in OutKeys(ts[i]) && Replay(base + ts[..i], {}).Some? && k in Replay(base + ts[..i], {}).value
  }

  ghost predicate CreatedIn(ts: seq<Txn>, k: Utxo) {
    exists i :: 0 <= i < |ts| && k in OutKeys(ts[i])
  }

  lemma {:induction false} CreatedIs(ts: seq<Txn>, k: Utxo)
    ensures Created(ts, k) <==> CreatedIn(ts, k)
  {
    hide OutKeys;
    if ts != [] {
      CreatedIs(ts[1..], k);
      if CreatedIn(ts[1..], k) {
        var i :| 0 <= i < |ts[1..]| && k in OutKeys(ts[1..][i]);
        assert ts[i + 1] == ts[1..][i];
      }
      if CreatedIn(ts, k) && k !in OutKeys(ts[0]) {
        var i :| 0 <= i < |ts| && k in OutKeys(ts[i]);
        assert ts[1..][i - 1] == ts[i];
      }
    }
  }

  lemma {:induction false} DoubledIs(base: seq<Txn>, ts: seq<Txn>, s: set<Utxo>, k: Utxo)
    requires Replay(base, {}) == Some(s) && Replay(ts, s).Some?
    ensures Doubled(ts, s, k) <==> CreatedTwice(base, ts, k)
    decreases |ts|
  {
    hide InKeys, OutKeys, Replay, Applies, Apply;
    if ts != [] {
      var t, rest := ts[0], ts[1..];
      ReplayFront(ts, s);
      ReplaySnoc(base, t, {});
      DoubledIs(base + [t], rest, Apply(t, s), k);
      assert base + ts[..0] == base;
      forall i | 0 <= i < |rest| ensures base + ts[..i + 1] == (base + [t]) + rest[..i] && ts[i + 1] == rest[i] {
        assert ts[..i + 1] == [t] + rest[..i];
      }
      if CreatedTwice(base + [t], rest, k) {
        var i :| 0 <= i < |rest| && k in OutKeys(rest[i]) && Replay((base + [t]) + rest[..i], {}).Some?
                 && k in Replay((base + [t]) + rest[..i], {}).value;
        assert k in OutKeys(ts[i + 1]) && k in Replay(base + ts[..i + 1], {}).value;
      }
      if CreatedTwice(base, ts, k) {
        var i :| 0 <= i < |ts| && k in OutKeys(ts[i]) && Replay(base + ts[..i], {}).Some? && k in Replay(base + ts[..i], {}).value;
        if i > 0 { assert k in OutKeys(rest[i - 1]) && k in Replay((base + [t]) + rest[..i - 1], {}).value; }
      }
    }
  }

  /**
   Undoing `old_` gives back the replay of `base` if and only if no output unspent after `base` is
   created in `old_` while it is unspent, or created in `old_` and still unspent at the end.
   Nothing is assumed about repetitions.
   */
  lemma UndoExactIff(base: seq<Txn>, old_: seq<Txn>, u: set<Utxo>)
    requires Replay(base + old_, {}) == Some(u) && OutsDistinct(old_) && Founded(old_)
    ensures Replay(base, {}).Some?
    ensures View(u, UndoTxns(old_, NO_CHANGE)) == Replay(base, {}).value <==>
            forall k :: k in Replay(base, {}).value ==> !CreatedTwice(base, old_, k) && !(CreatedIn(old_, k) && k in u)
  {
    hide Replay, OutsDistinct, Founded, CreatedTwice, CreatedIn, UndoTxns, OutKeys, InKeys, FirstSpent, Loose, Doubled, Created;
    ReplayConcat(base, old_, {});
    var s, d := Replay(base, {}).value, UndoTxns(old_, NO_CHANGE);
    forall k ensures k !in s ==> k !in View(u, d) {
      UndoBits(old_, k);
      if k !in s { AbsentAtFirst(old_, s, k); }
    }
    forall k | k in s ensures k in View(u, d) <==> !CreatedTwice(base, old_, k) && !(CreatedIn(old_, k) && k in u) {
      UndoBits(old_, k);
      PresentAtFirst(old_, s, k);
      DoubledIs(base, old_, s, k);
      CreatedIs(old_, k);
    }
    assert View(u, d) == s <==> forall k :: k in s ==> k in View(u, d);
  }
}
