/**
 When a whole reorganisation follows the replay although transactions without inputs may repeat.
 After an exact undo the patch goes wrong in two ways only: an output that the patch removes in vain
 is created again, or an output of the old set is created on top of itself and then spent.
 */
module RepeatedRedo {
  import opened Collections
  import opened Ledger
  import opened Reorg
  import opened RepeatedGrants

  // ---------------------------------------------------------------- following the replay

  ghost predicate Agree(u: set<Utxo>, r: Option<Delta>, m: Option<set<Utxo>>) {
    (r.Some? <==> m.Some?) && (r.Some? ==> View(u, r.value) == m.value)
  }

  /** The patch and the replay agree after every transaction, verdicts included. */
  ghost predicate Faithful(u: set<Utxo>, d: Delta, ts: seq<Txn>, s: set<Utxo>) {
    forall n :: 0 <= n <= |ts| ==> Agree(u, RedoTxns(u, ts[..n], d), Replay(ts[..n], s))
  }

  ghost predicate WellFormed(ts: seq<Txn>) {
    && Founded(ts) && OutsDistinct(ts)
    && forall i :: 0 <= i < |ts| ==> Distinct(InKeys(ts[i]))
  }

  lemma WellFormedRest(ts: seq<Txn>)
    requires ts != [] && WellFormed(ts)
    ensures WellFormed(ts[1..]) && Distinct(InKeys(ts[0])) && Distinct(OutKeys(ts[0]))
    ensures forall k :: k in InKeys(ts[0]) ==> k !in OutKeys(ts[0])
  {
    hide InKeys, OutKeys, Distinct, Founded, OutsDistinct;
    FoundedRest(ts);
  }

  // ---------------------------------------------------------------- what one transaction does to the patch

  /** Nothing is to be added and removed at once. */
  ghost predicate Apart(d: Delta) {
    d.added !! d.removed
  }

  lemma {:induction false} SpendBits(u: set<Utxo>, ks: seq<Utxo>, d: Delta)
    requires Distinct(ks)
    ensures SpendAll(u, ks, d).Some? ==>
              var r := SpendAll(u, ks, d).value;
              && (forall k :: k in r.added <==> k in d.added && k !in ks)
              && (forall k :: k in r.removed <==> k in d.removed || (k in ks && k !in d.added))
    ensures Apart(d) ==> (SpendAll(u, ks, d).Some? <==> forall k :: k in ks ==> k in View(u, d))
    ensures Apart(d) && SpendAll(u, ks, d).Some? ==> Apart(SpendAll(u, ks, d).value)
  {
    if ks != [] {
      var n := |ks| - 1;
      Snoc(ks);
      SpendBits(u, ks[..n], d);
      assert forall k :: k in ks <==> k in ks[..n] || k == ks[n];
    }
  }

  lemma {:induction false} CreateBits(ks: seq<Utxo>, d: Delta)
    requires Distinct(ks)
    ensures var r := CreateAll(ks, d);
            && (forall k :: k in r.added <==> k in d.added || (k in ks && k !in d.removed))
            && (forall k :: k in r.removed <==> k in d.removed && k !in ks)
    ensures Apart(d) ==> Apart(CreateAll(ks, d))
  {
    if ks != [] {
      var n := |ks| - 1;
      Snoc(ks);
      CreateBits(ks[..n], d);
      assert forall k :: k in ks <==> k in ks[..n] || k == ks[n];
    }
  }

  /** How a transaction moves the patch for one output: (to be added, to be removed). */
  ghost function Bits(t: Txn, k: Utxo, a: bool, r: bool): (bool, bool) {
    if k in InKeys(t) then (false, r || !a)
    else if k in OutKeys(t) then (a || !r, false)
    else (a, r)
  }

  /** A spending that leaves the old entry behind, or a creation that only lifts a vain removal. */
  ghost predicate Slips(u: set<Utxo>, t: Txn, k: Utxo, a: bool, r: bool) {
    if k in InKeys(t) then k in u && a else k in OutKeys(t) && k !in u && r
  }

  lemma RedoBits(u: set<Utxo>, t: Txn, d: Delta)
    requires Distinct(InKeys(t)) && Distinct(OutKeys(t))
    requires forall k :: k in InKeys(t) ==> k !in OutKeys(t)
    ensures RedoTxn(u, t, d).Some? ==>
              var d' := RedoTxn(u, t, d).value;
              forall k :: (k in d'.added, k in d'.removed) == Bits(t, k, k in d.added, k in d.removed)
    ensures Apart(d) ==> (RedoTxn(u, t, d).Some? <==> Applies(t, View(u, d)))
    ensures Apart(d) && RedoTxn(u, t, d).Some? ==> Apart(RedoTxn(u, t, d).value)
  {
    hide InKeys, OutKeys, Distinct, SpendAll, CreateAll, View;
    SpendBits(u, InKeys(t), d);
    assert Elems(InKeys(t)) <= View(u, d) <==> forall k :: k in InKeys(t) ==> k in View(u, d);
    var spent := SpendAll(u, InKeys(t), d);
    if spent.Some? { CreateBits(OutKeys(t), spent.value); }
  }

  /** One step follows the replay exactly if it slips on no output. */
  lemma StepFollows(u: set<Utxo>, t: Txn, d: Delta, d': Delta)
    requires Apart(d) && Apart(d') && Applies(t, View(u, d)) && (forall k :: k in InKeys(t) ==> k !in OutKeys(t))
    requires forall k :: (k in d'.added, k in d'.removed) == Bits(t, k, k in d.added, k in d.removed)
    ensures View(u, d') == Apply(t, View(u, d)) <==> forall k :: !Slips(u, t, k, k in d.added, k in d.removed)
  {
    hide InKeys, OutKeys;
    forall k ensures (k in View(u, d') <==> k in Apply(t, View(u, d))) <==> !Slips(u, t, k, k in d.added, k in d.removed) {
      assert (k in d'.added, k in d'.removed) == Bits(t, k, k in d.added, k in d.removed);
      assert k in InKeys(t) <==> k in Elems(InKeys(t));
      assert k in OutKeys(t) <==> k in Elems(OutKeys(t));
    }
  }

  // ---------------------------------------------------------------- slipping anywhere

  /** Somewhere in the part of `ts` that replays, the patch slips on `k`. */
  ghost predicate Slipped(u: set<Utxo>, ts: seq<Txn>, s: set<Utxo>, k: Utxo, a: bool, r: bool) {
    ts != [] && Applies(ts[0], s) &&
    (Slips(u, ts[0], k, a, r) ||
     var b := Bits(ts[0], k, a, r); Slipped(u, ts[1..], Apply(ts[0], s), k, b.0, b.1))
  }

  lemma RedoFirst(u: set<Utxo>, t: Txn, rest: seq<Txn>, d: Delta)
    ensures RedoTxns(u, [t] + rest, d) ==
            if RedoTxn(u, t, d).None? then None else RedoTxns(u, rest, RedoTxn(u, t, d).value)
  {
    hide RedoTxn;
    assert [t][..0] == [];
    assert RedoTxns(u, [t], d) == RedoTxn(u, t, d);
    RedoConcat(u, [t], rest, d);
  }

  lemma ReplayFirst(t: Txn, rest: seq<Txn>, s: set<Utxo>)
    ensures Replay([t] + rest, s) == if Applies(t, s) then Replay(rest, Apply(t, s)) else None
  {
    hide Applies, Apply;
    assert [t][..0] == [];
    ReplayEmpty(s);
    assert Replay([t], s) == if Applies(t, s) then Some(Apply(t, s)) else None;
    ReplayConcat([t], rest, s);
  }

  lemma PrefixFront(u: set<Utxo>, ts: seq<Txn>, d: Delta, s: set<Utxo>, n: nat)
    requires ts != [] && 0 < n <= |ts|
    ensures var t := ts[0];
            && RedoTxns(u, ts[..n], d) == (if RedoTxn(u, t, d).None? then None else RedoTxns(u, ts[1..][..n - 1], RedoTxn(u, t, d).value))
            && Replay(ts[..n], s) == if Applies(t, s) then Replay(ts[1..][..n - 1], Apply(t, s)) else None
  {
    hide RedoTxn, RedoTxns, Replay, Applies, Apply;
    var t, rest := ts[0], ts[1..][..n - 1];
    assert ts[..n] == [t] + rest;
    RedoFirst(u, t, rest, d);
    ReplayFirst(t, rest, s);
  }

  lemma {:induction false} FaithfulIff(u: set<Utxo>, d: Delta, ts: seq<Txn>, s: set<Utxo>)
    requires WellFormed(ts) && Apart(d) && View(u, d) == s
    ensures Faithful(u, d, ts, s) <==> forall k :: !Slipped(u, ts, s, k, k in d.added, k in d.removed)
    decreases |ts|
  {
    hide InKeys, OutKeys, Distinct, WellFormed, RedoTxns, Replay, RedoTxn, View, Applies, Apply, Bits, Slips;
    NothingRedone(u, d, ts, s);
    if ts != [] {
      var t, rest := ts[0], ts[1..];
      WellFormedRest(ts);
      RedoBits(u, t, d);
      forall n: nat | 0 < n <= |ts|
        ensures RedoTxns(u, ts[..n], d) == (if RedoTxn(u, t, d).None? then None else RedoTxns(u, rest[..n - 1], RedoTxn(u, t, d).value))
        ensures Replay(ts[..n], s) == if Applies(t, s) then Replay(rest[..n - 1], Apply(t, s)) else None
      {
        PrefixFront(u, ts, d, s, n);
      }
      if Applies(t, s) { AppliedIff(u, d, ts, s); }
    }
  }

  lemma NothingRedone(u: set<Utxo>, d: Delta, ts: seq<Txn>, s: set<Utxo>)
    requires View(u, d) == s
    ensures Agree(u, RedoTxns(u, ts[..0], d), Replay(ts[..0], s))
  {
    assert ts[..0] == [];
    ReplayEmpty(s);
  }

  lemma {:induction false} AppliedIff(u: set<Utxo>, d: Delta, ts: seq<Txn>, s: set<Utxo>)
    requires ts != [] && WellFormed(ts) && Apart(d) && View(u, d) == s && Applies(ts[0], s)
    ensures Faithful(u, d, ts, s) <==> forall k :: !Slipped(u, ts, s, k, k in d.added, k in d.removed)
    decreases |ts|, 0
  {
    hide InKeys, OutKeys, Distinct, WellFormed, RedoTxns, Replay, RedoTxn, View, Applies, Apply, Bits, Slips;
    var t, rest := ts[0], ts[1..];
    WellFormedRest(ts);
    RedoBits(u, t, d);
    var d', s' := RedoTxn(u, t, d).value, Apply(t, s);
    StepFollows(u, t, d, d');
    FaithfulFront(u, d, ts, s);
    if View(u, d') == s' {
      FaithfulIff(u, d', rest, s');
      forall k ensures Slipped(u, ts, s, k, k in d.added, k in d.removed) <==> Slipped(u, rest, s', k, k in d'.added, k in d'.removed) {
        assert (k in d'.added, k in d'.removed) == Bits(t, k, k in d.added, k in d.removed);
      }
    }
  }

  /** To be faithful is to be right after the first transaction, and faithful from then on. */
  lemma FaithfulFront(u: set<Utxo>, d: Delta, ts: seq<Txn>, s: set<Utxo>)
    requires ts != [] && View(u, d) == s && Applies(ts[0], s) && RedoTxn(u, ts[0], d).Some?
    ensures var d', s' := RedoTxn(u, ts[0], d).value, Apply(ts[0], s);
            Faithful(u, d, ts, s) <==> View(u, d') == s' && Faithful(u, d', ts[1..], s')
  {
    hide InKeys, OutKeys, RedoTxns, Replay, RedoTxn, View, Applies, Apply, Agree;
    var t, rest := ts[0], ts[1..];
    var d', s' := RedoTxn(u, t, d).value, Apply(t, s);
    NothingRedone(u, d, ts, s);
    forall n: nat | 0 < n <= |ts|
      ensures Agree(u, RedoTxns(u, ts[..n], d), Replay(ts[..n], s)) <==> Agree(u, RedoTxns(u, rest[..n - 1], d'), Replay(rest[..n - 1], s'))
    {
      PrefixFront(u, ts, d, s, n);
    }
    if Faithful(u, d, ts, s) {
      forall n | 0 <= n <= |rest| ensures Agree(u, RedoTxns(u, rest[..n], d'), Replay(rest[..n], s')) {
        assert Agree(u, RedoTxns(u, ts[..n + 1], d), Replay(ts[..n + 1], s));
      }
      FirstAgrees(u, d', rest, s');
    }
    if View(u, d') == s' && Faithful(u, d', rest, s') {
      forall n | 0 <= n <= |ts| ensures Agree(u, RedoTxns(u, ts[..n], d), Replay(ts[..n], s)) {
        if n > 0 { assert Agree(u, RedoTxns(u, rest[..n - 1], d'), Replay(rest[..n - 1], s')); }
      }
    }
  }

  lemma FirstAgrees(u: set<Utxo>, d: Delta, ts: seq<Txn>, s: set<Utxo>)
    requires Faithful(u, d, ts, s)
    ensures View(u, d) == s
  {
    assert ts[..0] == [];
    assert Agree(u, RedoTxns(u, ts[..0], d), Replay(ts[..0], s));
    ReplayEmpty(s);
  }

  // ---------------------------------------------------------------- the history of one output again

  /** `k` is created, or spent, in the part of `ts` that replays. */
  ghost predicate CreatedLive(ts: seq<Txn>, s: set<Utxo>, k: Utxo) {
    ts != [] && Applies(ts[0], s) && (k in OutKeys(ts[0]) || CreatedLive(ts[1..], Apply(ts[0], s), k))
  }

  ghost predicate SpentLive(ts: seq<Txn>, s: set<Utxo>, k: Utxo) {
    ts != [] && Applies(ts[0], s) && (k in InKeys(ts[0]) || SpentLive(ts[1..], Apply(ts[0], s), k))
  }

  /** In the part of `ts` that replays, `k` is created while it is unspent, and spent later. */
  ghost predicate Respent(ts: seq<Txn>, s: set<Utxo>, k: Utxo) {
    && ts != [] && Applies(ts[0], s)
    && ((k in OutKeys(ts[0]) && k in s && SpentLive(ts[1..], Apply(ts[0], s), k)) || Respent(ts[1..], Apply(ts[0], s), k))
  }

  lemma {:induction false} RespentIsSpent(ts: seq<Txn>, s: set<Utxo>, k: Utxo)
    requires Respent(ts, s, k)
    ensures SpentLive(ts, s, k)
  {
    hide InKeys, OutKeys, Applies, Apply;
    if Respent(ts[1..], Apply(ts[0], s), k) { RespentIsSpent(ts[1..], Apply(ts[0], s), k); }
  }

  /** Where `k` is after one transaction. */
  lemma AfterOne(t: Txn, s: set<Utxo>, k: Utxo)
    requires Applies(t, s) && (forall x :: x in InKeys(t) ==> x !in OutKeys(t))
    ensures k in InKeys(t) ==> k in s && k !in Apply(t, s) && k !in OutKeys(t)
    ensures k in OutKeys(t) ==> k in Apply(t, s)
    ensures k !in InKeys(t) && k !in OutKeys(t) ==> (k in Apply(t, s) <==> k in s)
  {
    hide InKeys, OutKeys;
    assert (k in InKeys(t) <==> k in Elems(InKeys(t))) && (k in OutKeys(t) <==> k in Elems(OutKeys(t)));
  }

  /** An output that the old set does not have slips exactly if it is removed in vain and created again. */
  lemma {:induction false} SlipsOutside(u: set<Utxo>, ts: seq<Txn>, s: set<Utxo>, k: Utxo, a: bool, r: bool)
    requires WellFormed(ts) && k !in u && !(a && r) && (k in s <==> a)
    ensures Slipped(u, ts, s, k, a, r) <==> r && CreatedLive(ts, s, k)
    decreases |ts|
  {
    hide InKeys, OutKeys, Applies, Apply, WellFormed;
    if ts != [] && Applies(ts[0], s) {
      WellFormedRest(ts);
      AfterOne(ts[0], s, k);
      var b := Bits(ts[0], k, a, r);
      if !Slips(u, ts[0], k, a, r) { SlipsOutside(u, ts[1..], Apply(ts[0], s), k, b.0, b.1); }
    }
  }

  /** An output of the old set slips exactly if it is created on top of itself and then spent. */
  lemma {:induction false} SlipsInside(u: set<Utxo>, ts: seq<Txn>, s: set<Utxo>, k: Utxo, a: bool, r: bool)
    requires WellFormed(ts) && k in u && !(a && r) && (k in s <==> !r)
    ensures Slipped(u, ts, s, k, a, r) <==> if a then SpentLive(ts, s, k) else Respent(ts, s, k)
    decreases |ts|
  {
    hide InKeys, OutKeys, Applies, Apply, WellFormed;
    if ts != [] && Applies(ts[0], s) {
      var s' := Apply(ts[0], s);
      WellFormedRest(ts);
      AfterOne(ts[0], s, k);
      var b := Bits(ts[0], k, a, r);
      if !Slips(u, ts[0], k, a, r) { SlipsInside(u, ts[1..], s', k, b.0, b.1); }
      if Respent(ts[1..], s', k) { RespentIsSpent(ts[1..], s', k); }
    }
  }

  // ---------------------------------------------------------------- the exact condition

  /** Undoing is exact; see `UndoExactIff`. */
  ghost predicate UndoneWell(base: seq<Txn>, old_: seq<Txn>, u: set<Utxo>, s: set<Utxo>) {
    forall k :: k in s ==> !CreatedTwice(base, old_, k) && !(CreatedIn(old_, k) && k in u)
  }

  /** After an exact undo the patch is in order for each output, but for removals in vain. */
  lemma UndoneBits(base: seq<Txn>, old_: seq<Txn>, u: set<Utxo>, s: set<Utxo>, k: Utxo)
    requires Replay(base, {}) == Some(s) && Replay(old_, s) == Some(u) && OutsDistinct(old_) && Founded(old_)
    requires View(u, UndoTxns(old_, NO_CHANGE)) == s
    ensures var d := UndoTxns(old_, NO_CHANGE);
            && !(k in d.added && k in d.removed)
            && (k in u ==> k !in d.added && (k in s <==> k !in d.removed))
            && (k !in u ==> (k in s <==> k in d.added) && (k in d.removed <==> k !in s && CreatedTwice(base, old_, k)))
  {
    hide Replay, OutsDistinct, Founded, CreatedTwice, UndoTxns, OutKeys, InKeys, FirstSpent, Loose, Doubled, Created;
    UndoBits(old_, k);
    DoubledIs(base, old_, s, k);
    if k in s { PresentAtFirst(old_, s, k); } else { AbsentAtFirst(old_, s, k); }
  }

  /**
   A reorganisation through the patch follows the replay, verdict and outputs, after every
   transaction of the new branch, if and only if undoing is exact, no output that was created
   twice and spent on the old branch is created on the new one, and no output of the old set is
   created on the new branch while unspent and then spent. Nothing is assumed about repetitions.
   */
  lemma ReorgFaithfulIff(base: seq<Txn>, old_: seq<Txn>, new_: seq<Txn>, u: set<Utxo>)
    requires Replay(base + old_, {}) == Some(u) && OutsDistinct(old_) && Founded(old_) && WellFormed(new_)
    ensures Replay(base, {}).Some?
    ensures var s := Replay(base, {}).value;
            Faithful(u, UndoTxns(old_, NO_CHANGE), new_, s) <==>
            && UndoneWell(base, old_, u, s)
            && (forall k :: k !in s && k !in u && CreatedTwice(base, old_, k) ==> !CreatedLive(new_, s, k))
            && (forall k :: k in u ==> !Respent(new_, s, k))
  {
    hide Replay, OutsDistinct, Founded, WellFormed, CreatedTwice, CreatedIn, UndoTxns, OutKeys, InKeys, CreatedLive, Respent, Slipped, Faithful, View, RedoTxns;
    ReplayConcat(base, old_, {});
    UndoExactIff(base, old_, u);
    var s, d := Replay(base, {}).value, UndoTxns(old_, NO_CHANGE);
    if View(u, d) == s {
      forall k ensures !(k in d.added && k in d.removed) { UndoneBits(base, old_, u, s, k); }
      FaithfulIff(u, d, new_, s);
      forall k ensures Slipped(u, new_, s, k, k in d.added, k in d.removed) <==>
                       (if k in u then Respent(new_, s, k) else k !in s && CreatedTwice(base, old_, k) && CreatedLive(new_, s, k)) {
        UndoneBits(base, old_, u, s, k);
        if k in u {
          SlipsInside(u, new_, s, k, k in d.added, k in d.removed);
        } else {
          SlipsOutside(u, new_, s, k, k in d.added, k in d.removed);
        }
      }
    } else if Faithful(u, d, new_, s) {
      FirstAgrees(u, d, new_, s);
    }
  }

  // ---------------------------------------------------------------- only the end counts

  /** After `t` the patch has the wrong idea of `k`, which `t` touches. */
  ghost predicate Misses(u: set<Utxo>, t: Txn, k: Utxo, a: bool, r: bool) {
    if k in InKeys(t) then k in u && a && !r else k in OutKeys(t) && k !in u && r && !a
  }

  /** The last transaction that touches `k` does not miss; if none does, `k` was right from the start. */
  ghost predicate EndsWell(u: set<Utxo>, ts: seq<Txn>, d: Delta, s: set<Utxo>, k: Utxo) {
    if ts == [] then k in View(u, d) <==> k in s
    else
      var front, t := ts[..|ts| - 1], ts[|ts| - 1];
      if k in InKeys(t) || k in OutKeys(t) then
        var before := RedoTxns(u, front, d);
        before.Some? && !Misses(u, t, k, k in before.value.added, k in before.value.removed)
      else EndsWell(u, front, d, s, k)
  }

  lemma WellFormedFront(ts: seq<Txn>)
    requires ts != [] && WellFormed(ts)
    ensures var t := ts[|ts| - 1];
            && WellFormed(ts[..|ts| - 1]) && Distinct(InKeys(t)) && Distinct(OutKeys(t))
            && forall k :: k in InKeys(t) ==> k !in OutKeys(t)
  {
    hide InKeys, OutKeys, Distinct;
  }

  lemma {:induction false} EndBit(u: set<Utxo>, ts: seq<Txn>, d: Delta, s: set<Utxo>, k: Utxo)
    requires WellFormed(ts) && RedoTxns(u, ts, d).Some? && Replay(ts, s).Some?
    ensures EndsWell(u, ts, d, s, k) <==> (k in View(u, RedoTxns(u, ts, d).value) <==> k in Replay(ts, s).value)
  {
    hide InKeys, OutKeys, Distinct, WellFormed, RedoTxn, Applies, Apply;
    if ts != [] {
      var front, t := ts[..|ts| - 1], ts[|ts| - 1];
      WellFormedFront(ts);
      EndBit(u, front, d, s, k);
      var d1, s1 := RedoTxns(u, front, d).value, Replay(front, s).value;
      RedoBits(u, t, d1);
      AfterOne(t, s1, k);
      var d2 := RedoTxn(u, t, d1).value;
      assert (k in d2.added, k in d2.removed) == Bits(t, k, k in d1.added, k in d1.removed);
    }
  }

  ghost predicate AllEndWell(u: set<Utxo>, ts: seq<Txn>, d: Delta, s: set<Utxo>) {
    forall k :: EndsWell(u, ts, d, s, k)
  }

  lemma AllEndBits(u: set<Utxo>, ts: seq<Txn>, d: Delta, s: set<Utxo>)
    requires WellFormed(ts) && RedoTxns(u, ts, d).Some? && Replay(ts, s).Some?
    ensures AllEndWell(u, ts, d, s) <==> View(u, RedoTxns(u, ts, d).value) == Replay(ts, s).value
  {
    hide WellFormed, View, InKeys, OutKeys;
    var v, w := View(u, RedoTxns(u, ts, d).value), Replay(ts, s).value;
    if AllEndWell(u, ts, d, s) {
      forall k ensures k in v <==> k in w {
        assert EndsWell(u, ts, d, s, k);
        EndBit(u, ts, d, s, k);
      }
      assert v == w;
    }
    if v == w {
      forall k ensures EndsWell(u, ts, d, s, k) { EndBit(u, ts, d, s, k); }
    }
  }

  /**
   If both the patch and the replay accept the new branch, they end with the same outputs if and
   only if every output ends well. In between they may differ: see `ReorgFaithfulIff`.
   */
  lemma ReorgEndsIff(base: seq<Txn>, old_: seq<Txn>, new_: seq<Txn>, u: set<Utxo>)
    requires WellFormed(new_) && Replay(base + new_, {}).Some?
    requires RedoTxns(u, new_, UndoTxns(old_, NO_CHANGE)).Some?
    ensures Replay(base, {}).Some?
    ensures var d := UndoTxns(old_, NO_CHANGE);
            View(u, RedoTxns(u, new_, d).value) == Replay(base + new_, {}).value <==>
            AllEndWell(u, new_, d, Replay(base, {}).value)
  {
    hide Replay, RedoTxns, UndoTxns, WellFormed, AllEndWell, View;
    ReplayConcat(base, new_, {});
    AllEndBits(u, new_, UndoTxns(old_, NO_CHANGE), Replay(base, {}).value);
  }
}
