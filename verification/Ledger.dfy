/**
 Transactions and unspent outputs of the Bitcoin chain.

 `Replay` is the reference semantics of a chain: apply its transactions one by one, from the
 start, to a set of unspent outputs. The chain manager never replays; it keeps the set of its
 tail and moves to another branch through a `Delta` of outputs to add and to remove. The
 theorem `ReorgRefinesReplay` says that the two agree.
 */
module Ledger {
  import opened Collections

  type Hash = nat
  type PubKey = nat

  /** One output of transaction `txn`, owned by `owner`. */
  datatype Utxo = Utxo(txn: Hash, owner: PubKey)

  datatype Txn =
    | Send(id: Hash, sender: PubKey, inputs: seq<Hash>, receiver: PubKey,
           out: nat, remainder: nat, scriptOk: bool, size: nat)
    | Grant(id: Hash, receiver: PubKey, out: nat, size: nat)

  function InKeys(t: Txn): seq<Utxo> {
    if t.Send? then seq(|t.inputs|, i requires 0 <= i < |t.inputs| => Utxo(t.inputs[i], t.sender)) else []
  }

  function OutKeys(t: Txn): seq<Utxo> {
    match t
    case Grant(id, receiver, _, _) => [Utxo(id, receiver)]
    case Send(id, sender, _, receiver, out, remainder, _, _) =>
      (if out > 0 then [Utxo(id, receiver)] else []) + (if remainder > 0 then [Utxo(id, sender)] else [])
  }

  predicate ScriptOk(t: Txn) {
    t.Send? ==> t.scriptOk
  }

  /** A transaction that spends nothing, so that no double-spend check can reject its repetition. */
  predicate IsSource(t: Txn) {
    InKeys(t) == []
  }

  // ---------------------------------------------------------------- replay

  ghost predicate Applies(t: Txn, s: set<Utxo>) {
    Distinct(InKeys(t)) && Elems(InKeys(t)) <= s && ScriptOk(t)
  }

  ghost function Apply(t: Txn, s: set<Utxo>): set<Utxo> {
    s - Elems(InKeys(t)) + Elems(OutKeys(t))
  }

  ghost function Replay(ts: seq<Txn>, s: set<Utxo>): Option<set<Utxo>> {
    if ts == [] then Some(s)
    else
      var before := Replay(ts[..|ts| - 1], s);
      var t := ts[|ts| - 1];
      if before.Some? && Applies(t, before.value) then Some(Apply(t, before.value)) else None
  }

  lemma {:induction false} ReplayConcat(a: seq<Txn>, b: seq<Txn>, s: set<Utxo>)
    ensures Replay(a, s).None? ==> Replay(a + b, s).None?
    ensures Replay(a, s).Some? ==> Replay(a + b, s) == Replay(b, Replay(a, s).value)
  {
    if b == [] {
      assert a + b == a;
    } else {
      var b' := b[..|b| - 1];
      ReplayConcat(a, b', s);
      assert (a + b)[..|a + b| - 1] == a + b';
    }
  }

  lemma ReplaySnoc(ts: seq<Txn>, t: Txn, s: set<Utxo>)
    ensures Replay(ts + [t], s) ==
            var m := Replay(ts, s);
            if m.Some? && Applies(t, m.value) then Some(Apply(t, m.value)) else None
  {
    assert (ts + [t])[..|ts|] == ts;
  }

  lemma ReplayPrefix(ts: seq<Txn>, k: nat, s: set<Utxo>)
    requires k <= |ts| && Replay(ts, s).Some?
    ensures Replay(ts[..k], s).Some?
  {
    ReplayConcat(ts[..k], ts[k..], s);
    assert ts[..k] + ts[k..] == ts;
  }

  /** The transaction at position `i` of a replayable chain applies to the replay of what is before it. */
  lemma ReplayStep(ts: seq<Txn>, i: nat, s: set<Utxo>)
    requires i < |ts| && Replay(ts, s).Some?
    ensures Replay(ts[..i], s).Some? && Applies(ts[i], Replay(ts[..i], s).value)
    ensures Replay(ts[..i + 1], s) == Some(Apply(ts[i], Replay(ts[..i], s).value))
  {
    ReplayPrefix(ts, i + 1, s);
    assert ts[..i + 1][..i] == ts[..i];
  }

  // ---------------------------------------------------------------- identities along a chain

  ghost function Ids(ts: seq<Txn>): set<Hash> {
    set i | 0 <= i < |ts| :: ts[i].id
  }

  ghost predicate DistinctIds(ts: seq<Txn>) {
    forall i, j :: 0 <= i < j < |ts| ==> ts[i].id != ts[j].id
  }

  /** Ids identify transactions, and a transaction that spends nothing occurs only once. */
  ghost predicate SourcesOnce(ts: seq<Txn>) {
    forall i, j :: 0 <= i < j < |ts| && ts[i].id == ts[j].id ==> ts[i] == ts[j] && !IsSource(ts[i])
  }

  ghost predicate OutsDistinct(ts: seq<Txn>) {
    forall i :: 0 <= i < |ts| ==> Distinct(OutKeys(ts[i]))
  }

  lemma IdsConcat(a: seq<Txn>, b: seq<Txn>)
    ensures Ids(a + b) == Ids(a) + Ids(b)
  {
    var c := a + b;
    forall i | 0 <= i < |a| ensures a[i].id in Ids(c) { assert c[i] == a[i]; }
    forall i | 0 <= i < |b| ensures b[i].id in Ids(c) { assert c[|a| + i] == b[i]; }
  }

  lemma DistinctIdsSplit(a: seq<Txn>, b: seq<Txn>)
    requires DistinctIds(a + b)
    ensures DistinctIds(a) && DistinctIds(b) && Ids(a) !! Ids(b)
  {
    var c := a + b;
    forall i, j | 0 <= i < j < |a| ensures a[i].id != a[j].id { assert c[i].id != c[j].id; }
    forall i, j | 0 <= i < j < |b| ensures b[i].id != b[j].id { assert c[|a| + i].id != c[|a| + j].id; }
    forall i, j | 0 <= i < |a| && 0 <= j < |b| ensures a[i].id != b[j].id { assert c[i].id != c[|a| + j].id; }
  }

  lemma DistinctIdsJoin(a: seq<Txn>, b: seq<Txn>)
    requires DistinctIds(a) && DistinctIds(b) && Ids(a) !! Ids(b)
    ensures DistinctIds(a + b)
  {
    var c := a + b;
    forall i, j | 0 <= i < j < |c| ensures c[i].id != c[j].id {
      if i < |a| <= j {
        assert a[i].id in Ids(a) && b[j - |a|].id in Ids(b);
      }
    }
  }

  lemma SourcesOncePrefix(ts: seq<Txn>, k: nat)
    requires k <= |ts| && SourcesOnce(ts)
    ensures SourcesOnce(ts[..k])
  {
    var p := ts[..k];
    forall i, j | 0 <= i < j < |p| && p[i].id == p[j].id ensures p[i] == p[j] && !IsSource(p[i]) {
      assert ts[i].id == ts[j].id;
    }
  }

  lemma OutKeysOwn(t: Txn)
    ensures forall k :: k in Elems(OutKeys(t)) ==> k.txn == t.id
  {
  }

  lemma OneId(t: Txn)
    ensures t.id in Ids([t])
  {
    assert [t][0].id in Ids([t]);
  }

  /** Only outputs of applied transactions can be unspent. */
  lemma {:induction false} ReplayOwned(ts: seq<Txn>, s: set<Utxo>)
    requires Replay(ts, s).Some?
    ensures forall k :: k in Replay(ts, s).value && k !in s ==> k.txn in Ids(ts)
  {
    hide Ids, InKeys, OutKeys, Applies, Elems;
    if ts != [] {
      var n := |ts| - 1;
      ReplayOwned(ts[..n], s);
      assert ts == ts[..n] + [ts[n]];
      IdsConcat(ts[..n], [ts[n]]);
      OneId(ts[n]);
      OutKeysOwn(ts[n]);
    }
  }

  /** Outputs of a chain without repetition are fresh when they are created. */
  lemma OutputsFresh(ts: seq<Txn>, i: nat)
    requires i < |ts| && Replay(ts, {}).Some? && DistinctIds(ts)
    ensures Replay(ts[..i], {}).Some?
    ensures Elems(OutKeys(ts[i])) !! Replay(ts[..i], {}).value
  {
    hide Replay, DistinctIds, Ids, InKeys, OutKeys, Elems;
    var a, b := ts[..i], ts[i..];
    ReplayPrefix(ts, i, {});
    ReplayOwned(a, {});
    assert ts == a + b;
    DistinctIdsSplit(a, b);
    assert b == [ts[i]] + ts[i + 1..];
    IdsConcat([ts[i]], ts[i + 1..]);
    OneId(ts[i]);
    OutKeysOwn(ts[i]);
  }

  /** Outputs spent by a chain without repetition never come back. */
  lemma SpentForever(ts: seq<Txn>, i: nat)
    requires i < |ts| && Replay(ts, {}).Some? && DistinctIds(ts)
    ensures Elems(InKeys(ts[i])) !! Replay(ts, {}).value
  {
    hide Replay, DistinctIds, Ids, InKeys, OutKeys;
    var a, t, b := ts[..i], ts[i], ts[i + 1..];
    ReplayStep(ts, i, {});
    var s := Replay(a, {}).value;
    var a1 := ts[..i + 1];
    assert ts == a1 + b && a1 == a + [t];
    ReplayConcat(a1, b, {});
    ReplayOwned(a, {});
    ReplayOwned(b, Apply(t, s));
    DistinctIdsSplit(a1, b);
    DistinctIdsSplit(a, [t]);
    IdsConcat(a, [t]);
    OneId(t);
    OutKeysOwn(t);
    forall k | k in Elems(InKeys(t)) ensures k !in Apply(t, s) && k.txn !in Ids(b) {
      assert k in s && k.txn in Ids(a);
    }
  }

  /**
   A chain that replays cannot repeat a Send: its input would have to be created twice, by a
   transaction that repeats earlier. So only transactions without inputs need the hypothesis.
   */
  lemma {:induction false} ReplayNeverRepeats(ts: seq<Txn>)
    requires Replay(ts, {}).Some? && SourcesOnce(ts)
    ensures DistinctIds(ts)
  {
    if ts != [] {
      var n := |ts| - 1;
      var pre := ts[..n];
      SourcesOncePrefix(ts, n);
      ReplayNeverRepeats(pre);
      assert Elems(InKeys(ts[n])) <= Replay(pre, {}).value;
      forall i | 0 <= i < n ensures pre[i].id != ts[n].id {
        SpentForever(pre, i);
        NoCommonInput(pre[i], ts[n], Replay(pre, {}).value);
      }
      assert ts == pre + [ts[n]];
      DistinctIdsJoin(pre, [ts[n]]);
    }
  }

  lemma NoCommonInput(t: Txn, t': Txn, s: set<Utxo>)
    requires Elems(InKeys(t)) !! s && Elems(InKeys(t')) <= s
    ensures t == t' ==> IsSource(t)
  {
    if InKeys(t) != [] {
      assert InKeys(t)[0] in Elems(InKeys(t));
    }
  }

  // ---------------------------------------------------------------- the undo/redo delta

  /** Outputs to add to, and to remove from, the set kept for the current tail. */
  datatype Delta = Delta(added: set<Utxo>, removed: set<Utxo>)

  const NO_CHANGE := Delta({}, {})

  function View(u: set<Utxo>, d: Delta): set<Utxo> {
    u + d.added - d.removed
  }

  /** The delta is in normal form: it adds only absent outputs and removes only present ones. */
  ghost predicate Exact(u: set<Utxo>, d: Delta) {
    d.removed <= u && d.added !! u
  }

  function Uncreate(k: Utxo, d: Delta): Delta {
    if k in d.added then d.(added := d.added - {k}) else d.(removed := d.removed + {k})
  }

  function Create(k: Utxo, d: Delta): Delta {
    if k in d.removed then d.(removed := d.removed - {k}) else d.(added := d.added + {k})
  }

  function UncreateAll(ks: seq<Utxo>, d: Delta): Delta {
    if ks == [] then d else Uncreate(ks[|ks| - 1], UncreateAll(ks[..|ks| - 1], d))
  }

  function CreateAll(ks: seq<Utxo>, d: Delta): Delta {
    if ks == [] then d else Create(ks[|ks| - 1], CreateAll(ks[..|ks| - 1], d))
  }

  function Spend(u: set<Utxo>, k: Utxo, d: Delta): Option<Delta> {
    if k in d.added then Some(d.(added := d.added - {k}))
    else if k in u && k !in d.removed then Some(d.(removed := d.removed + {k}))
    else None
  }

  function SpendAll(u: set<Utxo>, ks: seq<Utxo>, d: Delta): Option<Delta> {
    if ks == [] then Some(d)
    else
      var before := SpendAll(u, ks[..|ks| - 1], d);
      if before.None? then None else Spend(u, ks[|ks| - 1], before.value)
  }

  /** Undo one transaction: its inputs come back, its outputs go away. */
  function UndoTxn(t: Txn, d: Delta): Delta {
    UncreateAll(OutKeys(t), d.(added := d.added + Elems(InKeys(t))))
  }

  /** Undo a stretch of the chain, last transaction first. */
  function UndoTxns(ts: seq<Txn>, d: Delta): Delta
    decreases |ts|
  {
    if ts == [] then d else UndoTxns(ts[..|ts| - 1], UndoTxn(ts[|ts| - 1], d))
  }

  function RedoTxn(u: set<Utxo>, t: Txn, d: Delta): Option<Delta> {
    var spent := SpendAll(u, InKeys(t), d);
    if spent.None? || !ScriptOk(t) then None else Some(CreateAll(OutKeys(t), spent.value))
  }

  function RedoTxns(u: set<Utxo>, ts: seq<Txn>, d: Delta): Option<Delta> {
    if ts == [] then Some(d)
    else
      var before := RedoTxns(u, ts[..|ts| - 1], d);
      if before.None? then None else RedoTxn(u, ts[|ts| - 1], before.value)
  }

  lemma Uncreate1(k: Utxo, d: Delta)
    ensures UncreateAll([k], d) == Uncreate(k, d)
  {
    assert [k][..0] == [];
  }

  lemma Create1(k: Utxo, d: Delta)
    ensures CreateAll([k], d) == Create(k, d)
  {
    assert [k][..0] == [];
  }

  lemma UncreateExact(u: set<Utxo>, k: Utxo, d: Delta)
    requires Exact(u, d) && k in View(u, d)
    ensures Exact(u, Uncreate(k, d)) && View(u, Uncreate(k, d)) == View(u, d) - {k}
  {
  }

  lemma {:induction false} UncreateAllExact(u: set<Utxo>, ks: seq<Utxo>, d: Delta)
    requires Exact(u, d) && Distinct(ks) && Elems(ks) <= View(u, d)
    ensures Exact(u, UncreateAll(ks, d))
    ensures View(u, UncreateAll(ks, d)) == View(u, d) - Elems(ks)
  {
    if ks != [] {
      var k, ks' := ks[|ks| - 1], ks[..|ks| - 1];
      Snoc(ks);
      UncreateAllExact(u, ks', d);
      assert k in Elems(ks) && k !in Elems(ks');
      UncreateExact(u, k, UncreateAll(ks', d));
    }
  }

  lemma {:induction false} CreateAllExact(u: set<Utxo>, ks: seq<Utxo>, d: Delta)
    requires Exact(u, d) && Distinct(ks) && Elems(ks) !! View(u, d)
    ensures Exact(u, CreateAll(ks, d))
    ensures View(u, CreateAll(ks, d)) == View(u, d) + Elems(ks)
  {
    if ks != [] {
      Snoc(ks);
      CreateAllExact(u, ks[..|ks| - 1], d);
    }
  }

  lemma SpendExact(u: set<Utxo>, k: Utxo, d: Delta)
    requires Exact(u, d)
    ensures Spend(u, k, d).Some? <==> k in View(u, d)
    ensures Spend(u, k, d).Some? ==>
              var r := Spend(u, k, d).value; Exact(u, r) && View(u, r) == View(u, d) - {k}
  {
  }

  /** Spending through the delta succeeds exactly when every input is distinct and unspent. */
  lemma {:induction false} SpendAllExact(u: set<Utxo>, ks: seq<Utxo>, d: Delta)
    requires Exact(u, d)
    ensures SpendAll(u, ks, d).Some? <==> Distinct(ks) && Elems(ks) <= View(u, d)
    ensures SpendAll(u, ks, d).Some? ==>
              var r := SpendAll(u, ks, d).value; Exact(u, r) && View(u, r) == View(u, d) - Elems(ks)
  {
    if ks != [] {
      var k, ks' := ks[|ks| - 1], ks[..|ks| - 1];
      Snoc(ks);
      SpendAllExact(u, ks', d);
      assert k in Elems(ks') <==> k in ks';
      if SpendAll(u, ks', d).Some? {
        SpendExact(u, k, SpendAll(u, ks', d).value);
      }
    }
  }

  /** Undoing the last transaction of a chain gives the view of the chain without it. */
  lemma UndoTxnExact(u: set<Utxo>, t: Txn, s: set<Utxo>, d: Delta)
    requires Exact(u, d) && Applies(t, s) && View(u, d) == Apply(t, s)
    requires Distinct(OutKeys(t)) && Elems(OutKeys(t)) !! s && Elems(InKeys(t)) !! u
    ensures Exact(u, UndoTxn(t, d)) && View(u, UndoTxn(t, d)) == s
  {
    var d' := d.(added := d.added + Elems(InKeys(t)));
    assert View(u, d') == View(u, d) + Elems(InKeys(t));
    UncreateAllExact(u, OutKeys(t), d');
  }

  lemma RedoTxnExact(u: set<Utxo>, t: Txn, d: Delta)
    requires Exact(u, d) && Distinct(OutKeys(t))
    requires Applies(t, View(u, d)) ==> Elems(OutKeys(t)) !! View(u, d)
    ensures RedoTxn(u, t, d).Some? <==> Applies(t, View(u, d))
    ensures RedoTxn(u, t, d).Some? ==>
              var r := RedoTxn(u, t, d).value; Exact(u, r) && View(u, r) == Apply(t, View(u, d))
  {
    SpendAllExact(u, InKeys(t), d);
    if Applies(t, View(u, d)) {
      CreateAllExact(u, OutKeys(t), SpendAll(u, InKeys(t), d).value);
    }
  }

  /** One backward step along the current chain. */
  lemma UndoStep(ts: seq<Txn>, n: nat, u: set<Utxo>, d: Delta)
    requires n < |ts| && Replay(ts, {}) == Some(u) && DistinctIds(ts) && OutsDistinct(ts)
    requires Exact(u, d) && Replay(ts[..n + 1], {}) == Some(View(u, d))
    ensures Exact(u, UndoTxn(ts[n], d)) && Replay(ts[..n], {}) == Some(View(u, UndoTxn(ts[n], d)))
  {
    ReplayStep(ts, n, {});
    OutputsFresh(ts, n);
    SpentForever(ts, n);
    UndoTxnExact(u, ts[n], Replay(ts[..n], {}).value, d);
  }

  /** Undoing the transactions `ts[k..n]` of the current chain turns the view of `ts[..n]` into that of `ts[..k]`. */
  lemma {:induction false} UndoRefinesReplay(ts: seq<Txn>, k: nat, n: nat, u: set<Utxo>, d: Delta)
    requires k <= n <= |ts| && Replay(ts, {}) == Some(u) && DistinctIds(ts) && OutsDistinct(ts)
    requires Exact(u, d) && Replay(ts[..n], {}) == Some(View(u, d))
    ensures Exact(u, UndoTxns(ts[k..n], d))
    ensures Replay(ts[..k], {}) == Some(View(u, UndoTxns(ts[k..n], d)))
    decreases n - k
  {
    hide Replay, UndoTxn, View, Exact, DistinctIds, OutsDistinct;
    var w := ts[k..n];
    if k == n {
      assert w == [];
    } else {
      UndoStep(ts, n - 1, u, d);
      UndoRefinesReplay(ts, k, n - 1, u, UndoTxn(ts[n - 1], d));
      assert w[..|w| - 1] == ts[k..n - 1] && w[|w| - 1] == ts[n - 1];
    }
  }

  /** One forward step along the candidate chain. */
  lemma RedoStep(pre: seq<Txn>, t: Txn, u: set<Utxo>, d: Delta)
    requires Exact(u, d) && Replay(pre, {}) == Some(View(u, d))
    requires SourcesOnce(pre + [t]) && Distinct(OutKeys(t))
    ensures RedoTxn(u, t, d).Some? <==> Replay(pre + [t], {}).Some?
    ensures RedoTxn(u, t, d).Some? ==>
              var r := RedoTxn(u, t, d).value; Exact(u, r) && Replay(pre + [t], {}) == Some(View(u, r))
  {
    hide RedoTxn, View, Exact, SourcesOnce, OutKeys, InKeys, Distinct;
    var all := pre + [t];
    assert all[..|all| - 1] == pre;
    if Applies(t, View(u, d)) {
      ReplayNeverRepeats(all);
      OutputsFresh(all, |pre|);
    }
    RedoTxnExact(u, t, d);
  }

  /** Redoing a branch on top of `base` succeeds exactly when the branch replays, with the same result. */
  lemma {:induction false} RedoRefinesReplay(base: seq<Txn>, ts: seq<Txn>, u: set<Utxo>, d: Delta)
    requires Exact(u, d) && Replay(base, {}) == Some(View(u, d))
    requires SourcesOnce(base + ts) && OutsDistinct(ts)
    ensures RedoTxns(u, ts, d).Some? <==> Replay(base + ts, {}).Some?
    ensures RedoTxns(u, ts, d).Some? ==>
              var r := RedoTxns(u, ts, d).value; Exact(u, r) && Replay(base + ts, {}) == Some(View(u, r))
  {
    hide Replay, RedoTxn, View, Exact, SourcesOnce, OutKeys, InKeys, Distinct;
    if ts == [] {
      assert base + ts == base;
    } else {
      var t, ts' := ts[|ts| - 1], ts[..|ts| - 1];
      assert base + ts == (base + ts') + [t] && (base + ts)[..|base + ts| - 1] == base + ts';
      SourcesOncePrefix(base + ts, |base + ts'|);
      RedoRefinesReplay(base, ts', u, d);
      if RedoTxns(u, ts', d).Some? {
        RedoStep(base + ts', t, u, RedoTxns(u, ts', d).value);
      } else {
        ReplayConcat(base + ts', [t], {});
      }
    }
  }

  /**
   The reorganisation theorem. The current chain is `base + old` with unspent outputs `u`; the
   candidate is `base + new`. Undoing `old` and redoing `new` through a delta succeeds exactly
   when the candidate replays from the start, and then the patched set is its replay.
   */
  lemma ReorgRefinesReplay(base: seq<Txn>, old_: seq<Txn>, new_: seq<Txn>, u: set<Utxo>)
    requires Replay(base + old_, {}) == Some(u)
    requires SourcesOnce(base + old_) && SourcesOnce(base + new_)
    requires OutsDistinct(base + old_) && OutsDistinct(new_)
    ensures var r := RedoTxns(u, new_, UndoTxns(old_, NO_CHANGE));
            && (r.Some? <==> Replay(base + new_, {}).Some?)
            && (r.Some? ==> Replay(base + new_, {}) == Some(View(u, r.value)))
  {
    var ts := base + old_;
    assert Exact(u, NO_CHANGE) && View(u, NO_CHANGE) == u;
    hide Replay, UndoTxns, RedoTxns, View, Exact, SourcesOnce;
    ReplayNeverRepeats(ts);
    assert ts[..|ts|] == ts && ts[|base|..|ts|] == old_ && ts[..|base|] == base;
    UndoRefinesReplay(ts, |base|, |ts|, u, NO_CHANGE);
    RedoRefinesReplay(base, new_, u, UndoTxns(old_, NO_CHANGE));
  }

  /**
   Why input-less transactions must not repeat. A grant is spent, granted again, and the second
   grant is undone: the spent output is then both added and removed, and the patch loses it,
   although the replay of the remaining chain still holds it.
   */
  lemma RepeatedGrantBreaksReorg()
    ensures var g := Grant(1, 7, 10, 1);
            var s := Send(2, 7, [1], 8, 10, 0, true, 1);
            var u := {Utxo(2, 8), Utxo(1, 7)};
            && Replay([g] + [s, g], {}) == Some(u)
            && Replay([g], {}) == Some({Utxo(1, 7)})
            && View(u, UndoTxns([s, g], NO_CHANGE)) == {}
  {
    var g := Grant(1, 7, 10, 1);
    var s := Send(2, 7, [1], 8, 10, 0, true, 1);
    assert InKeys(g) == [] && OutKeys(g) == [Utxo(1, 7)] && InKeys(s) == [Utxo(1, 7)] && OutKeys(s) == [Utxo(2, 8)];
    RepeatedGrantReplay(g, s, Utxo(1, 7), Utxo(2, 8));
    RepeatedGrantUndo(g, s, Utxo(1, 7), Utxo(2, 8));
  }

  lemma RepeatedGrantReplay(g: Txn, s: Txn, kg: Utxo, ks: Utxo)
    requires InKeys(g) == [] && OutKeys(g) == [kg] && InKeys(s) == [kg] && OutKeys(s) == [ks]
    requires ScriptOk(g) && ScriptOk(s) && kg != ks
    ensures Replay([g], {}) == Some({kg}) && Replay([g] + [s, g], {}) == Some({ks, kg})
  {
    hide InKeys, OutKeys, ScriptOk, Replay;
    assert Replay([], {}) == Some({}) by { ReplayEmpty({}); }
    ReplaySnoc([], g, {});
    ReplaySnoc([g], s, {});
    ReplaySnoc([g, s], g, {});
    assert [] + [g] == [g] && [g] + [s] == [g, s] && [g] + [s, g] == [g, s] + [g];
    assert Elems([kg]) == {kg} && Elems([ks]) == {ks} && Elems<Utxo>([]) == {};
    assert Apply(g, {}) == {kg} && Applies(s, {kg}) && Apply(s, {kg}) == {ks} && Apply(g, {ks}) == {ks, kg};
  }

  lemma ReplayEmpty(s: set<Utxo>)
    ensures Replay([], s) == Some(s)
  {
  }

  lemma RepeatedGrantUndo(g: Txn, s: Txn, kg: Utxo, ks: Utxo)
    requires InKeys(g) == [] && OutKeys(g) == [kg] && InKeys(s) == [kg] && OutKeys(s) == [ks] && kg != ks
    ensures UndoTxns([s, g], NO_CHANGE) == Delta({kg}, {kg, ks})
  {
    hide InKeys, OutKeys;
    Uncreate1(kg, NO_CHANGE);
    Uncreate1(ks, Delta({kg}, {kg}));
    assert Elems<Utxo>([]) == {} && Elems([kg]) == {kg};
    var none: set<Utxo> := {};
    assert none + Elems(InKeys(g)) == none && none + Elems(InKeys(s)) == {kg};
    assert NO_CHANGE == Delta(none, none) && UndoTxn(g, NO_CHANGE) == Delta({}, {kg});
    assert UndoTxn(s, Delta({}, {kg})) == Delta({kg}, {kg, ks});
    hide UndoTxn;
    assert [s, g][..1] == [s] && [s][..0] == [];
    assert UndoTxns([s, g], NO_CHANGE) == UndoTxns([s], UndoTxn(g, NO_CHANGE));
    assert UndoTxns([s], Delta({}, {kg})) == UndoTxns([s][..0], UndoTxn(s, Delta({}, {kg})));
  }
}
