/**
 What every vote keeps in Blizzard: conflict sets count exactly the chits of their members and
 prefer a most confident one; rivals accepted one after the other are far apart in confidence;
 without rivals, transactions are accepted at their beta1-th chit, parents first.
 */
module BlizzardSafety {
  import opened Collections
  import opened Ledger
  import opened Blizzard

  // ---------------------------------------------------------------- sums of confidence

  ghost function SumConf(s: set<Hash>, conf: map<Hash, nat>): nat {
    if s == {} then 0 else var h :| h in s; Conf(conf, h) + SumConf(s - {h}, conf)
  }

  lemma {:induction false} SumSplit(s: set<Hash>, conf: map<Hash, nat>, h: Hash)
    requires h in s
    ensures SumConf(s, conf) == Conf(conf, h) + SumConf(s - {h}, conf)
    decreases s
  {
    var x :| x in s && SumConf(s, conf) == Conf(conf, x) + SumConf(s - {x}, conf);
    if x != h {
      SumSplit(s - {x}, conf, h);
      SumSplit(s - {h}, conf, x);
      assert s - {x} - {h} == s - {h} - {x};
    }
  }

  lemma {:induction false} SumSame(s: set<Hash>, conf: map<Hash, nat>, conf': map<Hash, nat>)
    requires forall h :: h in s ==> Conf(conf', h) == Conf(conf, h)
    ensures SumConf(s, conf') == SumConf(s, conf)
    decreases s
  {
    if s != {} {
      var h :| h in s;
      SumSplit(s, conf, h);
      SumSplit(s, conf', h);
      SumSame(s - {h}, conf, conf');
    }
  }

  lemma {:induction false} SumSubset(s: set<Hash>, s': set<Hash>, conf: map<Hash, nat>)
    requires s <= s'
    ensures SumConf(s, conf) <= SumConf(s', conf)
    decreases s'
  {
    if s != s' {
      assert exists h :: h in s' && h !in s;
      var h :| h in s' && h !in s;
      SumSplit(s', conf, h);
      SumSubset(s, s' - {h}, conf);
    }
  }

  // ---------------------------------------------------------------- the invariant

  /** The rivals for output `k`. */
  ghost function Members(pool: AvaxPool, k: Utxo): set<Hash> {
    set h | h in pool && k in Keys(pool[h])
  }

  /** The conflict set counts its members' chits and prefers a most confident one. */
  ghost predicate SetOk(pool: AvaxPool, conf: map<Hash, nat>, k: Utxo, ct: ConflictSet) {
    && ct.pref in Members(pool, k)
    && (forall h :: h in Members(pool, k) ==> Conf(conf, h) <= Conf(conf, ct.pref))
    && ct.totalRounds == SumConf(Members(pool, k), conf)
    && (ct.hasConflicts <==> Members(pool, k) != {ct.pref})
  }

  ghost predicate SetsOk(s: Votes) {
    && (forall h, k :: h in s.pool && k in Keys(s.pool[h]) ==> k in s.cts)
    && (forall k :: k in s.cts ==> SetOk(s.pool, s.conf, k, s.cts[k]))
  }

  ghost predicate DagOk(s: Votes) {
    && (forall h :: h in s.pool ==> s.pool[h].id == h && Distinct(Keys(s.pool[h])))
    && (forall h :: h in s.dag ==> h in s.pool && s.dag[h] == Parents(s.pool[h]))
    && s.conf.Keys == s.pool.Keys
    && Distinct(s.accepted) && Elems(s.accepted) == s.pool.Keys - s.dag.Keys
  }

  ghost predicate Inv(s: Votes) {
    DagOk(s) && SetsOk(s)
  }

  // ---------------------------------------------------------------- a chit keeps the conflict sets

  lemma {:induction false} BumpAt(cts: map<Utxo, ConflictSet>, t: Hash, conf: map<Hash, nat>, ks: seq<Utxo>)
    requires Distinct(ks) && forall k :: k in ks ==> k in cts
    ensures Bump(cts, t, conf, ks).Keys == cts.Keys
    ensures forall k :: k in cts ==> Bump(cts, t, conf, ks)[k] == if k in ks then BumpSet(cts[k], t, conf) else cts[k]
  {
    hide BumpSet;
    if ks != [] {
      Snoc(ks);
      BumpAt(cts, t, conf, ks[..|ks| - 1]);
      assert forall k :: k in ks <==> k in ks[..|ks| - 1] || k == ks[|ks| - 1];
    }
  }

  lemma SetBump(pool: AvaxPool, conf: map<Hash, nat>, k: Utxo, ct: ConflictSet, t: Hash)
    requires SetOk(pool, conf, k, ct)
    ensures var conf' := conf[t := Conf(conf, t) + 1];
            SetOk(pool, conf', k, if t in Members(pool, k) then BumpSet(ct, t, conf') else ct)
  {
    hide Members, Keys, SumConf;
    var conf' := conf[t := Conf(conf, t) + 1];
    var ms := Members(pool, k);
    if t in ms {
      SumSplit(ms, conf, t);
      SumSplit(ms, conf', t);
      SumSame(ms - {t}, conf, conf');
    } else {
      SumSame(ms, conf, conf');
    }
  }

  lemma BumpKeeps(s: Votes, t: Hash, conf: map<Hash, nat>)
    requires SetsOk(s) && t in s.pool && Distinct(Keys(s.pool[t])) && conf == s.conf[t := Conf(s.conf, t) + 1]
    ensures SetsOk(s.(conf := conf, cts := Bump(s.cts, t, conf, Keys(s.pool[t]))))
  {
    hide Conf, BumpSet, SetOk, Distinct;
    var ks := Keys(s.pool[t]);
    BumpAt(s.cts, t, conf, ks);
    var cts := Bump(s.cts, t, conf, ks);
    hide Bump;
    forall k | k in cts ensures SetOk(s.pool, conf, k, cts[k]) {
      SetBump(s.pool, s.conf, k, s.cts[k], t);
      assert t in Members(s.pool, k) <==> k in ks;
    }
  }

  lemma ChitSets(b: Betas, s: Votes, t: Hash)
    requires Inv(s) && t in s.dag
    ensures SetsOk(Chit(b, s, t))
    ensures var conf := s.conf[t := Conf(s.conf, t) + 1];
            && Chit(b, s, t).conf == conf && Chit(b, s, t).pool == s.pool
            && Chit(b, s, t).cts == Bump(s.cts, t, conf, Keys(s.pool[t]))
  {
    hide Conf, Bump, Against, Contested, ParentsAccepted, SetOk, Accepts, Elems, Keys, Distinct;
    BumpKeeps(s, t, s.conf[t := Conf(s.conf, t) + 1]);
  }

  lemma ChitDag(b: Betas, s: Votes, t: Hash)
    requires DagOk(s) && t in s.dag
    ensures DagOk(Chit(b, s, t))
  {
    hide Conf, Bump, Against, Contested, ParentsAccepted, Accepts, Keys;
    DistinctConcat(s.accepted, [t]);
    assert Elems(s.accepted + [t]) == Elems(s.accepted) + {t};
  }

  lemma ChitKeeps(b: Betas, s: Votes, t: Hash)
    requires Inv(s) && t in s.dag
    ensures Inv(Chit(b, s, t))
  {
    hide Chit, DagOk, SetsOk;
    ChitSets(b, s, t);
    ChitDag(b, s, t);
  }

  // ---------------------------------------------------------------- what the count against means

  /** Chits that went to rivals of `t`, summed over its outputs. */
  ghost function RivalChits(pool: AvaxPool, conf: map<Hash, nat>, t: Hash, ks: seq<Utxo>): nat {
    if ks == [] then 0
    else RivalChits(pool, conf, t, ks[..|ks| - 1]) + SumConf(Members(pool, ks[|ks| - 1]) - {t}, conf)
  }

  /** The subtraction in the count never underflows: each term is the rivals' total. */
  lemma {:induction false} AgainstIsRivals(s: Votes, t: Hash, ks: seq<Utxo>)
    requires SetsOk(s) && t in s.pool && forall k :: k in ks ==> k in Keys(s.pool[t])
    ensures Against(s.cts, Conf(s.conf, t), ks) == RivalChits(s.pool, s.conf, t, ks)
  {
    if ks != [] {
      var ks', k := ks[..|ks| - 1], ks[|ks| - 1];
      assert forall x :: x in ks' ==> x in ks;
      AgainstIsRivals(s, t, ks');
      assert k in ks && t in Members(s.pool, k);
      hide Members, Keys;
      SumSplit(Members(s.pool, k), s.conf, t);
    }
  }

  lemma {:induction false} RivalsAtLeast(pool: AvaxPool, conf: map<Hash, nat>, t: Hash, ks: seq<Utxo>, k: Utxo)
    requires k in ks
    ensures RivalChits(pool, conf, t, ks) >= SumConf(Members(pool, k) - {t}, conf)
  {
    if k != ks[|ks| - 1] {
      assert k in ks[..|ks| - 1];
      RivalsAtLeast(pool, conf, t, ks[..|ks| - 1], k);
    }
  }

  /** When `t` is accepted by a chit, this is the confidence it has. */
  lemma AcceptedConfidence(b: Betas, s: Votes, t: Hash)
    requires Inv(s) && t in s.dag && t !in Chit(b, s, t).dag
    ensures var s' := Chit(b, s, t);
            var ks := Keys(s.pool[t]);
            var free := ParentsAccepted(s.dag, Parents(s.pool[t])) && !Contested(s'.cts, ks);
            && s'.accepted == s.accepted + [t]
            && Conf(s'.conf, t) >= (if free then b.beta1 else b.beta2) + RivalChits(s.pool, s'.conf, t, ks)
  {
    hide Bump, Against, Contested, ParentsAccepted, Keys, SetsOk, RivalChits, Elems, Distinct, Parents;
    ChitSets(b, s, t);
    AgainstIsRivals(Chit(b, s, t), t, Keys(s.pool[t]));
  }

  /** Somebody else wants an output that `t` wants. */
  ghost predicate HasRival(pool: AvaxPool, t: Hash)
    requires t in pool
  {
    exists r, k :: r in pool && r != t && k in Keys(pool[t]) && k in Keys(pool[r])
  }

  /** The flags of the conflict sets say exactly whether there is a rival. */
  lemma ContestedIff(s: Votes, t: Hash)
    requires SetsOk(s) && t in s.pool
    ensures Contested(s.cts, Keys(s.pool[t])) <==> HasRival(s.pool, t)
  {
    hide SumConf, Keys;
    var ks := Keys(s.pool[t]);
    if Contested(s.cts, ks) {
      var i :| 0 <= i < |ks| && ks[i] in s.cts && s.cts[ks[i]].hasConflicts;
      var k := ks[i];
      assert SetOk(s.pool, s.conf, k, s.cts[k]) && t in Members(s.pool, k);
      var r :| r in Members(s.pool, k) && r != t;
      assert r in s.pool && k in Keys(s.pool[r]) && k in ks;
    }
    if HasRival(s.pool, t) {
      var r, k :| r in s.pool && r != t && k in ks && k in Keys(s.pool[r]);
      assert SetOk(s.pool, s.conf, k, s.cts[k]) && t in Members(s.pool, k) && r in Members(s.pool, k);
      var i :| 0 <= i < |ks| && ks[i] == k;
    }
  }

  lemma {:induction false} NoRivalsNoChits(pool: AvaxPool, conf: map<Hash, nat>, t: Hash, ks: seq<Utxo>)
    requires t in pool && !HasRival(pool, t) && forall k :: k in ks ==> k in Keys(pool[t])
    ensures RivalChits(pool, conf, t, ks) == 0
  {
    hide Keys;
    if ks != [] {
      var n := |ks| - 1;
      NoRivalsNoChits(pool, conf, t, ks[..n]);
      assert ks[n] in ks;
      assert Members(pool, ks[n]) - {t} == {};
    }
  }

  /**
   What a chit decides: without rivals and pending parents the transaction leaves the DAG with
   beta1 chits, and otherwise with beta2 more than all rivals have on all its inputs together.
   */
  lemma AcceptedIff(b: Betas, s: Votes, t: Hash)
    requires Inv(s) && t in s.dag
    ensures t in s.pool
    ensures var s' := Chit(b, s, t);
            && Conf(s'.conf, t) == Conf(s.conf, t) + 1
            && (!HasRival(s.pool, t) && (forall p :: p in Parents(s.pool[t]) ==> p !in s.dag) ==>
                  (t !in s'.dag <==> Conf(s'.conf, t) >= b.beta1))
            && (HasRival(s.pool, t) || (exists p :: p in Parents(s.pool[t]) && p in s.dag) ==>
                  (t !in s'.dag <==> Conf(s'.conf, t) >= b.beta2 + RivalChits(s.pool, s'.conf, t, Keys(s.pool[t]))))
  {
    hide Bump, Against, Contested, Keys, SetsOk, RivalChits, Elems, Distinct, Parents, HasRival;
    var s', ks := Chit(b, s, t), Keys(s.pool[t]);
    ChitSets(b, s, t);
    AgainstIsRivals(s', t, ks);
    ContestedIff(s', t);
    if !HasRival(s.pool, t) { NoRivalsNoChits(s.pool, s'.conf, t, ks); }
  }

  // ---------------------------------------------------------------- accepted rivals are far apart

  /** Rivals for `k` accepted before position `j`. */
  ghost function EarlierRivals(s: Votes, j: nat, k: Utxo): set<Hash>
    requires j <= |s.accepted|
  {
    Members(s.pool, k) * Elems(s.accepted[..j])
  }

  /** An accepted transaction outweighs beta2 and all rivals accepted before it together. */
  ghost predicate MarginAt(b: Betas, s: Votes, j: nat, k: Utxo)
    requires j < |s.accepted|
  {
    EarlierRivals(s, j, k) != {} ==>
      Conf(s.conf, s.accepted[j]) >= b.beta2 + SumConf(EarlierRivals(s, j, k), s.conf)
  }

  ghost predicate Margin(b: Betas, s: Votes) {
    forall j, k {:trigger MarginAt(b, s, j, k)} ::
      0 <= j < |s.accepted| && s.accepted[j] in s.pool && k in Keys(s.pool[s.accepted[j]]) ==> MarginAt(b, s, j, k)
  }

  /** Confidence of accepted transactions is frozen, so earlier margins stay. */
  lemma MarginFrame(b: Betas, s: Votes, s': Votes, j: nat, k: Utxo)
    requires j < |s.accepted| <= |s'.accepted| && s'.accepted[..|s.accepted|] == s.accepted
    requires MarginAt(b, s, j, k)
    requires EarlierRivals(s', j, k) == EarlierRivals(s, j, k)
    requires forall h :: h in Elems(s.accepted) ==> Conf(s'.conf, h) == Conf(s.conf, h)
    ensures MarginAt(b, s', j, k)
  {
    hide Members, Conf, SumConf;
    assert s'.accepted[j] == s'.accepted[..|s.accepted|][j];
    forall h | h in EarlierRivals(s, j, k) ensures h in Elems(s.accepted) { assert h in s.accepted[..j]; }
    hide EarlierRivals, Elems;
    assert s.accepted[j] in s.accepted;
    ElemsIn(s.accepted, s.accepted[j]);
    SumSame(EarlierRivals(s, j, k), s.conf, s'.conf);
  }

  lemma ElemsIn<T>(s: seq<T>, x: T)
    requires x in s
    ensures x in Elems(s)
  {
  }

  /** The margin of the transaction just accepted. */
  lemma NewMargin(b: Betas, s: Votes, t: Hash, k: Utxo)
    requires Inv(s) && t in s.dag && t !in Chit(b, s, t).dag && k in Keys(s.pool[t])
    ensures |Chit(b, s, t).accepted| == |s.accepted| + 1 && MarginAt(b, Chit(b, s, t), |s.accepted|, k)
  {
    var s' := Chit(b, s, t);
    var j, ks := |s.accepted|, Keys(s.pool[t]);
    AcceptedConfidence(b, s, t);
    ChitSets(b, s, t);
    hide Chit, Conf, SumConf, RivalChits, Keys, Parents, ParentsAccepted;
    assert s'.accepted[..j] == s.accepted;
    var e := EarlierRivals(s', j, k);
    assert t !in Elems(s.accepted);
    assert e <= Members(s.pool, k) - {t};
    SumSubset(e, Members(s.pool, k) - {t}, s'.conf);
    RivalsAtLeast(s.pool, s'.conf, t, ks, k);
    if e != {} {
      RivalMeansContested(s', t, k, ks);
    }
  }

  lemma RivalMeansContested(s: Votes, t: Hash, k: Utxo, ks: seq<Utxo>)
    requires SetsOk(s) && t in s.pool && ks == Keys(s.pool[t]) && k in ks
    requires Members(s.pool, k) - {t} != {}
    ensures Contested(s.cts, ks)
  {
    hide SumConf;
    var i :| 0 <= i < |ks| && ks[i] == k;
    assert t in Members(s.pool, k);
    var h :| h in Members(s.pool, k) - {t};
    assert k in s.cts && SetOk(s.pool, s.conf, k, s.cts[k]);
  }

  ghost predicate Safe(b: Betas, s: Votes) {
    Inv(s) && Margin(b, s)
  }

  /** What a chit leaves alone: the pool, the log so far and the confidence of accepted transactions. */
  lemma ChitFacts(b: Betas, s: Votes, t: Hash)
    requires Inv(s) && t in s.dag
    ensures var s' := Chit(b, s, t);
            && s'.pool == s.pool && s.accepted <= s'.accepted
            && (s'.accepted != s.accepted ==> s'.accepted == s.accepted + [t] && t !in s'.dag)
            && forall h :: h in Elems(s.accepted) ==> Conf(s'.conf, h) == Conf(s.conf, h)
  {
    hide SetsOk, Chit, Conf, Keys, Parents, Distinct;
    ChitConf(b, s, t);
    ChitLog(b, s, t);
    assert t !in Elems(s.accepted);
  }

  lemma OldMargin(b: Betas, s: Votes, s': Votes, j: nat, k: Utxo)
    requires j < |s.accepted| && s.accepted <= s'.accepted && s'.pool == s.pool && MarginAt(b, s, j, k)
    requires forall h :: h in Elems(s.accepted) ==> Conf(s'.conf, h) == Conf(s.conf, h)
    ensures MarginAt(b, s', j, k)
  {
    hide Conf, Elems, MarginAt, Members, SumConf;
    assert s'.accepted[..j] == s.accepted[..j] && s'.accepted[..|s.accepted|] == s.accepted;
    MarginFrame(b, s, s', j, k);
  }

  lemma ChitSafe(b: Betas, s: Votes, t: Hash)
    requires Safe(b, s) && t in s.dag
    ensures Safe(b, Chit(b, s, t))
  {
    SafeDag(b, s);
    hide Inv, Chit, Conf, Elems, MarginAt, Keys;
    var s' := Chit(b, s, t);
    ChitKeeps(b, s, t);
    ChitFacts(b, s, t);
    forall j, k | 0 <= j < |s'.accepted| && s'.accepted[j] in s'.pool && k in Keys(s'.pool[s'.accepted[j]])
      ensures MarginAt(b, s', j, k)
    {
      if j < |s.accepted| {
        assert s'.accepted[j] == s.accepted[j] && MarginAt(b, s, j, k);
        OldMargin(b, s, s', j, k);
      } else {
        NewMargin(b, s, t, k);
      }
    }
  }

  lemma ChitLog(b: Betas, s: Votes, t: Hash)
    requires t in s.pool && t in s.dag
    ensures var s' := Chit(b, s, t);
            && (t in s'.dag ==> s'.accepted == s.accepted) && (t !in s'.dag ==> s'.accepted == s.accepted + [t])
            && s'.accepted[..|s.accepted|] == s.accepted
  {
    hide Conf, Bump, Against, Contested, ParentsAccepted, Accepts, Keys;
  }

  lemma SafeDag(b: Betas, s: Votes)
    requires Safe(b, s)
    ensures s.dag.Keys <= s.pool.Keys
  {
    hide SetsOk, Margin;
  }

  lemma {:induction false} VisitSafe(b: Betas, s: Votes, t: Hash, seen: set<Hash>)
    requires Safe(b, s) && s.dag.Keys <= s.pool.Keys
    ensures Safe(b, Visit(b, s, t, seen).s)
    decreases s.dag.Keys - seen, 1, 0
  {
    hide Chit, Safe;
    if t !in seen && t in s.dag {
      assert t in s.dag.Keys - seen;
      VisitAllSafe(b, s, s.dag[t], seen + {t});
      var r := VisitAll(b, s, s.dag[t], seen + {t});
      hide VisitAll;
      ChitSafe(b, r.s, t);
    }
  }

  lemma {:induction false} VisitAllSafe(b: Betas, s: Votes, ps: seq<Hash>, seen: set<Hash>)
    requires Safe(b, s) && s.dag.Keys <= s.pool.Keys
    ensures Safe(b, VisitAll(b, s, ps, seen).s)
    decreases s.dag.Keys - seen, 2, |ps|
  {
    hide Visit, Safe;
    if ps != [] {
      var ps', p := ps[..|ps| - 1], ps[|ps| - 1];
      var r := VisitAll(b, s, ps', seen);
      VisitAllSafe(b, s, ps', seen);
      assert r.s.dag.Keys - r.seen <= s.dag.Keys - seen;
      VisitSafe(b, r.s, p, r.seen);
    }
  }

  // ---------------------------------------------------------------- recording a transaction

  /** Enter `h` into the conflict sets of its outputs. */
  function Join(cts: map<Utxo, ConflictSet>, h: Hash, ks: seq<Utxo>): map<Utxo, ConflictSet> {
    if ks == [] then cts
    else
      var before, k := Join(cts, h, ks[..|ks| - 1]), ks[|ks| - 1];
      before[k := if k in before then before[k].(hasConflicts := true) else ConflictSet(false, h, 0)]
  }

  /** Record a transaction the first time it is seen. */
  function RecordTxn(s: Votes, t: AvaxTxn): Votes {
    if t.id in s.pool then s
    else s.(pool := s.pool[t.id := t], dag := s.dag[t.id := Parents(t)], conf := s.conf[t.id := 0],
            cts := Join(s.cts, t.id, Keys(t)))
  }

  lemma {:induction false} JoinAt(cts: map<Utxo, ConflictSet>, h: Hash, ks: seq<Utxo>)
    requires Distinct(ks)
    ensures Join(cts, h, ks).Keys == cts.Keys + Elems(ks)
    ensures forall k :: k in cts && k !in ks ==> Join(cts, h, ks)[k] == cts[k]
    ensures forall k :: k in ks ==>
              Join(cts, h, ks)[k] == if k in cts then cts[k].(hasConflicts := true) else ConflictSet(false, h, 0)
  {
    if ks != [] {
      Snoc(ks);
      JoinAt(cts, h, ks[..|ks| - 1]);
      assert forall k :: k in ks <==> k in ks[..|ks| - 1] || k == ks[|ks| - 1];
    }
  }

  lemma MembersGrow(pool: AvaxPool, t: AvaxTxn, k: Utxo)
    requires t.id !in pool
    ensures Members(pool[t.id := t], k) == Members(pool, k) + if k in Keys(t) then {t.id} else {}
    ensures t.id !in Members(pool, k)
  {
    hide Keys;
  }

  lemma SetJoin(pool: AvaxPool, conf: map<Hash, nat>, t: AvaxTxn, k: Utxo, ct: ConflictSet)
    requires t.id !in pool && t.id !in conf && SetOk(pool, conf, k, ct)
    ensures SetOk(pool[t.id := t], conf[t.id := 0], k, if k in Keys(t) then ct.(hasConflicts := true) else ct)
  {
    hide Members, Keys, SumConf;
    MembersGrow(pool, t, k);
    var ms, conf' := Members(pool, k), conf[t.id := 0];
    SumSame(ms, conf, conf');
    if k in Keys(t) {
      SumSplit(ms + {t.id}, conf', t.id);
      assert ms + {t.id} - {t.id} == ms;
    } else {
      assert Members(pool[t.id := t], k) == ms;
    }
  }

  lemma SetNew(pool: AvaxPool, conf: map<Hash, nat>, t: AvaxTxn, k: Utxo)
    requires t.id !in pool && k in Keys(t) && Members(pool, k) == {}
    ensures SetOk(pool[t.id := t], conf[t.id := 0], k, ConflictSet(false, t.id, 0))
  {
    MembersGrow(pool, t, k);
    hide Members, Keys;
    SumSplit({t.id}, conf[t.id := 0], t.id);
    assert Members(pool[t.id := t], k) == {t.id} && {t.id} - {t.id} == {};
  }

  lemma RecordSets(s: Votes, t: AvaxTxn)
    requires SetsOk(s) && t.id !in s.pool && t.id !in s.conf && Distinct(Keys(t))
    ensures SetsOk(RecordTxn(s, t))
  {
    hide SetOk, Distinct;
    var s', ks := RecordTxn(s, t), Keys(t);
    JoinAt(s.cts, t.id, ks);
    hide Join, Keys;
    forall k | k in s'.cts ensures SetOk(s'.pool, s'.conf, k, s'.cts[k]) {
      if k in s.cts {
        SetJoin(s.pool, s.conf, t, k, s.cts[k]);
      } else {
        assert Members(s.pool, k) == {};
        SetNew(s.pool, s.conf, t, k);
      }
    }
  }

  lemma RecordSafe(b: Betas, s: Votes, t: AvaxTxn)
    requires Safe(b, s) && (t.id !in s.pool ==> Distinct(Keys(t)))
    ensures Safe(b, RecordTxn(s, t))
  {
    hide Keys, DagOk, SetsOk, Margin, Distinct, Join;
    if t.id !in s.pool {
      RecordDag(s, t);
      RecordSets(s, t);
      RecordMargin(b, s, t);
    }
  }

  lemma RecordDag(s: Votes, t: AvaxTxn)
    requires DagOk(s) && t.id !in s.pool && Distinct(Keys(t))
    ensures t.id !in s.conf && DagOk(RecordTxn(s, t))
  {
    hide Keys, Distinct, Join;
  }

  lemma RecordMargin(b: Betas, s: Votes, t: AvaxTxn)
    requires DagOk(s) && Margin(b, s) && t.id !in s.pool
    ensures Margin(b, RecordTxn(s, t))
  {
    hide Keys, Elems, Distinct, Join, MarginAt, EarlierRivals;
    var s' := RecordTxn(s, t);
    forall j, k | 0 <= j < |s'.accepted| && s'.accepted[j] in s'.pool && k in Keys(s'.pool[s'.accepted[j]])
      ensures MarginAt(b, s', j, k) {
      AcceptedKnown(s, j);
      assert MarginAt(b, s, j, k);
      RecordRivals(s, t, j, k);
      assert s'.accepted[..|s.accepted|] == s.accepted;
      MarginFrame(b, s, s', j, k);
    }
  }

  lemma AcceptedKnown(s: Votes, j: nat)
    requires DagOk(s) && j < |s.accepted|
    ensures s.accepted[j] in s.pool && Elems(s.accepted) <= s.pool.Keys
  {
    hide Keys, Distinct;
    assert s.accepted[j] in Elems(s.accepted);
  }

  lemma RecordRivals(s: Votes, t: AvaxTxn, j: nat, k: Utxo)
    requires DagOk(s) && t.id !in s.pool && j <= |s.accepted|
    ensures EarlierRivals(RecordTxn(s, t), j, k) == EarlierRivals(s, j, k)
  {
    hide Keys, Distinct, Join;
    MembersGrow(s.pool, t, k);
    assert forall h :: h in Elems(s.accepted[..j]) ==> h in Elems(s.accepted);
  }

  // ---------------------------------------------------------------- conflict-free runs

  ghost predicate NoConflicts(s: Votes) {
    forall k :: k in s.cts ==> !s.cts[k].hasConflicts
  }

  /** Parents are recorded before their children, which `rank` witnesses. */
  ghost predicate ParentsKnown(s: Votes, rank: Hash -> nat) {
    forall h, p :: h in s.pool && p in Parents(s.pool[h]) ==> p in s.pool && rank(p) < rank(h)
  }

  /** A transaction is pending exactly until its beta1-th chit, and no more confident than its parents. */
  ghost predicate Paced(b: Betas, s: Votes) {
    && (forall h :: h in s.pool ==> Conf(s.conf, h) <= b.beta1 && (h in s.dag <==> Conf(s.conf, h) < b.beta1))
    && (forall h, p :: h in s.pool && p in Parents(s.pool[h]) ==> Conf(s.conf, p) >= Conf(s.conf, h))
  }

  /** Every parent of an accepted transaction was accepted before it. */
  ghost predicate LogOrdered(s: Votes) {
    forall j, p :: 0 <= j < |s.accepted| && s.accepted[j] in s.pool && p in Parents(s.pool[s.accepted[j]]) ==>
                   p in s.accepted[..j]
  }

  ghost predicate Steady(b: Betas, s: Votes, rank: Hash -> nat) {
    && 1 <= b.beta1 <= b.beta2
    && NoConflicts(s) && ParentsKnown(s, rank) && Paced(b, s) && LogOrdered(s)
  }

  /** A pending parent that has had its chit is ahead of a child that has not. */
  ghost predicate Ahead(s: Votes, done: set<Hash>) {
    forall h, p :: h in s.pool && h !in done && p in Parents(s.pool[h]) && p in done && p in s.dag ==>
                   Conf(s.conf, p) > Conf(s.conf, h)
  }

  lemma NoRivalChits(s: Votes, t: Hash, ks: seq<Utxo>)
    requires SetsOk(s) && NoConflicts(s) && t in s.pool && forall k :: k in ks ==> k in Keys(s.pool[t])
    ensures RivalChits(s.pool, s.conf, t, ks) == 0 && !Contested(s.cts, ks)
  {
    if ks != [] {
      var ks', k := ks[..|ks| - 1], ks[|ks| - 1];
      assert k in ks && forall x :: x in ks' ==> x in ks;
      NoRivalChits(s, t, ks');
      assert k in s.cts && t in Members(s.pool, k);
      hide Keys, Members, SumConf;
      assert SetOk(s.pool, s.conf, k, s.cts[k]);
      assert Members(s.pool, k) - {t} == {};
      EmptySum(s.conf);
    }
  }

  lemma EmptySum(conf: map<Hash, nat>)
    ensures SumConf({}, conf) == 0
  {
  }

  lemma BumpConflictFree(s: Votes, t: Hash, conf: map<Hash, nat>)
    requires SetsOk(s) && NoConflicts(s) && t in s.pool && Distinct(Keys(s.pool[t]))
    requires conf == s.conf[t := Conf(s.conf, t) + 1]
    ensures var ks := Keys(s.pool[t]);
            var cts := Bump(s.cts, t, conf, ks);
            && (forall k :: k in cts ==> !cts[k].hasConflicts)
            && Against(cts, conf[t], ks) == 0 && !Contested(cts, ks)
  {
    hide SetOk, Distinct, Conf, Keys;
    var ks := Keys(s.pool[t]);
    var cts := Bump(s.cts, t, conf, ks);
    assert conf[t] == Conf(conf, t) by { ConfAt(conf, t); }
    BumpAt(s.cts, t, conf, ks);
    BumpKeeps(s, t, conf);
    var mid := s.(conf := conf, cts := cts);
    hide Bump, SetsOk, Against, Contested;
    assert NoConflicts(mid);
    NoRivalChits(mid, t, ks);
    AgainstIsRivals(mid, t, ks);
  }

  lemma ConfAt(conf: map<Hash, nat>, h: Hash)
    requires h in conf
    ensures Conf(conf, h) == conf[h]
  {
  }

  /** In a conflict-free run a chit accepts exactly at confidence beta1. */
  lemma ChitVerdict(b: Betas, s: Votes, t: Hash, rank: Hash -> nat)
    requires Inv(s) && Steady(b, s, rank) && t in s.dag
    requires forall p :: p in Parents(s.pool[t]) && p in s.dag ==> Conf(s.conf, p) > Conf(s.conf, t)
    ensures var s' := Chit(b, s, t);
            && NoConflicts(s') && (t !in s'.dag <==> Conf(s'.conf, t) == b.beta1)
            && (t !in s'.dag ==> ParentsAccepted(s.dag, Parents(s.pool[t])))
  {
    hide Bump, Against, Contested, SetsOk, Elems, Distinct, Parents, LogOrdered, Keys;
    BumpConflictFree(s, t, s.conf[t := Conf(s.conf, t) + 1]);
    assert Conf(s.conf, t) + 1 == b.beta1 ==> ParentsAccepted(s.dag, Parents(s.pool[t])) by {
      forall p | p in Parents(s.pool[t]) ensures Conf(s.conf, t) + 1 == b.beta1 ==> p !in s.dag {
        assert p in s.pool && Conf(s.conf, p) <= b.beta1;
      }
    }
  }

  lemma ChitPaced(b: Betas, s: Votes, t: Hash, rank: Hash -> nat, done: set<Hash>)
    requires Inv(s) && Steady(b, s, rank) && Ahead(s, done) && t in s.dag && t !in done
    requires forall p :: p in Parents(s.pool[t]) ==> p in done
    ensures var s' := Chit(b, s, t);
            && Paced(b, s') && Ahead(s', done + {t}) && ParentsKnown(s', rank) && NoConflicts(s')
            && (t !in s'.dag ==> ParentsAccepted(s.dag, Parents(s.pool[t])))
  {
    hide SetsOk, Elems, Distinct, Parents, LogOrdered, Keys, Chit, NoConflicts, Conf, Ahead;
    ParentsAhead(b, s, t, rank, done);
    ChitVerdict(b, s, t, rank);
    ChitConf(b, s, t);
    ChitAhead(b, s, t, rank, done);
    assert t !in Parents(s.pool[t]);
  }

  lemma ParentsAhead(b: Betas, s: Votes, t: Hash, rank: Hash -> nat, done: set<Hash>)
    requires Steady(b, s, rank) && Ahead(s, done) && t in s.dag && t in s.pool && t !in done
    requires forall p :: p in Parents(s.pool[t]) ==> p in done
    ensures forall p :: p in Parents(s.pool[t]) ==> Conf(s.conf, p) > Conf(s.conf, t)
  {
    hide LogOrdered, NoConflicts, Conf, Parents;
    forall p | p in Parents(s.pool[t]) ensures Conf(s.conf, p) > Conf(s.conf, t) {
      assert p in s.pool && Conf(s.conf, t) < b.beta1;
    }
  }

  lemma ChitAhead(b: Betas, s: Votes, t: Hash, rank: Hash -> nat, done: set<Hash>)
    requires Steady(b, s, rank) && Ahead(s, done) && t in s.pool
    ensures Ahead(Chit(b, s, t), done + {t})
  {
    hide LogOrdered, NoConflicts, Conf, Parents, Chit, ParentsKnown;
    ChitConf(b, s, t);
  }

  lemma ChitOrdered(b: Betas, s: Votes, t: Hash)
    requires DagOk(s) && LogOrdered(s) && t in s.dag
    requires forall p :: p in Parents(s.pool[t]) ==> p in s.pool
    requires t !in Chit(b, s, t).dag ==> ParentsAccepted(s.dag, Parents(s.pool[t]))
    ensures LogOrdered(Chit(b, s, t))
  {
    hide Chit, Keys, Distinct;
    ChitConf(b, s, t);
    ChitLog(b, s, t);
    var s' := Chit(b, s, t);
    forall j, p | 0 <= j < |s'.accepted| && s'.accepted[j] in s'.pool && p in Parents(s'.pool[s'.accepted[j]])
      ensures p in s'.accepted[..j] {
      if j < |s.accepted| {
        assert s'.accepted[..j] == s.accepted[..j] && s'.accepted[j] == s.accepted[j];
      } else {
        assert s'.accepted[..j] == s.accepted && p in Elems(s.accepted);
      }
    }
  }

  lemma ChitSteady(b: Betas, s: Votes, t: Hash, rank: Hash -> nat, done: set<Hash>)
    requires Inv(s) && Steady(b, s, rank) && Ahead(s, done) && t in s.dag && t !in done
    requires forall p :: p in Parents(s.pool[t]) ==> p in done
    ensures Steady(b, Chit(b, s, t), rank) && Ahead(Chit(b, s, t), done + {t})
  {
    hide SetsOk, Elems, Distinct, Parents, LogOrdered, Keys, Chit, NoConflicts, Conf, Paced, Ahead;
    ChitPaced(b, s, t, rank, done);
    ChitOrdered(b, s, t);
  }

  /** `stack` holds the transactions whose parents are being visited: all are below `t`. */
  lemma {:induction false} VisitSteady(b: Betas, s: Votes, t: Hash, seen: set<Hash>, stack: set<Hash>, rank: Hash -> nat)
    requires Safe(b, s) && Steady(b, s, rank) && s.dag.Keys <= s.pool.Keys && stack <= seen
    requires Ahead(s, seen - stack) && forall g :: g in stack ==> rank(t) < rank(g)
    ensures var r := Visit(b, s, t, seen); Steady(b, r.s, rank) && Ahead(r.s, r.seen - stack)
    decreases s.dag.Keys - seen, 1, 0
  {
    hide Chit, Safe, Ahead, Steady;
    if t !in seen && t !in s.dag {
      AheadAbsent(s, t, seen, stack);
    } else if t !in seen {
      var seen1, stack1 := seen + {t}, stack + {t};
      assert t in s.dag.Keys - seen;
      assert seen1 - stack1 == seen - stack;
      StackParents(b, s, t, stack1, rank);
      VisitAllSteady(b, s, s.dag[t], seen1, stack1, rank);
      VisitAllSafe(b, s, s.dag[t], seen1);
      var r := VisitAll(b, s, s.dag[t], seen1);
      hide VisitAll;
      assert r.seen - stack1 + {t} == r.seen - stack;
      ParentsDone(b, r.s, t, r.seen, stack1, rank);
      SafeInv(b, r.s);
      ChitSteady(b, r.s, t, rank, r.seen - stack1);
    }
  }

  lemma {:induction false} VisitAllSteady(b: Betas, s: Votes, ps: seq<Hash>, seen: set<Hash>, stack: set<Hash>, rank: Hash -> nat)
    requires Safe(b, s) && Steady(b, s, rank) && s.dag.Keys <= s.pool.Keys && stack <= seen
    requires Ahead(s, seen - stack) && forall p, g :: p in ps && g in stack ==> rank(p) < rank(g)
    ensures var r := VisitAll(b, s, ps, seen); Steady(b, r.s, rank) && Ahead(r.s, r.seen - stack)
    decreases s.dag.Keys - seen, 2, |ps|
  {
    hide Visit, Safe, Steady, Ahead;
    if ps != [] {
      var ps', p := ps[..|ps| - 1], ps[|ps| - 1];
      var r := VisitAll(b, s, ps', seen);
      VisitAllSteady(b, s, ps', seen, stack, rank);
      VisitAllSafe(b, s, ps', seen);
      assert r.s.dag.Keys - r.seen <= s.dag.Keys - seen;
      assert p in ps;
      VisitSteady(b, r.s, p, r.seen, stack, rank);
    }
  }

  lemma AheadAbsent(s: Votes, t: Hash, seen: set<Hash>, stack: set<Hash>)
    requires Ahead(s, seen - stack) && t !in s.dag
    ensures Ahead(s, seen + {t} - stack)
  {
    hide Parents, Conf;
  }

  lemma SafeInv(b: Betas, s: Votes)
    requires Safe(b, s)
    ensures Inv(s)
  {
  }

  lemma StackParents(b: Betas, s: Votes, t: Hash, stack: set<Hash>, rank: Hash -> nat)
    requires Safe(b, s) && Steady(b, s, rank) && t in s.dag
    requires forall g :: g in stack ==> rank(t) <= rank(g)
    ensures s.dag[t] == Parents(s.pool[t])
    ensures forall p, g :: p in s.dag[t] && g in stack ==> rank(p) < rank(g)
  {
    hide SetsOk, Margin, NoConflicts, Paced, LogOrdered, Parents, Keys, Distinct;
    assert forall p :: p in s.dag[t] ==> rank(p) < rank(t);
  }

  lemma ParentsDone(b: Betas, s: Votes, t: Hash, seen: set<Hash>, stack: set<Hash>, rank: Hash -> nat)
    requires Safe(b, s) && Steady(b, s, rank) && t in s.dag
    requires forall g :: g in stack ==> rank(t) <= rank(g)
    requires forall p :: p in Parents(s.pool[t]) ==> p in seen
    ensures forall p :: p in Parents(s.pool[t]) ==> p in seen - stack
  {
    StackParents(b, s, t, stack, rank);
  }

  /**
   Conflict-free runs. If nobody competes for an output and parents are recorded first, a vote
   keeps that every transaction is accepted at exactly its beta1-th chit and after all its
   parents: an accepted transaction has confidence beta1, a pending one has less.
   */
  lemma VoteSteady(b: Betas, s: Votes, t: Hash, rank: Hash -> nat)
    requires Safe(b, s) && Steady(b, s, rank)
    ensures s.dag.Keys <= s.pool.Keys && Steady(b, Visit(b, s, t, {}).s, rank)
  {
    hide Safe, Steady, Visit;
    SafeDag(b, s);
    assert Ahead(s, {} - {}) by { assert forall p: Hash :: p !in {} - {}; }
    hide Ahead;
    VisitSteady(b, s, t, {}, {}, rank);
  }

  /** Recording a transaction with known parents and unclaimed outputs keeps a run conflict-free. */
  lemma RecordSteady(b: Betas, s: Votes, t: AvaxTxn, rank: Hash -> nat)
    requires Safe(b, s) && Steady(b, s, rank)
    requires t.id !in s.pool ==>
               && Distinct(Keys(t)) && (forall k :: k in Keys(t) ==> k !in s.cts)
               && (forall p :: p in Parents(t) ==> p in s.pool && rank(p) < rank(t.id))
    ensures Steady(b, RecordTxn(s, t), rank)
  {
    hide Margin, SetsOk, Distinct, Parents, Keys, NoConflicts, Paced, LogOrdered, ParentsKnown, DagOk;
    if t.id !in s.pool {
      RecordSteadySets(s, t);
      SafeKeys(b, s);
      RecordParents(s, t, rank);
      RecordPaced(b, s, t, rank);
      RecordOrdered(s, t);
    }
  }

  lemma SafeKeys(b: Betas, s: Votes)
    requires Safe(b, s)
    ensures s.conf.Keys == s.pool.Keys && s.dag.Keys <= s.pool.Keys
  {
    hide Margin, SetsOk, Keys, Distinct;
  }

  lemma RecordSteadySets(s: Votes, t: AvaxTxn)
    requires NoConflicts(s) && t.id !in s.pool && Distinct(Keys(t)) && forall k :: k in Keys(t) ==> k !in s.cts
    ensures NoConflicts(RecordTxn(s, t))
  {
    hide Distinct, Keys, Parents;
    JoinAt(s.cts, t.id, Keys(t));
  }

  lemma RecordParents(s: Votes, t: AvaxTxn, rank: Hash -> nat)
    requires ParentsKnown(s, rank) && t.id !in s.pool
    requires forall p :: p in Parents(t) ==> p in s.pool && rank(p) < rank(t.id)
    ensures ParentsKnown(RecordTxn(s, t), rank)
    ensures forall h, p :: h in RecordTxn(s, t).pool && p in Parents(RecordTxn(s, t).pool[h]) ==> p in s.pool
  {
    hide Parents, Keys, Join;
  }

  lemma RecordPaced(b: Betas, s: Votes, t: AvaxTxn, rank: Hash -> nat)
    requires s.conf.Keys == s.pool.Keys && s.dag.Keys <= s.pool.Keys
    requires 1 <= b.beta1 && Paced(b, s) && t.id !in s.pool
    requires forall h, p :: h in RecordTxn(s, t).pool && p in Parents(RecordTxn(s, t).pool[h]) ==> p in s.pool
    ensures Paced(b, RecordTxn(s, t))
  {
    hide Parents, Keys, Join;
    RecordConf(s, t);
    hide Conf;
  }

  lemma RecordConf(s: Votes, t: AvaxTxn)
    requires s.conf.Keys == s.pool.Keys && t.id !in s.pool
    ensures Conf(RecordTxn(s, t).conf, t.id) == 0
    ensures forall h :: h in s.pool ==> Conf(RecordTxn(s, t).conf, h) == Conf(s.conf, h)
  {
    hide Parents, Keys, Join;
  }

  lemma RecordOrdered(s: Votes, t: AvaxTxn)
    requires DagOk(s) && LogOrdered(s) && t.id !in s.pool
    ensures LogOrdered(RecordTxn(s, t))
  {
    hide Distinct, Keys, Parents, Join, Elems;
    forall j | 0 <= j < |s.accepted| ensures s.accepted[j] in s.pool { AcceptedKnown(s, j); }
  }

  /**
   When rivals for an output are accepted in turn, each later one is ahead of all the earlier
   ones together by at least beta2, and so of each of them.
   */
  lemma LaterRivalAhead(b: Betas, s: Votes, i: nat, j: nat, k: Utxo)
    requires Safe(b, s) && i < j < |s.accepted|
    requires s.accepted[i] in s.pool && s.accepted[j] in s.pool
    requires k in Keys(s.pool[s.accepted[i]]) && k in Keys(s.pool[s.accepted[j]])
    ensures s.accepted[i] in EarlierRivals(s, j, k)
    ensures Conf(s.conf, s.accepted[j]) >= b.beta2 + SumConf(EarlierRivals(s, j, k), s.conf)
    ensures Conf(s.conf, s.accepted[j]) >= b.beta2 + Conf(s.conf, s.accepted[i])
  {
    hide Inv, Keys, SumConf, Conf;
    assert MarginAt(b, s, j, k);
    assert s.accepted[..j][i] == s.accepted[i];
    assert s.accepted[i] in EarlierRivals(s, j, k);
    SumSplit(EarlierRivals(s, j, k), s.conf, s.accepted[i]);
  }

  /** The confidence of an accepted transaction is frozen. */
  lemma AcceptedFrozen(b: Betas, s: Votes, t: Hash, h: Hash)
    requires Safe(b, s) && h in s.accepted
    ensures s.dag.Keys <= s.pool.Keys && Conf(Visit(b, s, t, {}).s.conf, h) == Conf(s.conf, h)
  {
    hide SetsOk, Margin, Visit, Conf, Keys, Ancestor, Distinct;
    assert h in Elems(s.accepted);
    VoteChits(b, s, t);
  }
}
