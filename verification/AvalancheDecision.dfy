/**
 The basic Avalanche decision stage: successful votes hand out chits along the pending ancestors,
 failed votes restart the streaks of the same ancestors. Both walks are proved to reach exactly
 the pending ancestors in the DAG before the vote, once each.
 */
module AvalancheDecision {
  import opened Collections
  import opened Ledger
  import opened Blizzard
  import opened AvalancheStreaks
  import opened AvalancheRun
  import BlizzardDecision

  // ---------------------------------------------------------------- what a walk logs

  /** The events that a walk logs: one for each newly visited transaction that was pending. */
  ghost function Touched(dag: map<Hash, seq<Hash>>, seen: set<Hash>, seen': set<Hash>, won: bool): set<Event> {
    set h | h in dag && h in seen' && h !in seen :: if won then Won(h) else Lost(h)
  }

  ghost predicate Logs(dag: map<Hash, seq<Hash>>, seen: set<Hash>, seen': set<Hash>, won: bool, events: seq<Event>) {
    Distinct(events) && Elems(events) == Touched(dag, seen, seen', won)
  }

  /** Only newly visited transactions leave the DAG. */
  ghost predicate Thins(dag: map<Hash, seq<Hash>>, dag': map<Hash, seq<Hash>>, seen: set<Hash>, seen': set<Hash>) {
    && seen <= seen'
    && (forall h :: h in dag' ==> h in dag && dag'[h] == dag[h])
    && (forall h :: h in dag && h !in dag' ==> h in seen' && h !in seen)
  }

  lemma TouchedSplit(dag: map<Hash, seq<Hash>>, dag1: map<Hash, seq<Hash>>, seen: set<Hash>, seen1: set<Hash>, seen2: set<Hash>, won: bool)
    requires Thins(dag, dag1, seen, seen1) && seen1 <= seen2
    ensures Touched(dag, seen, seen2, won) == Touched(dag, seen, seen1, won) + Touched(dag1, seen1, seen2, won)
    ensures Touched(dag, seen, seen1, won) !! Touched(dag1, seen1, seen2, won)
  {
    assert forall h :: h in dag1 && h in seen2 && h !in seen1 ==> h in dag;
    assert forall h :: h in dag && h in seen2 && h !in seen ==> h in seen1 || h in dag1;
  }

  lemma LogsCompose(dag: map<Hash, seq<Hash>>, dag1: map<Hash, seq<Hash>>, seen: set<Hash>, seen1: set<Hash>, seen2: set<Hash>,
                    won: bool, a: seq<Event>, b: seq<Event>)
    requires Thins(dag, dag1, seen, seen1) && seen1 <= seen2
    requires Logs(dag, seen, seen1, won, a) && Logs(dag1, seen1, seen2, won, b)
    ensures Logs(dag, seen, seen2, won, a + b)
  {
    hide Touched, Thins, Distinct;
    TouchedSplit(dag, dag1, seen, seen1, seen2, won);
    DistinctConcat(a, b);
  }

  lemma ThinsCompose(dag: map<Hash, seq<Hash>>, dag1: map<Hash, seq<Hash>>, dag2: map<Hash, seq<Hash>>,
                     seen: set<Hash>, seen1: set<Hash>, seen2: set<Hash>)
    requires Thins(dag, dag1, seen, seen1) && Thins(dag1, dag2, seen1, seen2)
    ensures Thins(dag, dag2, seen, seen2)
  {
  }

  /** All there is to say about a walk: what it logs, what leaves the DAG, and whom it reaches. */
  ghost predicate Walk(dag: map<Hash, seq<Hash>>, dag': map<Hash, seq<Hash>>, ps: seq<Hash>,
                       seen: set<Hash>, seen': set<Hash>, events: seq<Event>)
  {
    && Thins(dag, dag', seen, seen') && Logs(dag, seen, seen', true, events)
    && SeenFrom(dag, ps, seen, seen') && ParentsSeen(dag, seen, seen')
  }

  lemma WalkShrinks(dag: map<Hash, seq<Hash>>, dag': map<Hash, seq<Hash>>, ps: seq<Hash>,
                    seen: set<Hash>, seen': set<Hash>, events: seq<Event>)
    requires Walk(dag, dag', ps, seen, seen', events)
    ensures dag'.Keys <= dag.Keys && seen <= seen'
  {
    hide Logs, SeenFrom, ParentsSeen;
  }

  lemma WalkNone(dag: map<Hash, seq<Hash>>, seen: set<Hash>)
    ensures Walk(dag, dag, [], seen, seen, [])
  {
  }

  lemma WalkSnoc(dag: map<Hash, seq<Hash>>, dag1: map<Hash, seq<Hash>>, dag2: map<Hash, seq<Hash>>, ps: seq<Hash>, p: Hash,
                 seen: set<Hash>, seen1: set<Hash>, seen2: set<Hash>, a: seq<Event>, b: seq<Event>)
    requires Walk(dag, dag1, ps, seen, seen1, a) && Walk(dag1, dag2, [p], seen1, seen2, b)
    ensures Walk(dag, dag2, ps + [p], seen, seen2, a + b)
  {
    hide SeenFrom, ParentsSeen, Logs;
    ThinsCompose(dag, dag1, dag2, seen, seen1, seen2);
    LogsCompose(dag, dag1, seen, seen1, seen2, true, a, b);
    ReachCompose(dag, dag1, ps, p, seen, seen1, seen2);
  }

  /** After the parents comes the transaction itself. */
  lemma WalkSelf(dag: map<Hash, seq<Hash>>, dag1: map<Hash, seq<Hash>>, dag2: map<Hash, seq<Hash>>, t: Hash,
                 seen: set<Hash>, seen1: set<Hash>, a: seq<Event>)
    requires t in dag && t !in seen && Walk(dag, dag1, dag[t], seen + {t}, seen1, a)
    requires dag2 == dag1 || dag2 == dag1 - {t}
    requires forall p :: p in dag[t] ==> p in seen1
    ensures t in dag1 && dag1[t] == dag[t] && Walk(dag, dag2, [t], seen, seen1, a + [Won(t)])
  {
    hide SeenFrom, Reaches, Ancestor;
    FromParents(dag, t, seen, seen1);
    SelfLogs(dag, t, seen, seen1, a);
    hide Distinct, Elems, Touched, Logs;
  }

  lemma SelfLogs(dag: map<Hash, seq<Hash>>, t: Hash, seen: set<Hash>, seen1: set<Hash>, a: seq<Event>)
    requires t in dag && t !in seen && seen + {t} <= seen1 && Logs(dag, seen + {t}, seen1, true, a)
    ensures Logs(dag, seen, seen1, true, a + [Won(t)])
  {
    hide Distinct;
    assert Touched(dag, seen, seen1, true) == Touched(dag, seen + {t}, seen1, true) + {Won(t)};
    assert (a + [Won(t)])[..|a|] == a;
    Snoc(a + [Won(t)]);
    assert Won(t) !in Elems(a);
  }

  lemma WalkSeen(dag: map<Hash, seq<Hash>>, t: Hash, seen: set<Hash>)
    requires t in seen || t !in dag
    ensures Walk(dag, dag, [t], seen, seen + {t}, [])
  {
    hide Distinct;
    assert Reaches(dag, t, t, 0);
    assert Ancestor(dag, t, t) && t in [t];
    assert Touched(dag, seen, seen + {t}, true) == {};
    assert t in seen ==> seen + {t} == seen;
    EmptyDistinct();
  }

  lemma EmptyDistinct()
    ensures Distinct<Event>([]) && Elems<Event>([]) == {}
  {
  }

  /** A walk from a fresh start reaches exactly the pending ancestors. */
  lemma ReachIsAncestry(dag: map<Hash, seq<Hash>>, t: Hash, seen: set<Hash>, h: Hash)
    requires SeenFrom(dag, [t], {}, seen) && ParentsSeen(dag, {}, seen) && t in seen
    ensures h in seen <==> Ancestor(dag, t, h)
  {
    hide Reaches;
    assert h in seen ==> exists p :: p in [t] && Ancestor(dag, p, h);
    if Ancestor(dag, t, h) {
      var n: nat :| Reaches(dag, t, h, n);
      SeenClosed(dag, t, seen, h, n);
    }
  }

  /** One event for each pending ancestor-or-self of `t`, and none else. */
  ghost predicate Ancestry(dag: map<Hash, seq<Hash>>, t: Hash, won: bool, events: seq<Event>) {
    && Distinct(events)
    && forall e :: e in events <==> e == (if won then Won(e.txn) else Lost(e.txn)) && e.txn in dag && Ancestor(dag, t, e.txn)
  }

  lemma WalkIsAncestry(dag: map<Hash, seq<Hash>>, dag': map<Hash, seq<Hash>>, t: Hash, seen: set<Hash>, events: seq<Event>)
    requires Walk(dag, dag', [t], {}, seen, events) && t in seen
    ensures Ancestry(dag, t, true, events)
  {
    hide Ancestor, SeenFrom, ParentsSeen, Distinct;
    forall h ensures h in seen <==> Ancestor(dag, t, h) { ReachIsAncestry(dag, t, seen, h); }
    assert forall e :: e in events <==> e in Elems(events);
  }

  lemma {:induction false} WinsAppend(log: seq<Event>, events: seq<Event>, h: Hash)
    requires Distinct(events)
    ensures Wins(log + events, h) == Wins(log, h) + if Won(h) in events then 1 else 0
  {
    if events == [] {
      assert log + events == log;
    } else {
      var n := |events| - 1;
      Snoc(events);
      WinsAppend(log, events[..n], h);
      assert log + events == (log + events[..n]) + [events[n]];
      WinsSnoc(log + events[..n], events[n], h);
      assert Won(h) in events <==> Won(h) in events[..n] || Won(h) == events[n];
    }
  }

  lemma ChitEach(b: Betas, s: Rounds, s': Rounds, t: Hash)
    requires Inv(b, s) && Inv(b, s') && s'.pool == s.pool && s.log <= s'.log
    requires Ancestry(s.dag, t, true, s'.log[|s.log|..])
    ensures forall h :: Conf(s'.conf, h) == Conf(s.conf, h) + if h in s.dag && Ancestor(s.dag, t, h) then 1 else 0
  {
    hide Ancestor, SetsOk, VerdictsOk, Wins, Keys, Parents;
    var events := s'.log[|s.log|..];
    assert s'.log == s.log + events;
    forall h ensures Conf(s'.conf, h) == Conf(s.conf, h) + if h in s.dag && Ancestor(s.dag, t, h) then 1 else 0 {
      WinsAppend(s.log, events, h);
      assert Won(h).txn == h;
    }
  }

  /**
   The log after the votes of a block. The part for the i-th transaction has one event for each of
   its pending ancestors in the DAG before it: chits if there were enough votes, resets otherwise.
   */
  ghost predicate Outcome(log: seq<Event>, log': seq<Event>, cuts: seq<nat>, dags: seq<map<Hash, seq<Hash>>>,
                          txns: seq<Option<Hash>>, accepts: seq<nat>, thresh: nat)
  {
    && |txns| == |accepts| == |dags| && |cuts| == |txns| + 1
    && log <= log' && cuts[0] == |log| && cuts[|txns|] == |log'|
    && (forall i :: 0 <= i < |cuts| ==> cuts[i] <= |log'|)
    && (forall i :: 0 <= i < |txns| ==> PartOk(log', cuts[i], cuts[i + 1], dags[i], txns[i], accepts[i] >= thresh))
  }

  ghost predicate PartOk(log: seq<Event>, from: nat, to: nat, dag: map<Hash, seq<Hash>>, txn: Option<Hash>, won: bool) {
    && from <= to <= |log|
    && if txn.Some? then Ancestry(dag, txn.value, won, log[from..to]) else from == to
  }

  lemma OutcomeMeans(log: seq<Event>, log': seq<Event>, cuts: seq<nat>, dags: seq<map<Hash, seq<Hash>>>,
                     txns: seq<Option<Hash>>, accepts: seq<nat>, thresh: nat)
    requires Outcome(log, log', cuts, dags, txns, accepts, thresh)
    ensures |cuts| == |txns| + 1 && |dags| == |accepts| == |txns|
    ensures forall i :: 0 <= i < |txns| && txns[i].Some? ==> cuts[i] <= cuts[i + 1] <= |log'|
    ensures forall i :: 0 <= i < |txns| && txns[i].Some? && accepts[i] >= thresh ==>
              Ancestry(dags[i], txns[i].value, true, log'[cuts[i]..cuts[i + 1]])
    ensures forall i :: 0 <= i < |txns| && txns[i].Some? && accepts[i] < thresh ==>
              Ancestry(dags[i], txns[i].value, false, log'[cuts[i]..cuts[i + 1]])
  {
    hide Ancestry;
    forall i | 0 <= i < |txns| ensures PartOk(log', cuts[i], cuts[i + 1], dags[i], txns[i], accepts[i] >= thresh) {}
  }

  lemma OutcomeNone(log: seq<Event>, thresh: nat)
    ensures Outcome(log, log, [|log|], [], [], [], thresh)
  {
  }

  lemma OutcomeSnoc(log: seq<Event>, log1: seq<Event>, log2: seq<Event>, cuts: seq<nat>, dags: seq<map<Hash, seq<Hash>>>,
                    txns: seq<Option<Hash>>, accepts: seq<nat>, thresh: nat, i: nat, dag: map<Hash, seq<Hash>>)
    requires i < |txns| == |accepts| && Outcome(log, log1, cuts, dags, txns[..i], accepts[..i], thresh)
    requires log1 <= log2
    requires if txns[i].Some? then Ancestry(dag, txns[i].value, accepts[i] >= thresh, log2[|log1|..]) else log2 == log1
    ensures Outcome(log, log2, cuts + [|log2|], dags + [dag], txns[..i + 1], accepts[..i + 1], thresh)
  {
    hide Ancestry;
    var cuts', dags', ts, acc := cuts + [|log2|], dags + [dag], txns[..i + 1], accepts[..i + 1];
    forall j | 0 <= j < |ts| ensures PartOk(log2, cuts'[j], cuts'[j + 1], dags'[j], ts[j], acc[j] >= thresh) {
      if j < i {
        assert PartOk(log1, cuts[j], cuts[j + 1], dags[j], txns[..i][j], accepts[..i][j] >= thresh);
        assert log2[cuts[j]..cuts[j + 1]] == log1[cuts[j]..cuts[j + 1]];
      } else {
        assert log2[|log1|..|log2|] == log2[|log1|..];
      }
    }
  }

  // ---------------------------------------------------------------- counters, one input at a time

  lemma MarkNext(cts: map<Utxo, StreakSet>, t: Hash, conf: map<Hash, nat>, ks: seq<Utxo>, i: nat)
    requires Distinct(ks) && i < |ks| && ks[i] in cts
    ensures var done := MarkAll(cts, t, conf, ks[..i]);
            && ks[i] in done && done[ks[i]] == cts[ks[i]]
            && MarkAll(cts, t, conf, ks[..i + 1]) == done[ks[i] := Mark(cts[ks[i]], t, conf)]
  {
    hide Mark;
    assert ks[..i + 1] == ks[..i] + [ks[i]];
    assert ks[i] !in ks[..i];
  }

  lemma MarkPrefs(cts: map<Utxo, StreakSet>, t: Hash, conf: map<Hash, nat>, score: nat, ks: seq<Utxo>)
    requires Conf(conf, t) == score
    ensures forall k :: k in ks && k in cts ==>
              k in MarkAll(cts, t, conf, ks) && MarkAll(cts, t, conf, ks)[k].pref == if Conf(conf, cts[k].pref) < score then t else cts[k].pref
  {
  }

  lemma ReachNext(cts: map<Utxo, StreakSet>, ks: seq<Utxo>, i: nat, ct: StreakSet, score: nat)
    requires Distinct(ks) && i < |ks|
    ensures var cts' := cts[ks[i] := ct];
            && (Disputed(cts', ks[..i + 1]) <==> Disputed(cts, ks[..i]) || ct.hasConflicts)
            && forall n: nat :: Reach(cts', score, ks[..i + 1], n) <==> (Reach(cts, score, ks[..i], n) && ct.count >= n)
  {
    var cts' := cts[ks[i] := ct];
    assert forall k :: k in ks[..i + 1] <==> k in ks[..i] || k == ks[i];
    assert ks[i] !in ks[..i];
    if Disputed(cts, ks[..i]) {
      var k :| k in ks[..i] && k in cts && cts[k].hasConflicts;
      assert k in ks[..i + 1] && cts'[k].hasConflicts;
    }
    assert ks[i] in ks[..i + 1] && ks[i] in cts' && cts'[ks[i]] == ct;
    forall n: nat ensures Reach(cts', score, ks[..i + 1], n) <==> (Reach(cts, score, ks[..i], n) && ct.count >= n) {
      if Reach(cts', score, ks[..i + 1], n) {
        forall k | k in ks[..i] && k in cts ensures cts[k].count >= n { assert k in ks[..i + 1] && cts'[k] == cts[k]; }
      }
    }
  }

  lemma ClearNext(cts: map<Utxo, StreakSet>, ks: seq<Utxo>, i: nat)
    requires Distinct(ks) && i < |ks| && ks[i] in cts
    ensures var done := ClearAll(cts, ks[..i]);
            && ks[i] in done && ClearAll(cts, ks[..i + 1]) == done[ks[i] := done[ks[i]].(count := 0)]
  {
    assert ks[..i + 1] == ks[..i] + [ks[i]];
  }

  function TxnsOf(vs: seq<Verdict>): seq<Hash> {
    seq(|vs|, i requires 0 <= i < |vs| => vs[i].txn)
  }

  /** What is reported of the verdicts from the n-th on. */
  ghost function Reported(pool: AvaxPool, vs: seq<Verdict>, n: nat): seq<Hash>
    requires n <= |vs|
  {
    BlizzardDecision.CommitList(pool, TxnsOf(vs[n..]))
  }

  lemma ReportedSplit(pool: AvaxPool, vs: seq<Verdict>, m: nat, n: nat)
    requires m <= n <= |vs|
    ensures Reported(pool, vs, m) == Reported(pool, vs[..n], m) + Reported(pool, vs, n)
    ensures Reported(pool, vs, |vs|) == []
  {
    assert TxnsOf(vs[m..]) == TxnsOf(vs[..n][m..]) + TxnsOf(vs[n..]);
    BlizzardDecision.CommitListConcat(pool, TxnsOf(vs[..n][m..]), TxnsOf(vs[n..]));
  }

  lemma ReportedOne(pool: AvaxPool, vs: seq<Verdict>, v: Verdict)
    ensures Reported(pool, vs + [v], |vs|) == if v.txn in pool && !pool[v.txn].Noop? then [v.txn] else []
  {
    assert TxnsOf((vs + [v])[|vs|..]) == [v.txn];
    BlizzardDecision.OneCommit(pool, [], v.txn);
  }

  /** Over a whole run no transaction is accepted, and so none is reported, twice. */
  lemma NeverReportedTwice(b: Betas, s: Rounds)
    requires Inv(b, s)
    ensures Distinct(Reported(s.pool, s.verdicts, 0))
  {
    hide DagOk, SetsOk, VerdictOk;
    assert s.verdicts[0..] == s.verdicts;
    BlizzardDecision.CommitListDistinct(s.pool, TxnsOf(s.verdicts));
  }

  // ---------------------------------------------------------------- the stage

  class Decision {
    const b: Betas
    const voteThresh: nat
    var txnPool: AvaxPool
    var dag: map<Hash, seq<Hash>>
    var conflictSets: map<Utxo, StreakSet>
    var confidence: map<Hash, nat>
    ghost var log: seq<Event>
    ghost var verdicts: seq<Verdict>

    ghost function Snap(): Rounds
      reads this
    {
      Rounds(txnPool, dag, conflictSets, confidence, log, verdicts)
    }

    ghost predicate Valid()
      reads this
    {
      Inv(b, Snap()) && Timely(b, Snap())
    }

    constructor (b: Betas, voteThresh: nat)
      ensures Valid() && Snap() == Rounds(map[], map[], map[], map[], [], []) && this.b == b && this.voteThresh == voteThresh
    {
      this.b, this.voteThresh := b, voteThresh;
      txnPool, dag, conflictSets, confidence, log, verdicts := map[], map[], map[], map[], [], [];
    }

    /** Count a chit in each conflict set of `t`; `count` is the lowest streak, at most the confidence. */
    method UpdateConflictSets(t: Hash, txn: AvaxTxn, score: nat) returns (hasConflicts: bool, count: nat)
      requires Distinct(Keys(txn)) && t in confidence && confidence[t] == score
      requires forall k :: k in Keys(txn) ==> k in conflictSets && conflictSets[k].pref in confidence
      modifies this`conflictSets
      ensures conflictSets == MarkAll(old(conflictSets), t, confidence, Keys(txn))
      // the preference moves exactly if `t` has overtaken the preferred transaction
      ensures forall k :: k in Keys(txn) ==>
                && k in conflictSets
                && conflictSets[k].pref == var pref := old(conflictSets)[k].pref; if Conf(confidence, pref) < score then t else pref
      ensures hasConflicts <==> Disputed(conflictSets, Keys(txn))
      ensures forall n: nat :: count >= n <==> Reach(conflictSets, score, Keys(txn), n)
    {
      hide Distinct, MarkAll, Reach, Disputed;
      ghost var cts0, ks := conflictSets, Keys(txn);
      hasConflicts, count := false, score;
      MarkNone(cts0, t, confidence, score);
      MarkPrefs(cts0, t, confidence, score, ks);
      if !txn.Payment? { return; }
      assert ks[..0] == [];
      assert forall j :: 0 <= j < |ks| ==> ks[j] in ks;
      for i := 0 to |txn.inputs|
        invariant conflictSets == MarkAll(cts0, t, confidence, ks[..i])
        invariant hasConflicts <==> Disputed(conflictSets, ks[..i])
        invariant forall n: nat :: count >= n <==> Reach(conflictSets, score, ks[..i], n)
      {
        var key := Utxo(txn.inputs[i], txn.sender);
        MarkNext(cts0, t, confidence, ks, i);
        var ct := conflictSets[key];
        if ct.pref != t && confidence[ct.pref] < score { ct := ct.(pref := t); }
        if ct.last == Some(t) {
          ct := ct.(count := ct.count + 1);
        } else {
          ct := ct.(last := Some(t), count := 1);
        }
        ghost var cts1, count1 := conflictSets, count;
        ReachNext(cts1, ks, i, ct, score);
        conflictSets := conflictSets[key := ct];
        if ct.hasConflicts { hasConflicts := true; }
        if ct.count < count { count := ct.count; }
        ghost var done := ks[..i + 1];
        forall n: nat ensures count >= n <==> Reach(conflictSets, score, done, n) {
          assert count1 >= n <==> Reach(cts1, score, ks[..i], n);
        }
      }
      assert ks[..|ks|] == ks;
    }

    /** Give a chit to a pending transaction whose parents have been seen to. */
    method GiveChit(t: Hash, parents: seq<Hash>) returns (commits: seq<Hash>)
      requires Valid() && t in dag && t in txnPool && parents == Parents(txnPool[t])
      modifies this`dag, this`conflictSets, this`confidence, this`log, this`verdicts
      ensures Valid() && Snap() == Win(b, old(Snap()), t) && log == old(log) + [Won(t)]
      ensures dag == old(dag) || dag == old(dag) - {t}
      // it leaves the DAG with beta1 chits in a row if no rival was seen and no parent is pending
      ensures !RivalSeen(txnPool, log, t) && (forall p :: p in parents ==> p !in old(dag)) ==>
                (t !in dag <==> Earned(txnPool, log, t, b.beta1))
      // and with beta2 chits in a row otherwise
      ensures RivalSeen(txnPool, log, t) || (exists p :: p in parents && p in old(dag)) ==>
                (t !in dag <==> Earned(txnPool, log, t, b.beta2))
      ensures old(verdicts) <= verdicts && commits == Reported(txnPool, verdicts, |old(verdicts)|)
    {
      hide Inv, Timely, RivalSeen, Earned, MarkAll, Keys, Parents, ParentsAccepted, Reach, Disputed, Reported;
      ghost var s0 := Snap();
      WinKeeps(b, s0, t);
      WinTimely(b, s0, t);
      LeavesIff(b, s0, t);
      Ready(b, s0, t);
      commits := [];
      ReportedSplit(txnPool, verdicts, |verdicts|, |verdicts|);
      var score := confidence[t] + 1;
      confidence := confidence[t := score];
      var txn := txnPool[t];
      var hasConflicts, count := UpdateConflictSets(t, txn, score);
      var parentsAccepted := NonePending(dag, parents);
      log := log + [Won(t)];
      var free := parentsAccepted && !hasConflicts;
      if count >= (if free then b.beta1 else b.beta2) {
        dag := dag - {t};
        verdicts := verdicts + [Verdict(t, free, |log|)];
        ReportedOne(txnPool, s0.verdicts, Verdict(t, free, |log|));
        if !txn.Noop? { commits := [t]; }
      }
    }

    /** Give chits to a transaction and all its pending ancestors, parents before children. */
    method HandleVotesHelper(t: Hash, seen: set<Hash>) returns (commits: seq<Hash>, seen': set<Hash>)
      requires Valid()
      modifies this`dag, this`conflictSets, this`confidence, this`log, this`verdicts
      ensures Valid() && old(log) <= log && t in seen'
      ensures Walk(old(dag), dag, [t], seen, seen', log[|old(log)|..])
      ensures old(verdicts) <= verdicts && commits == Reported(txnPool, verdicts, |old(verdicts)|)
      decreases dag.Keys - seen
    {
      hide Inv, Timely, Win, Reported, SeenFrom, ParentsSeen, Logs, Thins, Walk;
      ghost var s0 := Snap();
      assert log[|log|..] == [];
      commits, seen' := [], seen + {t};
      ReportedSplit(txnPool, verdicts, |verdicts|, |verdicts|);
      if t in seen || t !in dag {
        WalkSeen(dag, t, seen);
        return;
      }
      var parents := dag[t];
      Ready(b, s0, t);
      assert t in dag.Keys - seen;
      WalkNone(dag, seen');
      assert parents[..0] == [];
      for i := 0 to |parents|
        invariant Valid() && s0.log <= log && s0.verdicts <= verdicts && seen + {t} <= seen'
        invariant Walk(s0.dag, dag, parents[..i], seen + {t}, seen', log[|s0.log|..])
        invariant forall p :: p in parents[..i] ==> p in seen'
        invariant commits == Reported(txnPool, verdicts, |s0.verdicts|)
      {
        ghost var s1, seen1 := Snap(), seen';
        WalkShrinks(s0.dag, dag, parents[..i], seen + {t}, seen', log[|s0.log|..]);
        var more;
        more, seen' := HandleVotesHelper(parents[i], seen');
        WalkShrinks(s1.dag, dag, [parents[i]], seen1, seen', log[|s1.log|..]);
        WalkSnoc(s0.dag, s1.dag, dag, parents[..i], parents[i], seen + {t}, seen1, seen', s1.log[|s0.log|..], log[|s1.log|..]);
        assert log[|s0.log|..] == s1.log[|s0.log|..] + log[|s1.log|..];
        assert parents[..i + 1] == parents[..i] + [parents[i]];
        ReportedSplit(txnPool, verdicts, |s0.verdicts|, |s1.verdicts|);
        assert verdicts[..|s1.verdicts|] == s1.verdicts;
        commits := commits + more;
      }
      assert parents[..|parents|] == parents;
      ghost var s2 := Snap();
      WalkSelf(s0.dag, s2.dag, s2.dag, t, seen, seen', s2.log[|s0.log|..]);
      var own := GiveChit(t, parents);
      WalkSelf(s0.dag, s2.dag, dag, t, seen, seen', s2.log[|s0.log|..]);
      assert log[|s0.log|..] == s2.log[|s0.log|..] + [Won(t)];
      ReportedSplit(txnPool, verdicts, |s0.verdicts|, |s2.verdicts|);
      assert verdicts[..|s2.verdicts|] == s2.verdicts;
      commits := commits + own;
    }

    /** A successful vote: one chit for each pending ancestor-or-self of `t` and for nothing else. */
    method VoteFor(t: Hash) returns (commits: seq<Hash>)
      requires Valid()
      modifies this`dag, this`conflictSets, this`confidence, this`log, this`verdicts
      ensures Valid() && old(log) <= log && Ancestry(old(dag), t, true, log[|old(log)|..])
      ensures forall h :: Conf(confidence, h) == Conf(old(confidence), h) + if h in old(dag) && Ancestor(old(dag), t, h) then 1 else 0
      ensures old(verdicts) <= verdicts && commits == Reported(txnPool, verdicts, |old(verdicts)|)
      ensures dag.Keys <= old(dag.Keys)
    {
      hide Inv, Timely, Reported, SeenFrom, ParentsSeen, Logs, Ancestry, Ancestor, Conf;
      ghost var s0 := Snap();
      var seen;
      commits, seen := HandleVotesHelper(t, {});
      WalkIsAncestry(s0.dag, dag, t, seen, log[|s0.log|..]);
      ChitEach(b, s0, Snap(), t);
    }

    /** Restart the streaks on the inputs of one transaction. */
    method ClearCounts(txn: AvaxTxn)
      requires Distinct(Keys(txn)) && forall k :: k in Keys(txn) ==> k in conflictSets
      modifies this`conflictSets
      ensures conflictSets == ClearAll(old(conflictSets), Keys(txn))
    {
      hide Distinct;
      ghost var cts0, ks := conflictSets, Keys(txn);
      assert ks[..0] == [];
      if txn.Payment? {
        assert forall j :: 0 <= j < |ks| ==> ks[j] in ks;
        for i := 0 to |txn.inputs|
          invariant conflictSets == ClearAll(cts0, ks[..i])
        {
          var key := Utxo(txn.inputs[i], txn.sender);
          ClearNext(cts0, ks, i);
          conflictSets := conflictSets[key := conflictSets[key].(count := 0)];
        }
      }
      assert ks[..|ks|] == ks;
    }

    /** A failed vote: the streaks of each pending ancestor-or-self of `t` restart, and nothing else changes. */
    method VoteAgainst(t: Hash)
      requires Valid()
      modifies this`conflictSets, this`log
      ensures Valid() && old(log) <= log && Ancestry(dag, t, false, log[|old(log)|..])
    {
      hide Inv, Timely, Distinct, ClearAll, Ancestor, Logs, Keys, Ancestry;
      ghost var log0 := log;
      var frontier, dedup: set<Hash> := [t], {};
      assert log[|log|..] == [];
      SweepStart(dag, t);
      while frontier != []
        invariant Valid() && log0 <= log
        invariant Sweep(dag, t, dedup, frontier, log[|log0|..])
        decreases dag.Keys - dedup, |frontier|
      {
        var next := frontier[0];
        if next in dedup {
          SweepSkip(dag, t, dedup, frontier, log[|log0|..]);
          frontier := frontier[1..];
        } else if next !in dag {
          SweepSkip(dag, t, dedup, frontier, log[|log0|..]);
          frontier, dedup := frontier[1..], dedup + {next};
        } else {
          Ready(b, Snap(), next);
          LoseKeeps(b, Snap(), next);
          LoseTimely(b, Snap(), next);
          SweepNext(dag, t, dedup, frontier, log[|log0|..]);
          assert next in dag.Keys - dedup;
          frontier, dedup := frontier[1..] + dag[next], dedup + {next};
          ClearCounts(txnPool[next]);
          assert (log + [Lost(next)])[|log0|..] == log[|log0|..] + [Lost(next)];
          log := log + [Lost(next)];
        }
      }
      SweepDone(dag, t, dedup, log[|log0|..]);
    }

    /** Hand out the outcome of a block's votes, in block order; `dags` are the DAGs before each of them. */
    method HandOut(txns: seq<Option<Hash>>, accepts: seq<nat>) returns (commits: seq<Hash>, ghost cuts: seq<nat>, ghost dags: seq<map<Hash, seq<Hash>>>)
      requires Valid() && |txns| == |accepts|
      modifies this`dag, this`conflictSets, this`confidence, this`log, this`verdicts
      ensures Valid() && Outcome(old(log), log, cuts, dags, txns, accepts, voteThresh)
      // enough votes give chits to the pending ancestors, and fewer votes reset them
      ensures |cuts| == |txns| + 1 && |dags| == |txns|
      ensures forall i :: 0 <= i < |txns| && txns[i].Some? ==> cuts[i] <= cuts[i + 1] <= |log|
      ensures forall i :: 0 <= i < |txns| && txns[i].Some? && accepts[i] >= voteThresh ==>
                Ancestry(dags[i], txns[i].value, true, log[cuts[i]..cuts[i + 1]])
      ensures forall i :: 0 <= i < |txns| && txns[i].Some? && accepts[i] < voteThresh ==>
                Ancestry(dags[i], txns[i].value, false, log[cuts[i]..cuts[i + 1]])
      ensures txns != [] ==> dags[0] == old(dag)
      ensures old(verdicts) <= verdicts && commits == Reported(txnPool, verdicts, |old(verdicts)|)
      // a block whose votes all fail accepts nothing
      ensures (forall i :: 0 <= i < |txns| ==> accepts[i] < voteThresh) ==>
                dag == old(dag) && confidence == old(confidence) && verdicts == old(verdicts)
    {
      hide Inv, Timely, Reported, Ancestry, Outcome;
      ghost var s0 := Snap();
      commits, cuts, dags := [], [|log|], [];
      OutcomeNone(log, voteThresh);
      ReportedSplit(txnPool, verdicts, |verdicts|, |verdicts|);
      assert txns[..0] == [] && accepts[..0] == [];
      for i := 0 to |txns|
        invariant Valid() && s0.verdicts <= verdicts && |dags| == i
        invariant Outcome(s0.log, log, cuts, dags, txns[..i], accepts[..i], voteThresh)
        invariant if i == 0 then dag == s0.dag else dags[0] == s0.dag
        invariant commits == Reported(txnPool, verdicts, |s0.verdicts|)
        invariant (forall j :: 0 <= j < i ==> accepts[j] < voteThresh) ==> dag == s0.dag && confidence == s0.conf && verdicts == s0.verdicts
      {
        ghost var s1 := Snap();
        if txns[i].Some? {
          if accepts[i] >= voteThresh {
            var more := VoteFor(txns[i].value);
            ReportedSplit(txnPool, verdicts, |s0.verdicts|, |s1.verdicts|);
            assert verdicts[..|s1.verdicts|] == s1.verdicts;
            commits := commits + more;
          } else {
            VoteAgainst(txns[i].value);
          }
        }
        OutcomeSnoc(s0.log, s1.log, log, cuts, dags, txns, accepts, voteThresh, i, s1.dag);
        cuts, dags := cuts + [|log|], dags + [s1.dag];
      }
      assert txns[..|txns|] == txns && accepts[..|txns|] == accepts;
      OutcomeMeans(s0.log, log, cuts, dags, txns, accepts, voteThresh);
    }

    /** Record a transaction never seen before and enter it into its conflict sets. */
    method RecordOne(t: AvaxTxn)
      requires Valid()
      modifies this`txnPool, this`dag, this`conflictSets, this`confidence, this`log
      ensures Snap() == Enter(old(Snap()), t) && (Distinct(Keys(t)) ==> Valid())
      // it waits for its inputs, or for the parents of a no-op
      ensures t.id !in old(txnPool) ==>
                && txnPool == old(txnPool)[t.id := t] && t.id in dag && Conf(confidence, t.id) == 0
                && forall p :: p in dag[t.id] <==> (t.Payment? && p in t.inputs) || (t.Noop? && p in t.parents)
    {
      hide Inv, Timely, Parents, Distinct;
      if Distinct(Keys(t)) { EnterKeeps(b, Snap(), t); }
      EnterTimely(b, Snap(), t);
      if t.id in txnPool { return; }
      ParentsAre(t);
      ghost var ks, cts0 := Keys(t), conflictSets;
      var cts := conflictSets;
      assert ks[..0] == [];
      if t.Payment? {
        for i := 0 to |t.inputs|
          invariant cts == JoinAll(cts0, t.id, ks[..i]) && Snap() == old(Snap())
        {
          assert ks[..i + 1][..i] == ks[..i];
          var key := Utxo(t.inputs[i], t.sender);
          if key !in cts {
            cts := cts[key := StreakSet(false, t.id, None, 0)];
          } else {
            cts := cts[key := cts[key].(hasConflicts := true)];
          }
        }
      }
      assert ks[..|ks|] == ks && (!t.Payment? ==> ks == []);
      txnPool := txnPool[t.id := t];
      dag := dag[t.id := Parents(t)];
      confidence := confidence[t.id := 0];
      conflictSets := cts;
      log := log + [Seen(t.id)];
    }
  }

  // ---------------------------------------------------------------- the sweep after a failed vote

  /** The queue and the visited transactions are ancestors of `t`, and no parent of a visited one is missing. */
  ghost predicate Sweep(dag: map<Hash, seq<Hash>>, t: Hash, dedup: set<Hash>, frontier: seq<Hash>, events: seq<Event>) {
    && Logs(dag, {}, dedup, false, events)
    && (t in dedup || t in frontier)
    && (forall x :: x in dedup || x in frontier ==> Ancestor(dag, t, x))
    && (forall x, p :: x in dedup && x in dag && p in dag[x] ==> p in dedup || p in frontier)
  }

  lemma SweepStart(dag: map<Hash, seq<Hash>>, t: Hash)
    ensures Sweep(dag, t, {}, [t], [])
  {
    assert Reaches(dag, t, t, 0);
  }

  /** The next transaction was visited before or is no longer pending. */
  lemma SweepSkip(dag: map<Hash, seq<Hash>>, t: Hash, dedup: set<Hash>, frontier: seq<Hash>, events: seq<Event>)
    requires frontier != [] && Sweep(dag, t, dedup, frontier, events)
    requires frontier[0] in dedup || frontier[0] !in dag
    ensures Sweep(dag, t, dedup + {frontier[0]}, frontier[1..], events)
    ensures frontier[0] in dedup ==> dedup + {frontier[0]} == dedup
    ensures dag.Keys - (dedup + {frontier[0]}) == dag.Keys - dedup
  {
    hide Ancestor, Distinct;
    assert forall x :: x in frontier <==> x == frontier[0] || x in frontier[1..];
    assert Touched(dag, {}, dedup + {frontier[0]}, false) == Touched(dag, {}, dedup, false);
  }

  lemma SweepNext(dag: map<Hash, seq<Hash>>, t: Hash, dedup: set<Hash>, frontier: seq<Hash>, events: seq<Event>)
    requires frontier != [] && Sweep(dag, t, dedup, frontier, events) && frontier[0] in dag && frontier[0] !in dedup
    ensures var x := frontier[0]; Sweep(dag, t, dedup + {x}, frontier[1..] + dag[x], events + [Lost(x)])
  {
    hide Ancestor, Distinct, Elems;
    var x := frontier[0];
    assert forall y :: y in frontier <==> y == x || y in frontier[1..];
    forall p | p in dag[x] ensures Ancestor(dag, t, p) { ParentReached(dag, t, x, p); }
    LostOne(dag, x, dedup, events);
  }

  lemma ParentReached(dag: map<Hash, seq<Hash>>, t: Hash, x: Hash, p: Hash)
    requires Ancestor(dag, t, x) && x in dag && p in dag[x]
    ensures Ancestor(dag, t, p)
  {
    var n: nat :| Reaches(dag, t, x, n);
    assert Reaches(dag, t, p, n + 1);
  }

  lemma LostOne(dag: map<Hash, seq<Hash>>, x: Hash, dedup: set<Hash>, events: seq<Event>)
    requires Logs(dag, {}, dedup, false, events) && x in dag && x !in dedup
    ensures Logs(dag, {}, dedup + {x}, false, events + [Lost(x)])
  {
    hide Distinct;
    assert Touched(dag, {}, dedup + {x}, false) == Touched(dag, {}, dedup, false) + {Lost(x)};
    assert (events + [Lost(x)])[..|events|] == events;
    Snoc(events + [Lost(x)]);
    assert Lost(x) !in Elems(events);
  }

  lemma SweepDone(dag: map<Hash, seq<Hash>>, t: Hash, dedup: set<Hash>, events: seq<Event>)
    requires Sweep(dag, t, dedup, [], events)
    ensures Ancestry(dag, t, false, events)
  {
    hide Distinct, Reaches;
    forall h | Ancestor(dag, t, h) ensures h in dedup {
      var n: nat :| Reaches(dag, t, h, n);
      SeenClosed(dag, t, dedup, h, n);
    }
    assert forall e :: e in events <==> e in Elems(events);
  }

  lemma MarkNone(cts: map<Utxo, StreakSet>, t: Hash, conf: map<Hash, nat>, score: nat)
    ensures MarkAll(cts, t, conf, []) == cts && !Disputed(cts, []) && forall n: nat :: Reach(cts, score, [], n) <==> score >= n
  {
  }

  /** What a chit for a pending transaction relies on. */
  lemma Ready(b: Betas, s: Rounds, t: Hash)
    requires Inv(b, s) && t in s.dag
    ensures t in s.pool && s.dag[t] == Parents(s.pool[t]) && t in s.conf && Conf(s.conf, t) == s.conf[t]
    ensures Distinct(Keys(s.pool[t]))
    ensures forall k :: k in Keys(s.pool[t]) ==> k in s.cts && s.cts[k].pref in s.conf
  {
    hide StreakOk, Keys, Parents, Distinct, VerdictsOk, Wins;
    forall k | k in Keys(s.pool[t]) ensures k in s.cts && s.cts[k].pref in s.conf {
      assert Member(s.pool, t, k);
      assert PrefOk(s.pool, s.conf, k, s.cts[k]);
    }
  }
}
