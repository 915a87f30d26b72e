/**
 Whole conflict-free runs of the Blizzard stage, from the empty state and whatever the votes. The
 only hypothesis is on what is recorded: no two transactions want the same output, and parents
 come first.
 */
module BlizzardRun {
  import opened Collections
  import opened Ledger
  import opened Blizzard
  import opened BlizzardSafety
  import opened BlizzardDecision
  import opened Ballots

  // ---------------------------------------------------------------- what is recorded

  function Somes(txns: seq<Option<AvaxTxn>>): seq<AvaxTxn> {
    if txns == [] then []
    else
      var t := txns[|txns| - 1];
      Somes(txns[..|txns| - 1]) + if t.Some? then [t.value] else []
  }

  /** All transactions of the blocks of a run, in the order they are recorded. */
  ghost function Recordings(trace: seq<Step>): seq<AvaxTxn> {
    if trace == [] then []
    else
      var step := trace[|trace| - 1];
      Recordings(trace[..|trace| - 1]) + if step.Recorded? then Somes(step.txns) else []
  }

  /** `p` comes before position `j`; what a payment spends is not a no-op. */
  ghost predicate ComesFirst(ts: seq<AvaxTxn>, j: nat, p: Hash)
    requires j < |ts|
  {
    exists i :: 0 <= i < j && ts[i].id == p && (ts[j].Payment? ==> !ts[i].Noop?)
  }

  /** Ids identify transactions, nobody shares an output with another, and parents come first. */
  ghost predicate Peaceful(ts: seq<AvaxTxn>) {
    && (forall i, j :: 0 <= i < |ts| && 0 <= j < |ts| && ts[i].id == ts[j].id ==> ts[i] == ts[j])
    && (forall i :: 0 <= i < |ts| ==> Distinct(Keys(ts[i])))
    && (forall i, j :: 0 <= i < |ts| && 0 <= j < |ts| && ts[i].id != ts[j].id ==> Elems(Keys(ts[i])) !! Elems(Keys(ts[j])))
    && (forall j, p :: 0 <= j < |ts| && p in Parents(ts[j]) ==> ComesFirst(ts, j, p))
  }

  /** The position of the first transaction with the given id. */
  ghost function First(ts: seq<AvaxTxn>, h: Hash): (n: nat)
    ensures n <= |ts| && (n < |ts| ==> ts[n].id == h) && forall i :: 0 <= i < n ==> ts[i].id != h
  {
    if ts == [] || ts[0].id == h then 0 else 1 + First(ts[1..], h)
  }

  ghost function Rank(ts: seq<AvaxTxn>): Hash -> nat {
    h => First(ts, h)
  }

  // ---------------------------------------------------------------- one transaction

  /** The pool holds exactly the first `n` recorded transactions. */
  ghost predicate PoolFrom(pool: AvaxPool, ts: seq<AvaxTxn>, n: nat)
    requires n <= |ts|
  {
    && (forall i :: 0 <= i < n ==> ts[i].id in pool && pool[ts[i].id] == ts[i])
    && (forall h :: h in pool ==> exists i :: 0 <= i < n && ts[i].id == h)
  }

  ghost predicate Good(b: Betas, s: Votes, ts: seq<AvaxTxn>, n: nat)
    requires n <= |ts|
  {
    Safe(b, s) && Steady(b, s, Rank(ts)) && PoolFrom(s.pool, ts, n)
  }

  /** Keys of a conflict set belong to a pooled transaction. */
  lemma SetOwner(b: Betas, s: Votes, k: Utxo) returns (h: Hash)
    requires Safe(b, s) && k in s.cts
    ensures h in s.pool && k in Keys(s.pool[h])
  {
    hide Margin, DagOk, Keys, SumConf;
    assert SetOk(s.pool, s.conf, k, s.cts[k]);
    h := s.cts[k].pref;
  }

  lemma NotShared(ts: seq<AvaxTxn>, i: nat, n: nat, k: Utxo)
    requires Peaceful(ts) && i < |ts| && n < |ts| && ts[i].id != ts[n].id && k in Keys(ts[i])
    ensures k !in Keys(ts[n])
  {
    hide Keys, Parents, Distinct, ComesFirst;
    assert k in Elems(Keys(ts[i])) && k !in Elems(Keys(ts[n]));
  }

  lemma KeysUnclaimed(b: Betas, s: Votes, ts: seq<AvaxTxn>, n: nat, k: Utxo)
    requires n < |ts| && Safe(b, s) && PoolFrom(s.pool, ts, n) && Peaceful(ts) && ts[n].id !in s.pool && k in Keys(ts[n])
    ensures k !in s.cts
  {
    hide Safe, Keys, Peaceful;
    if k in s.cts {
      var h := SetOwner(b, s, k);
      var i :| 0 <= i < n && ts[i].id == h;
      NotShared(ts, i, n, k);
    }
  }

  lemma ParentsEarlier(s: Votes, ts: seq<AvaxTxn>, n: nat, p: Hash)
    requires n < |ts| && PoolFrom(s.pool, ts, n) && Peaceful(ts) && ts[n].id !in s.pool && p in Parents(ts[n])
    ensures p in s.pool && First(ts, p) < First(ts, ts[n].id)
  {
    hide Keys, Parents, Distinct;
    assert ComesFirst(ts, n, p);
    var i :| 0 <= i < n && ts[i].id == p;
    assert First(ts, p) <= i;
    assert forall j :: 0 <= j < n ==> ts[j].id != ts[n].id;
  }

  lemma PoolFromNext(pool: AvaxPool, ts: seq<AvaxTxn>, n: nat)
    requires n < |ts| && PoolFrom(pool, ts, n) && Peaceful(ts)
    ensures PoolFrom(if ts[n].id in pool then pool else pool[ts[n].id := ts[n]], ts, n + 1)
  {
    hide Keys, Parents, Distinct, ComesFirst;
    if ts[n].id in pool {
      var i :| 0 <= i < n && ts[i].id == ts[n].id;
    }
  }

  lemma RecordOneGood(b: Betas, s: Votes, ts: seq<AvaxTxn>, n: nat)
    requires n < |ts| && Good(b, s, ts, n) && Peaceful(ts)
    ensures Good(b, RecordTxn(s, ts[n]), ts, n + 1)
  {
    hide Safe, Steady, Keys, Parents, Distinct, Join, Peaceful, PoolFrom;
    var t := ts[n];
    PeacefulKeys(ts, n);
    if t.id !in s.pool {
      forall k | k in Keys(t) ensures k !in s.cts { KeysUnclaimed(b, s, ts, n, k); }
      forall p | p in Parents(t) ensures p in s.pool && Rank(ts)(p) < Rank(ts)(t.id) { ParentsEarlier(s, ts, n, p); }
    }
    RecordSafe(b, s, t);
    RecordSteady(b, s, t, Rank(ts));
    PoolFromNext(s.pool, ts, n);
  }

  lemma PeacefulKeys(ts: seq<AvaxTxn>, n: nat)
    requires Peaceful(ts) && n < |ts|
    ensures Distinct(Keys(ts[n]))
  {
  }

  // ---------------------------------------------------------------- a block, a step, a run

  /** Recording a block keeps a conflict-free run. */
  lemma {:induction false} RecordAllGood(b: Betas, s: Votes, ts: seq<AvaxTxn>, n: nat, txns: seq<Option<AvaxTxn>>)
    requires Peaceful(ts) && n + |Somes(txns)| <= |ts| && ts[n..n + |Somes(txns)|] == Somes(txns) && Good(b, s, ts, n)
    ensures Good(b, RecordAll(s, txns), ts, n + |Somes(txns)|)
    decreases |txns|
  {
    hide Good, Peaceful, RecordTxn;
    if txns != [] {
      var front, t := txns[..|txns| - 1], txns[|txns| - 1];
      var m := n + |Somes(front)|;
      assert ts[n..m] == ts[n..n + |Somes(txns)|][..|Somes(front)|] == Somes(front);
      RecordAllGood(b, s, ts, n, front);
      if t.Some? {
        assert ts[m] == ts[n..n + |Somes(txns)|][|Somes(front)|] == t.value;
        RecordOneGood(b, RecordAll(s, front), ts, m);
      }
    }
  }

  lemma VoteGood(b: Betas, s: Votes, ts: seq<AvaxTxn>, n: nat, query: seq<Option<Hash>>, accepts: seq<nat>, thresh: nat)
    requires n <= |ts| && Good(b, s, ts, n) && s.dag.Keys <= s.pool.Keys && |query| == |accepts|
    ensures Good(b, VoteAll(b, s, query, accepts, thresh), ts, n)
  {
    hide Safe, Steady, PoolFrom;
    VoteAllSteady(b, s, query, accepts, thresh, Rank(ts));
  }

  /** Every state of a conflict-free run is steady. */
  lemma {:induction false} RunGood(b: Betas, thresh: nat, trace: seq<Step>, ts: seq<AvaxTxn>)
    requires 1 <= b.beta1 <= b.beta2 && Peaceful(ts) && Recordings(trace) <= ts
    ensures Good(b, RunOf(b, thresh, trace), ts, |Recordings(trace)|)
  {
    hide Good, Peaceful, RecordAll, VoteAll;
    if trace == [] {
      EmptyGood(b, ts);
    } else {
      var before, step := trace[..|trace| - 1], trace[|trace| - 1];
      var n := |Recordings(before)|;
      RunGood(b, thresh, before, ts);
      var s := RunOf(b, thresh, before);
      if step.Recorded? {
        assert ts[n..n + |Somes(step.txns)|] == Recordings(trace)[n..] == Somes(step.txns);
        RecordAllGood(b, s, ts, n, step.txns);
      } else if s.dag.Keys <= s.pool.Keys && |step.query| == |step.accepts| {
        VoteGood(b, s, ts, n, step.query, step.accepts, thresh);
      }
    }
  }

  lemma EmptyGood(b: Betas, ts: seq<AvaxTxn>)
    requires 1 <= b.beta1 <= b.beta2
    ensures Good(b, Votes(map[], map[], map[], map[], []), ts, 0)
  {
  }

  // ---------------------------------------------------------------- the commit sequence

  /** A committed transaction stands in the log after exactly the transactions committed before it. */
  lemma {:induction false} CommitAt(pool: AvaxPool, hs: seq<Hash>, j: nat) returns (i: nat)
    requires j < |CommitList(pool, hs)|
    ensures i < |hs| && hs[i] == CommitList(pool, hs)[j] && CommitList(pool, hs[..i]) == CommitList(pool, hs)[..j]
    decreases |hs|
  {
    var n := |hs| - 1;
    var front := CommitList(pool, hs[..n]);
    if j < |front| {
      i := CommitAt(pool, hs[..n], j);
      assert hs[..n][..i] == hs[..i];
      assert CommitList(pool, hs)[..j] == front[..j];
    } else {
      i := n;
      assert CommitList(pool, hs)[..j] == front;
    }
  }

  ghost predicate Spends(pool: AvaxPool, h: Hash, p: Hash) {
    h in pool && pool[h].Payment? && p in pool[h].inputs
  }

  /** What a recorded payment spends is a recorded transaction that is not a no-op. */
  lemma InputsReal(pool: AvaxPool, ts: seq<AvaxTxn>, h: Hash, p: Hash)
    requires Peaceful(ts) && PoolFrom(pool, ts, |ts|) && Spends(pool, h, p)
    ensures p in pool && !pool[p].Noop?
  {
    hide Keys, Distinct;
    var j :| 0 <= j < |ts| && ts[j].id == h;
    assert p in Parents(ts[j]) && ComesFirst(ts, j, p);
    var i :| 0 <= i < j && ts[i].id == p && !ts[i].Noop?;
  }

  lemma CommitsOrdered(s: Votes, ts: seq<AvaxTxn>, j: nat, p: Hash)
    requires LogOrdered(s) && Peaceful(ts) && PoolFrom(s.pool, ts, |ts|) && j < |CommitList(s.pool, s.accepted)|
    requires Spends(s.pool, CommitList(s.pool, s.accepted)[j], p)
    ensures p in CommitList(s.pool, s.accepted)[..j]
  {
    hide Peaceful, PoolFrom, CommitList;
    var h := CommitList(s.pool, s.accepted)[j];
    var i := CommitAt(s.pool, s.accepted, j);
    InputsReal(s.pool, ts, h, p);
    assert p in Parents(s.pool[s.accepted[i]]);
    assert p in s.accepted[..i];
    CommitListIff(s.pool, s.accepted[..i], p);
  }

  /**
   In every state that the stage reaches in a conflict-free run, whatever the votes, timeouts and
   their order: a transaction is pending exactly until its beta1-th chit and never gets more; and
   every input of a committed payment stands earlier in the sequence of commits.
   */
  lemma ConflictFreeRun(d: Decision)
    requires d.Valid() && d.QueriesOk() && d.Traced()
    requires 1 <= d.b.beta1 <= d.b.beta2 && Peaceful(Recordings(d.trace))
    ensures forall h :: h in d.txnPool ==> Conf(d.confidence, h) <= d.b.beta1 && (h in d.dag <==> Conf(d.confidence, h) < d.b.beta1)
    ensures forall h :: h in d.accepted ==> Conf(d.confidence, h) == d.b.beta1
    ensures var commits := Flat(d.commitLog);
            forall j, p :: 0 <= j < |commits| && Spends(d.txnPool, commits[j], p) ==> p in commits[..j]
  {
    hide Peaceful, RunOf, Recordings, PoolFrom, Open, CommitList, Flat, SetsOk, Margin, Keys, Parents, LogOrdered, NoConflicts, ParentsKnown, BlkIds, Distinct;
    var ts, s := Recordings(d.trace), d.Snap();
    RunGood(d.b, d.voteThresh, d.trace, ts);
    forall h | h in d.accepted ensures h in d.txnPool && h !in d.dag { assert h in Elems(d.accepted); }
    var commits := Flat(d.commitLog);
    assert commits == CommitList(s.pool, s.accepted);
    forall j, p | 0 <= j < |commits| && Spends(d.txnPool, commits[j], p) ensures p in commits[..j] {
      CommitsOrdered(s, ts, j, p);
    }
  }
}
