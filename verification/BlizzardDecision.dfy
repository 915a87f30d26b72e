/**
 The Blizzard decision stage: it records the transactions of queried blocks, counts votes, hands
 out chits and queues accepted transactions for commit. How a node votes is not modelled; votes
 are arbitrary.
 */
module BlizzardDecision {
  import opened Collections
  import opened Ledger
  import opened Blizzard
  import opened BlizzardSafety
  import opened Ballots

  /** Accepted transactions that are reported; no-ops only drive the consensus. */
  function CommitList(pool: AvaxPool, hs: seq<Hash>): seq<Hash> {
    if hs == [] then []
    else
      var h := hs[|hs| - 1];
      CommitList(pool, hs[..|hs| - 1]) + if h in pool && !pool[h].Noop? then [h] else []
  }

  lemma {:induction false} CommitListConcat(pool: AvaxPool, a: seq<Hash>, b: seq<Hash>)
    ensures CommitList(pool, a + b) == CommitList(pool, a) + CommitList(pool, b)
  {
    if b == [] {
      assert a + b == a;
    } else {
      CommitListConcat(pool, a, b[..|b| - 1]);
      assert (a + b)[..|a + b| - 1] == a + b[..|b| - 1];
    }
  }

  /** Reported are exactly the accepted transactions that are not no-ops. */
  lemma {:induction false} CommitListIff(pool: AvaxPool, hs: seq<Hash>, h: Hash)
    ensures h in CommitList(pool, hs) <==> h in hs && h in pool && !pool[h].Noop?
  {
    if hs != [] {
      var n := |hs| - 1;
      CommitListIff(pool, hs[..n], h);
      assert h in hs <==> h in hs[..n] || h == hs[n];
    }
  }

  // ---------------------------------------------------------------- the log only grows

  lemma {:induction false} VisitLog(b: Betas, s: Votes, t: Hash, seen: set<Hash>)
    requires s.dag.Keys <= s.pool.Keys
    ensures s.accepted <= Visit(b, s, t, seen).s.accepted
    decreases s.dag.Keys - seen, 1, 0
  {
    hide Chit;
    if t !in seen && t in s.dag {
      assert t in s.dag.Keys - seen;
      VisitAllLog(b, s, s.dag[t], seen + {t});
      var r := VisitAll(b, s, s.dag[t], seen + {t});
      hide VisitAll;
      ChitLog(b, r.s, t);
    }
  }

  lemma {:induction false} VisitAllLog(b: Betas, s: Votes, ps: seq<Hash>, seen: set<Hash>)
    requires s.dag.Keys <= s.pool.Keys
    ensures s.accepted <= VisitAll(b, s, ps, seen).s.accepted
    decreases s.dag.Keys - seen, 2, |ps|
  {
    hide Visit;
    if ps != [] {
      var r := VisitAll(b, s, ps[..|ps| - 1], seen);
      VisitAllLog(b, s, ps[..|ps| - 1], seen);
      assert r.s.dag.Keys - r.seen <= s.dag.Keys - seen;
      VisitLog(b, r.s, ps[|ps| - 1], r.seen);
    }
  }

  // ---------------------------------------------------------------- partial bumps

  lemma {:induction false} AgainstFrame(cts: map<Utxo, ConflictSet>, cts': map<Utxo, ConflictSet>, c: nat, ks: seq<Utxo>)
    requires forall k :: k in ks ==> k in cts && k in cts' && cts'[k] == cts[k]
    ensures Against(cts', c, ks) == Against(cts, c, ks) && (Contested(cts', ks) <==> Contested(cts, ks))
  {
    if ks != [] {
      assert forall k :: k in ks[..|ks| - 1] ==> k in ks;
      AgainstFrame(cts, cts', c, ks[..|ks| - 1]);
      assert ks[|ks| - 1] in ks;
      assert forall i :: 0 <= i < |ks| ==> ks[i] in ks;
    }
  }

  /** Bumping one more conflict set adds its own term to the count and leaves the others. */
  lemma BumpNext(cts: map<Utxo, ConflictSet>, t: Hash, conf: map<Hash, nat>, c: nat, ks: seq<Utxo>, i: nat)
    requires Distinct(ks) && i < |ks| && forall k :: k in ks ==> k in cts
    ensures var done, next := Bump(cts, t, conf, ks[..i]), Bump(cts, t, conf, ks[..i + 1]);
            var ct := BumpSet(cts[ks[i]], t, conf);
            && ks[i] in done && done[ks[i]] == cts[ks[i]] && next == done[ks[i] := ct]
            && Against(next, c, ks[..i + 1]) == Against(done, c, ks[..i]) + ct.totalRounds - c
            && (Contested(next, ks[..i + 1]) <==> Contested(done, ks[..i]) || ct.hasConflicts)
  {
    hide BumpSet;
    var a, k := ks[..i], ks[i];
    var done, next := Bump(cts, t, conf, a), Bump(cts, t, conf, ks[..i + 1]);
    assert ks[..i + 1] == a + [k] && (a + [k])[..i] == a;
    assert Distinct(a) && k !in a && forall x :: x in a ==> x in ks;
    BumpAt(cts, t, conf, a);
    AgainstFrame(done, next, c, a);
    assert Contested(next, a + [k]) <==> Contested(next, a) || next[k].hasConflicts by {
      if Contested(next, a) {
        var j :| 0 <= j < |a| && a[j] in next && next[a[j]].hasConflicts;
        assert (a + [k])[j] == a[j];
      }
      assert (a + [k])[i] == k;
    }
  }

  lemma BumpPrefs(cts: map<Utxo, ConflictSet>, t: Hash, conf: map<Hash, nat>, score: nat, ks: seq<Utxo>)
    requires Distinct(ks) && (forall k :: k in ks ==> k in cts) && Conf(conf, t) == score
    ensures forall k :: k in ks ==>
              k in Bump(cts, t, conf, ks) && Bump(cts, t, conf, ks)[k].pref == if Conf(conf, cts[k].pref) < score then t else cts[k].pref
  {
    hide Bump, Distinct;
    BumpAt(cts, t, conf, ks);
  }

  // ---------------------------------------------------------------- the stage

  /** What a run of the stage does to the votes' state: blocks are recorded, and queries take effect. */
  datatype Step = Recorded(txns: seq<Option<AvaxTxn>>) | Voted(query: seq<Option<Hash>>, accepts: seq<nat>)

  ghost function TakeStep(b: Betas, thresh: nat, s: Votes, step: Step): Votes {
    match step
    case Recorded(txns) => RecordAll(s, txns)
    case Voted(query, accepts) =>
      if s.dag.Keys <= s.pool.Keys && |query| == |accepts| then VoteAll(b, s, query, accepts, thresh) else s
  }

  ghost function RunOf(b: Betas, thresh: nat, trace: seq<Step>): Votes {
    if trace == [] then Votes(map[], map[], map[], map[], [])
    else TakeStep(b, thresh, RunOf(b, thresh, trace[..|trace| - 1]), trace[|trace| - 1])
  }

  lemma VotedStep(b: Betas, thresh: nat, s: Votes, query: seq<Option<Hash>>, accepts: seq<nat>)
    requires s.dag.Keys <= s.pool.Keys && |query| == |accepts|
    ensures TakeStep(b, thresh, s, Voted(query, accepts)) == VoteAll(b, s, query, accepts, thresh)
  {
  }

  lemma RunSnoc(b: Betas, thresh: nat, trace: seq<Step>, step: Step)
    ensures RunOf(b, thresh, trace + [step]) == TakeStep(b, thresh, RunOf(b, thresh, trace), step)
  {
    assert (trace + [step])[..|trace|] == trace;
  }

  /** The ids of a block's transactions, as they are queried. */
  function QueryOf(txns: seq<Option<AvaxTxn>>): (query: seq<Option<Hash>>)
    ensures |query| == |txns|
    ensures forall i :: 0 <= i < |txns| ==> query[i] == if txns[i].Some? then Some(txns[i].value.id) else None
  {
    seq(|txns|, i requires 0 <= i < |txns| => if txns[i].Some? then Some(txns[i].value.id) else None)
  }
  datatype Commit = Commit(blk: nat, txns: seq<Hash>)

  /** Own queries are open or finished, never both; open ones have votes of the right length and a timer, and nothing else has. */
  ghost predicate Open(own: set<nat>, queries: map<nat, seq<Option<Hash>>>, finished: set<nat>,
                       votes: map<nat, Tally>, timers: seq<nat>)
  {
    && own == queries.Keys + finished && queries.Keys !! finished
    && (forall q :: q in queries ==> q in votes && |votes[q].accepts| == |queries[q]| && q in timers)
    && (forall q :: q in timers ==> q in own)
  }

  /** Each finished query was committed and fed back once; together the commits are `all`. */
  ghost predicate Logged(log: seq<Commit>, finished: set<nat>, feedback: nat, all: seq<Hash>) {
    && Distinct(BlkIds(log)) && Elems(BlkIds(log)) == finished && feedback == |log|
    && Flat(log) == all
  }

  class Decision {
    const b: Betas
    const k: nat
    const voteThresh: nat
    var txnPool: AvaxPool
    var dag: map<Hash, seq<Hash>>
    var conflictSets: map<Utxo, ConflictSet>
    var confidence: map<Hash, nat>
    ghost var accepted: seq<Hash>
    // queries by this node
    var queryPool: map<nat, seq<Option<Hash>>>
    var finishedQuery: set<nat>
    var votes: map<nat, Tally>
    var timeQueue: seq<nat>
    var commitQueue: seq<Commit>
    /** Messages sent to the pacemaker, one for each finished query. */
    var feedback: nat
    /** Blocks queried by this node, and all commits ever queued. */
    ghost var own: set<nat>
    ghost var commitLog: seq<Commit>
    /** What was recorded and voted on so far, in order. */
    ghost var trace: seq<Step>
    /** The ballots counted for each block. */
    ghost var ballots: map<nat, seq<Ballot>>

    ghost function Snap(): Votes
      reads this
    {
      Votes(txnPool, dag, conflictSets, confidence, accepted)
    }

    ghost predicate Valid()
      reads this
    {
      Safe(b, Snap())
    }

    /** The stage is in the state its trace leads to. */
    ghost predicate Traced()
      reads this
    {
      Snap() == RunOf(b, voteThresh, trace)
    }

    constructor (b: Betas, k: nat, voteThresh: nat)
      ensures Traced() && trace == [] && this.k == k && this.voteThresh == voteThresh
      ensures Valid() && QueriesOk() && Snap() == Votes(map[], map[], map[], map[], []) && this.b == b
      ensures own == {} && finishedQuery == {} && queryPool == map[] && votes == map[] && timeQueue == [] && commitQueue == []
      ensures ballots == map[]
    {
      this.b, this.k, this.voteThresh := b, k, voteThresh;
      txnPool, dag, conflictSets, confidence, accepted := map[], map[], map[], map[], [];
      queryPool, finishedQuery, votes, timeQueue, commitQueue := map[], {}, map[], [], [];
      feedback, own, commitLog, trace, ballots := 0, {}, [], [], map[];
    }

    /** Every own query is open or finished, never both; finishing sends one commit and one feedback. */
    ghost predicate QueriesOk()
      reads this
    {
      && Open(own, queryPool, finishedQuery, votes, timeQueue)
      && Logged(commitLog, finishedQuery, feedback, CommitList(txnPool, accepted))
      && Tallied(votes, ballots, finishedQuery)
    }

    /** Count a chit of `t` in each of its conflict sets; `count` is what went to rivals. */
    method UpdateConflictSets(t: Hash, txn: AvaxTxn, score: nat, ghost conf0: map<Hash, nat>)
      returns (hasConflicts: bool, count: nat)
      requires t in txnPool && txnPool[t] == txn && Distinct(Keys(txn))
      requires confidence == conf0[t := score] && score == Conf(conf0, t) + 1
      requires SetsOk(Votes(txnPool, dag, conflictSets, conf0, accepted))
      requires confidence.Keys == txnPool.Keys
      modifies this`conflictSets
      ensures conflictSets == Bump(old(conflictSets), t, confidence, Keys(txn))
      // the preference moves exactly if `t` has overtaken the preferred transaction
      ensures forall k :: k in Keys(txn) ==>
                && k in conflictSets && k in old(conflictSets)
                && conflictSets[k].pref == var pref := old(conflictSets)[k].pref; if Conf(confidence, pref) < score then t else pref
      ensures count == Against(conflictSets, score, Keys(txn))
      ensures hasConflicts <==> Contested(conflictSets, Keys(txn))
    {
      hide Distinct, SetOk, Keys;
      hasConflicts, count := false, 0;
      ghost var cts0, ks := conflictSets, Keys(txn);
      KeysOf(txn);
      EmptyBump(cts0, t, confidence, score);
      forall k | k in ks ensures k in cts0 { MemberSet(Votes(txnPool, dag, conflictSets, conf0, accepted), t, k); }
      BumpPrefs(cts0, t, confidence, score, ks);
      if !txn.Payment? { return; }
      ghost var s0 := Votes(txnPool, dag, conflictSets, conf0, accepted);
      assert ks[..0] == [];
      hide Bump, Against, Contested, BumpSet, SetsOk;
      for i := 0 to |txn.inputs|
        invariant conflictSets == Bump(cts0, t, confidence, ks[..i])
        invariant count == Against(conflictSets, score, ks[..i])
        invariant hasConflicts <==> Contested(conflictSets, ks[..i])
      {
        var key := Utxo(txn.inputs[i], txn.sender);
        MemberSet(s0, t, key);
        BumpNext(cts0, t, confidence, score, ks, i);
        var ct := conflictSets[key];
        var pref := ct.pref;
        if pref != t && confidence[pref] < score { pref := t; }
        ct := ConflictSet(ct.hasConflicts, pref, ct.totalRounds + 1);
        BumpIs(s0, t, key, ct, confidence, score);
        conflictSets := conflictSets[key := ct];
        if ct.hasConflicts { hasConflicts := true; }
        count := count + (ct.totalRounds - score);
      }
      assert ks[..|ks|] == ks;
    }

    /** Give a chit to a pending transaction whose parents have been seen to. */
    method GiveChit(t: Hash, parents: seq<Hash>) returns (commits: seq<Hash>)
      requires Valid() && t in dag && t in txnPool && parents == Parents(txnPool[t])
      modifies this`dag, this`conflictSets, this`confidence, this`accepted
      ensures Valid() && Snap() == Chit(b, old(Snap()), t) && Conf(confidence, t) == Conf(old(confidence), t) + 1
      // it leaves the DAG with beta1 chits if there is no rival and no pending parent
      ensures !HasRival(txnPool, t) && (forall p :: p in parents ==> p !in old(dag)) ==>
                (t !in dag <==> Conf(confidence, t) >= b.beta1)
      // and otherwise with beta2 more than its rivals have
      ensures HasRival(txnPool, t) || (exists p :: p in parents && p in old(dag)) ==>
                (t !in dag <==> Conf(confidence, t) >= b.beta2 + RivalChits(txnPool, confidence, t, Keys(txnPool[t])))
      ensures |old(accepted)| <= |accepted| && commits == CommitList(txnPool, accepted[|old(accepted)|..])
    {
      hide Safe, Bump, Against, Contested, Chit, Keys, Parents, SetsOk, CommitList, ParentsAccepted, Distinct, HasRival, RivalChits;
      ghost var s0 := Snap();
      ChitSafe(b, s0, t);
      SafeInv(b, s0);
      AcceptedIff(b, s0, t);
      ChitReady(b, s0, t);
      commits := [];
      NoCommits(txnPool, accepted);
      var score := confidence[t] + 1;
      confidence := confidence[t := score];
      var txn := txnPool[t];
      var hasConflicts, count := UpdateConflictSets(t, txn, score, s0.conf);
      var parentsAccepted := NonePending(dag, parents);
      ChitIs(b, s0, t, confidence, conflictSets, parentsAccepted && !hasConflicts, count);
      var threshold := if parentsAccepted && !hasConflicts then b.beta1 else b.beta2;
      if score >= threshold + count {
        dag := dag - {t};
        accepted := accepted + [t];
        OneCommit(txnPool, s0.accepted, t);
        if !txn.Noop? { commits := [t]; }
      }
    }

    /** Give chits to a transaction and all its pending ancestors, parents before children. */
    method HandleVotesHelper(t: Hash, seen: set<Hash>) returns (commits: seq<Hash>, seen': set<Hash>)
      requires Valid() && dag.Keys <= txnPool.Keys
      modifies this`dag, this`conflictSets, this`confidence, this`accepted
      ensures Valid() && Visited(Snap(), seen') == Visit(b, old(Snap()), t, seen)
      ensures |old(accepted)| <= |accepted| && commits == CommitList(txnPool, accepted[|old(accepted)|..])
      decreases dag.Keys - seen
    {
      hide Safe, Chit, CommitList, VisitAll;
      ghost var s0 := Snap();
      commits, seen' := [], seen;
      NoCommits(txnPool, accepted);
      if t in seen { return; }
      seen' := seen + {t};
      if t !in dag { return; }
      var parents := dag[t];
      PendingParents(b, s0, t);
      assert t in dag.Keys - seen;
      VisitNone(b, s0, seen');
      assert parents[..0] == [];
      for i := 0 to |parents|
        invariant Valid() && Visited(Snap(), seen') == VisitAll(b, s0, parents[..i], seen + {t})
        invariant dag.Keys <= txnPool.Keys && txnPool == s0.pool
        invariant |s0.accepted| <= |accepted| && commits == CommitList(txnPool, accepted[|s0.accepted|..])
      {
        ghost var s1, seen1 := Snap(), seen';
        VisitNext(b, s0, parents, i, seen + {t});
        var more;
        more, seen' := HandleVotesHelper(parents[i], seen');
        VisitLog(b, s1, parents[i], seen1);
        LogSplit(txnPool, s0.accepted, s1.accepted, accepted);
        commits := commits + more;
      }
      assert parents[..|parents|] == parents;
      ghost var s2 := Snap();
      VisitPending(b, s0, t, seen);
      ChitLog(b, s2, t);
      var own := GiveChit(t, parents);
      LogSplit(txnPool, s0.accepted, s2.accepted, accepted);
      commits := commits + own;
    }

    /** Hand out the chits that a block's votes earned, in block order. */
    method HandOut(txns: seq<Option<Hash>>, accepts: seq<nat>) returns (commits: seq<Hash>)
      requires Valid() && dag.Keys <= txnPool.Keys && |txns| == |accepts|
      modifies this`dag, this`conflictSets, this`confidence, this`accepted
      ensures Valid() && Snap() == VoteAll(b, old(Snap()), txns, accepts, voteThresh)
      ensures old(accepted) <= accepted && commits == CommitList(txnPool, accepted[|old(accepted)|..])
    {
      hide Safe, Visit, CommitList;
      ghost var s0 := Snap();
      commits := [];
      NoCommits(txnPool, accepted);
      assert txns[..0] == [] && accepts[..0] == [];
      for i := 0 to |txns|
        invariant Valid() && dag.Keys <= txnPool.Keys
        invariant Snap() == VoteAll(b, s0, txns[..i], accepts[..i], voteThresh)
        invariant s0.accepted <= accepted && commits == CommitList(txnPool, accepted[|s0.accepted|..])
      {
        VoteNext(b, s0, txns, accepts, voteThresh, i);
        if txns[i].Some? && accepts[i] >= voteThresh {
          ghost var s1 := Snap();
          VisitLog(b, s1, txns[i].value, {});
          var more, _ := HandleVotesHelper(txns[i].value, {});
          LogSplit(txnPool, s0.accepted, s1.accepted, accepted);
          commits := commits + more;
        }
      }
      assert txns[..|txns|] == txns && accepts[..|txns|] == accepts;
    }

    /** Take an open query out of the pool, with its votes and its timer. */
    method TakeQuery(blk: nat) returns (txns: seq<Option<Hash>>, accepts: seq<nat>)
      requires Open(own, queryPool, finishedQuery, votes, timeQueue) && Tallied(votes, ballots, finishedQuery) && blk in queryPool
      modifies this`queryPool, this`finishedQuery, this`votes, this`timeQueue
      ensures Open(own, queryPool, finishedQuery, votes, timeQueue) && Tallied(votes, ballots, finishedQuery)
      ensures blk !in old(finishedQuery) && accepts == Counts(Cast(ballots, blk), |txns|)
      ensures queryPool == old(queryPool) - {blk} && finishedQuery == old(finishedQuery) + {blk}
      ensures txns == old(queryPool)[blk] && blk in old(votes) && accepts == old(votes)[blk].accepts
      ensures |txns| == |accepts| && blk !in timeQueue
    {
      hide Open, RemoveAll, Tallied, TallyOk, Counts, Cast;
      CastTallied(votes, ballots, finishedQuery, blk);
      TalliedClose(votes, ballots, finishedQuery, blk);
      RemoveKeepsOthers(timeQueue, blk);
      CloseQuery(own, queryPool, finishedQuery, votes, timeQueue, blk);
      txns, accepts := queryPool[blk], votes[blk].accepts;
      TallyMeans(votes[blk], Cast(ballots, blk));
      queryPool := queryPool - {blk};
      votes := votes - {blk};
      finishedQuery := finishedQuery + {blk};
      timeQueue := RemoveAll(timeQueue, blk);
    }

    /** Queue the outcome of a query for commit and tell the pacemaker. */
    method QueueCommit(blk: nat, commits: seq<Hash>)
      modifies this`commitQueue, this`feedback, this`commitLog
      ensures commitQueue == old(commitQueue) + [Commit(blk, commits)]
      ensures commitLog == old(commitLog) + [Commit(blk, commits)] && feedback == old(feedback) + 1
    {
      commitQueue := commitQueue + [Commit(blk, commits)];
      commitLog := commitLog + [Commit(blk, commits)];
      feedback := feedback + 1;
    }

    /** Close an open query: hand out the chits its votes earned and queue what they accept. */
    method HandleVotes(blk: nat)
      requires Valid() && QueriesOk() && Traced()
      modifies this`dag, this`conflictSets, this`confidence, this`accepted, this`queryPool, this`finishedQuery,
               this`votes, this`timeQueue, this`commitQueue, this`feedback, this`commitLog, this`trace
      ensures Valid() && QueriesOk() && Traced() && old(finishedQuery) <= finishedQuery
      ensures blk !in old(queryPool) ==>
                && trace == old(trace) && timeQueue == old(timeQueue) && Snap() == old(Snap()) && queryPool == old(queryPool) && finishedQuery == old(finishedQuery)
                && votes == old(votes) && commitQueue == old(commitQueue) && feedback == old(feedback)
      ensures blk in old(queryPool) ==>
                && queryPool == old(queryPool) - {blk} && finishedQuery == old(finishedQuery) + {blk}
                && dag.Keys <= txnPool.Keys && feedback == old(feedback) + 1
                && blk in old(votes) && VotedOn(old(Snap()), old(queryPool)[blk], old(votes)[blk].accepts, Snap())
                && Elects(b, old(Snap()), old(queryPool)[blk], Cast(ballots, blk), voteThresh, Snap())
                && old(votes)[blk].accepts == Counts(Cast(ballots, blk), |old(queryPool)[blk]|)
                && trace == old(trace) + [Voted(old(queryPool)[blk], old(votes)[blk].accepts)] && blk !in timeQueue
                && |old(accepted)| <= |accepted|
                && commitQueue == old(commitQueue) + [Commit(blk, CommitList(txnPool, accepted[|old(accepted)|..]))]
    {
      hide Safe, CommitList, VotedOn, Open, Logged, RunOf, Tallied, Elects, Counts, Cast;
      if blk in queryPool {
        ghost var accepted0 := accepted;
        var commits := TakeEffect(blk);
        FlatGrows(txnPool, commitLog, old(finishedQuery), feedback, accepted0, accepted, blk, commits);
        QueueCommit(blk, commits);
      }
    }

    /** Take an open query and hand out the chits its votes earned. */
    method TakeEffect(blk: nat) returns (commits: seq<Hash>)
      requires Valid() && Open(own, queryPool, finishedQuery, votes, timeQueue) && Tallied(votes, ballots, finishedQuery)
      requires Traced() && blk in queryPool
      modifies this`dag, this`conflictSets, this`confidence, this`accepted, this`queryPool, this`finishedQuery,
               this`votes, this`timeQueue, this`trace
      ensures Valid() && Open(own, queryPool, finishedQuery, votes, timeQueue) && Tallied(votes, ballots, finishedQuery)
      ensures Traced() && dag.Keys <= txnPool.Keys
      ensures queryPool == old(queryPool) - {blk} && finishedQuery == old(finishedQuery) + {blk}
      ensures blk !in old(finishedQuery) && blk !in timeQueue
      ensures blk in old(votes) && VotedOn(old(Snap()), old(queryPool)[blk], old(votes)[blk].accepts, Snap())
      ensures trace == old(trace) + [Voted(old(queryPool)[blk], old(votes)[blk].accepts)]
      // chits go exactly to the transactions that enough of the ballots accept
      ensures old(votes)[blk].accepts == Counts(Cast(ballots, blk), |old(queryPool)[blk]|)
      ensures Elects(b, old(Snap()), old(queryPool)[blk], Cast(ballots, blk), voteThresh, Snap())
      ensures old(accepted) <= accepted && commits == CommitList(txnPool, accepted[|old(accepted)|..])
    {
      hide Safe, CommitList, VoteAll, Open, RunOf, TakeStep, Tallied, Elects, Counts, Cast;
      SafeDag(b, Snap());
      var txns, accepts := TakeQuery(blk);
      CountsElect(b, Snap(), txns, Cast(ballots, blk), voteThresh);
      RunSnoc(b, voteThresh, trace, Voted(txns, accepts));
      VotedStep(b, voteThresh, Snap(), txns, accepts);
      trace := trace + [Voted(txns, accepts)];
      commits := HandOut(txns, accepts);
      SafeDag(b, Snap());
    }

    /** `s'` is `s` after the chits that the given votes earn. */
    ghost predicate VotedOn(s: Votes, txns: seq<Option<Hash>>, accepts: seq<nat>, s': Votes) {
      s.dag.Keys <= s.pool.Keys && |txns| == |accepts| && s' == VoteAll(b, s, txns, accepts, voteThresh)
    }

    /** Count the ballot of one peer; with `k` of them the query is closed. */
    method RecordVotes(blk: nat, vs: Ballot)
      requires Valid() && QueriesOk() && Traced()
      requires blk !in finishedQuery && blk in votes ==> |votes[blk].accepts| == |vs|
      requires blk in queryPool ==> |queryPool[blk]| == |vs|
      modifies this`dag, this`conflictSets, this`confidence, this`accepted, this`queryPool, this`finishedQuery,
               this`votes, this`timeQueue, this`commitQueue, this`feedback, this`commitLog, this`trace, this`ballots
      ensures Valid() && QueriesOk() && Traced() && old(finishedQuery) <= finishedQuery
      ensures blk in old(finishedQuery) ==>
                && Snap() == old(Snap()) && trace == old(trace) && votes == old(votes) && queryPool == old(queryPool)
                && commitQueue == old(commitQueue) && ballots == old(ballots)
      ensures blk !in old(finishedQuery) ==> ballots == old(ballots)[blk := Cast(old(ballots), blk) + [vs]]
      // counting alone decides nothing: the tally is the number of ballots, and of those that accept each transaction
      ensures blk !in old(finishedQuery) && (|ballots[blk]| < k || blk !in old(queryPool)) ==>
                && Snap() == old(Snap()) && trace == old(trace) && queryPool == old(queryPool) && commitQueue == old(commitQueue)
                && blk in votes && votes == old(votes)[blk := votes[blk]]
                && votes[blk] == Tally(|ballots[blk]|, Counts(ballots[blk], |vs|)) && |votes[blk].accepts| == |vs|
                && forall i: nat :: i < |vs| ==>
                     votes[blk].accepts[i] == |set j: nat | j < |ballots[blk]| && i < |ballots[blk][j]| && ballots[blk][j][i]|
      // the k-th ballot closes an open query, with chits for what enough of the ballots accept
      ensures blk in old(queryPool) ==> blk !in old(finishedQuery)
      ensures blk in old(queryPool) && |ballots[blk]| >= k ==>
                && queryPool == old(queryPool) - {blk} && finishedQuery == old(finishedQuery) + {blk}
                && Elects(b, old(Snap()), old(queryPool)[blk], ballots[blk], voteThresh, Snap())
                && VotedOn(old(Snap()), old(queryPool)[blk], Counts(ballots[blk], |vs|), Snap())
                && trace == old(trace) + [Voted(old(queryPool)[blk], Counts(ballots[blk], |vs|))]
    {
      hide Safe, Flat, BlkIds, Elems, Distinct, CommitList, RunOf, Logged, VotedOn, Tallied, TallyOk, Counts, Elects;
      OpenApart(own, queryPool, finishedQuery, votes, timeQueue);
      if blk in finishedQuery { return; }
      CastTallied(votes, ballots, finishedQuery, blk);
      var tally := if blk in votes then votes[blk] else Tally(0, seq(|vs|, i => 0));
      if blk !in votes { NoBallots(|vs|, tally.accepts); }
      var accepts := tally.accepts;
      for i := 0 to |vs|
        invariant |accepts| == |vs|
        invariant forall j :: 0 <= j < |vs| ==> accepts[j] == tally.accepts[j] + if j < i && vs[j] then 1 else 0
      {
        if vs[i] { accepts := accepts[i := accepts[i] + 1]; }
      }
      ghost var bs := Cast(ballots, blk) + [vs];
      TallySnoc(tally, Cast(ballots, blk), vs, accepts);
      TallyMeans(Tally(tally.received + 1, accepts), bs);
      TalliedRecount(votes, ballots, finishedQuery, blk, Tally(tally.received + 1, accepts), bs);
      OpenRecount(own, queryPool, finishedQuery, votes, timeQueue, blk, Tally(tally.received + 1, accepts));
      votes := votes[blk := Tally(tally.received + 1, accepts)];
      ballots := ballots[blk := bs];
      hide Open;
      if tally.received + 1 >= k { HandleVotes(blk); }
    }

    /** Record the transactions of a block; placeholders stand for invalid ones. */
    method RecordTxns(txns: seq<Option<AvaxTxn>>) returns (query: seq<Option<Hash>>)
      requires Valid() && QueriesOk() && Traced()
      modifies this`txnPool, this`dag, this`conflictSets, this`confidence, this`trace
      ensures Traced() && trace == old(trace) + [Recorded(txns)] && Snap() == RecordAll(old(Snap()), txns)
      ensures (forall i :: 0 <= i < |txns| && txns[i].Some? ==> Distinct(Keys(txns[i].value))) ==> Valid() && QueriesOk()
      ensures query == QueryOf(txns)
    {
      hide Safe, Keys, Parents, Distinct, RecordTxn, CommitList, Open, Logged, RunOf, Tallied;
      query := [];
      assert txns[..0] == [];
      for i := 0 to |txns|
        invariant Snap() == RecordAll(old(Snap()), txns[..i]) && trace == old(trace)
        invariant (forall j :: 0 <= j < i && txns[j].Some? ==> Distinct(Keys(txns[j].value))) ==> Valid() && QueriesOk()
        invariant |query| == i
        invariant forall j :: 0 <= j < i ==> query[j] == if txns[j].Some? then Some(txns[j].value.id) else None
      {
        assert txns[..i + 1][..i] == txns[..i];
        if txns[i].Some? {
          var t := txns[i].value;
          if Valid() && Distinct(Keys(t)) {
            RecordSafe(b, Snap(), t);
            RecordIs(b, Snap(), t);
          }
          RecordOne(t);
          query := query + [Some(t.id)];
        } else {
          query := query + [None];
        }
      }
      assert txns[..|txns|] == txns;
      RunSnoc(b, voteThresh, trace, Recorded(txns));
      trace := trace + [Recorded(txns)];
    }

    /** Record a transaction never seen before and enter it into its conflict sets. */
    method RecordOne(t: AvaxTxn)
      modifies this`txnPool, this`dag, this`conflictSets, this`confidence
      ensures Snap() == RecordTxn(old(Snap()), t)
      // it waits for its inputs, or for the parents of a no-op
      ensures t.id !in old(txnPool) ==>
                && txnPool == old(txnPool)[t.id := t] && t.id in dag && Conf(confidence, t.id) == 0
                && forall p :: p in dag[t.id] <==> (t.Payment? && p in t.inputs) || (t.Noop? && p in t.parents)
    {
      hide Parents, Distinct;
      ParentsAre(t);
      if t.id in txnPool { return; }
      txnPool := txnPool[t.id := t];
      dag := dag[t.id := Parents(t)];
      confidence := confidence[t.id := 0];
      ghost var ks := Keys(t);
      var cts := conflictSets;
      assert ks[..0] == [];
      if t.Payment? {
        for i := 0 to |t.inputs|
          invariant cts == Join(conflictSets, t.id, ks[..i])
        {
          assert ks[..i + 1][..i] == ks[..i];
          var key := Utxo(t.inputs[i], t.sender);
          if key !in cts {
            cts := cts[key := ConflictSet(false, t.id, 0)];
          } else {
            cts := cts[key := cts[key].(hasConflicts := true)];
          }
        }
      }
      assert ks[..|ks|] == ks;
      conflictSets := cts;
    }

    /** Handle a queried block. A block of this node opens a query with the node's own votes. */
    method NewTail(blk: nat, mine: bool, txns: seq<Option<AvaxTxn>>, vs: Ballot)
      requires Valid() && QueriesOk() && Traced() && |vs| == |txns|
      requires forall i :: 0 <= i < |txns| && txns[i].Some? ==> Distinct(Keys(txns[i].value))
      requires mine ==> blk !in own && (blk in votes ==> |votes[blk].accepts| == |txns|)
      modifies this
      ensures Valid() && QueriesOk() && Traced() && own == old(own) + if mine then {blk} else {}
      ensures old(finishedQuery) <= finishedQuery
      // unless the node's own ballot completes the query, nothing but the recording happens
      ensures ballots == if mine then old(ballots)[blk := Cast(old(ballots), blk) + [vs]] else old(ballots)
      ensures !mine || |ballots[blk]| < k ==>
                && Snap() == RecordAll(old(Snap()), txns) && trace == old(trace) + [Recorded(txns)]
                && queryPool == if mine then old(queryPool)[blk := QueryOf(txns)] else old(queryPool)
      ensures mine && |ballots[blk]| >= k ==>
                && queryPool == old(queryPool) - {blk} && blk in finishedQuery
                && Elects(b, RecordAll(old(Snap()), txns), QueryOf(txns), ballots[blk], voteThresh, Snap())
                && VotedOn(RecordAll(old(Snap()), txns), QueryOf(txns), Counts(ballots[blk], |vs|), Snap())
                && trace == old(trace) + [Recorded(txns), Voted(QueryOf(txns), Counts(ballots[blk], |vs|))]
    {
      hide Safe, Keys, Distinct, Open, Logged, CommitList, RecordAll, RunOf, TakeStep, VotedOn, VoteAll, Tallied, Counts, Elects, Cast;
      ghost var steps := trace;
      var query := RecordTxns(txns);
      if mine {
        OpenOwn(blk, query, vs);
        ghost var counts := Counts(ballots[blk], |vs|);
        assert steps + [Recorded(txns)] + [Voted(query, counts)] == steps + [Recorded(txns), Voted(query, counts)];
      }
    }

    /** Open a query for an own block and count the node's own ballot. */
    method OpenOwn(blk: nat, query: seq<Option<Hash>>, vs: Ballot)
      requires Valid() && QueriesOk() && Traced() && |vs| == |query|
      requires blk !in own && (blk in votes ==> |votes[blk].accepts| == |query|)
      modifies this
      ensures Valid() && QueriesOk() && Traced() && own == old(own) + {blk} && old(finishedQuery) <= finishedQuery
      ensures ballots == old(ballots)[blk := Cast(old(ballots), blk) + [vs]]
      ensures |ballots[blk]| < k ==>
                && Snap() == old(Snap()) && trace == old(trace) && queryPool == old(queryPool)[blk := query]
                && blk in votes && votes[blk] == Tally(|ballots[blk]|, Counts(ballots[blk], |vs|))
      ensures |ballots[blk]| >= k ==>
                && queryPool == old(queryPool) - {blk} && blk in finishedQuery
                && Elects(b, old(Snap()), query, ballots[blk], voteThresh, Snap())
                && VotedOn(old(Snap()), query, Counts(ballots[blk], |vs|), Snap())
                && trace == old(trace) + [Voted(query, Counts(ballots[blk], |vs|))]
    {
      hide Safe, Open, Logged, CommitList, RunOf, TakeStep, VotedOn, VoteAll, Tallied, TallyOk, Counts, Elects, Cast;
      StartQuery(blk, query);
      DropNew(old(queryPool), blk, query);
      Recast(old(ballots), ballots, blk, Cast(ballots, blk), Cast(ballots, blk) + [vs]);
      RecordVotes(blk, vs);
    }

    /** An own block waits for votes from now on; votes that came earlier count. */
    method StartQuery(blk: nat, query: seq<Option<Hash>>)
      requires QueriesOk() && blk !in own && (blk in votes ==> |votes[blk].accepts| == |query|)
      modifies this`own, this`queryPool, this`timeQueue, this`votes, this`ballots
      ensures QueriesOk() && own == old(own) + {blk} && blk !in finishedQuery && timeQueue == old(timeQueue) + [blk]
      ensures queryPool == old(queryPool)[blk := query] && blk in votes && |votes[blk].accepts| == |query|
      ensures Cast(ballots, blk) == Cast(old(ballots), blk)
      ensures ballots[blk := Cast(ballots, blk)] == old(ballots)[blk := Cast(ballots, blk)]
    {
      hide Open, Logged, Tallied, TallyOk, CommitList;
      OpenQuery(own, queryPool, finishedQuery, votes, timeQueue, blk, query);
      own := own + {blk};
      queryPool := queryPool[blk := query];
      timeQueue := timeQueue + [blk];
      if blk !in votes {
        TalliedOpen(votes, ballots, finishedQuery, blk, |query|);
        votes := votes[blk := Tally(0, seq(|query|, i => 0))];
        ballots := ballots[blk := []];
      }
    }

    /** A query has waited long enough: close it with the votes at hand. */
    method HandleTimeout()
      requires Valid() && QueriesOk() && Traced() && timeQueue != []
      modifies this`dag, this`conflictSets, this`confidence, this`accepted, this`queryPool, this`finishedQuery,
               this`votes, this`timeQueue, this`commitQueue, this`feedback, this`commitLog, this`trace
      ensures Valid() && QueriesOk() && Traced() && old(finishedQuery) <= finishedQuery
      ensures old(timeQueue)[0] !in queryPool && old(timeQueue)[0] in finishedQuery
      ensures old(timeQueue)[0] in old(queryPool) ==>
                var blk := old(timeQueue)[0];
                && |commitQueue| == |old(commitQueue)| + 1 && feedback == old(feedback) + 1 && blk !in timeQueue
                && blk in old(votes) && VotedOn(old(Snap()), old(queryPool)[blk], old(votes)[blk].accepts, Snap())
                && Elects(b, old(Snap()), old(queryPool)[blk], Cast(ballots, blk), voteThresh, Snap())
                && trace == old(trace) + [Voted(old(queryPool)[blk], old(votes)[blk].accepts)]
      ensures old(timeQueue)[0] !in old(queryPool) ==>
                && Snap() == old(Snap()) && trace == old(trace) && commitQueue == old(commitQueue) && queryPool == old(queryPool)
                && timeQueue == old(timeQueue)[1..]
    {
      hide Safe, CommitList, RunOf, Logged, VotedOn, Tallied, Elects, Counts, Cast;
      var blk := timeQueue[0];
      OpenApart(own, queryPool, finishedQuery, votes, timeQueue);
      assert blk in timeQueue;
      if blk in finishedQuery {
        PopKeepsOthers(timeQueue);
        timeQueue := timeQueue[1..];
        return;
      }
      hide Open;
      HandleVotes(blk);
    }
  }

  // ---------------------------------------------------------------- bookkeeping of the stage's proofs

  /** Record the transactions of a block in order. */
  ghost function RecordAll(s: Votes, txns: seq<Option<AvaxTxn>>): Votes {
    if txns == [] then s
    else
      var before, t := RecordAll(s, txns[..|txns| - 1]), txns[|txns| - 1];
      if t.Some? then RecordTxn(before, t.value) else before
  }

  lemma OpenApart(own: set<nat>, queries: map<nat, seq<Option<Hash>>>, finished: set<nat>, votes: map<nat, Tally>, timers: seq<nat>)
    requires Open(own, queries, finished, votes, timers)
    ensures queries.Keys !! finished
    ensures forall q :: q in timers ==> q in queries || q in finished
  {
  }

  lemma OpenRecount(own: set<nat>, queries: map<nat, seq<Option<Hash>>>, finished: set<nat>, votes: map<nat, Tally>,
                    timers: seq<nat>, blk: nat, tally: Tally)
    requires Open(own, queries, finished, votes, timers) && (blk in queries ==> |tally.accepts| == |queries[blk]|)
    ensures Open(own, queries, finished, votes[blk := tally], timers)
  {
  }

  lemma DropNew(queries: map<nat, seq<Option<Hash>>>, blk: nat, query: seq<Option<Hash>>)
    ensures queries[blk := query] - {blk} == queries - {blk}
  {
  }

  lemma Recast(m: map<nat, seq<Ballot>>, m': map<nat, seq<Ballot>>, blk: nat, x: seq<Ballot>, y: seq<Ballot>)
    requires m'[blk := x] == m[blk := x]
    ensures m'[blk := y] == m[blk := y]
  {
    assert m'[blk := y] == m'[blk := x][blk := y] && m[blk := y] == m[blk := x][blk := y];
  }

  lemma {:induction false} CommitListFrame(pool: AvaxPool, t: AvaxTxn, hs: seq<Hash>)
    requires t.id !in pool && forall h :: h in hs ==> h in pool
    ensures CommitList(pool[t.id := t], hs) == CommitList(pool, hs)
  {
    if hs != [] { CommitListFrame(pool, t, hs[..|hs| - 1]); }
  }

  lemma RecordIs(b: Betas, s: Votes, t: AvaxTxn)
    requires Safe(b, s)
    ensures CommitList(RecordTxn(s, t).pool, s.accepted) == CommitList(s.pool, s.accepted)
    ensures RecordTxn(s, t).accepted == s.accepted
  {
    hide SetsOk, Margin, Keys, Parents, Join, Distinct;
    if t.id !in s.pool {
      assert forall h :: h in s.accepted ==> h in Elems(s.accepted);
      CommitListFrame(s.pool, t, s.accepted);
    }
  }

  lemma OpenQuery(own: set<nat>, queries: map<nat, seq<Option<Hash>>>, finished: set<nat>,
                  votes: map<nat, Tally>, timers: seq<nat>, blk: nat, query: seq<Option<Hash>>)
    requires Open(own, queries, finished, votes, timers) && blk !in own
    requires blk in votes ==> |votes[blk].accepts| == |query|
    ensures blk !in finished && blk !in queries
    ensures var votes' := if blk in votes then votes else votes[blk := Tally(0, seq(|query|, i => 0))];
            Open(own + {blk}, queries[blk := query], finished, votes', timers + [blk])
  {
  }

  /** A conflict-free run stays one, whatever the votes. */
  lemma {:induction false} VoteAllSteady(b: Betas, s: Votes, txns: seq<Option<Hash>>, accepts: seq<nat>, thresh: nat, rank: Hash -> nat)
    requires Safe(b, s) && Steady(b, s, rank) && s.dag.Keys <= s.pool.Keys && |txns| == |accepts|
    ensures var s' := VoteAll(b, s, txns, accepts, thresh); Safe(b, s') && Steady(b, s', rank)
  {
    hide Safe, Steady, Visit;
    if txns != [] {
      var n := |txns| - 1;
      VoteAllSteady(b, s, txns[..n], accepts[..n], thresh, rank);
      if txns[n].Some? {
        var before := VoteAll(b, s, txns[..n], accepts[..n], thresh);
        VoteSteady(b, before, txns[n].value, rank);
        VisitSafe(b, before, txns[n].value, {});
      }
    }
  }

  function BlkIds(cs: seq<Commit>): (ids: seq<nat>)
    ensures |ids| == |cs| && forall i :: 0 <= i < |cs| ==> ids[i] == cs[i].blk
  {
    seq(|cs|, i requires 0 <= i < |cs| => cs[i].blk)
  }

  function Flat(cs: seq<Commit>): seq<Hash> {
    if cs == [] then [] else Flat(cs[..|cs| - 1]) + cs[|cs| - 1].txns
  }

  lemma CloseQuery(own: set<nat>, queries: map<nat, seq<Option<Hash>>>, finished: set<nat>,
                   votes: map<nat, Tally>, timers: seq<nat>, blk: nat)
    requires Open(own, queries, finished, votes, timers) && blk in queries
    ensures blk in votes && |votes[blk].accepts| == |queries[blk]| && blk !in finished
    ensures Open(own, queries - {blk}, finished + {blk}, votes - {blk}, RemoveAll(timers, blk))
  {
    RemoveKeepsOthers(timers, blk);
  }

  lemma FlatGrows(pool: AvaxPool, log: seq<Commit>, finished: set<nat>, feedback: nat,
                  before: seq<Hash>, after: seq<Hash>, blk: nat, commits: seq<Hash>)
    requires Logged(log, finished, feedback, CommitList(pool, before)) && blk !in finished
    requires before <= after && commits == CommitList(pool, after[|before|..])
    ensures Logged(log + [Commit(blk, commits)], finished + {blk}, feedback + 1, CommitList(pool, after))
  {
    var log' := log + [Commit(blk, commits)];
    assert log'[..|log|] == log && BlkIds(log') == BlkIds(log) + [blk];
    DistinctConcat(BlkIds(log), [blk]);
    assert after == before + after[|before|..];
    CommitListConcat(pool, before, after[|before|..]);
  }

  lemma {:induction false} CommitListDistinct(pool: AvaxPool, hs: seq<Hash>)
    requires Distinct(hs)
    ensures Distinct(CommitList(pool, hs)) && Elems(CommitList(pool, hs)) <= Elems(hs)
  {
    if hs != [] {
      Snoc(hs);
      CommitListDistinct(pool, hs[..|hs| - 1]);
      DistinctConcat(CommitList(pool, hs[..|hs| - 1]), [hs[|hs| - 1]]);
    }
  }

  /** Every own query is open or was fed back to the pacemaker, exactly once. */
  lemma OwnQueriesSplit(d: Decision)
    requires d.QueriesOk()
    ensures |d.queryPool| + d.feedback == |d.own| && d.feedback == |d.finishedQuery|
  {
    hide CommitList, Flat;
    DistinctCard(BlkIds(d.commitLog));
    assert |d.queryPool.Keys + d.finishedQuery| == |d.queryPool.Keys| + |d.finishedQuery|;
  }

  /** Over a whole run every transaction that left the DAG is committed, unless it is a no-op, and none twice. */
  lemma NeverCommittedTwice(d: Decision)
    requires d.Valid() && d.QueriesOk()
    ensures Distinct(Flat(d.commitLog))
    ensures forall h :: h in Flat(d.commitLog) <==> h in d.txnPool && h !in d.dag && !d.txnPool[h].Noop?
  {
    hide SetsOk, Margin, Keys, CommitList;
    CommitListDistinct(d.txnPool, d.accepted);
    forall h ensures h in Flat(d.commitLog) <==> h in d.txnPool && h !in d.dag && !d.txnPool[h].Noop? {
      CommitListIff(d.txnPool, d.accepted, h);
      assert h in d.accepted <==> h in Elems(d.accepted);
    }
  }

  function RemoveAll(q: seq<nat>, x: nat): seq<nat> {
    if q == [] then [] else RemoveAll(q[..|q| - 1], x) + if q[|q| - 1] == x then [] else [q[|q| - 1]]
  }

  lemma {:induction false} RemoveKeepsOthers(q: seq<nat>, x: nat)
    ensures forall y :: y in RemoveAll(q, x) <==> y in q && y != x
  {
    if q != [] {
      RemoveKeepsOthers(q[..|q| - 1], x);
      assert forall y :: y in q <==> y in q[..|q| - 1] || y == q[|q| - 1];
    }
  }

  lemma PopKeepsOthers(q: seq<nat>)
    requires q != []
    ensures forall y :: y in q && y != q[0] ==> y in q[1..]
  {
    assert q == [q[0]] + q[1..];
  }

  lemma KeysOf(t: AvaxTxn)
    ensures t.Payment? ==> |Keys(t)| == |t.inputs| && forall i :: 0 <= i < |t.inputs| ==> Keys(t)[i] == Utxo(t.inputs[i], t.sender)
    ensures !t.Payment? ==> Keys(t) == []
    ensures t.Payment? ==> forall i :: 0 <= i < |t.inputs| ==> Keys(t)[i] in Keys(t)
  {
  }

  lemma EmptyBump(cts: map<Utxo, ConflictSet>, t: Hash, conf: map<Hash, nat>, c: nat)
    ensures Bump(cts, t, conf, []) == cts && Against(cts, c, []) == 0 && !Contested(cts, [])
  {
  }

  /** A conflict set of a pooled transaction exists and prefers a pooled one. */
  lemma MemberSet(s: Votes, t: Hash, k: Utxo)
    requires SetsOk(s) && t in s.pool && k in Keys(s.pool[t])
    ensures k in s.cts && s.cts[k].pref in s.pool && Conf(s.conf, t) <= s.cts[k].totalRounds
  {
    hide SumConf, Keys;
    assert SetOk(s.pool, s.conf, k, s.cts[k]) && t in Members(s.pool, k);
    SumSplit(Members(s.pool, k), s.conf, t);
  }

  lemma BumpIs(s: Votes, t: Hash, k: Utxo, ct: ConflictSet, conf: map<Hash, nat>, score: nat)
    requires k in s.cts && t in conf && conf[t] == score && s.cts[k].pref in conf
    requires ct == ConflictSet(s.cts[k].hasConflicts,
                               if s.cts[k].pref != t && conf[s.cts[k].pref] < score then t else s.cts[k].pref,
                               s.cts[k].totalRounds + 1)
    ensures ct == BumpSet(s.cts[k], t, conf)
  {
  }

  lemma ChitReady(b: Betas, s: Votes, t: Hash)
    requires Safe(b, s) && t in s.dag
    ensures t in s.pool && t in s.conf && Conf(s.conf, t) == s.conf[t] && s.conf.Keys == s.pool.Keys
    ensures Distinct(Keys(s.pool[t])) && SetsOk(s)
  {
    hide SetsOk, Margin, Keys, Distinct, Elems;
  }

  lemma ChitIs(b: Betas, s: Votes, t: Hash, conf: map<Hash, nat>, cts: map<Utxo, ConflictSet>, free: bool, count: nat)
    requires t in s.pool && t in s.conf && conf == s.conf[t := s.conf[t] + 1]
    requires cts == Bump(s.cts, t, conf, Keys(s.pool[t])) && count == Against(cts, conf[t], Keys(s.pool[t]))
    requires free <==> ParentsAccepted(s.dag, Parents(s.pool[t])) && !Contested(cts, Keys(s.pool[t]))
    ensures Chit(b, s, t) ==
            if conf[t] >= (if free then b.beta1 else b.beta2) + count
            then s.(conf := conf, cts := cts, dag := s.dag - {t}, accepted := s.accepted + [t])
            else s.(conf := conf, cts := cts)
  {
    hide Bump, Against, Contested, Keys, Parents, ParentsAccepted;
  }

  lemma NoCommits(pool: AvaxPool, log: seq<Hash>)
    ensures log[|log|..] == [] && CommitList(pool, []) == []
  {
  }

  lemma OneCommit(pool: AvaxPool, log: seq<Hash>, t: Hash)
    ensures (log + [t])[|log|..] == [t]
    ensures CommitList(pool, [t]) == if t in pool && !pool[t].Noop? then [t] else []
  {
    assert [t][..0] == [];
  }

  lemma LogSplit(pool: AvaxPool, a: seq<Hash>, b: seq<Hash>, c: seq<Hash>)
    requires |a| <= |b| && b <= c
    ensures CommitList(pool, c[|a|..]) == CommitList(pool, b[|a|..]) + CommitList(pool, c[|b|..])
  {
    assert c[|a|..] == b[|a|..] + c[|b|..];
    CommitListConcat(pool, b[|a|..], c[|b|..]);
  }

  lemma PendingParents(b: Betas, s: Votes, t: Hash)
    requires Safe(b, s) && t in s.dag
    ensures t in s.pool && s.dag[t] == Parents(s.pool[t])
  {
    hide SetsOk, Margin, Keys, Distinct;
  }

  lemma VisitNone(b: Betas, s: Votes, seen: set<Hash>)
    requires s.dag.Keys <= s.pool.Keys
    ensures VisitAll(b, s, [], seen) == Visited(s, seen)
  {
  }

  lemma VisitNext(b: Betas, s: Votes, ps: seq<Hash>, i: nat, seen: set<Hash>)
    requires s.dag.Keys <= s.pool.Keys && i < |ps|
    ensures var r := VisitAll(b, s, ps[..i], seen);
            && r.s.dag.Keys - r.seen <= s.dag.Keys - seen
            && VisitAll(b, s, ps[..i + 1], seen) == Visit(b, r.s, ps[i], r.seen)
  {
    hide Visit;
    assert ps[..i + 1][..i] == ps[..i];
    var r := VisitAll(b, s, ps[..i], seen);
    assert r.s.dag.Keys - r.seen <= s.dag.Keys - seen;
  }

  lemma VisitPending(b: Betas, s: Votes, t: Hash, seen: set<Hash>)
    requires s.dag.Keys <= s.pool.Keys && t in s.dag && t !in seen
    ensures var r := VisitAll(b, s, s.dag[t], seen + {t});
            && t in r.s.dag && r.s.dag[t] == s.dag[t] && r.s.pool == s.pool
            && Visit(b, s, t, seen) == Visited(Chit(b, r.s, t), r.seen)
  {
    hide Chit, VisitAll;
  }
}
