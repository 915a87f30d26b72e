/**
 Acceptance in whole runs of the basic Avalanche rule, read off the history alone: at which chit a
 transaction leaves the DAG, and that without rivals and pending parents it is the chit that
 completes beta1 in a row.
 */
module AvalancheRun {
  import opened Collections
  import opened Ledger
  import opened Blizzard
  import opened AvalancheStreaks

  /** The n-th event was a chit for `t`. */
  ghost predicate ChitAt(s: Rounds, t: Hash, n: nat) {
    1 <= n <= |s.log| && s.log[n - 1] == Won(t)
  }

  ghost predicate AcceptedAt(s: Rounds, t: Hash, n: nat) {
    exists v :: v in s.verdicts && v.txn == t && v.at == n
  }

  /** Seen before the n-th event and not accepted before it. */
  ghost predicate PendingAt(s: Rounds, p: Hash, n: nat)
    requires 1 <= n <= |s.log| + 1
  {
    Seen(p) in s.log[..n - 1] && forall m: nat :: m < n ==> !AcceptedAt(s, p, m)
  }

  /** At the n-th event no rival of `t` had been seen and no parent of it was pending. */
  ghost predicate Calm(s: Rounds, t: Hash, n: nat)
    requires t in s.pool && 1 <= n <= |s.log|
  {
    !RivalSeen(s.pool, s.log[..n], t) && forall p :: p in Parents(s.pool[t]) ==> !PendingAt(s, p, n)
  }

  /** The n-th event is the chit that `t` needed. */
  ghost predicate Suffices(b: Betas, s: Rounds, t: Hash, n: nat)
    requires t in s.pool && 1 <= n <= |s.log|
  {
    Earned(s.pool, s.log[..n], t, if Calm(s, t, n) then b.beta1 else b.beta2)
  }

  /** Each chit was answered as it should have been, and an accepted transaction gets no more. */
  ghost predicate Timely(b: Betas, s: Rounds) {
    && (forall t, n: nat :: t in s.pool && ChitAt(s, t, n) ==> (AcceptedAt(s, t, n) <==> Suffices(b, s, t, n)))
    && (forall t, n: nat :: AcceptedAt(s, t, n) ==> ChitAt(s, t, n))
    && (forall t, m: nat, n: nat :: AcceptedAt(s, t, m) && ChitAt(s, t, n) ==> n <= m)
  }

  // ---------------------------------------------------------------- every step keeps it

  /** A transaction is in the DAG exactly if the history says that it is pending. */
  lemma DagIsPending(b: Betas, s: Rounds, p: Hash)
    requires Inv(b, s)
    ensures p in s.dag <==> PendingAt(s, p, |s.log| + 1)
  {
    hide SetsOk, Keys, Parents, Wins, Distinct, Earned, RivalSeen;
    assert s.log[..|s.log|] == s.log;
    if PendingAt(s, p, |s.log| + 1) {
      assert Seen(p).txn in s.pool;
    }
    if Judged(s.verdicts, p) {
      var v :| v in s.verdicts && v.txn == p;
      assert AcceptedAt(s, p, v.at);
    }
  }

  /** Appending to the log, accepting only now, leaves the answers to earlier chits alone. */
  lemma EarlierSame(b: Betas, s: Rounds, s': Rounds, t: Hash, n: nat)
    requires s'.pool == s.pool && s.log <= s'.log && t in s.pool && 1 <= n <= |s.log|
    requires forall h, m: nat :: m <= |s.log| ==> (AcceptedAt(s', h, m) <==> AcceptedAt(s, h, m))
    ensures Suffices(b, s', t, n) <==> Suffices(b, s, t, n)
    ensures ChitAt(s', t, n) <==> ChitAt(s, t, n)
  {
    hide Earned, RivalSeen, Parents, AcceptedAt;
    assert s'.log[..n] == s.log[..n] && s'.log[..n - 1] == s.log[..n - 1];
    forall p ensures PendingAt(s', p, n) <==> PendingAt(s, p, n) {
      assert forall m: nat :: m < n ==> (AcceptedAt(s', p, m) <==> AcceptedAt(s, p, m));
    }
  }

  lemma CalmNow(b: Betas, s: Rounds, s': Rounds, t: Hash)
    requires Inv(b, s) && t in s.dag && s'.pool == s.pool && s'.log == s.log + [Won(t)]
    requires forall h, m: nat :: m <= |s.log| ==> (AcceptedAt(s', h, m) <==> AcceptedAt(s, h, m))
    ensures t in s.pool
    ensures Calm(s', t, |s'.log|) <==> !RivalSeen(s.pool, s'.log, t) && ParentsAccepted(s.dag, Parents(s.pool[t]))
  {
    hide SetsOk, VerdictsOk, Keys, Parents, Wins, Distinct, Earned, RivalSeen, AcceptedAt;
    var n := |s'.log|;
    assert s'.log[..n] == s'.log && s'.log[..n - 1] == s.log[..n - 1] == s.log;
    forall p ensures PendingAt(s', p, n) <==> p in s.dag {
      DagIsPending(b, s, p);
      assert forall m: nat :: m < n ==> (AcceptedAt(s', p, m) <==> AcceptedAt(s, p, m));
    }
  }

  /** What an appended verdict adds. */
  lemma AcceptedSnoc(s: Rounds, s': Rounds, v: Verdict, h: Hash, m: nat)
    requires s'.verdicts == s.verdicts + [v]
    ensures AcceptedAt(s', h, m) <==> AcceptedAt(s, h, m) || (v.txn == h && v.at == m)
  {
    assert forall w :: w in s'.verdicts <==> w in s.verdicts || w == v;
  }

  /** Nothing has been accepted in the future, and nothing that is pending has been accepted. */
  lemma AcceptedPast(b: Betas, s: Rounds, h: Hash, m: nat)
    requires Inv(b, s) && AcceptedAt(s, h, m)
    ensures m <= |s.log| && h !in s.dag && h in s.pool
  {
    hide SetsOk, DagOk, Earned, RivalSeen;
  }

  /** The new state answers the last event and agrees with the old state before it. */
  ghost predicate Answers(b: Betas, s: Rounds, s': Rounds, e: Event) {
    && s'.pool == s.pool && s'.log == s.log + [e]
    && (forall h, m: nat :: m <= |s.log| ==> (AcceptedAt(s', h, m) <==> AcceptedAt(s, h, m)))
    && (forall h, m: nat :: m > |s.log| && AcceptedAt(s', h, m) ==> m == |s'.log| && e == Won(h))
    && (e.Won? && e.txn in s.pool ==> (AcceptedAt(s', e.txn, |s'.log|) <==> Suffices(b, s', e.txn, |s'.log|)))
    && (e.Won? ==> forall m: nat :: !AcceptedAt(s, e.txn, m))
  }

  lemma ChitSnoc(s: Rounds, s': Rounds, e: Event, t: Hash, n: nat)
    requires s'.log == s.log + [e]
    ensures ChitAt(s', t, n) <==> ChitAt(s, t, n) || (n == |s'.log| && e == Won(t))
    ensures ChitAt(s, t, n) ==> n <= |s.log|
  {
  }

  lemma AnswersTimely(b: Betas, s: Rounds, s': Rounds, e: Event)
    requires Timely(b, s) && Answers(b, s, s', e)
    ensures Timely(b, s')
  {
    hide Suffices, AcceptedAt, ChitAt;
    forall t, n: nat ensures ChitAt(s', t, n) <==> ChitAt(s, t, n) || (n == |s'.log| && e == Won(t))
      ensures ChitAt(s, t, n) ==> 1 <= n <= |s.log|
    {
      ChitSnoc(s, s', e, t, n);
      ChitPast(s, t, n);
    }
    forall t, n: nat | t in s.pool && ChitAt(s', t, n) ensures 1 <= n <= |s'.log| && (AcceptedAt(s', t, n) <==> Suffices(b, s', t, n)) {
      if ChitAt(s, t, n) { EarlierSame(b, s, s', t, n); }
    }
    forall t, m: nat, n: nat | AcceptedAt(s', t, m) && ChitAt(s', t, n) ensures n <= m {
      if m <= |s.log| { assert AcceptedAt(s, t, m); }
    }
  }

  lemma ChitPast(s: Rounds, t: Hash, n: nat)
    ensures ChitAt(s, t, n) ==> 1 <= n <= |s.log|
  {
  }

  lemma WinAnswers(b: Betas, s: Rounds, t: Hash)
    requires Inv(b, s) && t in s.dag
    ensures t in s.pool && Answers(b, s, Win(b, s, t), Won(t))
  {
    hide Inv, AcceptedAt, Earned, RivalSeen, Calm, ParentsAccepted, Parents, Keys, MarkAll, Win;
    InvParts(b, s);
    AcceptedExactly(b, s, t);
    var s' := Win(b, s, t);
    forall h, m: nat | AcceptedAt(s, h, m) ensures m <= |s.log| && h != t { AcceptedPast(b, s, h, m); }
    if s'.verdicts == s.verdicts {
      forall h, m: nat ensures AcceptedAt(s', h, m) <==> AcceptedAt(s, h, m) { SameVerdictsAt(s, s', h, m); }
    } else {
      var v := s'.verdicts[|s.verdicts|];
      forall h, m: nat ensures AcceptedAt(s', h, m) <==> AcceptedAt(s, h, m) || (v.txn == h && v.at == m) { AcceptedSnoc(s, s', v, h, m); }
    }
    CalmNow(b, s, s', t);
    assert s'.log[..|s'.log|] == s'.log;
  }

  lemma SameVerdictsAt(s: Rounds, s': Rounds, h: Hash, m: nat)
    requires s'.verdicts == s.verdicts
    ensures AcceptedAt(s', h, m) <==> AcceptedAt(s, h, m)
  {
  }

  lemma InvParts(b: Betas, s: Rounds)
    requires Inv(b, s)
    ensures DagOk(s) && SetsOk(s) && s.dag.Keys <= s.pool.Keys
  {
    hide SetsOk, VerdictsOk, Wins, Keys, Parents, Distinct;
  }

  /** The threshold that decides about a chit, with the DAG and the history before it in view. */
  lemma LeavesIff(b: Betas, s: Rounds, t: Hash)
    requires Inv(b, s) && t in s.dag
    ensures t in s.pool
    ensures var s' := Win(b, s, t);
            && (!RivalSeen(s.pool, s'.log, t) && (forall p :: p in Parents(s.pool[t]) ==> p !in s.dag) ==>
                  (t !in s'.dag <==> Earned(s.pool, s'.log, t, b.beta1)))
            && (RivalSeen(s.pool, s'.log, t) || (exists p :: p in Parents(s.pool[t]) && p in s.dag) ==>
                  (t !in s'.dag <==> Earned(s.pool, s'.log, t, b.beta2)))
  {
    hide Inv, SetsOk, DagOk, Earned, RivalSeen, Parents, Keys, MarkAll, Win;
    InvParts(b, s);
    AcceptedExactly(b, s, t);
  }

  lemma WinTimely(b: Betas, s: Rounds, t: Hash)
    requires Inv(b, s) && Timely(b, s) && t in s.dag
    ensures t in s.pool && Timely(b, Win(b, s, t))
  {
    hide Inv, Timely, Win, Answers;
    WinAnswers(b, s, t);
    AnswersTimely(b, s, Win(b, s, t), Won(t));
  }

  lemma LoseTimely(b: Betas, s: Rounds, t: Hash)
    requires Inv(b, s) && Timely(b, s) && t in s.pool
    ensures Timely(b, Lose(s, t))
  {
    hide Inv, Timely, AcceptedAt, Suffices, ClearAll, Keys;
    var s' := Lose(s, t);
    forall h, m: nat
      ensures AcceptedAt(s', h, m) <==> AcceptedAt(s, h, m)
      ensures AcceptedAt(s, h, m) ==> m <= |s.log|
    {
      SameVerdictsAt(s, s', h, m);
      if AcceptedAt(s, h, m) { AcceptedPast(b, s, h, m); }
    }
    AnswersTimely(b, s, s', Lost(t));
  }

  /** A newcomer changes nothing about earlier chits. */
  lemma EnterSuffices(b: Betas, s: Rounds, s': Rounds, t: AvaxTxn, h: Hash, n: nat)
    requires DagOk(s) && t.id !in s.pool && h in s.pool && 1 <= n <= |s.log|
    requires s'.pool == s.pool[t.id := t] && s'.log == s.log + [Seen(t.id)] && s'.verdicts == s.verdicts
    ensures Suffices(b, s', h, n) <==> Suffices(b, s, h, n)
  {
    hide Keys, Parents, Wins, Distinct, Earned, RivalSeen, AcceptedAt;
    var log := s.log[..n];
    assert s'.log[..n] == log && s'.log[..n - 1] == s.log[..n - 1];
    assert forall e :: e in log ==> e in s.log;
    EnterEarned(s, t, log, h, b.beta1);
    EnterEarned(s, t, log, h, b.beta2);
    EnterRival(s, t, log, h);
    forall p ensures PendingAt(s', p, n) <==> PendingAt(s, p, n) {
      forall m: nat ensures AcceptedAt(s', p, m) <==> AcceptedAt(s, p, m) { SameVerdictsAt(s, s', p, m); }
    }
  }

  lemma EnterTimely(b: Betas, s: Rounds, t: AvaxTxn)
    requires Inv(b, s) && Timely(b, s)
    ensures Timely(b, Enter(s, t))
  {
    hide Inv, AcceptedAt, Suffices, Keys, Parents, JoinAll, ChitAt, DagOk, SetsOk;
    if t.id in s.pool { return; }
    InvParts(b, s);
    var s' := Enter(s, t);
    forall h, m: nat
      ensures AcceptedAt(s', h, m) <==> AcceptedAt(s, h, m)
      ensures ChitAt(s', h, m) <==> ChitAt(s, h, m)
      ensures ChitAt(s, h, m) ==> 1 <= m <= |s.log|
      ensures ChitAt(s, h, m) ==> h in s.pool
    {
      SameVerdictsAt(s, s', h, m);
      ChitSnoc(s, s', Seen(t.id), h, m);
      ChitPast(s, h, m);
      if ChitAt(s, h, m) { ChitPooled(s, h, m); }
    }
    forall h, n: nat | h in s'.pool && ChitAt(s', h, n) ensures 1 <= n <= |s'.log| && (AcceptedAt(s', h, n) <==> Suffices(b, s', h, n)) {
      EnterSuffices(b, s, s', t, h, n);
    }
  }

  lemma ChitPooled(s: Rounds, h: Hash, n: nat)
    requires DagOk(s) && ChitAt(s, h, n)
    ensures h in s.pool
  {
    hide Keys, Parents, Wins, Distinct;
    assert s.log[n - 1].txn in s.pool;
  }

  // ---------------------------------------------------------------- when a transaction is accepted

  /**
   In every reachable state a transaction is pending exactly if none of its chits completed, on
   every input, a streak of beta1 without rivals and pending parents, or of beta2 otherwise.
   */
  lemma PendingUntilEarned(b: Betas, s: Rounds, t: Hash)
    requires Inv(b, s) && Timely(b, s) && t in s.pool
    ensures t in s.dag <==>
            forall n: nat :: ChitAt(s, t, n) ==> !Earned(s.pool, s.log[..n], t, if Calm(s, t, n) then b.beta1 else b.beta2)
  {
    hide Inv, ChitAt, Earned, Calm;
    forall n: nat ensures ChitAt(s, t, n) ==> 1 <= n <= |s.log| { ChitPast(s, t, n); }
    if t in s.dag {
      forall n: nat | ChitAt(s, t, n) ensures !Suffices(b, s, t, n) {
        if AcceptedAt(s, t, n) { AcceptedPast(b, s, t, n); }
      }
    } else {
      var n := AcceptedSometime(b, s, t);
      assert ChitAt(s, t, n) && Suffices(b, s, t, n);
    }
  }

  lemma AcceptedSometime(b: Betas, s: Rounds, t: Hash) returns (n: nat)
    requires Inv(b, s) && t in s.pool && t !in s.dag
    ensures AcceptedAt(s, t, n)
  {
    hide DagOk, SetsOk, VerdictOk;
    assert Judged(s.verdicts, t);
    var v :| v in s.verdicts && v.txn == t;
    n := v.at;
  }

  /** The chits and failed votes of `t` itself. */
  function Own(log: seq<Event>, t: Hash): seq<Event> {
    if log == [] then []
    else
      var e := log[|log| - 1];
      Own(log[..|log| - 1], t) + if e == Won(t) || e == Lost(t) then [e] else []
  }

  /** Somewhere in its history `t` won `n` chits in a row. */
  ghost predicate InARow(log: seq<Event>, t: Hash, n: nat) {
    exists i: nat {:trigger RowFrom(Own(log, t), t, i, n)} :: RowFrom(Own(log, t), t, i, n)
  }

  ghost predicate RowFrom(h: seq<Event>, t: Hash, i: nat, n: nat) {
    i + n <= |h| && forall j :: i <= j < i + n ==> h[j] == Won(t)
  }

  lemma {:induction false} OwnIsHistory(pool: AvaxPool, log: seq<Event>, t: Hash, k: Utxo)
    requires forall e :: e in log ==> e.txn in pool && (k in Keys(pool[e.txn]) <==> e.txn == t)
    ensures History(pool, log, k) == Own(log, t)
  {
    hide Keys;
    if log != [] {
      assert log[|log| - 1] in log;
      assert forall e :: e in log[..|log| - 1] ==> e in log;
      OwnIsHistory(pool, log[..|log| - 1], t, k);
    }
  }

  lemma {:induction false} StreakWithinWins(log: seq<Event>, t: Hash)
    ensures Streak(Own(log, t), t) <= Wins(log, t)
  {
    if log != [] {
      var n := |log| - 1;
      StreakWithinWins(log[..n], t);
      assert Own(log[..n], t) + [] == Own(log[..n], t);
      if log[n] == Won(t) || log[n] == Lost(t) { StreakSnoc(Own(log[..n], t), log[n], t); }
    }
  }

  lemma {:induction false} OwnPrefix(log: seq<Event>, t: Hash, n: nat)
    requires n <= |log|
    ensures Own(log[..n], t) <= Own(log, t)
  {
    if n == |log| {
      assert log[..n] == log;
    } else {
      assert log[..|log| - 1][..n] == log[..n];
      OwnPrefix(log[..|log| - 1], t, n);
    }
  }

  /** The j-th own event happened at some point of the log. */
  lemma {:induction false} OwnAt(log: seq<Event>, t: Hash, j: nat) returns (n: nat)
    requires j < |Own(log, t)|
    ensures 1 <= n <= |log| && log[n - 1] == Own(log, t)[j] && Own(log[..n], t) == Own(log, t)[..j + 1]
  {
    var m := |log| - 1;
    if j < |Own(log[..m], t)| {
      n := OwnAt(log[..m], t, j);
      assert log[..m][..n] == log[..n];
    } else {
      n := |log|;
      assert log[..n] == log;
    }
  }

  lemma SharedKey(pool: AvaxPool, t: Hash, r: Hash, k: Utxo)
    requires t in pool && r in pool && k in Keys(pool[t]) && k in Keys(pool[r])
    ensures t == r || Rivals(pool, t, r)
  {
  }

  /** Without rivals only the own events of `t` count. */
  lemma EarnedAlone(s: Rounds, t: Hash, n: nat, c: nat)
    requires DagOk(s) && t in s.pool && n <= |s.log| && !RivalSeen(s.pool, s.log, t)
    ensures Keys(s.pool[t]) != [] ==> (Earned(s.pool, s.log[..n], t, c) <==> Streak(Own(s.log[..n], t), t) >= c)
    ensures Keys(s.pool[t]) == [] ==> (Earned(s.pool, s.log[..n], t, c) <==> Wins(s.log[..n], t) >= c)
  {
    hide Keys, Parents, Wins, Distinct, Streak, History, Own;
    var log, ks := s.log[..n], Keys(s.pool[t]);
    forall k | k in ks ensures History(s.pool, log, k) == Own(log, t) {
      forall e | e in log ensures e.txn in s.pool && (k in Keys(s.pool[e.txn]) <==> e.txn == t) {
        assert e in s.log && Seen(e.txn) in s.log;
        if k in Keys(s.pool[e.txn]) { SharedKey(s.pool, t, e.txn, k); }
      }
      OwnIsHistory(s.pool, log, t, k);
    }
    StreakWithinWins(log, t);
    assert ks != [] ==> ks[0] in ks;
  }

  lemma RowIsStreak(s: Rounds, t: Hash, c: nat)
    requires c > 0
    ensures InARow(s.log, t, c) <==> exists n: nat :: ChitAt(s, t, n) && Streak(Own(s.log[..n], t), t) >= c
  {
    hide Streak, Own;
    var h := Own(s.log, t);
    if InARow(s.log, t, c) {
      var i: nat :| RowFrom(h, t, i, c);
      assert h[i + c - 1] == Won(t);
      var n := OwnAt(s.log, t, i + c - 1);
      StreakIsLongest(h[..i + c], t);
      assert ChitAt(s, t, n);
    }
    if n: nat :| ChitAt(s, t, n) && Streak(Own(s.log[..n], t), t) >= c {
      OwnPrefix(s.log, t, n);
      var own := Own(s.log[..n], t);
      StreakIsLongest(own, t);
      assert RowFrom(h, t, |own| - c, c);
    }
  }

  /** Never a rival was seen, and no parent was pending at a chit. */
  ghost predicate Uncontested(s: Rounds, t: Hash)
    requires t in s.pool
  {
    && !RivalSeen(s.pool, s.log, t)
    && forall n: nat, p :: ChitAt(s, t, n) && p in Parents(s.pool[t]) ==> !PendingAt(s, p, n)
  }

  lemma UncontestedCalm(s: Rounds, t: Hash, n: nat)
    requires t in s.pool && Uncontested(s, t) && ChitAt(s, t, n)
    ensures Calm(s, t, n)
  {
    hide Keys, Parents, PendingAt, Rivals;
    assert forall r {:trigger Seen(r)} :: Seen(r) in s.log[..n] ==> Seen(r) in s.log;
  }

  /**
   Early commitment: an uncontested payment is pending exactly until it won beta1 chits in a row,
   and an uncontested transaction without inputs exactly until it won beta1 chits. One chit is
   needed in any case.
   */
  lemma UncontestedRun(b: Betas, s: Rounds, t: Hash)
    requires Inv(b, s) && Timely(b, s) && t in s.pool && Uncontested(s, t)
    ensures var n := if b.beta1 > 0 then b.beta1 else 1;
            && (Keys(s.pool[t]) != [] ==> (t in s.dag <==> !InARow(s.log, t, n)))
            && (Keys(s.pool[t]) == [] ==> (t in s.dag <==> Wins(s.log, t) < n))
  {
    hide Inv, Timely, ChitAt, Earned, Calm, Uncontested, Keys, Wins, Streak, Own, InARow;
    var c := if b.beta1 > 0 then b.beta1 else 1;
    InvParts(b, s);
    NeverContested(s, t);
    PendingUntilEarned(b, s, t);
    forall n: nat | ChitAt(s, t, n) ensures 1 <= n <= |s.log| && Calm(s, t, n) {
      ChitPast(s, t, n);
      UncontestedCalm(s, t, n);
    }
    assert t in s.dag <==> forall n: nat :: ChitAt(s, t, n) ==> !Earned(s.pool, s.log[..n], t, b.beta1);
    forall n: nat | ChitAt(s, t, n)
      ensures Keys(s.pool[t]) != [] ==> (Earned(s.pool, s.log[..n], t, b.beta1) <==> Streak(Own(s.log[..n], t), t) >= c)
      ensures Keys(s.pool[t]) == [] ==> (Earned(s.pool, s.log[..n], t, b.beta1) <==> Wins(s.log[..n], t) >= c)
    {
      EarnedAlone(s, t, n, b.beta1);
      ChitCounts(s, t, n);
    }
    RowIsStreak(s, t, c);
    WinsReached(s, t, c);
  }

  lemma ChitCounts(s: Rounds, t: Hash, n: nat)
    requires ChitAt(s, t, n)
    ensures Streak(Own(s.log[..n], t), t) >= 1 && Wins(s.log[..n], t) >= 1
  {
    var log := s.log[..n];
    assert log[n - 1] == Won(t);
    StreakSnoc(Own(log[..n - 1], t), Won(t), t);
  }

  lemma NeverContested(s: Rounds, t: Hash)
    requires t in s.pool && Uncontested(s, t)
    ensures !RivalSeen(s.pool, s.log, t)
  {
    hide RivalSeen, Parents, PendingAt;
  }

  lemma WinsReached(s: Rounds, t: Hash, c: nat)
    requires c > 0
    ensures Wins(s.log, t) >= c <==> exists n: nat :: ChitAt(s, t, n) && Wins(s.log[..n], t) >= c
  {
    if Wins(s.log, t) >= c {
      var n := LastChit(s.log, t);
      assert ChitAt(s, t, n);
    }
    if n: nat :| ChitAt(s, t, n) && Wins(s.log[..n], t) >= c { WinsGrow(s.log, t, n); }
  }

  lemma {:induction false} LastChit(log: seq<Event>, t: Hash) returns (n: nat)
    requires Wins(log, t) > 0
    ensures 1 <= n <= |log| && log[n - 1] == Won(t) && Wins(log[..n], t) == Wins(log, t)
  {
    n := |log|;
    assert log[..n] == log;
    if log[n - 1] != Won(t) {
      n := LastChit(log[..|log| - 1], t);
      assert log[..|log| - 1][..n] == log[..n];
    }
  }

  lemma {:induction false} WinsGrow(log: seq<Event>, t: Hash, n: nat)
    requires n <= |log|
    ensures Wins(log[..n], t) <= Wins(log, t)
  {
    if n == |log| {
      assert log[..n] == log;
    } else {
      assert log[..|log| - 1][..n] == log[..n];
      WinsGrow(log[..|log| - 1], t, n);
    }
  }
}
