/**
 The basic Avalanche decision rule, where conflict sets keep a streak: the member that received
 the last chit and a counter that any other chit or a failed vote restarts.

 `log` is the full history of the node: transactions seen, chits won and votes lost. The streak
 counters are proved to be a function of it, and so are the acceptances.
 */
module AvalancheStreaks {
  import opened Collections
  import opened Ledger
  import opened Blizzard

  datatype Event = Seen(txn: Hash) | Won(txn: Hash) | Lost(txn: Hash)

  datatype StreakSet = StreakSet(hasConflicts: bool, pref: Hash, last: Option<Hash>, count: nat)

  /** A transaction accepted when the log had length `at`; `free` of rivals and pending parents or not. */
  datatype Verdict = Verdict(txn: Hash, free: bool, at: nat)

  datatype Rounds = Rounds(pool: AvaxPool, dag: map<Hash, seq<Hash>>, cts: map<Utxo, StreakSet>,
                           conf: map<Hash, nat>, log: seq<Event>, verdicts: seq<Verdict>)

  // ---------------------------------------------------------------- steps

  /** A conflict set after a chit for its member `t`, whose confidence is already raised. */
  function Mark(ct: StreakSet, t: Hash, conf: map<Hash, nat>): StreakSet {
    StreakSet(ct.hasConflicts,
              if ct.pref != t && Conf(conf, ct.pref) < Conf(conf, t) then t else ct.pref,
              Some(t),
              if ct.last == Some(t) then ct.count + 1 else 1)
  }

  function MarkAll(cts: map<Utxo, StreakSet>, t: Hash, conf: map<Hash, nat>, ks: seq<Utxo>): map<Utxo, StreakSet> {
    map k | k in cts :: if k in ks then Mark(cts[k], t, conf) else cts[k]
  }

  function ClearAll(cts: map<Utxo, StreakSet>, ks: seq<Utxo>): map<Utxo, StreakSet> {
    map k | k in cts :: if k in ks then cts[k].(count := 0) else cts[k]
  }

  /** A transaction enters its conflict sets, one input after the other. */
  function JoinAll(cts: map<Utxo, StreakSet>, t: Hash, ks: seq<Utxo>): map<Utxo, StreakSet> {
    if ks == [] then cts
    else
      var before, k := JoinAll(cts, t, ks[..|ks| - 1]), ks[|ks| - 1];
      before[k := if k in before then before[k].(hasConflicts := true) else StreakSet(false, t, None, 0)]
  }

  /** The same for distinct inputs, all at once. */
  function Joined(cts: map<Utxo, StreakSet>, t: Hash, ks: seq<Utxo>): map<Utxo, StreakSet> {
    map k | k in cts.Keys + Elems(ks) ::
      if k !in cts then StreakSet(false, t, None, 0)
      else if k in ks then cts[k].(hasConflicts := true)
      else cts[k]
  }

  /** What entering does to one conflict set. */
  ghost function JoinOne(cts: map<Utxo, StreakSet>, t: Hash, ks: seq<Utxo>, k: Utxo): Option<StreakSet> {
    if k !in ks then (if k in cts then Some(cts[k]) else None)
    else Some(if k in cts then cts[k].(hasConflicts := true) else StreakSet(false, t, None, 0))
  }

  ghost predicate Holds(cts: map<Utxo, StreakSet>, k: Utxo, ct: Option<StreakSet>) {
    if k in cts then ct == Some(cts[k]) else ct == None
  }

  lemma {:induction false} JoinAllAt(cts: map<Utxo, StreakSet>, t: Hash, ks: seq<Utxo>, k: Utxo)
    requires Distinct(ks)
    ensures Holds(JoinAll(cts, t, ks), k, JoinOne(cts, t, ks, k))
  {
    hide Distinct;
    if ks != [] {
      var n := |ks| - 1;
      Snoc(ks);
      JoinAllAt(cts, t, ks[..n], k);
      assert k in ks <==> k in ks[..n] || k == ks[n];
    }
  }

  lemma JoinedAt(cts: map<Utxo, StreakSet>, t: Hash, ks: seq<Utxo>, k: Utxo)
    ensures Holds(Joined(cts, t, ks), k, JoinOne(cts, t, ks, k))
  {
    assert k in ks <==> k in Elems(ks);
  }

  lemma JoinAllIs(cts: map<Utxo, StreakSet>, t: Hash, ks: seq<Utxo>)
    requires Distinct(ks)
    ensures JoinAll(cts, t, ks) == Joined(cts, t, ks)
  {
    hide JoinAll, Joined, Distinct;
    forall k
      ensures k in JoinAll(cts, t, ks) <==> k in Joined(cts, t, ks)
      ensures k in JoinAll(cts, t, ks) ==> JoinAll(cts, t, ks)[k] == Joined(cts, t, ks)[k]
    {
      JoinAllAt(cts, t, ks, k);
      JoinedAt(cts, t, ks, k);
    }
  }

  predicate Disputed(cts: map<Utxo, StreakSet>, ks: seq<Utxo>) {
    exists k :: k in ks && k in cts && cts[k].hasConflicts
  }

  /** Confidence and every streak reach `n`. */
  predicate Reach(cts: map<Utxo, StreakSet>, c: nat, ks: seq<Utxo>, n: nat) {
    c >= n && forall k :: k in ks && k in cts ==> cts[k].count >= n
  }

  /** One chit for the pending transaction `t`. */
  function Win(b: Betas, s: Rounds, t: Hash): Rounds
    requires t in s.pool
  {
    var conf, ks := s.conf[t := Conf(s.conf, t) + 1], Keys(s.pool[t]);
    var cts := MarkAll(s.cts, t, conf, ks);
    var free := ParentsAccepted(s.dag, Parents(s.pool[t])) && !Disputed(cts, ks);
    var s' := s.(conf := conf, cts := cts, log := s.log + [Won(t)]);
    if Reach(cts, conf[t], ks, if free then b.beta1 else b.beta2)
    then s'.(dag := s.dag - {t}, verdicts := s.verdicts + [Verdict(t, free, |s.log| + 1)])
    else s'
  }

  /** A failed vote restarts the streaks of the pending transaction `t`. */
  function Lose(s: Rounds, t: Hash): Rounds
    requires t in s.pool
  {
    s.(cts := ClearAll(s.cts, Keys(s.pool[t])), log := s.log + [Lost(t)])
  }

  /** A transaction is seen for the first time. */
  function Enter(s: Rounds, t: AvaxTxn): Rounds {
    if t.id in s.pool then s
    else
      s.(pool := s.pool[t.id := t], dag := s.dag[t.id := Parents(t)], conf := s.conf[t.id := 0],
         cts := JoinAll(s.cts, t.id, Keys(t)), log := s.log + [Seen(t.id)])
  }

  // ---------------------------------------------------------------- what the history says

  /** Chits and failed votes that concern the output `k`. */
  function History(pool: AvaxPool, log: seq<Event>, k: Utxo): seq<Event> {
    if log == [] then []
    else
      var e := log[|log| - 1];
      History(pool, log[..|log| - 1], k) +
      if !e.Seen? && e.txn in pool && k in Keys(pool[e.txn]) then [e] else []
  }

  /** Length of the longest suffix made only of chits for `t`. */
  function Streak(h: seq<Event>, t: Hash): nat {
    if h == [] || h[|h| - 1] != Won(t) then 0 else 1 + Streak(h[..|h| - 1], t)
  }

  lemma {:induction false} StreakIsLongest(h: seq<Event>, t: Hash)
    ensures var n := Streak(h, t);
            && n <= |h| && (forall i :: |h| - n <= i < |h| ==> h[i] == Won(t))
            && (n < |h| ==> h[|h| - n - 1] != Won(t))
  {
    if h != [] && h[|h| - 1] == Won(t) { StreakIsLongest(h[..|h| - 1], t); }
  }

  /** The transaction of the latest chit. */
  function LastWon(h: seq<Event>): Option<Hash> {
    if h == [] then None
    else if h[|h| - 1].Won? then Some(h[|h| - 1].txn)
    else LastWon(h[..|h| - 1])
  }

  function Wins(log: seq<Event>, t: Hash): nat {
    if log == [] then 0 else Wins(log[..|log| - 1], t) + if log[|log| - 1] == Won(t) then 1 else 0
  }

  /** `t` has `n` chits in all, and the latest `n` events on each of its inputs are chits for it. */
  ghost predicate Earned(pool: AvaxPool, log: seq<Event>, t: Hash, n: nat)
    requires t in pool
  {
    Wins(log, t) >= n && forall k :: k in Keys(pool[t]) ==> Streak(History(pool, log, k), t) >= n
  }

  ghost predicate Rivals(pool: AvaxPool, t: Hash, r: Hash)
    requires t in pool && r in pool
  {
    t != r && exists k :: k in Keys(pool[t]) && k in Keys(pool[r])
  }

  ghost predicate RivalSeen(pool: AvaxPool, log: seq<Event>, t: Hash)
    requires t in pool
  {
    exists r :: r in pool && Seen(r) in log && Rivals(pool, t, r)
  }

  // ---------------------------------------------------------------- the invariant

  ghost predicate StreakOk(pool: AvaxPool, log: seq<Event>, k: Utxo, ct: StreakSet) {
    var h := History(pool, log, k);
    ct.last == LastWon(h) && ct.count == if ct.last.Some? then Streak(h, ct.last.value) else 0
  }

  ghost predicate Member(pool: AvaxPool, h: Hash, k: Utxo) {
    h in pool && k in Keys(pool[h])
  }

  /** The preferred member has most chits, and a second member makes a conflict. */
  ghost predicate PrefOk(pool: AvaxPool, conf: map<Hash, nat>, k: Utxo, ct: StreakSet) {
    && Member(pool, ct.pref, k)
    && (forall h :: Member(pool, h, k) ==> Conf(conf, h) <= Conf(conf, ct.pref))
    && (forall h :: Member(pool, h, k) && h != ct.pref ==> ct.hasConflicts)
    && (ct.hasConflicts ==> exists h :: Member(pool, h, k) && h != ct.pref)
  }

  ghost predicate SetsOk(s: Rounds) {
    && (forall h, k :: Member(s.pool, h, k) ==> k in s.cts)
    && (forall k :: k in s.cts ==> StreakOk(s.pool, s.log, k, s.cts[k]))
    && (forall k :: k in s.cts ==> PrefOk(s.pool, s.conf, k, s.cts[k]))
  }

  ghost predicate DagOk(s: Rounds) {
    && (forall h :: h in s.pool ==> s.pool[h].id == h && Distinct(Keys(s.pool[h])))
    && (forall h :: h in s.dag ==> h in s.pool && s.dag[h] == Parents(s.pool[h]))
    && s.conf.Keys == s.pool.Keys
    && (forall h :: h in s.pool ==> s.conf[h] == Wins(s.log, h))
    && (forall e :: e in s.log ==> e.txn in s.pool)
    && (forall h {:trigger Seen(h)} :: h in s.pool ==> Seen(h) in s.log)
  }

  ghost predicate VerdictOk(b: Betas, pool: AvaxPool, log: seq<Event>, v: Verdict) {
    && v.txn in pool && v.at <= |log|
    && Earned(pool, log[..v.at], v.txn, if v.free then b.beta1 else b.beta2)
    && (v.free ==> !RivalSeen(pool, log[..v.at], v.txn))
    && Seen(v.txn) in log[..v.at]
  }

  ghost predicate Judged(verdicts: seq<Verdict>, h: Hash) {
    exists v :: v in verdicts && v.txn == h
  }

  ghost predicate VerdictsOk(b: Betas, s: Rounds) {
    && (forall v :: v in s.verdicts ==> VerdictOk(b, s.pool, s.log, v) && v.txn !in s.dag)
    && (forall h {:trigger Judged(s.verdicts, h)} :: h in s.pool && h !in s.dag ==> Judged(s.verdicts, h))
    && (forall i, j :: 0 <= i < j < |s.verdicts| ==> s.verdicts[i].txn != s.verdicts[j].txn)
    && (forall i, j :: 0 <= i < j < |s.verdicts| ==> s.verdicts[i].at <= s.verdicts[j].at)
  }

  ghost predicate Inv(b: Betas, s: Rounds) {
    DagOk(s) && SetsOk(s) && VerdictsOk(b, s)
  }

  // ---------------------------------------------------------------- appending to the log

  lemma HistorySnoc(pool: AvaxPool, log: seq<Event>, e: Event, k: Utxo)
    ensures History(pool, log + [e], k) == History(pool, log, k) + if !e.Seen? && Member(pool, e.txn, k) then [e] else []
  {
    assert (log + [e])[..|log|] == log;
  }

  lemma WinsSnoc(log: seq<Event>, e: Event, h: Hash)
    ensures Wins(log + [e], h) == Wins(log, h) + if e == Won(h) then 1 else 0
  {
    assert (log + [e])[..|log|] == log;
  }

  lemma StreakSnoc(h: seq<Event>, e: Event, t: Hash)
    ensures Streak(h + [e], t) == if e == Won(t) then Streak(h, t) + 1 else 0
    ensures LastWon(h + [e]) == if e.Won? then Some(e.txn) else LastWon(h)
  {
    assert (h + [e])[..|h|] == h;
  }

  lemma {:induction false} StreakNeedsLast(h: seq<Event>, t: Hash)
    requires LastWon(h) != Some(t)
    ensures Streak(h, t) == 0
  {
  }

  /** A chit or a failed vote moves each streak as the counters move. */
  lemma StreakMoves(pool: AvaxPool, log: seq<Event>, e: Event, k: Utxo, ct: StreakSet, conf: map<Hash, nat>)
    requires StreakOk(pool, log, k, ct) && e.txn in pool && !e.Seen?
    ensures var ct' := if !Member(pool, e.txn, k) then ct else if e.Won? then Mark(ct, e.txn, conf) else ct.(count := 0);
            StreakOk(pool, log + [e], k, ct')
  {
    hide History, Streak, LastWon, Keys;
    var h := History(pool, log, k);
    HistorySnoc(pool, log, e, k);
    if Member(pool, e.txn, k) {
      StreakSnoc(h, e, e.txn);
      if ct.last.Some? { StreakSnoc(h, e, ct.last.value); }
      if ct.last != Some(e.txn) { StreakNeedsLast(h, e.txn); }
    } else {
      assert h + [] == h;
    }
  }

  lemma PrefMoves(pool: AvaxPool, conf: map<Hash, nat>, k: Utxo, ct: StreakSet, t: Hash)
    requires PrefOk(pool, conf, k, ct) && t in pool
    ensures var conf' := conf[t := Conf(conf, t) + 1];
            PrefOk(pool, conf', k, if Member(pool, t, k) then Mark(ct, t, conf') else ct)
  {
    hide Keys;
  }

  // ---------------------------------------------------------------- every step keeps the invariant

  lemma WinSets(b: Betas, s: Rounds, t: Hash)
    requires SetsOk(s) && t in s.pool
    ensures SetsOk(Win(b, s, t))
  {
    hide StreakOk, PrefOk, Mark, Keys, Reach, Disputed, ParentsAccepted, Parents;
    var s' := Win(b, s, t);
    var conf := s.conf[t := Conf(s.conf, t) + 1];
    forall k | k in s'.cts ensures StreakOk(s'.pool, s'.log, k, s'.cts[k]) && PrefOk(s'.pool, s'.conf, k, s'.cts[k]) {
      StreakMoves(s.pool, s.log, Won(t), k, s.cts[k], conf);
      PrefMoves(s.pool, s.conf, k, s.cts[k], t);
    }
  }

  lemma WinDag(b: Betas, s: Rounds, t: Hash)
    requires DagOk(s) && t in s.pool
    ensures DagOk(Win(b, s, t))
  {
    hide Mark, Keys, Reach, Disputed, ParentsAccepted, Parents, Wins, MarkAll, Distinct;
    forall h ensures Wins(s.log + [Won(t)], h) == Wins(s.log, h) + if h == t then 1 else 0 {
      WinsSnoc(s.log, Won(t), h);
    }
  }

  /** Later events do not change what an earlier verdict was based on. */
  lemma VerdictStays(b: Betas, pool: AvaxPool, log: seq<Event>, e: Event, v: Verdict)
    requires VerdictOk(b, pool, log, v)
    ensures VerdictOk(b, pool, log + [e], v)
  {
    hide Earned, RivalSeen;
    assert (log + [e])[..v.at] == log[..v.at];
  }

  /** The counters that reach the threshold are the streaks of the history, and `free` means no rival was seen. */
  lemma WinEarns(b: Betas, s: Rounds, t: Hash, n: nat)
    requires DagOk(s) && SetsOk(s) && t in s.pool
    ensures var conf, ks := s.conf[t := Conf(s.conf, t) + 1], Keys(s.pool[t]);
            var cts := MarkAll(s.cts, t, conf, ks);
            && (Reach(cts, conf[t], ks, n) <==> Earned(s.pool, s.log + [Won(t)], t, n))
            && (Disputed(cts, ks) <==> RivalSeen(s.pool, s.log + [Won(t)], t))
  {
    hide History, Streak, Wins, Keys, LastWon, Distinct;
    var conf, ks := s.conf[t := Conf(s.conf, t) + 1], Keys(s.pool[t]);
    var cts := MarkAll(s.cts, t, conf, ks);
    var log := s.log + [Won(t)];
    WinsSnoc(s.log, Won(t), t);
    forall k | k in ks ensures k in cts && cts[k].count == Streak(History(s.pool, log, k), t) {
      assert Member(s.pool, t, k);
      StreakMoves(s.pool, s.log, Won(t), k, s.cts[k], conf);
    }
    DisputeIsRivalry(s, t);
    assert forall r :: Seen(r) in log <==> Seen(r) in s.log;
  }

  lemma DisputeIsRivalry(s: Rounds, t: Hash)
    requires DagOk(s) && SetsOk(s) && t in s.pool
    ensures Disputed(s.cts, Keys(s.pool[t])) <==> RivalSeen(s.pool, s.log, t)
  {
    hide StreakOk, Keys, Distinct, Wins;
    var ks := Keys(s.pool[t]);
    if Disputed(s.cts, ks) {
      var k :| k in ks && k in s.cts && s.cts[k].hasConflicts;
      assert PrefOk(s.pool, s.conf, k, s.cts[k]);
      var h :| Member(s.pool, h, k) && h != s.cts[k].pref;
      assert Member(s.pool, s.cts[k].pref, k);
      var r := if h == t then s.cts[k].pref else h;
      assert Rivals(s.pool, t, r) && Seen(r) in s.log;
    }
    if RivalSeen(s.pool, s.log, t) {
      var r :| r in s.pool && Seen(r) in s.log && Rivals(s.pool, t, r);
      var k :| k in ks && k in Keys(s.pool[r]);
      assert Member(s.pool, t, k) && Member(s.pool, r, k);
      assert PrefOk(s.pool, s.conf, k, s.cts[k]);
    }
  }

  /**
   The counters decide as the history demands: a pending transaction is accepted by its chit if
   and only if that chit completes a streak of the threshold on every input, where the threshold
   is beta1 if no rival was ever seen and no parent is pending, and beta2 otherwise.
   */
  lemma AcceptedExactly(b: Betas, s: Rounds, t: Hash)
    requires DagOk(s) && SetsOk(s) && t in s.dag
    ensures t in s.pool
    ensures var log := s.log + [Won(t)];
            var free := ParentsAccepted(s.dag, Parents(s.pool[t])) && !RivalSeen(s.pool, log, t);
            Win(b, s, t) ==
              var s' := s.(conf := s.conf[t := Conf(s.conf, t) + 1], log := log,
                           cts := MarkAll(s.cts, t, s.conf[t := Conf(s.conf, t) + 1], Keys(s.pool[t])));
              if Earned(s.pool, log, t, if free then b.beta1 else b.beta2)
              then s'.(dag := s.dag - {t}, verdicts := s.verdicts + [Verdict(t, free, |log|)])
              else s'
  {
    hide SetsOk, Distinct, MarkAll, Keys, Parents, ParentsAccepted, Reach, Disputed, RivalSeen, Earned, Wins;
    WinEarns(b, s, t, b.beta1);
    WinEarns(b, s, t, b.beta2);
  }

  lemma AddVerdict(b: Betas, s: Rounds, s': Rounds, v: Verdict)
    requires VerdictsOk(b, s) && v.txn in s.dag && v.at == |s.log| && VerdictOk(b, s.pool, s.log, v)
    requires s' == s.(dag := s.dag - {v.txn}, verdicts := s.verdicts + [v])
    ensures VerdictsOk(b, s')
  {
    hide Earned, RivalSeen, VerdictOk;
    assert forall w :: w in s'.verdicts <==> w in s.verdicts || w == v;
    forall h | h in s.pool && h !in s'.dag ensures Judged(s'.verdicts, h) {
      assert h == v.txn || Judged(s.verdicts, h);
    }
    assert forall i :: 0 <= i < |s.verdicts| ==> s.verdicts[i] in s.verdicts;
    forall w | w in s.verdicts ensures w.at <= |s.log| { VerdictPast(b, s, w); }
  }

  lemma VerdictPast(b: Betas, s: Rounds, v: Verdict)
    requires VerdictOk(b, s.pool, s.log, v)
    ensures v.at <= |s.log|
  {
    hide Earned, RivalSeen;
  }

  lemma WinVerdicts(b: Betas, s: Rounds, t: Hash)
    requires Inv(b, s) && t in s.dag
    ensures VerdictsOk(b, Win(b, s, t))
  {
    hide SetsOk, MarkAll, Keys, Parents, ParentsAccepted, RivalSeen, Earned, Wins, Win, Distinct, VerdictsOk;
    AcceptedExactly(b, s, t);
    var s' := Win(b, s, t);
    var s1 := s'.(dag := s.dag, verdicts := s.verdicts);
    SameVerdicts(b, s, s1, Won(t));
    assert s'.log[..|s'.log|] == s'.log;
    if s' != s1 { AddVerdict(b, s1, s', s'.verdicts[|s.verdicts|]); }
  }

  lemma WinKeeps(b: Betas, s: Rounds, t: Hash)
    requires Inv(b, s) && t in s.dag
    ensures t in s.pool && Inv(b, Win(b, s, t))
  {
    hide SetsOk, VerdictsOk, Win, Keys, Parents, Wins, Distinct;
    WinDag(b, s, t);
    WinSets(b, s, t);
    WinVerdicts(b, s, t);
  }

  lemma LoseSets(s: Rounds, t: Hash)
    requires SetsOk(s) && t in s.pool
    ensures SetsOk(Lose(s, t))
  {
    hide StreakOk, Mark, Keys;
    var s' := Lose(s, t);
    forall k | k in s'.cts ensures StreakOk(s'.pool, s'.log, k, s'.cts[k]) && PrefOk(s'.pool, s'.conf, k, s'.cts[k]) {
      StreakMoves(s.pool, s.log, Lost(t), k, s.cts[k], s.conf);
      assert PrefOk(s.pool, s.conf, k, s.cts[k]);
    }
  }

  lemma SameVerdicts(b: Betas, s: Rounds, s': Rounds, e: Event)
    requires VerdictsOk(b, s) && s' == s.(cts := s'.cts, conf := s'.conf, log := s.log + [e])
    ensures VerdictsOk(b, s')
  {
    hide Earned, RivalSeen, VerdictOk;
    forall v | v in s.verdicts ensures VerdictOk(b, s'.pool, s'.log, v) {
      VerdictStays(b, s.pool, s.log, e, v);
    }
  }

  lemma LoseKeeps(b: Betas, s: Rounds, t: Hash)
    requires Inv(b, s) && t in s.pool
    ensures Inv(b, Lose(s, t))
  {
    hide SetsOk, VerdictsOk, Keys, Parents, Wins, Distinct, ClearAll;
    LoseSets(s, t);
    SameVerdicts(b, s, Lose(s, t), Lost(t));
    forall h ensures Wins(s.log + [Lost(t)], h) == Wins(s.log, h) { WinsSnoc(s.log, Lost(t), h); }
  }

  // ---------------------------------------------------------------- a new transaction

  /** A log that does not mention the newcomer reads the same with it in the pool. */
  lemma {:induction false} HistoryFrame(pool: AvaxPool, t: AvaxTxn, log: seq<Event>, k: Utxo)
    requires t.id !in pool && forall e :: e in log ==> e.txn in pool
    ensures History(pool[t.id := t], log, k) == History(pool, log, k)
  {
    hide Keys;
    if log != [] {
      assert log[|log| - 1] in log;
      assert forall e :: e in log[..|log| - 1] ==> e in log;
      HistoryFrame(pool, t, log[..|log| - 1], k);
    }
  }

  lemma {:induction false} NoWins(log: seq<Event>, h: Hash)
    requires forall e :: e in log ==> e.txn != h
    ensures Wins(log, h) == 0
  {
    if log != [] {
      assert log[|log| - 1] in log;
      NoWins(log[..|log| - 1], h);
    }
  }

  lemma {:induction false} NoHistory(pool: AvaxPool, log: seq<Event>, k: Utxo)
    requires forall h :: !Member(pool, h, k)
    ensures History(pool, log, k) == []
  {
    if log != [] { NoHistory(pool, log[..|log| - 1], k); }
    assert forall e: Event :: e.txn in pool ==> !Member(pool, e.txn, k);
  }

  lemma EnterDag(s: Rounds, t: AvaxTxn)
    requires DagOk(s) && t.id !in s.pool && Distinct(Keys(t))
    ensures DagOk(Enter(s, t))
  {
    hide Keys, Parents, Wins, Distinct, JoinAll;
    NoWins(s.log, t.id);
    forall h ensures Wins(s.log + [Seen(t.id)], h) == Wins(s.log, h) { WinsSnoc(s.log, Seen(t.id), h); }
    assert Seen(t.id) in s.log + [Seen(t.id)];
  }

  lemma EnterStreak(s: Rounds, t: AvaxTxn, k: Utxo)
    requires DagOk(s) && SetsOk(s) && t.id !in s.pool && Distinct(Keys(t)) && k in Enter(s, t).cts
    ensures var s' := Enter(s, t); StreakOk(s'.pool, s'.log, k, s'.cts[k])
  {
    hide Keys, Parents, Wins, Distinct, History, Streak, LastWon, PrefOk, JoinAll;
    JoinAllIs(s.cts, t.id, Keys(t));
    var s', h := Enter(s, t), History(s.pool, s.log, k);
    HistorySnoc(s'.pool, s.log, Seen(t.id), k);
    HistoryFrame(s.pool, t, s.log, k);
    assert h + [] == h;
    if k in s.cts {
      assert StreakOk(s.pool, s.log, k, s.cts[k]);
    } else {
      NoHistory(s.pool, s.log, k);
      EmptyHistory();
    }
  }

  lemma EnterMember(pool: AvaxPool, t: AvaxTxn, h: Hash, k: Utxo)
    requires t.id !in pool
    ensures Member(pool[t.id := t], h, k) <==> Member(pool, h, k) || (h == t.id && k in Keys(t))
    ensures Member(pool, h, k) ==> h != t.id
  {
    hide Keys;
  }

  lemma EnterPref(s: Rounds, t: AvaxTxn, k: Utxo)
    requires SetsOk(s) && t.id !in s.pool && Distinct(Keys(t)) && k in Enter(s, t).cts
    ensures var s' := Enter(s, t); PrefOk(s'.pool, s'.conf, k, s'.cts[k])
  {
    hide Keys, Parents, StreakOk, Member, JoinAll, Distinct;
    JoinAllIs(s.cts, t.id, Keys(t));
    var s' := Enter(s, t);
    forall h ensures Member(s'.pool, h, k) <==> Member(s.pool, h, k) || (h == t.id && k in Keys(t)) {
      EnterMember(s.pool, t, h, k);
    }
    EnterMember(s.pool, t, t.id, k);
    if k in s.cts {
      assert PrefOk(s.pool, s.conf, k, s.cts[k]);
      assert Member(s'.pool, s.cts[k].pref, k);
      if s.cts[k].hasConflicts {
        var h :| Member(s.pool, h, k) && h != s.cts[k].pref;
        assert Member(s'.pool, h, k);
      }
    }
  }

  lemma EmptyHistory()
    ensures LastWon([]) == None
  {
  }

  lemma EnterSets(s: Rounds, t: AvaxTxn)
    requires DagOk(s) && SetsOk(s) && t.id !in s.pool && Distinct(Keys(t))
    ensures SetsOk(Enter(s, t))
  {
    hide Keys, Parents, Distinct, StreakOk, PrefOk, DagOk, JoinAll;
    JoinAllIs(s.cts, t.id, Keys(t));
    var s' := Enter(s, t);
    forall k | k in s'.cts ensures StreakOk(s'.pool, s'.log, k, s'.cts[k]) && PrefOk(s'.pool, s'.conf, k, s'.cts[k]) {
      EnterStreak(s, t, k);
      EnterPref(s, t, k);
    }
    forall h, k | Member(s'.pool, h, k) ensures k in s'.cts {
      if h != t.id { assert Member(s.pool, h, k); }
    }
  }

  lemma EnterEarned(s: Rounds, t: AvaxTxn, log: seq<Event>, h: Hash, n: nat)
    requires t.id !in s.pool && h in s.pool && (forall e :: e in log ==> e.txn in s.pool)
    ensures Earned(s.pool[t.id := t], log, h, n) <==> Earned(s.pool, log, h, n)
  {
    hide Keys, Wins, History, Streak;
    forall k ensures History(s.pool[t.id := t], log, k) == History(s.pool, log, k) { HistoryFrame(s.pool, t, log, k); }
  }

  lemma EnterRival(s: Rounds, t: AvaxTxn, log: seq<Event>, h: Hash)
    requires t.id !in s.pool && h in s.pool && (forall e :: e in log ==> e.txn in s.pool)
    ensures RivalSeen(s.pool[t.id := t], log, h) <==> RivalSeen(s.pool, log, h)
  {
    hide Keys;
    var pool' := s.pool[t.id := t];
    if RivalSeen(s.pool, log, h) {
      var r :| r in s.pool && Seen(r) in log && Rivals(s.pool, h, r);
      assert Rivals(pool', h, r);
    }
    if RivalSeen(pool', log, h) {
      var r :| r in pool' && Seen(r) in log && Rivals(pool', h, r);
      assert Seen(r).txn in s.pool;
      assert Rivals(s.pool, h, r);
    }
  }

  lemma EnterVerdict(b: Betas, s: Rounds, t: AvaxTxn, v: Verdict)
    requires DagOk(s) && t.id !in s.pool && VerdictOk(b, s.pool, s.log, v)
    ensures VerdictOk(b, Enter(s, t).pool, Enter(s, t).log, v)
  {
    hide Keys, Parents, Wins, Distinct, JoinAll, Earned, RivalSeen;
    var s', log := Enter(s, t), s.log[..v.at];
    assert s'.log[..v.at] == log;
    assert forall e :: e in log ==> e in s.log;
    EnterEarned(s, t, log, v.txn, if v.free then b.beta1 else b.beta2);
    EnterRival(s, t, log, v.txn);
  }

  lemma EnterKeeps(b: Betas, s: Rounds, t: AvaxTxn)
    requires Inv(b, s) && Distinct(Keys(t))
    ensures Inv(b, Enter(s, t))
  {
    hide SetsOk, Keys, Parents, Wins, Distinct, JoinAll, VerdictOk;
    if t.id !in s.pool {
      EnterDag(s, t);
      EnterSets(s, t);
      var s' := Enter(s, t);
      forall v | v in s.verdicts ensures VerdictOk(b, s'.pool, s'.log, v) && v.txn in s.pool {
        EnterVerdict(b, s, t, v);
        VerdictPooled(b, s, v);
      }
    }
  }

  lemma VerdictPooled(b: Betas, s: Rounds, v: Verdict)
    requires VerdictOk(b, s.pool, s.log, v)
    ensures v.txn in s.pool
  {
  }

  // ---------------------------------------------------------------- rivals

  lemma {:induction false} HistoryPrefix(pool: AvaxPool, log: seq<Event>, n: nat, k: Utxo)
    requires n <= |log|
    ensures History(pool, log[..n], k) <= History(pool, log, k)
  {
    hide Keys;
    if n == |log| {
      assert log[..n] == log;
    } else {
      assert log[..|log| - 1][..n] == log[..n];
      HistoryPrefix(pool, log[..|log| - 1], n, k);
    }
  }

  /** Two streaks of different transactions do not overlap. */
  lemma StreaksApart(h: seq<Event>, h': seq<Event>, t: Hash, t': Hash)
    requires h <= h' && t != t' && Streak(h, t) > 0
    ensures |h'| >= |h| + Streak(h', t')
  {
    StreakIsLongest(h, t);
    StreakIsLongest(h', t');
    assert h'[|h| - 1] == h[|h| - 1] == Won(t);
  }

  /**
   When two rivals for an output are accepted one after the other, the later one won at least
   beta2 chits in a row on that output since the earlier one was accepted.
   */
  lemma LaterRivalStartsOver(b: Betas, s: Rounds, i: nat, j: nat, k: Utxo)
    requires Inv(b, s) && b.beta1 > 0 && b.beta2 > 0 && i < j < |s.verdicts|
    requires Member(s.pool, s.verdicts[i].txn, k) && Member(s.pool, s.verdicts[j].txn, k)
    ensures var v, w := s.verdicts[i], s.verdicts[j];
            && v.at <= w.at <= |s.log| && !w.free
            && |History(s.pool, s.log[..w.at], k)| >= |History(s.pool, s.log[..v.at], k)| + b.beta2
            && Streak(History(s.pool, s.log[..w.at], k), w.txn) >= b.beta2
  {
    hide DagOk, SetsOk, Keys, Parents, Wins, Streak, History;
    var v, w := s.verdicts[i], s.verdicts[j];
    assert VerdictOk(b, s.pool, s.log, v) && VerdictOk(b, s.pool, s.log, w);
    assert s.log[..w.at][..v.at] == s.log[..v.at];
    assert Seen(v.txn) in s.log[..w.at] by {
      assert s.log[..w.at] == s.log[..v.at] + s.log[v.at..w.at];
    }
    assert Rivals(s.pool, w.txn, v.txn);
    assert !w.free;
    HistoryPrefix(s.pool, s.log[..w.at], v.at, k);
    StreaksApart(History(s.pool, s.log[..v.at], k), History(s.pool, s.log[..w.at], k), v.txn, w.txn);
  }
}
