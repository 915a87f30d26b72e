/**
 The Blizzard decision rule: chits for a transaction and all its pending ancestors, conflict sets
 per unspent output, and acceptance by confidence.

 `Visit` is the recursion over the pending DAG as a function; the class in `BlizzardDecision` is
 proved to compute it.
 */
module Blizzard {
  import opened Ledger

  datatype AvaxTxn =
    | Payment(id: Hash, sender: PubKey, inputs: seq<Hash>)
    | Endow(id: Hash)
    | Noop(id: Hash, parents: seq<Hash>)

  type AvaxPool = map<Hash, AvaxTxn>

  function Parents(t: AvaxTxn): seq<Hash> {
    match t
    case Payment(_, _, inputs) => inputs
    case Endow(_) => []
    case Noop(_, parents) => parents
  }

  lemma ParentsAre(t: AvaxTxn)
    ensures forall p :: p in Parents(t) <==> (t.Payment? && p in t.inputs) || (t.Noop? && p in t.parents)
  {
  }

  /** The outputs a transaction wants to spend; rivals share one of them. */
  function Keys(t: AvaxTxn): (ks: seq<Utxo>)
    ensures t.Payment? ==> |ks| == |t.inputs| && forall i :: 0 <= i < |ks| ==> ks[i] == Utxo(t.inputs[i], t.sender)
    ensures !t.Payment? ==> ks == []
  {
    if t.Payment? then seq(|t.inputs|, i requires 0 <= i < |t.inputs| => Utxo(t.inputs[i], t.sender)) else []
  }

  datatype ConflictSet = ConflictSet(hasConflicts: bool, pref: Hash, totalRounds: nat)
  datatype Betas = Betas(beta1: nat, beta2: nat)

  /** The decision state; `accepted` lists the transactions that left the DAG, in order. */
  datatype Votes = Votes(pool: AvaxPool, dag: map<Hash, seq<Hash>>, cts: map<Utxo, ConflictSet>,
                         conf: map<Hash, nat>, accepted: seq<Hash>)

  // ---------------------------------------------------------------- one chit

  /** Confidence of a transaction; 0 if it is unknown. */
  function Conf(conf: map<Hash, nat>, h: Hash): nat {
    if h in conf then conf[h] else 0
  }

  /** A conflict set after a chit for its member `t`, whose confidence is already raised. */
  function BumpSet(ct: ConflictSet, t: Hash, conf: map<Hash, nat>): ConflictSet {
    ConflictSet(ct.hasConflicts,
                if ct.pref != t && Conf(conf, ct.pref) < Conf(conf, t) then t else ct.pref,
                ct.totalRounds + 1)
  }

  function Bump(cts: map<Utxo, ConflictSet>, t: Hash, conf: map<Hash, nat>, ks: seq<Utxo>): map<Utxo, ConflictSet> {
    if ks == [] then cts
    else
      var before, k := Bump(cts, t, conf, ks[..|ks| - 1]), ks[|ks| - 1];
      if k in before then before[k := BumpSet(before[k], t, conf)] else before
  }

  /** Rounds of the conflict sets that went to others than a member of confidence `c`. */
  function Against(cts: map<Utxo, ConflictSet>, c: nat, ks: seq<Utxo>): int {
    if ks == [] then 0
    else
      var k := ks[|ks| - 1];
      Against(cts, c, ks[..|ks| - 1]) + if k in cts then cts[k].totalRounds - c else 0
  }

  predicate Contested(cts: map<Utxo, ConflictSet>, ks: seq<Utxo>) {
    exists i :: 0 <= i < |ks| && ks[i] in cts && cts[ks[i]].hasConflicts
  }

  predicate ParentsAccepted(dag: map<Hash, seq<Hash>>, parents: seq<Hash>) {
    forall p :: p in parents ==> p !in dag
  }

  /** Have all these transactions left the DAG? */
  method NonePending(dag: map<Hash, seq<Hash>>, parents: seq<Hash>) returns (ok: bool)
    ensures ok <==> ParentsAccepted(dag, parents)
  {
    for i := 0 to |parents|
      invariant ParentsAccepted(dag, parents[..i])
    {
      if parents[i] in dag {
        assert parents[i] in parents;
        return false;
      }
    }
    assert parents[..|parents|] == parents;
    return true;
  }

  /** Early commitment needs beta1 and neither rivals nor pending parents; otherwise beta2 is needed. */
  predicate Accepts(b: Betas, c: nat, free: bool, against: int) {
    c >= (if free then b.beta1 else b.beta2) + against
  }

  /** Give one chit to the pending transaction `t` and accept it if its confidence suffices. */
  function Chit(b: Betas, s: Votes, t: Hash): Votes
    requires t in s.pool
  {
    var conf := s.conf[t := Conf(s.conf, t) + 1];
    var ks := Keys(s.pool[t]);
    var cts := Bump(s.cts, t, conf, ks);
    var free := ParentsAccepted(s.dag, Parents(s.pool[t])) && !Contested(cts, ks);
    if Accepts(b, conf[t], free, Against(cts, conf[t], ks))
    then s.(conf := conf, cts := cts, dag := s.dag - {t}, accepted := s.accepted + [t])
    else s.(conf := conf, cts := cts)
  }

  // ---------------------------------------------------------------- chits for all pending ancestors

  datatype Visited = Visited(s: Votes, seen: set<Hash>)

  /** Only visited transactions leave the DAG. */
  ghost predicate Progress(s: Votes, seen: set<Hash>, r: Visited) {
    && r.s.pool == s.pool && seen <= r.seen
    && (forall h :: h in r.s.dag ==> h in s.dag && r.s.dag[h] == s.dag[h])
    && (forall h :: h in s.dag && h !in r.s.dag ==> h in r.seen && h !in seen)
  }

  function Visit(b: Betas, s: Votes, t: Hash, seen: set<Hash>): (r: Visited)
    requires s.dag.Keys <= s.pool.Keys
    ensures Progress(s, seen, r) && t in r.seen
    decreases s.dag.Keys - seen, 1, 0
  {
    if t in seen then Visited(s, seen)
    else if t !in s.dag then Visited(s, seen + {t})
    else
      assert s.dag.Keys - (seen + {t}) < s.dag.Keys - seen by {
        assert t in s.dag.Keys - seen && t !in s.dag.Keys - (seen + {t});
      }
      var r := VisitAll(b, s, s.dag[t], seen + {t});
      Visited(Chit(b, r.s, t), r.seen)
  }

  function VisitAll(b: Betas, s: Votes, ps: seq<Hash>, seen: set<Hash>): (r: Visited)
    requires s.dag.Keys <= s.pool.Keys
    ensures Progress(s, seen, r) && forall p :: p in ps ==> p in r.seen
    decreases s.dag.Keys - seen, 2, |ps|
  {
    if ps == [] then Visited(s, seen)
    else
      var r := VisitAll(b, s, ps[..|ps| - 1], seen);
      assert r.s.dag.Keys - r.seen <= s.dag.Keys - seen;
      Visit(b, r.s, ps[|ps| - 1], r.seen)
  }

  // ---------------------------------------------------------------- who gets a chit

  /** In `r`, exactly the newly visited transactions that were pending have one more chit. */
  ghost predicate OneChitEach(s: Votes, seen: set<Hash>, r: Visited) {
    forall h :: Conf(r.s.conf, h) == Conf(s.conf, h) + if h in s.dag && h in r.seen && h !in seen then 1 else 0
  }

  lemma ChitConf(b: Betas, s: Votes, t: Hash)
    requires t in s.pool
    ensures forall h :: Conf(Chit(b, s, t).conf, h) == Conf(s.conf, h) + if h == t then 1 else 0
    ensures Chit(b, s, t).pool == s.pool
    ensures Chit(b, s, t).dag == s.dag || Chit(b, s, t).dag == s.dag - {t}
  {
    hide Bump, Against, Contested, ParentsAccepted, Keys;
  }

  lemma {:induction false} VisitChits(b: Betas, s: Votes, t: Hash, seen: set<Hash>)
    requires s.dag.Keys <= s.pool.Keys
    ensures OneChitEach(s, seen, Visit(b, s, t, seen))
    decreases s.dag.Keys - seen, 1, 0
  {
    hide Chit;
    if t !in seen && t in s.dag {
      assert t in s.dag.Keys - seen;
      var r := VisitAll(b, s, s.dag[t], seen + {t});
      VisitAllChits(b, s, s.dag[t], seen + {t});
      ChitConf(b, r.s, t);
    }
  }

  lemma {:induction false} VisitAllChits(b: Betas, s: Votes, ps: seq<Hash>, seen: set<Hash>)
    requires s.dag.Keys <= s.pool.Keys
    ensures OneChitEach(s, seen, VisitAll(b, s, ps, seen))
    decreases s.dag.Keys - seen, 2, |ps|
  {
    hide Visit, Conf;
    if ps != [] {
      var ps', p := ps[..|ps| - 1], ps[|ps| - 1];
      var r := VisitAll(b, s, ps', seen);
      VisitAllChits(b, s, ps', seen);
      assert r.s.dag.Keys - r.seen <= s.dag.Keys - seen;
      VisitChits(b, r.s, p, r.seen);
    }
  }

  /** `x` is `t` or an ancestor of it, over a path of pending transactions. */
  ghost predicate Reaches(dag: map<Hash, seq<Hash>>, t: Hash, x: Hash, n: nat)
    decreases n
  {
    if n == 0 then x == t
    else exists y :: Reaches(dag, t, y, n - 1) && y in dag && x in dag[y]
  }

  ghost predicate Ancestor(dag: map<Hash, seq<Hash>>, t: Hash, x: Hash) {
    exists n: nat :: Reaches(dag, t, x, n)
  }

  lemma {:induction false} ReachesFirst(dag: map<Hash, seq<Hash>>, t: Hash, p: Hash, x: Hash, n: nat)
    requires t in dag && p in dag[t] && Reaches(dag, p, x, n)
    ensures Reaches(dag, t, x, n + 1)
    decreases n
  {
    if n == 0 {
      assert Reaches(dag, t, t, 0);
    } else {
      var y :| Reaches(dag, p, y, n - 1) && y in dag && x in dag[y];
      ReachesFirst(dag, t, p, y, n - 1);
    }
  }

  lemma {:induction false} ReachesMore(dag: map<Hash, seq<Hash>>, dag': map<Hash, seq<Hash>>, t: Hash, x: Hash, n: nat)
    requires Reaches(dag, t, x, n) && forall h :: h in dag ==> h in dag' && dag'[h] == dag[h]
    ensures Reaches(dag', t, x, n)
    decreases n
  {
    if n > 0 {
      var y :| Reaches(dag, t, y, n - 1) && y in dag && x in dag[y];
      ReachesMore(dag, dag', t, y, n - 1);
    }
  }

  /** Newly seen transactions are ancestors of one of `ps`. */
  ghost predicate SeenFrom(dag: map<Hash, seq<Hash>>, ps: seq<Hash>, seen: set<Hash>, seen': set<Hash>) {
    forall x :: x in seen' && x !in seen ==> exists p :: p in ps && Ancestor(dag, p, x)
  }

  /** The parents of newly seen pending transactions are seen. */
  ghost predicate ParentsSeen(dag: map<Hash, seq<Hash>>, seen: set<Hash>, seen': set<Hash>) {
    forall x, p :: x in seen' && x !in seen && x in dag && p in dag[x] ==> p in seen'
  }

  lemma {:induction false} VisitReach(b: Betas, s: Votes, t: Hash, seen: set<Hash>)
    requires s.dag.Keys <= s.pool.Keys
    ensures var r := Visit(b, s, t, seen);
            SeenFrom(s.dag, [t], seen, r.seen) && ParentsSeen(s.dag, seen, r.seen)
    decreases s.dag.Keys - seen, 1, 0
  {
    hide Chit;
    assert Reaches(s.dag, t, t, 0);
    assert Ancestor(s.dag, t, t) && t in [t];
    if t !in seen && t in s.dag {
      assert t in s.dag.Keys - seen;
      VisitAllReach(b, s, s.dag[t], seen + {t});
      var r := VisitAll(b, s, s.dag[t], seen + {t});
      hide VisitAll;
      FromParents(s.dag, t, seen, r.seen);
    }
  }

  lemma FromParents(dag: map<Hash, seq<Hash>>, t: Hash, seen: set<Hash>, seen': set<Hash>)
    requires t in dag && SeenFrom(dag, dag[t], seen + {t}, seen')
    ensures SeenFrom(dag, [t], seen, seen')
  {
    assert Reaches(dag, t, t, 0);
    forall x | x in seen' && x !in seen ensures Ancestor(dag, t, x) {
      if x != t {
        var p :| p in dag[t] && Ancestor(dag, p, x);
        var n: nat :| Reaches(dag, p, x, n);
        ReachesFirst(dag, t, p, x, n);
      }
    }
    assert t in [t];
  }

  lemma {:induction false} VisitAllReach(b: Betas, s: Votes, ps: seq<Hash>, seen: set<Hash>)
    requires s.dag.Keys <= s.pool.Keys
    ensures var r := VisitAll(b, s, ps, seen);
            SeenFrom(s.dag, ps, seen, r.seen) && ParentsSeen(s.dag, seen, r.seen)
    decreases s.dag.Keys - seen, 2, |ps|
  {
    hide Visit, SeenFrom, ParentsSeen;
    if ps == [] {
      NothingSeen(s.dag, ps, seen);
    } else {
      var ps', p := ps[..|ps| - 1], ps[|ps| - 1];
      var r := VisitAll(b, s, ps', seen);
      VisitAllReach(b, s, ps', seen);
      assert r.s.dag.Keys - r.seen <= s.dag.Keys - seen;
      VisitReach(b, r.s, p, r.seen);
      var r' := Visit(b, r.s, p, r.seen);
      ReachCompose(s.dag, r.s.dag, ps', p, seen, r.seen, r'.seen);
      assert ps == ps' + [p];
    }
  }

  lemma NothingSeen(dag: map<Hash, seq<Hash>>, ps: seq<Hash>, seen: set<Hash>)
    ensures SeenFrom(dag, ps, seen, seen) && ParentsSeen(dag, seen, seen)
  {
  }

  lemma ReachCompose(dag: map<Hash, seq<Hash>>, dag1: map<Hash, seq<Hash>>, ps: seq<Hash>, p: Hash,
                     seen: set<Hash>, seen1: set<Hash>, seen2: set<Hash>)
    requires SeenFrom(dag, ps, seen, seen1) && ParentsSeen(dag, seen, seen1)
    requires SeenFrom(dag1, [p], seen1, seen2) && ParentsSeen(dag1, seen1, seen2)
    requires seen <= seen1 <= seen2
    requires forall h :: h in dag1 ==> h in dag && dag[h] == dag1[h]
    requires forall h :: h in dag && h !in dag1 ==> h in seen1
    ensures SeenFrom(dag, ps + [p], seen, seen2) && ParentsSeen(dag, seen, seen2)
  {
    forall x | x in seen2 && x !in seen ensures exists q :: q in ps + [p] && Ancestor(dag, q, x) {
      if x in seen1 {
        var q :| q in ps && Ancestor(dag, q, x);
        assert q in ps + [p];
      } else {
        assert Ancestor(dag1, p, x);
        var n: nat :| Reaches(dag1, p, x, n);
        ReachesMore(dag1, dag, p, x, n);
        assert p in ps + [p];
      }
    }
  }

  lemma {:induction false} SeenClosed(dag: map<Hash, seq<Hash>>, t: Hash, seen: set<Hash>, x: Hash, n: nat)
    requires t in seen && (forall y, p :: y in seen && y in dag && p in dag[y] ==> p in seen)
    requires Reaches(dag, t, x, n)
    ensures x in seen
    decreases n
  {
    if n > 0 {
      var y :| Reaches(dag, t, y, n - 1) && y in dag && x in dag[y];
      SeenClosed(dag, t, seen, y, n - 1);
    }
  }

  /**
   One successful vote for `t` gives exactly one chit to each pending ancestor-or-self of `t` in
   the DAG before the vote, and to nothing else.
   */
  lemma VoteChits(b: Betas, s: Votes, t: Hash)
    requires s.dag.Keys <= s.pool.Keys
    ensures var s' := Visit(b, s, t, {}).s;
            forall h :: Conf(s'.conf, h) == Conf(s.conf, h) + if h in s.dag && Ancestor(s.dag, t, h) then 1 else 0
  {
    hide Visit, Conf, Reaches;
    var r := Visit(b, s, t, {});
    VisitChits(b, s, t, {});
    VisitReach(b, s, t, {});
    forall h ensures h in r.seen <==> Ancestor(s.dag, t, h) {
      assert h in r.seen ==> exists p :: p in [t] && Ancestor(s.dag, p, h);
      if Ancestor(s.dag, t, h) {
        var n: nat :| Reaches(s.dag, t, h, n);
        SeenClosed(s.dag, t, r.seen, h, n);
      }
    }
  }
}
