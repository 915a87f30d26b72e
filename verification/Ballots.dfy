/**
 Counting the votes on a queried block. The stage keeps two numbers per block and transaction; the
 reference is the list of ballots that were cast, one vote per transaction each.
 */
module Ballots {
  import opened Collections
  import opened Ledger
  import opened Blizzard

  type Ballot = seq<bool>

  datatype Tally = Tally(received: nat, accepts: seq<nat>)

  /** The ballots cast for a block so far. */
  ghost function Cast(ballots: map<nat, seq<Ballot>>, blk: nat): seq<Ballot> {
    if blk in ballots then ballots[blk] else []
  }

  /** The ballots that accept the i-th transaction. */
  ghost function Yes(bs: seq<Ballot>, i: nat): set<nat> {
    set j: nat | j < |bs| && i < |bs[j]| && bs[j][i]
  }

  ghost function Counts(bs: seq<Ballot>, n: nat): seq<nat> {
    seq(n, i requires 0 <= i < n => |Yes(bs, i)|)
  }

  /** A tally counts the ballots and, for each transaction, those that accept it. */
  ghost predicate TallyOk(t: Tally, bs: seq<Ballot>) {
    && t.received == |bs| && t.accepts == Counts(bs, |t.accepts|)
    && forall j :: 0 <= j < |bs| ==> |bs[j]| == |t.accepts|
  }

  /** Every tally is right, and only finished queries have ballots without one. */
  ghost predicate Tallied(votes: map<nat, Tally>, ballots: map<nat, seq<Ballot>>, finished: set<nat>) {
    && ballots.Keys <= votes.Keys + finished
    && forall q :: q in votes ==> q in ballots && TallyOk(votes[q], ballots[q])
  }

  lemma TallyMeans(t: Tally, bs: seq<Ballot>)
    requires TallyOk(t, bs)
    ensures t.received == |bs| && t.accepts == Counts(bs, |t.accepts|)
    ensures forall i: nat :: i < |t.accepts| ==> t.accepts[i] == |set j: nat | j < |bs| && i < |bs[j]| && bs[j][i]|
  {
    forall i: nat | i < |t.accepts| ensures t.accepts[i] == |set j: nat | j < |bs| && i < |bs[j]| && bs[j][i]| {
      assert t.accepts[i] == Counts(bs, |t.accepts|)[i] == |Yes(bs, i)|;
    }
  }

  lemma YesSnoc(bs: seq<Ballot>, v: Ballot, i: nat)
    requires i < |v|
    ensures |Yes(bs + [v], i)| == |Yes(bs, i)| + if v[i] then 1 else 0
  {
    var n := |bs|;
    assert Yes(bs + [v], i) == Yes(bs, i) + if v[i] then {n} else {};
    assert n !in Yes(bs, i);
  }

  /** One more ballot, counted one transaction at a time. */
  lemma TallySnoc(t: Tally, bs: seq<Ballot>, v: Ballot, accepts: seq<nat>)
    requires TallyOk(t, bs) && |v| == |t.accepts| == |accepts|
    requires forall i :: 0 <= i < |v| ==> accepts[i] == t.accepts[i] + if v[i] then 1 else 0
    ensures TallyOk(Tally(t.received + 1, accepts), bs + [v])
  {
    hide Yes;
    forall i | 0 <= i < |v| ensures accepts[i] == |Yes(bs + [v], i)| { YesSnoc(bs, v, i); }
    assert accepts == Counts(bs + [v], |v|);
  }

  lemma NoBallots(n: nat, accepts: seq<nat>)
    requires |accepts| == n && forall i :: 0 <= i < n ==> accepts[i] == 0
    ensures TallyOk(Tally(0, accepts), [])
  {
    assert forall i: nat :: Yes([], i) == {};
    assert accepts == Counts([], n);
  }

  lemma TalliedRecount(votes: map<nat, Tally>, ballots: map<nat, seq<Ballot>>, finished: set<nat>, blk: nat, t: Tally, bs: seq<Ballot>)
    requires Tallied(votes, ballots, finished) && TallyOk(t, bs)
    ensures Tallied(votes[blk := t], ballots[blk := bs], finished)
  {
    hide TallyOk;
  }

  lemma TalliedClose(votes: map<nat, Tally>, ballots: map<nat, seq<Ballot>>, finished: set<nat>, blk: nat)
    requires Tallied(votes, ballots, finished)
    ensures Tallied(votes - {blk}, ballots, finished + {blk})
  {
    hide TallyOk;
  }

  /** What is cast for an unfinished block is what its tally counts. */
  lemma CastTallied(votes: map<nat, Tally>, ballots: map<nat, seq<Ballot>>, finished: set<nat>, blk: nat)
    requires Tallied(votes, ballots, finished)
    ensures blk in votes ==> TallyOk(votes[blk], Cast(ballots, blk))
    ensures blk !in votes && blk !in finished ==> Cast(ballots, blk) == []
  {
    hide TallyOk;
  }

  /** A query is opened before any ballot was cast. */
  lemma TalliedOpen(votes: map<nat, Tally>, ballots: map<nat, seq<Ballot>>, finished: set<nat>, blk: nat, n: nat)
    requires Tallied(votes, ballots, finished) && blk !in votes && blk !in finished
    ensures Tallied(votes[blk := Tally(0, seq(n, i => 0))], ballots[blk := []], finished)
    ensures Cast(ballots, blk) == Cast(ballots[blk := []], blk)
    ensures Cast(ballots, blk) == []
  {
    NoBallots(n, seq(n, i => 0));
    TalliedRecount(votes, ballots, finished, blk, Tally(0, seq(n, i => 0)), []);
  }

  // ---------------------------------------------------------------- what the votes decide

  /** Visit the transactions of a block that gathered enough votes, in block order. */
  ghost function VoteAll(b: Betas, s: Votes, txns: seq<Option<Hash>>, accepts: seq<nat>, thresh: nat): (r: Votes)
    requires s.dag.Keys <= s.pool.Keys && |txns| == |accepts|
    ensures r.dag.Keys <= r.pool.Keys && r.pool == s.pool
  {
    if txns == [] then s
    else
      var n := |txns| - 1;
      var before := VoteAll(b, s, txns[..n], accepts[..n], thresh);
      if txns[n].Some? && accepts[n] >= thresh then Visit(b, before, txns[n].value, {}).s else before
  }

  lemma VoteNext(b: Betas, s: Votes, txns: seq<Option<Hash>>, accepts: seq<nat>, thresh: nat, i: nat)
    requires s.dag.Keys <= s.pool.Keys && i < |txns| == |accepts|
    ensures var before := VoteAll(b, s, txns[..i], accepts[..i], thresh);
            VoteAll(b, s, txns[..i + 1], accepts[..i + 1], thresh) ==
            if txns[i].Some? && accepts[i] >= thresh then Visit(b, before, txns[i].value, {}).s else before
  {
    hide Visit;
    assert txns[..i + 1][..i] == txns[..i] && accepts[..i + 1][..i] == accepts[..i];
  }

  /** The positions, ascending, of the transactions that at least `thresh` ballots accept. */
  ghost predicate Winners(query: seq<Option<Hash>>, bs: seq<Ballot>, thresh: nat, ws: seq<nat>) {
    && (forall a, c :: 0 <= a < c < |ws| ==> ws[a] < ws[c])
    && (forall i: nat :: i in ws <==>
          i < |query| && query[i].Some? && |set j: nat | j < |bs| && i < |bs[j]| && bs[j][i]| >= thresh)
  }

  /** One vote after the other, each for the DAG that the earlier ones left. */
  ghost function VisitEach(b: Betas, s: Votes, query: seq<Option<Hash>>, ws: seq<nat>): (r: Votes)
    requires s.dag.Keys <= s.pool.Keys && forall i :: i in ws ==> i < |query| && query[i].Some?
    ensures r.dag.Keys <= r.pool.Keys
  {
    if ws == [] then s
    else
      var n := |ws| - 1;
      assert ws[n] in ws && forall i :: i in ws[..n] ==> i in ws;
      Visit(b, VisitEach(b, s, query, ws[..n]), query[ws[n]].value, {}).s
  }

  /** `s'` is `s` after one vote for each transaction that at least `thresh` ballots accept. */
  ghost predicate Elects(b: Betas, s: Votes, query: seq<Option<Hash>>, bs: seq<Ballot>, thresh: nat, s': Votes) {
    && s.dag.Keys <= s.pool.Keys
    && exists ws :: Winners(query, bs, thresh, ws) && s' == VisitEach(b, s, query, ws)
  }

  ghost predicate Elected(query: seq<Option<Hash>>, bs: seq<Ballot>, thresh: nat, i: nat) {
    i < |query| && query[i].Some? && |Yes(bs, i)| >= thresh
  }

  /** The same among the first `m` positions. */
  ghost predicate WinnersUpTo(query: seq<Option<Hash>>, bs: seq<Ballot>, thresh: nat, m: nat, ws: seq<nat>) {
    && (forall a, c :: 0 <= a < c < |ws| ==> ws[a] < ws[c])
    && (forall i: nat :: i in ws <==> i < m && Elected(query, bs, thresh, i))
  }

  lemma WinnersNext(query: seq<Option<Hash>>, bs: seq<Ballot>, thresh: nat, m: nat, ws: seq<nat>)
    requires m < |query| && WinnersUpTo(query, bs, thresh, m, ws)
    ensures WinnersUpTo(query, bs, thresh, m + 1, if Elected(query, bs, thresh, m) then ws + [m] else ws)
  {
    hide Elected;
    if Elected(query, bs, thresh, m) {
      var ws' := ws + [m];
      forall a, c | 0 <= a < c < |ws'| ensures ws'[a] < ws'[c] {
        assert ws'[a] == ws[a] && ws[a] in ws;
      }
    }
  }

  lemma VisitEachSnoc(b: Betas, s: Votes, query: seq<Option<Hash>>, ws: seq<nat>, m: nat)
    requires s.dag.Keys <= s.pool.Keys && m < |query| && query[m].Some? && forall i :: i in ws ==> i < |query| && query[i].Some?
    ensures VisitEach(b, s, query, ws + [m]) == Visit(b, VisitEach(b, s, query, ws), query[m].value, {}).s
  {
    hide Visit;
    assert (ws + [m])[..|ws|] == ws;
  }

  lemma {:induction false} VotesUpTo(b: Betas, s: Votes, query: seq<Option<Hash>>, bs: seq<Ballot>, accepts: seq<nat>, thresh: nat, m: nat)
    returns (ws: seq<nat>)
    requires s.dag.Keys <= s.pool.Keys && m <= |query| == |accepts|
    requires forall i :: 0 <= i < |accepts| ==> accepts[i] == |Yes(bs, i)|
    ensures WinnersUpTo(query, bs, thresh, m, ws) && forall i :: i in ws ==> i < |query| && query[i].Some?
    ensures VoteAll(b, s, query[..m], accepts[..m], thresh) == VisitEach(b, s, query, ws)
  {
    hide Visit, Yes, VoteAll, VisitEach;
    if m == 0 {
      ws := [];
      NoVotes(b, s, query, bs, thresh);
      assert query[..0] == [] && accepts[..0] == [];
    } else {
      var front := VotesUpTo(b, s, query, bs, accepts, thresh, m - 1);
      VoteNext(b, s, query, accepts, thresh, m - 1);
      WinnersNext(query, bs, thresh, m - 1, front);
      hide WinnersUpTo;
      if query[m - 1].Some? && |Yes(bs, m - 1)| >= thresh {
        ws := front + [m - 1];
        VisitEachSnoc(b, s, query, front, m - 1);
      } else {
        ws := front;
      }
    }
  }

  lemma NoVotes(b: Betas, s: Votes, query: seq<Option<Hash>>, bs: seq<Ballot>, thresh: nat)
    requires s.dag.Keys <= s.pool.Keys
    ensures WinnersUpTo(query, bs, thresh, 0, []) && VoteAll(b, s, [], [], thresh) == s == VisitEach(b, s, query, [])
  {
  }

  /** Comparing the counts with the threshold elects exactly what enough ballots accept. */
  lemma CountsElect(b: Betas, s: Votes, query: seq<Option<Hash>>, bs: seq<Ballot>, thresh: nat)
    requires s.dag.Keys <= s.pool.Keys
    ensures Elects(b, s, query, bs, thresh, VoteAll(b, s, query, Counts(bs, |query|), thresh))
  {
    var ws := VotesUpTo(b, s, query, bs, Counts(bs, |query|), thresh, |query|);
    assert query[..|query|] == query && Counts(bs, |query|)[..|query|] == Counts(bs, |query|);
    WinnersAre(query, bs, thresh, ws);
    hide VisitEach, VoteAll, Winners, Counts, Yes, WinnersUpTo;
  }

  lemma WinnersAre(query: seq<Option<Hash>>, bs: seq<Ballot>, thresh: nat, ws: seq<nat>)
    requires WinnersUpTo(query, bs, thresh, |query|, ws)
    ensures Winners(query, bs, thresh, ws)
  {
    forall i: nat ensures i in ws <==> Elected(query, bs, thresh, i) {}
  }
}
