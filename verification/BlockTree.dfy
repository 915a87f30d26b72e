/**
 The pool of blocks a validator has seen, as a tree rooted in the genesis hash 0.

 Every pooled block carries a height, which is its distance from genesis when all its ancestors
 are pooled and 0 otherwise. Blocks of height 0 are filed under their parent's hash.
 */
module BlockTree {
  import opened Ledger

  const GENESIS: Hash := 0

  datatype Block = Block(prev: Hash, txns: seq<Txn>, nonce: nat, merkleOk: bool, proposer: nat)
  datatype Entry = Entry(block: Block, height: nat)
  datatype Link = Link(hash: Hash, block: Block)

  type Pool = map<Hash, Entry>
  type Orphans = map<Hash, set<Hash>>

  // ---------------------------------------------------------------- paths

  /** `h` is the end of a chain of `n` pooled blocks that starts right after genesis. */
  ghost predicate Linked(p: Pool, h: Hash, n: nat)
    decreases n
  {
    if n == 0 then h == GENESIS else h != GENESIS && h in p && Linked(p, p[h].block.prev, n - 1)
  }

  ghost function Path(p: Pool, h: Hash, n: nat): (ls: seq<Link>)
    requires Linked(p, h, n)
    ensures |ls| == n
    decreases n
  {
    if n == 0 then [] else Path(p, p[h].block.prev, n - 1) + [Link(h, p[h].block)]
  }

  function Txns(ls: seq<Link>): seq<Txn> {
    if ls == [] then [] else Txns(ls[..|ls| - 1]) + ls[|ls| - 1].block.txns
  }

  lemma {:induction false} TxnsConcat(a: seq<Link>, b: seq<Link>)
    ensures Txns(a + b) == Txns(a) + Txns(b)
  {
    if b == [] {
      assert a + b == a;
    } else {
      var b' := b[..|b| - 1];
      TxnsConcat(a, b');
      assert (a + b)[..|a + b| - 1] == a + b';
    }
  }

  /** `p'` has every block of `p`, with heights kept once they are known. */
  ghost predicate Grew(p: Pool, p': Pool) {
    forall h :: h in p ==> h in p' && p'[h].block == p[h].block && (p[h].height > 0 ==> p'[h] == p[h])
  }

  /** `p'` has every block of `p`, whatever the heights. */
  ghost predicate Extends(p: Pool, p': Pool) {
    forall h :: h in p ==> h in p' && p'[h].block == p[h].block
  }

  lemma {:induction false} PathFrame(p: Pool, p': Pool, h: Hash, n: nat)
    requires Linked(p, h, n) && Extends(p, p')
    ensures Linked(p', h, n) && Path(p', h, n) == Path(p, h, n)
    decreases n
  {
    if n > 0 { PathFrame(p, p', p[h].block.prev, n - 1); }
  }

  lemma {:induction false} LinkedUnique(p: Pool, h: Hash, n: nat, m: nat)
    requires Linked(p, h, n) && Linked(p, h, m)
    ensures n == m
    decreases n
  {
    if n > 0 && m > 0 { LinkedUnique(p, p[h].block.prev, n - 1, m - 1); }
  }

  ghost function HashAt(ls: seq<Link>, n: nat): Hash
    requires n <= |ls|
  {
    if n == 0 then GENESIS else ls[n - 1].hash
  }

  /** Every prefix of a path is the path of its own last block. */
  lemma {:induction false} PathPrefix(p: Pool, h: Hash, n: nat, j: nat)
    requires Linked(p, h, n) && j <= n
    ensures Linked(p, HashAt(Path(p, h, n), j), j)
    ensures Path(p, HashAt(Path(p, h, n), j), j) == Path(p, h, n)[..j]
    decreases n
  {
    var ls := Path(p, h, n);
    if j == n {
      assert ls[..j] == ls;
    } else {
      var prev := p[h].block.prev;
      PathPrefix(p, prev, n - 1, j);
      assert ls[..j] == Path(p, prev, n - 1)[..j];
    }
  }

  /** The block of a path at position `j` is the pooled one, and its parent is the block before it. */
  lemma PathStep(p: Pool, h: Hash, n: nat, j: nat)
    requires Linked(p, h, n) && 0 < j <= n
    ensures var ls := Path(p, h, n);
            && HashAt(ls, j) != GENESIS && HashAt(ls, j) in p
            && ls[j - 1] == Link(HashAt(ls, j), p[HashAt(ls, j)].block)
            && p[HashAt(ls, j)].block.prev == HashAt(ls, j - 1)
            && Linked(p, HashAt(ls, j - 1), j - 1)
  {
    var ls := Path(p, h, n);
    PathPrefix(p, h, n, j);
    PathPrefix(p, h, n, j - 1);
    var x := HashAt(ls, j);
    assert Path(p, x, j)[j - 1] == ls[..j][j - 1];
    if j > 1 {
      var q := Path(p, p[x].block.prev, j - 1);
      assert q == Path(p, x, j)[..j - 1];
      assert q[j - 2] == ls[j - 2];
    }
  }

  /** No block occurs twice on a path. */
  lemma PathDistinct(p: Pool, h: Hash, n: nat, i: nat, j: nat)
    requires Linked(p, h, n) && i <= n && j <= n
    ensures HashAt(Path(p, h, n), i) == HashAt(Path(p, h, n), j) ==> i == j
  {
    PathPrefix(p, h, n, i);
    PathPrefix(p, h, n, j);
    if HashAt(Path(p, h, n), i) == HashAt(Path(p, h, n), j) {
      LinkedUnique(p, HashAt(Path(p, h, n), i), i, j);
    }
  }

  // ---------------------------------------------------------------- heights and orphans

  ghost predicate Filed(o: Orphans, parent: Hash, h: Hash) {
    parent in o && h in o[parent]
  }

  /** Blocks whose height could be computed from their parent's, but is still 0. */
  ghost function Unsettled(p: Pool): set<Hash> {
    set h | h in p && p[h].height == 0 && p[h].block.prev in p && p[p[h].block.prev].height > 0
  }

  ghost function ZeroHeight(p: Pool): set<Hash> {
    set h | h in p && p[h].height == 0
  }

  /** A known height is one more than the parent's, which is known too. */
  ghost predicate HeightOk(p: Pool, h: Hash)
    requires h in p
  {
    var prev := p[h].block.prev;
    if prev == GENESIS then p[h].height == 1
    else p[h].height > 0 ==> prev in p && p[prev].height > 0 && p[h].height == p[prev].height + 1
  }

  /** What holds of heights and filings at all times; `loose` blocks are unfiled and wait for a height. */
  ghost predicate TreeInv(p: Pool, o: Orphans, loose: set<Hash>) {
    && GENESIS !in p
    && loose <= ZeroHeight(p)
    && (forall h {:trigger HeightOk(p, h)} :: h in p ==> HeightOk(p, h))
    && (forall h :: h in p && p[h].height == 0 && h !in loose ==> Filed(o, p[h].block.prev, h))
    && (forall q, h :: Filed(o, q, h) ==> h in p && p[h].block.prev == q && p[h].height == 0 && h !in loose)
  }

  /** Between two steps nothing is loose and nothing is unsettled. */
  ghost predicate Settled(p: Pool, o: Orphans) {
    TreeInv(p, o, {}) && Unsettled(p) == {}
  }

  lemma {:induction false} HeightSound(p: Pool, o: Orphans, loose: set<Hash>, h: Hash)
    requires TreeInv(p, o, loose) && h in p && p[h].height > 0
    ensures Linked(p, h, p[h].height)
    decreases p[h].height
  {
    assert HeightOk(p, h);
    if p[h].block.prev != GENESIS {
      HeightSound(p, o, loose, p[h].block.prev);
    } else {
      assert Linked(p, GENESIS, 0);
    }
  }

  lemma {:induction false} HeightComplete(p: Pool, o: Orphans, h: Hash, n: nat)
    requires Settled(p, o) && n > 0 && Linked(p, h, n)
    ensures p[h].height == n
    decreases n
  {
    var prev := p[h].block.prev;
    assert HeightOk(p, h);
    if n > 1 {
      HeightComplete(p, o, prev, n - 1);
      assert h !in Unsettled(p);
    }
  }

  /**
   The meaning of heights: a positive height is the distance from genesis, and height 0 means
   that no distance exists. Height-0 blocks are exactly those filed under their parent.
   */
  lemma HeightIsDistance(p: Pool, o: Orphans, h: Hash)
    requires Settled(p, o) && h in p
    ensures forall n: nat :: n > 0 ==> (Linked(p, h, n) <==> p[h].height == n)
    ensures p[h].height == 0 <==> Filed(o, p[h].block.prev, h)
  {
    forall n: nat | n > 0 ensures Linked(p, h, n) <==> p[h].height == n {
      if Linked(p, h, n) { HeightComplete(p, o, h, n); }
      if p[h].height == n { HeightSound(p, o, {}, h); }
    }
  }

  /** A block of unknown height has a parent that is missing or of unknown height itself. */
  lemma OrphanParent(p: Pool, o: Orphans, h: Hash)
    requires Settled(p, o) && h in p && p[h].height == 0
    ensures p[h].block.prev != GENESIS
    ensures p[h].block.prev in p ==> p[p[h].block.prev].height == 0
  {
    assert h !in Unsettled(p) && HeightOk(p, h);
  }

  lemma Detach(p: Pool, o: Orphans, loose: set<Hash>, b: Hash)
    requires TreeInv(p, o, loose)
    ensures var kids := if b in o then o[b] else {};
            TreeInv(p, o - {b}, loose + kids) && kids !! loose
  {
    var kids := if b in o then o[b] else {};
    assert forall h :: h in kids ==> Filed(o, b, h);
    assert forall q, h :: Filed(o - {b}, q, h) <==> Filed(o, q, h) && q != b;
  }

  /** Giving a loose block the height after its parent's keeps the invariant and unsettles only its children. */
  lemma Connect(p: Pool, o: Orphans, loose: set<Hash>, c: Hash)
    requires TreeInv(p, o, loose) && c in loose && Unsettled(p) <= loose
    requires p[c].block.prev in p && p[p[c].block.prev].height > 0
    ensures var p' := p[c := p[c].(height := p[p[c].block.prev].height + 1)];
            && TreeInv(p', o, loose - {c}) && Grew(p, p')
            && ZeroHeight(p') == ZeroHeight(p) - {c}
            && (forall h :: h in Unsettled(p') ==> h in loose - {c} || p'[h].block.prev == c)
  {
    var p' := p[c := p[c].(height := p[p[c].block.prev].height + 1)];
    forall h | h in p' ensures HeightOk(p', h) { assert HeightOk(p, h) && HeightOk(p, c); }
  }

  /** Adding a block of known height keeps the invariant and unsettles only its children. */
  lemma AddConnected(p: Pool, o: Orphans, b: Hash, e: Entry)
    requires Settled(p, o) && b != GENESIS && b !in p && e.block.prev != b && e.height > 0
    requires if e.block.prev == GENESIS then e.height == 1
             else e.block.prev in p && p[e.block.prev].height > 0 && e.height == p[e.block.prev].height + 1
    ensures TreeInv(p[b := e], o, {}) && Grew(p, p[b := e])
    ensures var p' := p[b := e]; forall h :: h in Unsettled(p') ==> p'[h].block.prev == b
  {
    var p' := p[b := e];
    forall h | h in p' ensures HeightOk(p', h) { if h != b { assert HeightOk(p, h); } }
    assert forall h :: h in Unsettled(p') && p'[h].block.prev != b ==> h in Unsettled(p);
  }

  function FileOrphan(o: Orphans, parent: Hash, b: Hash): Orphans {
    o[parent := (if parent in o then o[parent] else {}) + {b}]
  }

  /** Adding a block with a missing ancestor, filed under its parent, keeps everything settled. */
  lemma AddOrphan(p: Pool, o: Orphans, b: Hash, blk: Block)
    requires Settled(p, o) && b != GENESIS && b !in p && blk.prev != b && blk.prev != GENESIS
    requires blk.prev in p ==> p[blk.prev].height == 0
    ensures Settled(p[b := Entry(blk, 0)], FileOrphan(o, blk.prev, b)) && Grew(p, p[b := Entry(blk, 0)])
  {
    var p', o' := p[b := Entry(blk, 0)], FileOrphan(o, blk.prev, b);
    forall h | h in p' ensures HeightOk(p', h) { if h != b { assert HeightOk(p, h); } }
    assert forall q, h :: Filed(o', q, h) <==> Filed(o, q, h) || (q == blk.prev && h == b);
    assert Unsettled(p') <= Unsettled(p);
  }

  /** A block that no pooled block refers to lies on no path but its own. */
  lemma {:induction false} LeafPath(p: Pool, b: Hash, e: Entry, h: Hash, n: nat)
    requires b !in p && b != GENESIS && (forall x :: x in p ==> p[x].block.prev != b) && e.block.prev != b
    requires Linked(p[b := e], h, n)
    ensures h != b ==> Linked(p, h, n) && Path(p[b := e], h, n) == Path(p, h, n)
    ensures h == b ==>
              && n > 0 && Linked(p, e.block.prev, n - 1)
              && Path(p[b := e], h, n) == Path(p, e.block.prev, n - 1) + [Link(b, e.block)]
    decreases n
  {
    if n > 0 { LeafPath(p, b, e, p[b := e][h].block.prev, n - 1); }
  }

  // ---------------------------------------------------------------- reconnecting orphans

  /** Heights newly known in `p'` are at most that of `tail`, which is `b` itself or newly known. */
  ghost predicate Reconnected(p: Pool, p': Pool, b: Hash, tail: Hash, tailHeight: nat) {
    && Grew(p, p') && p'.Keys == p.Keys
    && b in p && b in p' && p[b].height > 0
    && tail in p' && p'[tail].height == tailHeight >= p'[b].height
    && (tail == b || p[tail].height == 0)
    && (forall h :: h in p && p[h].height == 0 ==> p'[h].height <= tailHeight)
  }

  lemma ReconnectedRefl(p: Pool, b: Hash)
    requires b in p && p[b].height > 0
    ensures Reconnected(p, p, b, b, p[b].height)
  {
  }

  lemma ReconnectedKeeps(p: Pool, p': Pool, b: Hash, tail: Hash, tailHeight: nat)
    requires Reconnected(p, p', b, tail, tailHeight)
    ensures Grew(p, p') && p'.Keys == p.Keys && b in p && b in p' && p'[b] == p[b]
    ensures forall h :: h in p ==> h in p' && p'[h].block == p[h].block
  {
  }

  lemma NoChildren(p: Pool, o: Orphans, loose: set<Hash>, b: Hash)
    requires TreeInv(p, o, loose) && b !in o
    requires forall h :: h in Unsettled(p) ==> h in loose || p[h].block.prev == b
    ensures Unsettled(p) <= loose
  {
    forall h | h in Unsettled(p) ensures h in loose {
      assert h !in loose ==> Filed(o, b, h);
    }
  }

  lemma DetachUnsettled(p: Pool, o: Orphans, loose: set<Hash>, b: Hash)
    requires TreeInv(p, o, loose) && b in o
    requires forall h :: h in Unsettled(p) ==> h in loose || p[h].block.prev == b
    ensures Unsettled(p) <= loose + o[b]
    ensures forall c :: c in o[b] ==> c in p && p[c].block.prev == b
  {
    forall h | h in Unsettled(p) ensures h in loose + o[b] {
      assert h !in loose ==> Filed(o, b, h);
    }
    forall c | c in o[b] ensures c in p && p[c].block.prev == b { assert Filed(o, b, c); }
  }

  lemma LooseHeight(p: Pool, o: Orphans, loose: set<Hash>, c: Hash)
    requires TreeInv(p, o, loose) && c in loose
    ensures c in p && p[c].height == 0
  {
  }

  lemma ZeroShrinks(p: Pool, p1: Pool, c: Hash)
    requires Grew(p, p1) && p1.Keys == p.Keys && c in p1 && p1[c].height == 0
    ensures ZeroHeight(p1) - {c} < ZeroHeight(p)
  {
    assert ZeroHeight(p1) <= ZeroHeight(p);
    assert c in ZeroHeight(p);
  }

  /** Reconnecting below one child extends what was reconnected before it. */
  lemma ReconnectedTrans(p0: Pool, p1: Pool, p2: Pool, p3: Pool, b: Hash, c: Hash,
                         tail: Hash, height: nat, t: Hash, th: nat)
    requires Reconnected(p0, p1, b, tail, height) && Reconnected(p2, p3, c, t, th)
    requires c in p1 && p1[c].height == 0 && p2 == p1[c := p1[c].(height := p1[b].height + 1)]
    ensures th > height ==> Reconnected(p0, p3, b, t, th)
    ensures th <= height ==> Reconnected(p0, p3, b, tail, height)
  {
    hide TreeInv, Unsettled, ZeroHeight;
    assert Grew(p0, p3);
  }
}
