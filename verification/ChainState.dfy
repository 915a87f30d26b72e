/**
 The state of the Bitcoin block manager as a value, its invariant, and one lemma for each way
 the manager changes it.
 */
module ChainState {
  import opened Collections
  import opened Ledger
  import opened BlockTree
  import opened Values
  import opened Reorg

  /** The manager's fields, except those that only time a proof of work. */
  datatype State = State(
    txnPool: TxnPool, blocks: Pool, orphans: Orphans, utxo: set<Utxo>, tail: Hash,
    pending: seq<Hash>, building: seq<Hash>, newUtxo: set<Utxo>, utxoSpent: set<Utxo>)

  function Length(p: Pool, tail: Hash): nat {
    if tail in p then p[tail].height else 0
  }

  /** The chain that ends in `tail`. */
  ghost function Chain(p: Pool, tail: Hash): seq<Link> {
    if Linked(p, tail, Length(p, tail)) then Path(p, tail, Length(p, tail)) else []
  }

  ghost function Active(p: Pool, tail: Hash): seq<Txn> {
    Txns(Chain(p, tail))
  }

  ghost predicate AllIn(hs: seq<Hash>, pool: TxnPool) {
    forall h :: h in hs ==> h in pool
  }

  function Lookup(pool: TxnPool, hs: seq<Hash>): (ts: seq<Txn>)
    requires AllIn(hs, pool)
    ensures |ts| == |hs| && forall i :: 0 <= i < |hs| ==> ts[i] == pool[hs[i]]
  {
    seq(|hs|, i requires 0 <= i < |hs| => pool[hs[i]])
  }

  lemma LookupAt(pool: TxnPool, hs: seq<Hash>)
    requires AllIn(hs, pool)
    ensures forall i :: 0 <= i < |hs| ==> hs[i] in pool && Lookup(pool, hs)[i] == pool[hs[i]]
  {
  }

  // ---------------------------------------------------------------- the invariant

  /** Every chain of pooled blocks uses ids injectively and repeats no transaction that spends nothing. */
  ghost predicate Honest(p: Pool) {
    forall h: Hash, n: nat :: Linked(p, h, n) ==> SourcesOnce(Txns(Path(p, h, n)))
  }

  ghost predicate Ranked(p: Pool, rank: Hash -> nat) {
    forall h :: h in p && p[h].block.prev != GENESIS ==> rank(p[h].block.prev) < rank(h)
  }

  ghost predicate TailOk(p: Pool, tail: Hash) {
    tail == GENESIS || (tail in p && p[tail].height > 0)
  }

  ghost predicate TreeOk(p: Pool, o: Orphans, tail: Hash, rank: Hash -> nat) {
    Settled(p, o) && Ranked(p, rank) && Honest(p) && TailOk(p, tail)
  }

  ghost predicate PoolOk(pool: TxnPool) {
    forall h :: h in pool ==> pool[h].id == h && Distinct(OutKeys(pool[h]))
  }

  /** The transactions of pooled blocks are pooled. */
  ghost predicate Known(pool: TxnPool, p: Pool) {
    forall h, t :: h in p && t in p[h].block.txns ==> t.id in pool && pool[t.id] == t
  }

  /** The mempool and the block under construction hold distinct transactions that are not on the chain. */
  ghost predicate MempoolOk(pool: TxnPool, pending: seq<Hash>, building: seq<Hash>, active: set<Hash>) {
    && Distinct(pending) && Distinct(building)
    && Elems(pending) !! Elems(building) && Elems(pending) + Elems(building) !! active
    && (forall h :: h in Elems(pending) + Elems(building) ==> h in pool && Distinct(InKeys(pool[h])))
  }

  /** The block under construction replays on top of the chain, with `spendable` as its outcome. */
  ghost predicate BuildOk(pool: TxnPool, building: seq<Hash>, active: seq<Txn>, spendable: set<Utxo>, spent: set<Utxo>) {
    && AllIn(building, pool)
    && Replay(active + Lookup(pool, building), {}) == Some(spendable)
    && (forall k :: k in spent ==> k.txn in Ids(active + Lookup(pool, building)))
  }

  /** Outputs spendable by the next transaction of the block under construction. */
  function Spendable(s: State): set<Utxo> {
    View(s.utxo, Delta(s.newUtxo, s.utxoSpent))
  }

  ghost predicate Inv(s: State, rank: Hash -> nat) {
    && TreeOk(s.blocks, s.orphans, s.tail, rank)
    && PoolOk(s.txnPool) && Known(s.txnPool, s.blocks)
    && Replay(Active(s.blocks, s.tail), {}) == Some(s.utxo)
    && MempoolOk(s.txnPool, s.pending, s.building, Ids(Active(s.blocks, s.tail)))
    && BuildOk(s.txnPool, s.building, Active(s.blocks, s.tail), Spendable(s), s.utxoSpent)
  }

  /** Everything the manager has to place: mempool, block under construction and chain. */
  ghost function Held(s: State): set<Hash> {
    Elems(s.pending) + Elems(s.building) + Ids(Active(s.blocks, s.tail))
  }

  lemma TailLinked(p: Pool, o: Orphans, tail: Hash, rank: Hash -> nat)
    requires TreeOk(p, o, tail, rank)
    ensures Linked(p, tail, Length(p, tail)) && (Length(p, tail) == 0 <==> tail == GENESIS)
    ensures SourcesOnce(Active(p, tail))
  {
    if tail != GENESIS { HeightSound(p, o, {}, tail); }
  }

  lemma {:induction false} PathKnown(pool: TxnPool, p: Pool, h: Hash, n: nat)
    requires Known(pool, p) && PoolOk(pool) && Linked(p, h, n)
    ensures forall t :: t in Txns(Path(p, h, n)) ==> t.id in pool && pool[t.id] == t
    ensures OutsDistinct(Txns(Path(p, h, n)))
    decreases n
  {
    if n > 0 {
      PathKnown(pool, p, p[h].block.prev, n - 1);
      var ls := Path(p, h, n);
      assert ls[..n - 1] == Path(p, p[h].block.prev, n - 1);
      forall t | t in Txns(ls) ensures t.id in pool && pool[t.id] == t && Distinct(OutKeys(t)) {
        assert t in Txns(ls[..n - 1]) || t in p[h].block.txns;
      }
    }
  }

  lemma ActiveKnown(s: State, rank: Hash -> nat)
    requires Inv(s, rank)
    ensures var active := Active(s.blocks, s.tail);
            && Ids(active) <= s.txnPool.Keys && DistinctIds(active) && OutsDistinct(active)
            && (forall t :: t in active ==> t.id in s.txnPool && s.txnPool[t.id] == t)
  {
    TailLinked(s.blocks, s.orphans, s.tail, rank);
    PathKnown(s.txnPool, s.blocks, s.tail, Length(s.blocks, s.tail));
    hide SourcesOnce, DistinctIds, Replay, Txns;
    ReplayNeverRepeats(Active(s.blocks, s.tail));
    assert forall t :: t in Active(s.blocks, s.tail) ==> t.id in s.txnPool;
  }

  lemma EmptyInv(rank: Hash -> nat)
    ensures Inv(State(map[], map[], map[], {}, GENESIS, [], [], {}, {}), rank)
  {
    var p: Pool, o: Orphans, pool: TxnPool := map[], map[], map[];
    assert Settled(p, o);
    assert Honest(p) by {
      forall h: Hash, n: nat | Linked(p, h, n) ensures SourcesOnce(Txns(Path(p, h, n))) { assert n == 0; }
    }
    assert Active(p, GENESIS) == [] && [] + Lookup(pool, []) == [];
    ViewNoChange({});
  }

  // ---------------------------------------------------------------- recording a transaction

  function Record(s: State, t: Txn): State {
    s.(txnPool := s.txnPool[t.id := t], pending := s.pending + [t.id])
  }

  lemma RecordMempool(pool: TxnPool, pending: seq<Hash>, building: seq<Hash>, active: set<Hash>, t: Txn)
    requires MempoolOk(pool, pending, building, active) && t.id !in pool && active <= pool.Keys && Distinct(InKeys(t))
    ensures MempoolOk(pool[t.id := t], pending + [t.id], building, active)
  {
    hide InKeys;
    DistinctConcat(pending, [t.id]);
    assert Elems(pending + [t.id]) == Elems(pending) + {t.id};
  }

  /** The builder's invariant only looks at the transactions of its block. */
  lemma BuildFrame(pool: TxnPool, pool': TxnPool, building: seq<Hash>, active: seq<Txn>, v: set<Utxo>, spent: set<Utxo>)
    requires BuildOk(pool, building, active, v, spent)
    requires forall h :: h in pool ==> h in pool' && pool'[h] == pool[h]
    ensures BuildOk(pool', building, active, v, spent)
  {
    hide Replay, Ids;
    assert Lookup(pool', building) == Lookup(pool, building);
  }

  lemma RecordKnown(pool: TxnPool, p: Pool, t: Txn)
    requires PoolOk(pool) && Known(pool, p) && t.id !in pool && Distinct(OutKeys(t))
    ensures PoolOk(pool[t.id := t]) && Known(pool[t.id := t], p)
  {
    hide OutKeys, Distinct;
  }

  lemma RecordKeeps(s: State, rank: Hash -> nat, t: Txn)
    requires Inv(s, rank) && t.id !in s.txnPool && Distinct(OutKeys(t)) && Distinct(InKeys(t))
    ensures Inv(Record(s, t), rank)
  {
    hide Replay, InKeys, OutKeys, Ids, Active, Distinct, MempoolOk, BuildOk, TreeOk, View, DistinctIds, OutsDistinct, PoolOk, Known;
    ActiveKnown(s, rank);
    RecordKnown(s.txnPool, s.blocks, t);
    RecordMempool(s.txnPool, s.pending, s.building, Ids(Active(s.blocks, s.tail)), t);
    BuildFrame(s.txnPool, Record(s, t).txnPool, s.building, Active(s.blocks, s.tail), Spendable(s), s.utxoSpent);
  }

  // ---------------------------------------------------------------- assembling a block

  lemma LookupIds(pool: TxnPool, hs: seq<Hash>)
    requires AllIn(hs, pool) && PoolOk(pool)
    ensures Ids(Lookup(pool, hs)) == Elems(hs)
  {
    hide OutKeys;
    var ts := Lookup(pool, hs);
    assert forall i :: 0 <= i < |hs| ==> ts[i].id == hs[i];
  }

  /** Move the first pending transaction into the block under construction. */
  function Admit(s: State): State
    requires s.pending != [] && s.pending[0] in s.txnPool
  {
    var t := s.txnPool[s.pending[0]];
    s.(pending := s.pending[1..], building := s.building + [s.pending[0]],
       newUtxo := s.newUtxo + Elems(OutKeys(t)), utxoSpent := s.utxoSpent + Elems(InKeys(t)))
  }

  /** Put the first pending transaction at the end of the queue. */
  function Rotate(s: State): State
    requires s.pending != []
  {
    s.(pending := s.pending[1..] + [s.pending[0]])
  }

  lemma AdmitView(u: set<Utxo>, d: Delta, ins: set<Utxo>, outs: set<Utxo>)
    requires ins <= View(u, d) && outs !! d.removed + ins
    ensures View(u, Delta(d.added + outs, d.removed + ins)) == View(u, d) - ins + outs
  {
  }

  lemma AdmitBuild(pool: TxnPool, building: seq<Hash>, active: seq<Txn>, u: set<Utxo>, d: Delta, h: Hash)
    requires BuildOk(pool, building, active, View(u, d), d.removed) && PoolOk(pool)
    requires h in pool && h !in Elems(building) && h !in Ids(active)
    requires Applies(pool[h], View(u, d))
    ensures var ins, outs := Elems(InKeys(pool[h])), Elems(OutKeys(pool[h]));
            BuildOk(pool, building + [h], active, View(u, Delta(d.added + outs, d.removed + ins)), d.removed + ins)
  {
    var t := pool[h];
    var ins, outs := Elems(InKeys(t)), Elems(OutKeys(t));
    assert ins <= View(u, d);
    assert forall k :: k in outs ==> k.txn == h by { OutKeysOwn(t); }
    hide View, InKeys, OutKeys, Applies, Replay, Ids;
    var ts := active + Lookup(pool, building);
    LookupIds(pool, building);
    IdsConcat(active, Lookup(pool, building));
    ReplayOwned(ts, {});
    AdmitView(u, d, ins, outs);
    ReplaySnoc(ts, t, {});
    IdsConcat(ts, [t]);
    assert active + Lookup(pool, building + [h]) == ts + [t];
  }

  lemma AdmitMempool(pool: TxnPool, pending: seq<Hash>, building: seq<Hash>, active: set<Hash>)
    requires MempoolOk(pool, pending, building, active) && pending != []
    ensures MempoolOk(pool, pending[1..], building + [pending[0]], active)
    ensures MempoolOk(pool, pending[1..] + [pending[0]], building, active)
  {
    hide InKeys;
    var h, rest := pending[0], pending[1..];
    assert pending == [h] + rest;
    DistinctConcat([h], rest);
    DistinctConcat(building, [h]);
    DistinctConcat(rest, [h]);
    assert Elems([h]) == {h} && Elems(pending) == {h} + Elems(rest) && h in Elems(pending);
    assert Elems(building + [h]) == Elems(building) + {h} && Elems(rest + [h]) == Elems(rest) + {h};
  }

  lemma AdmitKeeps(s: State, rank: Hash -> nat)
    requires Inv(s, rank) && s.pending != []
    ensures s.pending[0] in s.txnPool && Inv(Rotate(s), rank)
    ensures Applies(s.txnPool[s.pending[0]], Spendable(s)) ==> Inv(Admit(s), rank)
  {
    var h := s.pending[0];
    assert h in Elems(s.pending);
    assert h in s.txnPool && h !in Elems(s.building) && h !in Ids(Active(s.blocks, s.tail));
    hide Replay, InKeys, OutKeys, Ids, Active, MempoolOk, BuildOk, TreeOk, View, PoolOk, Known, Applies;
    AdmitMempool(s.txnPool, s.pending, s.building, Ids(Active(s.blocks, s.tail)));
    if Applies(s.txnPool[h], Spendable(s)) {
      AdmitBuild(s.txnPool, s.building, Active(s.blocks, s.tail), s.utxo, Delta(s.newUtxo, s.utxoSpent), h);
    }
  }

  // ---------------------------------------------------------------- mining

  function MinedBlock(s: State, proposer: nat): Block
    requires AllIn(s.building, s.txnPool)
  {
    Block(s.tail, Lookup(s.txnPool, s.building), 1, true, proposer)
  }

  /** Append the block under construction to the chain. */
  function Mine(s: State, hash: Hash, proposer: nat): State
    requires AllIn(s.building, s.txnPool)
  {
    s.(blocks := s.blocks[hash := Entry(MinedBlock(s, proposer), Length(s.blocks, s.tail) + 1)],
       tail := hash, utxo := Spendable(s), building := [], newUtxo := {}, utxoSpent := {})
  }

  /** `hash` is new: not genesis, not pooled, not referred to, and above the tail. */
  ghost predicate Fresh(p: Pool, tail: Hash, hash: Hash, rank: Hash -> nat) {
    && hash != GENESIS && hash !in p && (forall x :: x in p ==> p[x].block.prev != hash)
    && (tail != GENESIS ==> rank(tail) < rank(hash)) && tail != hash
  }

  lemma MineHonest(p: Pool, tail: Hash, n: nat, hash: Hash, e: Entry)
    requires Honest(p) && hash != GENESIS && hash !in p && (forall x :: x in p ==> p[x].block.prev != hash)
    requires e.block.prev == tail != hash && Linked(p, tail, n)
    requires SourcesOnce(Txns(Path(p, tail, n) + [Link(hash, e.block)]))
    ensures Honest(p[hash := e])
  {
    hide SourcesOnce;
    var p' := p[hash := e];
    forall h: Hash, m: nat | Linked(p', h, m) ensures SourcesOnce(Txns(Path(p', h, m))) {
      LeafPath(p, hash, e, h, m);
      if h == hash { LinkedUnique(p, tail, m - 1, n); }
    }
  }

  lemma MinePath(p: Pool, tail: Hash, hash: Hash, e: Entry)
    requires hash != GENESIS && hash !in p && Linked(p, tail, Length(p, tail))
    requires e.block.prev == tail && e.height == Length(p, tail) + 1
    ensures Chain(p[hash := e], hash) == Chain(p, tail) + [Link(hash, e.block)]
    ensures Active(p[hash := e], hash) == Active(p, tail) + e.block.txns
  {
    var n, p' := Length(p, tail), p[hash := e];
    PathFrame(p, p', tail, n);
    var c := Chain(p, tail) + [Link(hash, e.block)];
    assert Linked(p', hash, n + 1) && Path(p', hash, n + 1) == c;
    assert c[..n] == Chain(p, tail);
  }

  lemma MineTree(p: Pool, o: Orphans, tail: Hash, hash: Hash, b: Block, rank: Hash -> nat)
    requires TreeOk(p, o, tail, rank) && Fresh(p, tail, hash, rank) && b.prev == tail
    requires SourcesOnce(Active(p, tail) + b.txns)
    ensures var p' := p[hash := Entry(b, Length(p, tail) + 1)];
            && TreeOk(p', o, hash, rank) && Chain(p', hash) == Chain(p, tail) + [Link(hash, b)]
            && Active(p', hash) == Active(p, tail) + b.txns
  {
    hide Settled, SourcesOnce, Txns, Honest, Linked, Path, TreeInv, Unsettled;
    var n := Length(p, tail);
    var e := Entry(b, n + 1);
    var p' := p[hash := e];
    TailLinked(p, o, tail, rank);
    MinePath(p, tail, hash, e);
    MineSettled(p, o, hash, e);
    TxnsConcat(Chain(p, tail), [Link(hash, b)]);
    MineHonest(p, tail, n, hash, e);
  }

  lemma MineSettled(p: Pool, o: Orphans, hash: Hash, e: Entry)
    requires Settled(p, o) && TailOk(p, e.block.prev) && e.height == Length(p, e.block.prev) + 1
    requires hash != GENESIS && hash !in p && (forall x :: x in p ==> p[x].block.prev != hash) && e.block.prev != hash
    ensures Settled(p[hash := e], o)
  {
    hide TreeInv;
    assert e.block.prev == GENESIS ==> GENESIS !in p by { SettledGenesis(p, o); }
    AddConnected(p, o, hash, e);
  }

  lemma SettledGenesis(p: Pool, o: Orphans)
    requires Settled(p, o)
    ensures GENESIS !in p
  {
  }

  lemma DistinctOnce(ts: seq<Txn>)
    requires DistinctIds(ts)
    ensures SourcesOnce(ts)
  {
  }

  lemma MinedIds(pool: TxnPool, p: Pool, hash: Hash, e: Entry, building: seq<Hash>)
    requires PoolOk(pool) && Known(pool, p) && AllIn(building, pool) && Distinct(building)
    requires e.block.txns == Lookup(pool, building)
    ensures DistinctIds(e.block.txns) && Ids(e.block.txns) == Elems(building) && Known(pool, p[hash := e])
  {
    hide OutKeys;
    LookupIds(pool, building);
    var mined := e.block.txns;
    assert forall i :: 0 <= i < |mined| ==> mined[i].id == building[i];
    assert forall t :: t in mined ==> t.id in pool && pool[t.id] == t;
  }

  /** Mining empties the builder, whose outcome becomes the unspent set of the new tail. */
  lemma MineBuild(pool: TxnPool, pending: seq<Hash>, building: seq<Hash>, active: seq<Txn>, v: set<Utxo>, spent: set<Utxo>)
    requires BuildOk(pool, building, active, v, spent) && PoolOk(pool)
    requires MempoolOk(pool, pending, building, Ids(active))
    ensures var active' := active + Lookup(pool, building);
            && Replay(active', {}) == Some(v) && BuildOk(pool, [], active', v, {})
            && Ids(active') == Ids(active) + Elems(building)
            && MempoolOk(pool, pending, [], Ids(active'))
  {
    var active' := active + Lookup(pool, building);
    LookupIds(pool, building);
    hide Replay, Ids, InKeys, OutKeys;
    IdsConcat(active, Lookup(pool, building));
    assert active' + Lookup(pool, []) == active';
    assert Elems<Hash>([]) == {};
  }

  lemma BuilderSound(s: State, rank: Hash -> nat)
    requires Inv(s, rank)
    ensures AllIn(s.building, s.txnPool) && Distinct(s.building)
    ensures Elems(s.building) !! Ids(Active(s.blocks, s.tail))
  {
    hide Replay, TreeOk, Active, Ids;
  }

  lemma ViewNoChange(u: set<Utxo>)
    ensures View(u, Delta({}, {})) == u && Elems<Hash>([]) == {}
  {
  }

  lemma MineKeeps(s: State, rank: Hash -> nat, hash: Hash, proposer: nat)
    requires Inv(s, rank) && Fresh(s.blocks, s.tail, hash, rank)
    ensures AllIn(s.building, s.txnPool) && Inv(Mine(s, hash, proposer), rank)
    ensures var s' := Mine(s, hash, proposer);
            && Chain(s'.blocks, s'.tail) == Chain(s.blocks, s.tail) + [Link(hash, MinedBlock(s, proposer))]
            && Held(s') == Held(s)
  {
    hide Replay, InKeys, OutKeys, Ids, Active, TreeOk, View, PoolOk, Known, Fresh, DistinctIds, SourcesOnce, Chain,
         OutsDistinct, MempoolOk, BuildOk, Distinct, Elems, AllIn;
    BuilderSound(s, rank);
    var s' := Mine(s, hash, proposer);
    var active, mined := Active(s.blocks, s.tail), Lookup(s.txnPool, s.building);
    ActiveKnown(s, rank);
    ViewNoChange(Spendable(s));
    MinedIds(s.txnPool, s.blocks, hash, s'.blocks[hash], s.building);
    MineBuild(s.txnPool, s.pending, s.building, active, Spendable(s), s.utxoSpent);
    DistinctIdsJoin(active, mined);
    DistinctOnce(active + mined);
    MineTree(s.blocks, s.orphans, s.tail, hash, MinedBlock(s, proposer), rank);
  }

  // ---------------------------------------------------------------- pooling transactions and blocks

  /** Pool a transaction that came in a peer's block. */
  lemma PoolKeeps(s: State, rank: Hash -> nat, t: Txn)
    requires Inv(s, rank) && t.id !in s.txnPool && Distinct(OutKeys(t))
    ensures Inv(s.(txnPool := s.txnPool[t.id := t]), rank)
  {
    hide Replay, InKeys, OutKeys, Ids, Active, Distinct, MempoolOk, BuildOk, TreeOk, View, PoolOk, Known;
    RecordKnown(s.txnPool, s.blocks, t);
    MempoolFrame(s.txnPool, s.txnPool[t.id := t], s.pending, s.building, Ids(Active(s.blocks, s.tail)));
    BuildFrame(s.txnPool, s.txnPool[t.id := t], s.building, Active(s.blocks, s.tail), Spendable(s), s.utxoSpent);
  }

  lemma MempoolFrame(pool: TxnPool, pool': TxnPool, pending: seq<Hash>, building: seq<Hash>, active: set<Hash>)
    requires MempoolOk(pool, pending, building, active)
    requires forall h :: h in pool ==> h in pool' && pool'[h] == pool[h]
    ensures MempoolOk(pool', pending, building, active)
  {
    hide InKeys;
  }

  /** A larger block pool in which known heights are kept has the same chain. */
  lemma GrowChain(p: Pool, o: Orphans, p': Pool, o': Orphans, tail: Hash, rank: Hash -> nat)
    requires TreeOk(p, o, tail, rank) && Grew(p, p') && Settled(p', o')
    ensures TailOk(p', tail) && Length(p', tail) == Length(p, tail)
    ensures Chain(p', tail) == Chain(p, tail) && Active(p', tail) == Active(p, tail)
  {
    TailLinked(p, o, tail, rank);
    hide Settled, Honest, SourcesOnce, Linked, Path;
    SettledGenesis(p, o);
    SettledGenesis(p', o');
    PathFrame(p, p', tail, Length(p, tail));
  }

  lemma GrowKeeps(s: State, rank: Hash -> nat, p': Pool, o': Orphans)
    requires Inv(s, rank) && Grew(s.blocks, p') && Settled(p', o')
    requires Ranked(p', rank) && Honest(p') && Known(s.txnPool, p')
    ensures Inv(s.(blocks := p', orphans := o'), rank)
    ensures Chain(p', s.tail) == Chain(s.blocks, s.tail) && Length(p', s.tail) == Length(s.blocks, s.tail)
  {
    hide Replay, Ids, Active, MempoolOk, BuildOk, View, PoolOk, Known, Settled, Ranked, Honest, Chain, Length, TailOk, Grew;
    GrowChain(s.blocks, s.orphans, p', o', s.tail, rank);
  }

  /** Two pools with the same blocks are equally honest, whatever the heights. */
  lemma HonestFrame(p: Pool, p': Pool)
    requires Honest(p) && Extends(p', p)
    ensures Honest(p')
  {
    hide SourcesOnce;
    forall h: Hash, n: nat | Linked(p', h, n) ensures SourcesOnce(Txns(Path(p', h, n))) {
      PathFrame(p', p, h, n);
    }
  }

  /** Ids are injective on the pool and the given transactions, whose outputs are distinct. */
  ghost predicate IdsAgree(pool: TxnPool, ts: seq<Txn>) {
    && (forall t :: t in ts ==> Distinct(OutKeys(t)))
    && (forall t :: t in ts && t.id in pool ==> pool[t.id] == t)
    && (forall t, t' :: t in ts && t' in ts && t.id == t'.id ==> t == t')
  }

  ghost function AddTxns(pool: TxnPool, ts: seq<Txn>): TxnPool {
    if ts == [] then pool
    else
      var before, t := AddTxns(pool, ts[..|ts| - 1]), ts[|ts| - 1];
      if t.id in before then before else before[t.id := t]
  }

  /** Each transaction is pooled already or valid when its turn comes. */
  ghost predicate TxnsValid(pool: TxnPool, ts: seq<Txn>) {
    ts != [] ==>
      var before, t := AddTxns(pool, ts[..|ts| - 1]), ts[|ts| - 1];
      TxnsValid(pool, ts[..|ts| - 1]) && (t.id in before || ValidTxn(before, t))
  }

  /** The pool gains exactly the ids of the transactions, and what it has stays. */
  lemma {:induction false} AddTxnsIs(pool: TxnPool, ts: seq<Txn>)
    ensures SubPool(pool, AddTxns(pool, ts))
    ensures forall h :: h in AddTxns(pool, ts) <==> h in pool || exists i :: 0 <= i < |ts| && ts[i].id == h
    ensures forall h :: h in AddTxns(pool, ts) && h !in pool ==> AddTxns(pool, ts)[h] in ts
  {
    if ts != [] {
      var n := |ts| - 1;
      AddTxnsIs(pool, ts[..n]);
      assert forall i :: 0 <= i < n ==> ts[i] == ts[..n][i];
      assert ts[n] in ts && forall t :: t in ts[..n] ==> t in ts;
    }
  }

  /** The i-th transaction is known when its turn comes, or spends rightfully what is known then. */
  ghost predicate InTurn(pool: TxnPool, ts: seq<Txn>, i: nat)
    requires i < |ts|
  {
    ts[i].id in pool || (exists j :: 0 <= j < i && ts[j].id == ts[i].id) || Rightful(AddTxns(pool, ts[..i]), ts[i])
  }

  ghost predicate RightfulInTurn(pool: TxnPool, ts: seq<Txn>) {
    forall i :: 0 <= i < |ts| ==> InTurn(pool, ts, i)
  }

  lemma InTurnFrame(pool: TxnPool, ts: seq<Txn>, n: nat, i: nat)
    requires i < n <= |ts|
    ensures InTurn(pool, ts[..n], i) <==> InTurn(pool, ts, i)
  {
    hide Rightful, AddTxns;
    assert ts[..n][..i] == ts[..i];
  }

  lemma LastInTurn(pool: TxnPool, ts: seq<Txn>)
    requires ts != []
    ensures var n := |ts| - 1; var before := AddTxns(pool, ts[..n]);
            InTurn(pool, ts, n) <==> ts[n].id in before || ValidTxn(before, ts[n])
  {
    hide Rightful, AddTxns, ValidTxn;
    var n := |ts| - 1;
    AddTxnsIs(pool, ts[..n]);
    ValidIff(AddTxns(pool, ts[..n]), ts[n]);
    assert forall j :: 0 <= j < n ==> ts[..n][j] == ts[j];
  }

  lemma {:induction false} TxnsValidIff(pool: TxnPool, ts: seq<Txn>)
    ensures TxnsValid(pool, ts) <==> RightfulInTurn(pool, ts)
  {
    hide ValidTxn, InTurn, AddTxns;
    if ts != [] {
      var n := |ts| - 1;
      TxnsValidIff(pool, ts[..n]);
      LastInTurn(pool, ts);
      forall i | 0 <= i < n ensures InTurn(pool, ts[..n], i) <==> InTurn(pool, ts, i) { InTurnFrame(pool, ts, n, i); }
    }
  }

  lemma {:induction false} TxnsInvalid(pool: TxnPool, ts: seq<Txn>, i: nat)
    requires i <= |ts| && !TxnsValid(pool, ts[..i])
    ensures !TxnsValid(pool, ts)
  {
    if i == |ts| {
      assert ts[..i] == ts;
    } else {
      assert ts[..|ts| - 1][..i] == ts[..i];
      TxnsInvalid(pool, ts[..|ts| - 1], i);
    }
  }

  lemma {:induction false} AddTxnsKnown(pool: TxnPool, ts: seq<Txn>)
    requires IdsAgree(pool, ts)
    ensures SubPool(pool, AddTxns(pool, ts))
    ensures forall h :: h in AddTxns(pool, ts) && h !in pool ==> AddTxns(pool, ts)[h] in ts && AddTxns(pool, ts)[h].id == h
    ensures forall t :: t in ts ==> t.id in AddTxns(pool, ts) && AddTxns(pool, ts)[t.id] == t
  {
    hide OutKeys, Distinct;
    if ts != [] {
      var ts' := ts[..|ts| - 1];
      assert forall t :: t in ts' ==> t in ts;
      AddTxnsKnown(pool, ts');
      assert forall t :: t in ts ==> t in ts' || t == ts[|ts| - 1];
    }
  }

  // ---------------------------------------------------------------- pooling a block

  /** A new block whose addition keeps hashes acyclic and ids honest. */
  ghost predicate Addable(p: Pool, hash: Hash, block: Block, rank: Hash -> nat) {
    && hash != GENESIS && hash !in p && block.prev != hash
    && (block.prev != GENESIS ==> rank(block.prev) < rank(hash))
    && Honest(p[hash := Entry(block, 0)])
  }

  /** The pool has gained exactly one block, and known heights are kept. */
  ghost predicate Pooled(p: Pool, p': Pool, hash: Hash, block: Block) {
    hash !in p && p'.Keys == p.Keys + {hash} && hash in p' && p'[hash].block == block && Grew(p, p')
  }

  function AncestorAt(p: Pool, h: Hash, n: nat): Option<Hash> {
    if n == 0 then Some(h)
    else
      var a := AncestorAt(p, h, n - 1);
      if a.Some? && a.value in p then Some(p[a.value].block.prev) else None
  }

  lemma AncestorSelf(p: Pool, h: Hash)
    ensures AncestorAt(p, h, 0) == Some(h)
  {
  }

  lemma AncestorNext(p: Pool, h: Hash, n: nat, a: Hash)
    requires AncestorAt(p, h, n) == Some(a) && a in p
    ensures AncestorAt(p, h, n + 1) == Some(p[a].block.prev)
  {
  }

  lemma TreeFacts(s: State, rank: Hash -> nat)
    requires Inv(s, rank)
    ensures Settled(s.blocks, s.orphans) && Ranked(s.blocks, rank) && TailOk(s.blocks, s.tail) && GENESIS !in s.blocks
    ensures forall h :: h in s.blocks && s.blocks[h].block.prev != GENESIS ==> rank(s.blocks[h].block.prev) < rank(h)
  {
    hide Honest, Replay, Linked, Known, MempoolOk, BuildOk;
  }

  lemma AddedFacts(s: State, rank: Hash -> nat, hash: Hash, block: Block, height: nat)
    requires Inv(s, rank) && Addable(s.blocks, hash, block, rank)
    requires forall t :: t in block.txns ==> t.id in s.txnPool && s.txnPool[t.id] == t
    ensures var p' := s.blocks[hash := Entry(block, height)];
            && Ranked(p', rank) && Honest(p') && Known(s.txnPool, p')
            && Grew(s.blocks, p') && Pooled(s.blocks, p', hash, block)
  {
    hide Honest, Replay, Linked, MempoolOk, BuildOk, Settled;
    HonestFrame(s.blocks[hash := Entry(block, 0)], s.blocks[hash := Entry(block, height)]);
  }

  lemma SameBlocksFacts(pool: TxnPool, p: Pool, p': Pool, rank: Hash -> nat)
    requires Ranked(p, rank) && Honest(p) && Known(pool, p) && Grew(p, p') && p'.Keys == p.Keys
    ensures Ranked(p', rank) && Honest(p') && Known(pool, p')
  {
    hide Honest;
    assert forall h :: h in p' ==> h in p && p'[h].block == p[h].block;
    HonestFrame(p, p');
  }

  lemma SettledAgain(p: Pool, o: Orphans)
    requires TreeInv(p, o, {}) && Unsettled(p) <= {}
    ensures Settled(p, o)
  {
  }

  lemma GrewTrans(p: Pool, p': Pool, p'': Pool)
    requires Grew(p, p') && Grew(p', p'')
    ensures Grew(p, p'')
  {
  }

  // ---------------------------------------------------------------- reorganisation

  /** `s` without the elements of `drop`, in order. */
  function Without(s: seq<Hash>, drop: set<Hash>): seq<Hash> {
    if s == [] then []
    else Without(s[..|s| - 1], drop) + if s[|s| - 1] in drop then [] else [s[|s| - 1]]
  }

  lemma {:induction false} WithoutElems(s: seq<Hash>, drop: set<Hash>)
    ensures Elems(Without(s, drop)) == Elems(s) - drop
    ensures Distinct(s) ==> Distinct(Without(s, drop))
  {
    if s != [] {
      var x, s' := s[|s| - 1], s[..|s| - 1];
      Snoc(s);
      WithoutElems(s', drop);
      DistinctConcat(Without(s', drop), [x]);
      assert Elems([x]) == {x} && Elems(Without(s', drop) + [x]) == Elems(Without(s', drop)) + {x};
      assert Without(s', drop) + [] == Without(s', drop);
    }
  }

  /**
   Moving to another tail. The candidate is accepted exactly when its whole chain replays, and
   the patched unspent set is that replay.
   */
  lemma ReorgVerdict(s: State, rank: Hash -> nat, tail: Hash, n: nat, k: nat)
    requires Inv(s, rank) && Linked(s.blocks, tail, n)
    requires ForksAt(Path(s.blocks, tail, n), Chain(s.blocks, s.tail), k)
    ensures var pn, po := Path(s.blocks, tail, n), Chain(s.blocks, s.tail);
            var r := RedoTxns(s.utxo, Txns(pn[k..]), UndoTxns(Txns(po[k..]), NO_CHANGE));
            && (r.Some? <==> Replay(Txns(pn), {}).Some?)
            && (r.Some? ==> Replay(Txns(pn), {}) == Some(View(s.utxo, r.value)))
  {
    hide Replay, Linked, Path, Settled, SourcesOnce, OutsDistinct, Ids, View, RedoTxns, UndoTxns, MempoolOk, BuildOk,
         PoolOk, Known, Honest, Ranked, Txns, Chain;
    var pn, po := Path(s.blocks, tail, n), Chain(s.blocks, s.tail);
    PathHonest(s.blocks, tail, n);
    PathKnown(s.txnPool, s.blocks, tail, n);
    TailLinked(s.blocks, s.orphans, s.tail, rank);
    ActiveKnown(s, rank);
    var base, old_, new_ := Txns(po[..k]), Txns(po[k..]), Txns(pn[k..]);
    TxnsConcat(po[..k], po[k..]);
    TxnsConcat(pn[..k], pn[k..]);
    assert po[..k] + po[k..] == po && pn[..k] + pn[k..] == pn;
    OutsSuffix(base, new_);
    ReorgRefinesReplay(base, old_, new_, s.utxo);
  }

  lemma PathHonest(p: Pool, h: Hash, n: nat)
    requires Honest(p) && Linked(p, h, n)
    ensures SourcesOnce(Txns(Path(p, h, n)))
  {
  }

  lemma OutsSuffix(a: seq<Txn>, b: seq<Txn>)
    requires OutsDistinct(a + b)
    ensures OutsDistinct(b)
  {
    hide OutKeys, Distinct;
    forall i | 0 <= i < |b| ensures Distinct(OutKeys(b[i])) { assert (a + b)[|a| + i] == b[i]; }
  }

  /** Undone transactions go back to the mempool, applied ones leave it; both at once stay put. */
  lemma ReorgMempool(pool: TxnPool, pending: seq<Hash>, building: seq<Hash>,
                     base: set<Hash>, undone: set<Hash>, done: set<Hash>, back: seq<Hash>)
    requires MempoolOk(pool, pending, building, base + undone) && base !! undone
    requires Distinct(back) && Elems(back) == undone - done
    requires forall h :: h in undone ==> h in pool && Distinct(InKeys(pool[h]))
    ensures var pending' := Without(pending + building + back, done - undone);
            && MempoolOk(pool, pending', [], base + done)
            && Elems(pending') + (base + done) == Elems(pending) + Elems(building) + (base + undone) + done
  {
    hide InKeys, Without, Distinct, Elems;
    RequeueElems(pending, building, back, done - undone);
    var w := Elems(pending) + Elems(building);
    var w' := w + (undone - done) - (done - undone);
    assert w' !! base + done;
    assert w' + (base + done) == w + (base + undone) + done;
  }

  lemma RequeueElems(pending: seq<Hash>, building: seq<Hash>, back: seq<Hash>, drop: set<Hash>)
    requires Distinct(pending) && Distinct(building) && Distinct(back)
    requires Elems(pending) !! Elems(building) && Elems(pending) + Elems(building) !! Elems(back)
    ensures Distinct(Without(pending + building + back, drop))
    ensures Elems(Without(pending + building + back, drop)) ==
            Elems(pending) + Elems(building) + Elems(back) - drop
    ensures Distinct<Hash>([]) && Elems<Hash>([]) == {}
  {
    hide Without, Distinct;
    DistinctConcat(pending, building);
    assert Elems(pending + building) == Elems(pending) + Elems(building);
    DistinctConcat(pending + building, back);
    assert Elems(pending + building + back) == Elems(pending + building) + Elems(back);
    WithoutElems(pending + building + back, drop);
    DistinctConcat<Hash>([], []);
    assert [] + back == back;
    DistinctConcat([], back);
  }

  lemma {:induction false} ReplayInputsDistinct(ts: seq<Txn>, s: set<Utxo>, t: Txn)
    requires Replay(ts, s).Some? && t in ts
    ensures Distinct(InKeys(t))
  {
    hide InKeys, Distinct, OutKeys;
    var n := |ts| - 1;
    if t != ts[n] {
      assert t in ts[..n];
      ReplayInputsDistinct(ts[..n], s, t);
    }
  }

  lemma IdsMember(ts: seq<Txn>, h: Hash)
    requires h in Ids(ts)
    ensures exists t :: t in ts && t.id == h
  {
    var i :| 0 <= i < |ts| && ts[i].id == h;
    assert ts[i] in ts;
  }

  lemma ActiveInputs(s: State, rank: Hash -> nat, h: Hash)
    requires Inv(s, rank) && h in Ids(Active(s.blocks, s.tail))
    ensures h in s.txnPool && Distinct(InKeys(s.txnPool[h]))
  {
    hide Replay, Ids, Active, InKeys, Distinct, MempoolOk, BuildOk, View, PoolOk, Known, TreeOk, OutsDistinct, DistinctIds;
    ActiveKnown(s, rank);
    IdsMember(Active(s.blocks, s.tail), h);
    var t :| t in Active(s.blocks, s.tail) && t.id == h;
    ReplayInputsDistinct(Active(s.blocks, s.tail), {}, t);
  }

  /** Make the chain that ends in `tail` the active one. */
  function Adopt(s: State, tail: Hash, d: Delta, back: seq<Hash>, applied: set<Hash>): State {
    s.(tail := tail, utxo := View(s.utxo, d), pending := Without(s.pending + s.building + back, applied),
       building := [], newUtxo := {}, utxoSpent := {})
  }

  lemma AdoptTree(p: Pool, o: Orphans, tail: Hash, tail': Hash, n: nat, rank: Hash -> nat)
    requires TreeOk(p, o, tail, rank) && n > 0 && Linked(p, tail', n)
    ensures TreeOk(p, o, tail', rank) && Chain(p, tail') == Path(p, tail', n) && Length(p, tail') == n
  {
    hide Settled, Honest, Ranked;
    HeightComplete(p, o, tail', n);
  }

  lemma ReorgKeeps(s: State, rank: Hash -> nat, tail: Hash, n: nat, k: nat, d: Delta, back: seq<Hash>)
    requires Inv(s, rank) && n > 0 && Linked(s.blocks, tail, n)
    requires var pn, po := Path(s.blocks, tail, n), Chain(s.blocks, s.tail);
             && ForksAt(pn, po, k)
             && RedoTxns(s.utxo, Txns(pn[k..]), UndoTxns(Txns(po[k..]), NO_CHANGE)) == Some(d)
             && Distinct(back) && Elems(back) == Ids(Txns(po[k..])) - Ids(Txns(pn[k..]))
    ensures var pn, po := Path(s.blocks, tail, n), Chain(s.blocks, s.tail);
            var s' := Adopt(s, tail, d, back, Ids(Txns(pn[k..])) - Ids(Txns(po[k..])));
            && Inv(s', rank) && Chain(s'.blocks, s'.tail) == pn && Length(s'.blocks, s'.tail) == n
            && Held(s') == Held(s) + Ids(Txns(pn))
  {
    hide Replay, Linked, Path, DistinctIds, SourcesOnce, OutsDistinct, Ids, View, RedoTxns, UndoTxns, MempoolOk, BuildOk,
         PoolOk, Known, Txns, Chain, Without, Elems, Distinct, InKeys, TreeOk, Length;
    var pn, po := Path(s.blocks, tail, n), Chain(s.blocks, s.tail);
    ReorgVerdict(s, rank, tail, n, k);
    AdoptTree(s.blocks, s.orphans, s.tail, tail, n, rank);
    ActiveKnown(s, rank);
    var base, old_, new_ := Txns(po[..k]), Txns(po[k..]), Txns(pn[k..]);
    TxnsConcat(po[..k], po[k..]);
    TxnsConcat(pn[..k], pn[k..]);
    assert po[..k] + po[k..] == po && pn[..k] + pn[k..] == pn;
    IdsConcat(base, old_);
    IdsConcat(base, new_);
    DistinctIdsSplit(base, old_);
    forall h | h in Ids(old_) ensures h in s.txnPool && Distinct(InKeys(s.txnPool[h])) { ActiveInputs(s, rank, h); }
    ReorgMempool(s.txnPool, s.pending, s.building, Ids(base), Ids(old_), Ids(new_), back);
    ViewNoChange(View(s.utxo, d));
    EmptyBuild(s.txnPool, Txns(pn), View(s.utxo, d));
  }

  lemma EmptyBuild(pool: TxnPool, active: seq<Txn>, u: set<Utxo>)
    requires Replay(active, {}) == Some(u)
    ensures BuildOk(pool, [], active, u, {})
  {
    hide Replay;
    assert active + Lookup(pool, []) == active;
  }

  lemma ChainFacts(s: State, rank: Hash -> nat)
    requires Inv(s, rank)
    ensures var n := Length(s.blocks, s.tail);
            Linked(s.blocks, s.tail, n) && Chain(s.blocks, s.tail) == Path(s.blocks, s.tail, n)
    ensures |Chain(s.blocks, s.tail)| == Length(s.blocks, s.tail)
    ensures Held(s) == Held(s) + Ids(Txns(Chain(s.blocks, s.tail)))
  {
    hide Replay, TreeOk, MempoolOk, BuildOk, PoolOk, Known, Ids, Elems;
    TailLinked(s.blocks, s.orphans, s.tail, rank);
  }

  // ---------------------------------------------------------------- outcomes of validating a block

  /** New, with a valid proof of work and Merkle root, and transactions that are pooled or valid. */
  ghost predicate Sound(p: Pool, pool: TxnPool, hash: Hash, block: Block) {
    hash !in p && block.nonce == 1 && block.merkleOk && TxnsValid(pool, block.txns)
  }

  /** `best` is connected to genesis, and no block connected since `p` is higher. */
  ghost predicate BestOf(p: Pool, p': Pool, best: Hash) {
    && best in p' && p'[best].height > 0 && Linked(p', best, p'[best].height)
    && (best in p ==> p[best].height == 0)
    && (forall h :: h in p' && (h in p ==> p[h].height == 0) ==> p'[h].height <= p'[best].height)
  }

  /** Chain, ledger, mempool and block under construction are as before. */
  ghost predicate Unmoved(s: State, s': State) {
    && s'.tail == s.tail && Chain(s'.blocks, s'.tail) == Chain(s.blocks, s.tail) && s'.utxo == s.utxo
    && s'.pending == s.pending && s'.building == s.building
    && s'.newUtxo == s.newUtxo && s'.utxoSpent == s.utxoSpent
  }

  /** The chain moved to a longer one, of which `tail` is the part after the common ancestor. */
  ghost predicate Moved(s: State, s': State, tail: seq<Link>, fork: nat) {
    var old_, new_ := Chain(s.blocks, s.tail), Chain(s'.blocks, s'.tail);
    && |new_| > |old_| && ForksAt(new_, old_, fork) && tail == new_[fork..]
    && s'.building == [] && s'.newUtxo == {} && s'.utxoSpent == {}
  }

  lemma SnapFacts(s: State, rank: Hash -> nat)
    requires Inv(s, rank)
    ensures Unmoved(s, s) && SubPool(s.txnPool, s.txnPool)
    ensures Held(s) == Held(s) + Ids(Active(s.blocks, s.tail))
  {
    hide Inv, Chain, Ids, Txns;
  }

  lemma PooledFacts(s: State, s': State)
    requires s' == s.(txnPool := s'.txnPool)
    ensures Unmoved(s, s') && Held(s') == Held(s)
  {
    hide Chain, Ids, Txns;
  }

  lemma MoveFrame(s: State, mid: State, s': State, tail: seq<Link>, fork: nat)
    requires mid == s.(txnPool := mid.txnPool)
    ensures Unmoved(mid, s') ==> Unmoved(s, s')
    ensures Moved(mid, s', tail, fork) ==> Moved(s, s', tail, fork)
    ensures Held(mid) == Held(s)
  {
    hide Chain, Ids, Txns;
  }

  lemma KnownLinked(s: State, rank: Hash -> nat, h: Hash)
    requires Inv(s, rank) && h in s.blocks && s.blocks[h].height > 0
    ensures Linked(s.blocks, h, s.blocks[h].height)
    ensures Chain(s.blocks, h) == Path(s.blocks, h, s.blocks[h].height)
  {
    hide Replay, MempoolOk, BuildOk, PoolOk, Known, Honest, TreeInv;
    HeightSound(s.blocks, s.orphans, {}, h);
  }

  /** An accepted candidate repeats nothing, so the mempool moves are exact. */
  lemma ReorgMoves(s: State, rank: Hash -> nat, tail: Hash, n: nat, k: nat)
    requires Inv(s, rank) && Linked(s.blocks, tail, n) && k <= n
    requires Replay(Txns(Path(s.blocks, tail, n)), {}).Some?
    ensures var ts := Txns(Path(s.blocks, tail, n)[k..]);
            forall undone :: MoveAll(Moves(undone, {}), ts) == Moves(undone - Ids(ts), Ids(ts) - undone)
  {
    hide Replay, Linked, Path, SourcesOnce, DistinctIds, Ids, MempoolOk, BuildOk, PoolOk, Known, Honest, Txns, MoveAll,
         Settled, Ranked, View;
    var pn := Path(s.blocks, tail, n);
    PathHonest(s.blocks, tail, n);
    ReplayNeverRepeats(Txns(pn));
    TxnsConcat(pn[..k], pn[k..]);
    assert pn[..k] + pn[k..] == pn;
    DistinctIdsSplit(Txns(pn[..k]), Txns(pn[k..]));
    forall undone ensures MoveAll(Moves(undone, {}), Txns(pn[k..])) ==
                          Moves(undone - Ids(Txns(pn[k..])), Ids(Txns(pn[k..])) - undone) {
      MoveAllExact(undone, Txns(pn[k..]));
    }
  }

  // ---------------------------------------------------------------- what the invariant means

  function IdSeq(ts: seq<Txn>): seq<Hash> {
    seq(|ts|, i requires 0 <= i < |ts| => ts[i].id)
  }

  lemma {:induction false} DistinctCount<T>(s: seq<T>, x: T)
    requires Distinct(s)
    ensures multiset(s)[x] == if x in s then 1 else 0
  {
    if s != [] {
      var n := |s| - 1;
      Snoc(s);
      DistinctCount(s[..n], x);
      assert s == s[..n] + [s[n]];
      assert multiset(s) == multiset(s[..n]) + multiset{s[n]};
    }
  }

  lemma IdSeqIds(ts: seq<Txn>)
    ensures Elems(IdSeq(ts)) == Ids(ts) && (DistinctIds(ts) ==> Distinct(IdSeq(ts)))
  {
    var ids := IdSeq(ts);
    assert forall i :: 0 <= i < |ts| ==> ids[i] == ts[i].id;
    forall h | h in Ids(ts) ensures h in ids {
      var i :| 0 <= i < |ts| && ts[i].id == h;
      assert ids[i] == h;
    }
  }

  /** Every transaction the manager holds is in one place, once: queue, block under construction or chain. */
  lemma PlacedOnce(s: State, rank: Hash -> nat, h: Hash)
    requires Inv(s, rank) && h in Held(s)
    ensures multiset(s.pending)[h] + multiset(s.building)[h] + multiset(IdSeq(Active(s.blocks, s.tail)))[h] == 1
  {
    hide TreeOk, Replay, BuildOk, PoolOk, Known, Active, OutsDistinct, InKeys;
    var active := Active(s.blocks, s.tail);
    ActiveKnown(s, rank);
    var ids := IdSeq(active);
    IdSeqIds(active);
    assert (h in s.pending <==> h in Elems(s.pending)) && (h in s.building <==> h in Elems(s.building));
    DistinctCount(s.pending, h);
    DistinctCount(s.building, h);
    DistinctCount(ids, h);
  }

  /**
   Conservation: with balanced transactions, the unspent outputs of the active chain and the change
   of payments to oneself are worth exactly what the chain granted. So the value is conserved if
   and only if no payment on the chain leaves its sender change from itself. By `Inv` this is so
   after every step, reorganisations included.
   */
  lemma ChainConservesValue(s: State, rank: Hash -> nat)
    requires Inv(s, rank) && AllBalanced(s.txnPool)
    ensures var ts := Active(s.blocks, s.tail);
            && Total(s.txnPool, s.utxo) + Lost(ts) == Granted(ts)
            && (Total(s.txnPool, s.utxo) == Granted(ts) <==> forall t :: t in ts ==> SelfChange(t) == 0)
  {
    hide TreeOk, Replay, BuildOk, MempoolOk, PoolOk, Known, Active, OutsDistinct, DistinctIds, InKeys, Ids, ValidTxn,
         SelfChange, Granted, Lost;
    LostNothing(Active(s.blocks, s.tail));
    var ts := Active(s.blocks, s.tail);
    ActiveKnown(s, rank);
    assert forall i :: 0 <= i < |ts| ==> ts[i] in ts;
    ReplayConserves(s.txnPool, ts);
  }

  /** The block under construction, once mined, replays on its parent's chain: nothing in it is rejected by peers. */
  lemma AssembledBlockReplays(s: State, rank: Hash -> nat)
    requires Inv(s, rank)
    ensures AllIn(s.building, s.txnPool)
    ensures Replay(Lookup(s.txnPool, s.building), s.utxo) == Some(Spendable(s))
  {
    hide Replay, Active, TreeOk, MempoolOk, PoolOk, Known, View, Ids;
    ReplayConcat(Active(s.blocks, s.tail), Lookup(s.txnPool, s.building), {});
  }
}
