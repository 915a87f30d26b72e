/**
 The Bitcoin block manager: it records transactions, assembles and mines blocks, pools the
 blocks of peers, reconnects orphans and moves to longer chains.
 */
module BitcoinBlockManagement {
  import opened Collections
  import opened Ledger
  import opened BlockTree
  import opened Values
  import opened Reorg
  import opened ChainState
  import opened BlockAssembly
  import opened LongestChain

  datatype BuildState = Working | Full | EmptyMempool

  /** List a set in some order. */
  method Enumerate(s: set<Hash>) returns (q: seq<Hash>)
    ensures Distinct(q) && Elems(q) == s
  {
    q := [];
    var rest := s;
    while rest != {}
      invariant Distinct(q) && Elems(q) + rest == s && Elems(q) !! rest
      decreases rest
    {
      var h :| h in rest;
      DistinctConcat(q, [h]);
      assert Elems(q + [h]) == Elems(q) + {h};
      q, rest := q + [h], rest - {h};
    }
  }

  /** Keep the elements of `q` that are not in `drop`. */
  method RetainNot(q: seq<Hash>, drop: set<Hash>) returns (r: seq<Hash>)
    ensures r == Without(q, drop)
  {
    r := [];
    for i := 0 to |q|
      invariant r == Without(q[..i], drop)
    {
      assert q[..i + 1][..i] == q[..i];
      if q[i] !in drop { r := r + [q[i]]; }
    }
    assert q[..|q|] == q;
  }

  /** The script succeeds, and each input is in `made` and not in `gone`. */
  ghost predicate InputsThere(t: Txn, made: set<Utxo>, gone: set<Utxo>) {
    t.Send? ==> t.scriptOk && forall h :: h in t.inputs ==> Utxo(h, t.sender) in made && Utxo(h, t.sender) !in gone
  }

  lemma InputsThereIff(t: Txn, s: State)
    ensures Elems(InKeys(t)) <= Spendable(s) && ScriptOk(t) <==> InputsThere(t, s.utxo + s.newUtxo, s.utxoSpent)
  {
    if t.Send? {
      var ks := InKeys(t);
      assert forall i :: 0 <= i < |ks| ==> ks[i] == Utxo(t.inputs[i], t.sender) && ks[i] in Elems(ks);
      forall h | h in t.inputs ensures Utxo(h, t.sender) in Elems(ks) {
        var i :| 0 <= i < |t.inputs| && t.inputs[i] == h;
        assert ks[i] == Utxo(h, t.sender);
      }
      forall k | k in Elems(ks) ensures k.txn in t.inputs && k.owner == t.sender {
        var i :| 0 <= i < |ks| && ks[i] == k;
        assert t.inputs[i] in t.inputs;
      }
    }
  }

  lemma BuilderKnown(s: State, rank: Hash -> nat)
    requires Inv(s, rank)
    ensures AllIn(s.building, s.txnPool)
  {
    hide TreeOk, PoolOk, Known, MempoolOk, Replay, Spendable;
  }

  class BlockManager {
    const id: nat
    ghost const rank: Hash -> nat
    var txnPool: TxnPool
    var blockPool: Pool
    var orphanBlocks: Orphans
    var utxo: set<Utxo>
    var chainTail: Hash
    var pendingTxns: seq<Hash>
    var building: seq<Hash>
    var newUtxo: set<Utxo>
    var utxoSpent: set<Utxo>
    var blockSize: nat
    var prepared: bool

    ghost function Snap(): State
      reads this
    {
      State(txnPool, blockPool, orphanBlocks, utxo, chainTail, pendingTxns, building, newUtxo, utxoSpent)
    }

    ghost predicate Valid()
      reads this
    {
      Inv(Snap(), rank) && blockSize == TotalSize(txnPool, building)
    }

    ghost function ActiveChain(): seq<Link>
      reads this
    {
      Chain(blockPool, chainTail)
    }

    constructor (id: nat, ghost rank: Hash -> nat)
      ensures Valid() && Snap() == State(map[], map[], map[], {}, GENESIS, [], [], {}, {})
      ensures this.id == id && this.rank == rank && blockSize == 0 && !prepared
    {
      this.id, this.rank := id, rank;
      txnPool, blockPool, orphanBlocks, utxo, chainTail := map[], map[], map[], {}, GENESIS;
      pendingTxns, building, newUtxo, utxoSpent, blockSize, prepared := [], [], {}, {}, 0, false;
      new;
      EmptyInv(rank);
    }

    function ChainLength(): nat
      reads this
    {
      Length(blockPool, chainTail)
    }

    // -------------------------------------------------------------- transactions

    /** Record a transaction from the validation stage; duplicates are ignored. */
    method RecordNewTxn(t: Txn) returns (fresh_: bool)
      requires Valid()
      modifies this`txnPool, this`pendingTxns
      ensures Distinct(OutKeys(t)) && Distinct(InKeys(t)) ==> Valid()
      ensures fresh_ == (t.id !in old(txnPool))
      ensures Snap() == if fresh_ then Record(old(Snap()), t) else old(Snap())
      ensures fresh_ ==> txnPool == old(txnPool)[t.id := t] && pendingTxns == old(pendingTxns) + [t.id]
    {
      hide Inv, TotalSize;
      BuilderKnown(Snap(), rank);
      if t.id !in txnPool { SizeFrame(txnPool, txnPool[t.id := t], building); }
      if t.id in txnPool { return false; }
      if Distinct(OutKeys(t)) && Distinct(InKeys(t)) { RecordKeeps(Snap(), rank, t); }
      txnPool := txnPool[t.id := t];
      pendingTxns := pendingTxns + [t.id];
      return true;
    }

    /** Do the inputs exist and belong to the sender, and do they pay for the outputs? */
    method ValidateTxn(t: Txn) returns (valid: bool)
      ensures valid <==> Rightful(txnPool, t)
      ensures valid <==> ValidTxn(txnPool, t)
      // nobody spends what belongs to others
      ensures valid && t.Send? ==> forall h :: h in t.inputs ==>
                h in txnPool && (txnPool[h].receiver == t.sender || (txnPool[h].Send? && txnPool[h].sender == t.sender))
    {
      hide Rightful;
      ValidIff(txnPool, t);
      if ValidTxn(txnPool, t) { ValidOwns(txnPool, t); }
      if t.Grant? { return true; }
      var value := 0;
      for i := 0 to |t.inputs|
        invariant InputValue(txnPool, t.sender, t.inputs[..i]) == Some(value)
      {
        assert t.inputs[..i + 1][..i] == t.inputs[..i];
        var h := t.inputs[i];
        if h !in txnPool || ValueTo(txnPool[h], t.sender).None? {
          InputValueFails(txnPool, t.sender, t.inputs, i + 1);
          return false;
        }
        value := value + ValueTo(txnPool[h], t.sender).value;
      }
      assert t.inputs[..|t.inputs|] == t.inputs;
      return value == t.out + t.remainder;
    }

    // -------------------------------------------------------------- assembling and mining

    /** Can the transaction be added to the block under construction now? */
    method CanSpend(t: Txn) returns (valid: bool)
      ensures valid <==> Elems(InKeys(t)) <= Spendable(Snap()) && ScriptOk(t)
      ensures valid <==> InputsThere(t, utxo + newUtxo, utxoSpent)
    {
      InputsThereIff(t, Snap());
      hide InputsThere;
      if t.Grant? {
        assert Elems(InKeys(t)) == {};
        return true;
      }
      valid := true;
      ghost var ks := InKeys(t);
      for i := 0 to |t.inputs|
        invariant valid && Elems(ks[..i]) <= Spendable(Snap())
      {
        var key := Utxo(t.inputs[i], t.sender);
        assert ks[i] == key && ks[..i + 1] == ks[..i] + [key];
        if !((key in utxo || key in newUtxo) && key !in utxoSpent) {
          assert key in ks && key !in Spendable(Snap());
          valid := false;
          break;
        }
      }
      assert valid ==> ks[..|ks|] == ks;
      if valid { valid := t.scriptOk; }
    }

    /** One pass of the assembly loop over the first pending transaction. */
    method TryFirstPending()
      requires Valid() && Ready(Assembly(Snap(), blockSize)) && !Finished(Assembly(Snap(), blockSize))
      modifies this`pendingTxns, this`building, this`newUtxo, this`utxoSpent, this`blockSize
      ensures Valid()
      ensures Assembly(Snap(), blockSize) == Pass(old(Assembly(Snap(), blockSize)))
      ensures old(pendingTxns)[0] in txnPool
      ensures var h := old(pendingTxns)[0];
              if InputsThere(txnPool[h], old(utxo + newUtxo), old(utxoSpent))
              then pendingTxns == old(pendingTxns)[1..] && building == old(building) + [h] && blockSize == old(blockSize) + txnPool[h].size
              else pendingTxns == old(pendingTxns)[1..] + [h] && building == old(building) && blockSize == old(blockSize)
    {
      hide Inv, Pass, InKeys, OutKeys, Elems, Applies, View, ScriptOk, InputsThere, TotalSize;
      SizeSnoc(txnPool, building, pendingTxns[0]);
      AdmitKeeps(Snap(), rank);
      PassCases(Assembly(Snap(), blockSize));
      var h := pendingTxns[0];
      AdmitApplies(Snap(), rank, h);
      var t := txnPool[h];
      var valid := CanSpend(t);
      if valid {
        pendingTxns, building := pendingTxns[1..], building + [h];
        utxoSpent := utxoSpent + Elems(InKeys(t));
        newUtxo := newUtxo + Elems(OutKeys(t));
        blockSize := blockSize + t.size;
      } else {
        pendingTxns := pendingTxns[1..] + [h];
      }
    }

    /**
     Fill the block under construction, looking at the queue at most `limit` times. The original
     has no such limit; `Working` means that it would still be looping.
     */
    method PrepareNewBlock(limit: nat) returns (state: BuildState)
      requires Valid()
      modifies this`pendingTxns, this`building, this`newUtxo, this`utxoSpent, this`blockSize, this`prepared
      ensures Valid()
      ensures old(Ready(Assembly(Snap(), blockSize)))
      ensures Assembly(Snap(), blockSize) == Passes(old(Assembly(Snap(), blockSize)), limit)
      ensures Held(Snap()) == old(Held(Snap()))
      ensures match state
              case Full => blockSize > MAX_BLOCK_SIZE && prepared
              case EmptyMempool => blockSize <= MAX_BLOCK_SIZE && pendingTxns == [] && prepared
              case Working => !Finished(Assembly(Snap(), blockSize)) && prepared == old(prepared)
    {
      hide Inv, TotalSize, Pass, AllIn, Held;
      ghost var a := Assembly(Snap(), blockSize);
      PendingPooled(Snap(), rank);
      PassesHeld(a, limit);
      for i := 0 to limit
        invariant Valid() && Ready(a) && Assembly(Snap(), blockSize) == Passes(a, i)
        invariant prepared == old(prepared)
      {
        if blockSize > MAX_BLOCK_SIZE || pendingTxns == [] {
          PassesAdd(a, i, limit - i);
          FinishedForever(Passes(a, i), limit - i);
          break;
        }
        TryFirstPending();
      }
      if blockSize > MAX_BLOCK_SIZE {
        state, prepared := Full, true;
      } else if pendingTxns == [] {
        state, prepared := EmptyMempool, true;
      } else {
        state := Working;
      }
    }

    /** Turn the block under construction into the next block of the chain. `hash` is its new hash. */
    method GetNewBlock(hash: Hash) returns (link: Link)
      requires Valid() && prepared && Fresh(blockPool, chainTail, hash, rank)
      modifies this
      ensures Valid() && !prepared && blockSize == 0
      ensures old(AllIn(building, txnPool)) && Snap() == Mine(old(Snap()), hash, id)
      ensures link == Link(hash, old(MinedBlock(Snap(), id)))
      ensures link.block == Block(old(chainTail), link.block.txns, 1, true, id) && |link.block.txns| == |old(building)|
      ensures forall i :: 0 <= i < |link.block.txns| ==>
                old(building)[i] in old(txnPool) && link.block.txns[i] == old(txnPool)[old(building)[i]]
      ensures ActiveChain() == old(ActiveChain()) + [link]
      ensures Held(Snap()) == old(Held(Snap()))
      ensures old(Longest(blockPool, chainTail)) ==> Longest(blockPool, chainTail)
      ensures AllReplay(blockPool) ==> old(AllReplay(blockPool))
    {
      hide Inv, TotalSize, Fresh, Held, Chain, AllIn, Elems, Distinct, Ids, Active, Longest, AllReplay;
      BuilderSound(Snap(), rank);
      LookupAt(txnPool, building);
      SizeNone(txnPool);
      MineKeeps(Snap(), rank, hash, id);
      MineLongest(Snap(), rank, hash, id);
      var block := Block(chainTail, Lookup(txnPool, building), 1, true, id);
      var length := ChainLength();
      blockPool := blockPool[hash := Entry(block, length + 1)];
      chainTail := hash;
      utxo := utxo + newUtxo;
      utxo := utxo - utxoSpent;
      building, newUtxo, utxoSpent, blockSize, prepared := [], {}, {}, 0, false;
      link := Link(hash, block);
    }

    // -------------------------------------------------------------- pooling blocks

    /**
     Give a height to every descendant of `b` that waited for it, and return the highest. `loose`
     are siblings of `b`'s ancestors that callers still hold in their hands.
     */
    method UpdateOrphansAndReturnTail(b: Hash, height: nat, ghost loose: set<Hash>)
      returns (tail: Hash, tailHeight: nat)
      requires TreeInv(blockPool, orphanBlocks, loose) && b in blockPool && blockPool[b].height == height > 0
      requires forall h :: h in Unsettled(blockPool) ==> h in loose || blockPool[h].block.prev == b
      modifies this`blockPool, this`orphanBlocks
      ensures TreeInv(blockPool, orphanBlocks, loose) && Unsettled(blockPool) <= loose
      ensures Reconnected(old(blockPool), blockPool, b, tail, tailHeight)
      decreases ZeroHeight(blockPool)
    {
      hide TreeInv, Unsettled, ZeroHeight, Reconnected, Grew;
      ghost var p0 := blockPool;
      ReconnectedRefl(p0, b);
      Detach(blockPool, orphanBlocks, loose, b);
      tail, tailHeight := b, height;
      if b !in orphanBlocks {
        NoChildren(blockPool, orphanBlocks, loose, b);
        return;
      }
      var rest := orphanBlocks[b];
      DetachUnsettled(blockPool, orphanBlocks, loose, b);
      orphanBlocks := orphanBlocks - {b};
      while rest != {}
        invariant TreeInv(blockPool, orphanBlocks, loose + rest) && Unsettled(blockPool) <= loose + rest
        invariant rest !! loose && forall c :: c in rest ==> c in p0 && p0[c].block.prev == b
        invariant Reconnected(p0, blockPool, b, tail, tailHeight)
        decreases rest
      {
        var child :| child in rest;
        ghost var p1, all := blockPool, loose + rest;
        ReconnectedKeeps(p0, p1, b, tail, tailHeight);
        LooseHeight(blockPool, orphanBlocks, loose + rest, child);
        Connect(blockPool, orphanBlocks, loose + rest, child);
        blockPool := blockPool[child := blockPool[child].(height := height + 1)];
        rest := rest - {child};
        assert loose + rest == all - {child};
        ghost var p2 := blockPool;
        ZeroShrinks(p0, p1, child);
        var t, th := UpdateOrphansAndReturnTail(child, height + 1, loose + rest);
        ReconnectedTrans(p0, p1, p2, blockPool, b, child, tail, tailHeight, t, th);
        if th > tailHeight { tail, tailHeight := t, th; }
      }
      assert loose + rest == loose;
    }

    /** Pool the transactions of a peer's block, checking those not seen before. */
    method PoolTxns(ts: seq<Txn>) returns (ok: bool)
      requires Valid() && IdsAgree(txnPool, ts)
      modifies this`txnPool
      ensures Valid() && SubPool(old(txnPool), txnPool)
      ensures ok <==> TxnsValid(old(txnPool), ts)
      // each is known when its turn comes, or spends rightfully what is known then
      ensures ok <==> RightfulInTurn(old(txnPool), ts)
      ensures ok ==> txnPool == AddTxns(old(txnPool), ts)
      ensures old(AllBalanced(txnPool)) ==> AllBalanced(txnPool)
    {
      hide Inv, ValidTxn, Rightful, RightfulInTurn, AllBalanced, Distinct, OutKeys, TotalSize;
      TxnsValidIff(txnPool, ts);
      ghost var pool0 := txnPool;
      for i := 0 to |ts|
        invariant Valid() && SubPool(pool0, txnPool)
        invariant txnPool == AddTxns(pool0, ts[..i]) && TxnsValid(pool0, ts[..i])
        invariant old(AllBalanced(txnPool)) ==> AllBalanced(txnPool)
      {
        var t := ts[i];
        assert ts[..i + 1][..i] == ts[..i];
        if t.id !in txnPool {
          var valid := ValidateTxn(t);
          if !valid {
            TxnsInvalid(pool0, ts, i + 1);
            return false;
          }
          assert Distinct(OutKeys(t));
          PoolKeeps(Snap(), rank, t);
          BuilderKnown(Snap(), rank);
          SizeFrame(txnPool, txnPool[t.id := t], building);
          if AllBalanced(txnPool) { BalancedGrows(txnPool, t); }
          txnPool := txnPool[t.id := t];
        }
      }
      assert ts[..|ts|] == ts;
      return true;
    }

    /** Follow parents from a block of unknown height to the first one that is not pooled. */
    method FindMissingAncestor(h: Hash) returns (missing: Hash, ghost steps: nat)
      requires Valid() && h in blockPool && blockPool[h].height == 0
      ensures missing != GENESIS && missing !in blockPool
      ensures AncestorAt(blockPool, h, steps) == Some(missing)
    {
      hide Inv, Settled, AncestorAt;
      TreeFacts(Snap(), rank);
      missing, steps := h, 0;
      AncestorSelf(blockPool, h);
      while missing in blockPool
        invariant missing != GENESIS && AncestorAt(blockPool, h, steps) == Some(missing)
        invariant missing in blockPool ==> blockPool[missing].height == 0
        decreases rank(missing)
      {
        OrphanParent(blockPool, orphanBlocks, missing);
        AncestorNext(blockPool, h, steps, missing);
        missing, steps := blockPool[missing].block.prev, steps + 1;
      }
    }

    /**
     Add a new block to the pool. If its ancestors are all there it gets a height, and so do the
     orphans that waited for it; the highest of them all is `best`. Otherwise it is filed as an
     orphan, and the missing ancestor is to be requested.
     */
    method PoolBlock(hash: Hash, block: Block) returns (best: Hash, bestHeight: nat, request: Option<Hash>)
      requires Valid() && Addable(blockPool, hash, block, rank)
      requires forall t :: t in block.txns ==> t.id in txnPool && txnPool[t.id] == t
      modifies this`blockPool, this`orphanBlocks
      ensures Valid() && Pooled(old(blockPool), blockPool, hash, block)
      ensures ActiveChain() == old(ActiveChain()) && ChainLength() == old(ChainLength())
      ensures blockPool[hash].height == 0 <==> request.Some?
      ensures request.Some? ==> blockPool == old(blockPool)[hash := Entry(block, 0)]
      ensures request.Some? ==>
                && request.value != GENESIS && request.value !in blockPool
                && exists n: nat :: AncestorAt(blockPool, hash, n) == request
      ensures request.None? ==>
                && best in blockPool && blockPool[best].height == bestHeight > 0
                && (best == hash || (best in old(blockPool) && old(blockPool)[best].height == 0))
                && forall h :: h in blockPool && (h in old(blockPool) ==> old(blockPool)[h].height == 0) ==>
                               blockPool[h].height <= bestHeight
    {
      hide Inv, Chain, Grew, TotalSize, Settled, TreeInv, Honest, Ranked, Unsettled, Known, AncestorAt, Linked, Path;
      ghost var s0, p0 := Snap(), blockPool;
      TreeFacts(s0, rank);
      var height := 0;
      if block.prev == GENESIS {
        height := 1;
      } else if block.prev in blockPool && blockPool[block.prev].height > 0 {
        height := blockPool[block.prev].height + 1;
      }
      best, bestHeight, request := hash, height, None;
      blockPool := blockPool[hash := Entry(block, height)];
      ghost var p1 := blockPool;
      AddedFacts(s0, rank, hash, block, height);
      if height == 0 {
        AddOrphan(p0, orphanBlocks, hash, block);
        orphanBlocks := FileOrphan(orphanBlocks, block.prev, hash);
        GrowKeeps(s0, rank, blockPool, orphanBlocks);
        ghost var steps;
        var missing;
        missing, steps := FindMissingAncestor(hash);
        request := Some(missing);
      } else {
        AddConnected(p0, orphanBlocks, hash, Entry(block, height));
        best, bestHeight := UpdateOrphansAndReturnTail(hash, height, {});
        ReconnectedKeeps(p1, blockPool, hash, best, bestHeight);
        SettledAgain(blockPool, orphanBlocks);
        SameBlocksFacts(s0.txnPool, p1, blockPool, rank);
        GrewTrans(p0, p1, blockPool);
        GrowKeeps(s0, rank, blockPool, orphanBlocks);
      }
    }

    // -------------------------------------------------------------- moving to a longer chain

    /**
     Move to the chain that ends in `best` if it is longer and every transaction of it can be
     applied. The result is the part of the new chain after the lowest common ancestor.
     */
    method TryAdopt(best: Hash, bestHeight: nat) returns (tail: seq<Link>, ghost fork: nat)
      requires Valid() && Linked(blockPool, best, bestHeight)
      modifies this`utxo, this`chainTail, this`pendingTxns, this`building, this`newUtxo, this`utxoSpent,
               this`blockSize, this`prepared
      ensures Valid()
      ensures tail != [] <==> bestHeight > old(ChainLength()) && Replay(Txns(Path(blockPool, best, bestHeight)), {}).Some?
      ensures tail == [] ==> Snap() == old(Snap()) && blockSize == old(blockSize) && prepared == old(prepared)
      ensures tail != [] ==>
                && chainTail == best && ActiveChain() == Path(blockPool, best, bestHeight)
                && ForksAt(ActiveChain(), old(ActiveChain()), fork) && tail == ActiveChain()[fork..]
                && Held(Snap()) == old(Held(Snap())) + Ids(Txns(ActiveChain()))
                && building == [] && newUtxo == {} && utxoSpent == {} && blockSize == 0 && !prepared
      // what waited keeps its order, then comes what was under construction, then what the old branch returns
      ensures tail != [] ==> exists back, gone :: pendingTxns == Without(old(pendingTxns) + old(building) + back, gone)
    {
      hide Inv, TotalSize, Linked, Path, Settled, Txns, Replay, RedoTxns, UndoTxns, Ids, Held, Elems, Distinct, Chain, MoveAll,
           DistinctIds, Without, Common;
      fork := 0;
      ghost var s0 := Snap();
      TreeFacts(s0, rank);
      ChainFacts(s0, rank);
      var length := ChainLength();
      if bestHeight <= length { return [], fork; }
      var newChain, oldChain;
      newChain, oldChain, fork := FindFork(blockPool, orphanBlocks, best, bestHeight, chainTail, length);
      ghost var pn, po := Path(blockPool, best, bestHeight), Chain(blockPool, chainTail);
      var undo, undone := UndoChain(oldChain, po[fork..]);
      var redo, moves := RedoChain(utxo, newChain, undo, Moves(undone, {}));
      ReorgVerdict(s0, rank, best, bestHeight, fork);
      if redo.None? { return [], fork; }
      ReorgMoves(s0, rank, best, bestHeight, fork);
      SizeNone(txnPool);
      var back := Enumerate(moves.undone);
      ReorgKeeps(s0, rank, best, bestHeight, fork, redo.value, back);
      prepared := false;
      var queue := pendingTxns + building;
      building := [];
      blockSize := 0;
      utxoSpent, newUtxo := {}, {};
      chainTail := best;
      utxo := utxo + redo.value.added;
      utxo := utxo - redo.value.removed;
      queue := queue + back;
      pendingTxns := RetainNot(queue, moves.applied);
      tail := newChain;
    }

    /** Pool a new block and move to the best chain it completes, if that is longer and replays. */
    method PoolAndAdopt(hash: Hash, block: Block)
      returns (tail: seq<Link>, request: Option<Hash>, ghost best: Hash, ghost fork: nat)
      requires Valid() && Addable(blockPool, hash, block, rank)
      requires forall t :: t in block.txns ==> t.id in txnPool && txnPool[t.id] == t
      modifies this`blockPool, this`orphanBlocks, this`utxo, this`chainTail, this`pendingTxns, this`building,
               this`newUtxo, this`utxoSpent, this`blockSize, this`prepared
      ensures Valid() && Pooled(old(blockPool), blockPool, hash, block)
      ensures request.Some? <==> blockPool[hash].height == 0
      ensures request.Some? ==> request.value !in blockPool && tail == []
      ensures request.Some? ==> blockPool == old(blockPool)[hash := Entry(block, 0)]
      ensures request.None? ==> BestOf(old(blockPool), blockPool, best)
      ensures tail != [] <==> && request.None? && Length(blockPool, best) > old(ChainLength())
                              && Replay(Active(blockPool, best), {}).Some?
      ensures tail == [] ==> Unmoved(old(Snap()), Snap()) && blockSize == old(blockSize) && prepared == old(prepared)
      ensures tail != [] ==> chainTail == best && Moved(old(Snap()), Snap(), tail, fork) && blockSize == 0 && !prepared
      ensures Held(Snap()) == old(Held(Snap())) + Ids(Active(blockPool, chainTail))
    {
      hide Inv, Linked, Path, Replay, Ids, Elems, Chain, Addable, AncestorAt, Txns, Grew;
      tail, best, fork := [], GENESIS, 0;
      ghost var s0 := Snap();
      ChainFacts(s0, rank);
      var bestHash, bestHeight;
      bestHash, bestHeight, request := PoolBlock(hash, block);
      ChainFacts(Snap(), rank);
      if request.Some? { return; }
      best := bestHash;
      KnownLinked(Snap(), rank, bestHash);
      tail, fork := TryAdopt(bestHash, bestHeight);
      ChainFacts(Snap(), rank);
    }

    /**
     Validate a block from a peer. `best` is the highest block newly connected by it, if any; the
     result is non-empty exactly when the chain moved to `best`, and is the part of the new chain
     after the lowest common ancestor.
     */
    method ValidateBlock(hash: Hash, block: Block)
      returns (tail: seq<Link>, request: Option<Hash>, ghost best: Hash, ghost fork: nat)
      requires Valid() && hash != GENESIS
      requires hash !in blockPool ==> Addable(blockPool, hash, block, rank) && IdsAgree(txnPool, block.txns)
      modifies this
      ensures Valid() && SubPool(old(txnPool), txnPool)
      ensures old(AllBalanced(txnPool)) ==> AllBalanced(txnPool)
      ensures Sound(old(blockPool), old(txnPool), hash, block) ==> txnPool == AddTxns(old(txnPool), block.txns)
      // the block enters the pool exactly when it is new and sound
      ensures var accepted := Sound(old(blockPool), old(txnPool), hash, block);
              && (accepted ==> Pooled(old(blockPool), blockPool, hash, block))
              && (!accepted ==> blockPool == old(blockPool) && tail == [] && request.None?)
              && (hash !in old(blockPool) && hash in blockPool ==> block.nonce == 1 && block.merkleOk)
              // an ancestor is requested exactly when one is missing
              && (accepted ==> (request.Some? <==> blockPool[hash].height == 0))
              && (request.Some? ==> request.value !in blockPool)
              // the chain moves exactly when the best newly connected chain is longer and replays
              && (accepted && request.None? ==> BestOf(old(blockPool), blockPool, best))
              && (tail != [] <==> && accepted && request.None? && Length(blockPool, best) > old(ChainLength())
                                  && Replay(Active(blockPool, best), {}).Some?)
      // all or nothing
      ensures tail == [] ==> Unmoved(old(Snap()), Snap()) && blockSize == old(blockSize) && prepared == old(prepared)
      ensures tail != [] ==> chainTail == best && Moved(old(Snap()), Snap(), tail, fork) && blockSize == 0 && !prepared
      ensures Held(Snap()) == old(Held(Snap())) + Ids(Active(blockPool, chainTail))
      // a longest chain stays longest unless the best candidate fails and another one would have been longer
      ensures old(Longest(blockPool, chainTail)) ==>
                (Longest(blockPool, chainTail) <==>
                 (Sound(old(blockPool), old(txnPool), hash, block) && request.None? ==>
                    Spared(old(blockPool), blockPool, best, old(ChainLength()))))
      ensures AllReplay(blockPool) ==> old(AllReplay(blockPool))
    {
      hide Inv, TotalSize, Replay, Addable, IdsAgree, TxnsValid, AddTxns, AllBalanced, SubPool, Active, Unmoved, Moved, BestOf, Held, Ids,
           Longest, AllReplay, Spared;
      tail, request, best, fork := [], None, GENESIS, 0;
      SnapFacts(Snap(), rank);
      ghost var s0 := Snap();
      PeerLongest(s0, s0, rank, false, false, hash, block, best);
      if hash in blockPool || block.nonce != 1 || !block.merkleOk { return; }
      var ok := PoolTxns(block.txns);
      PooledFacts(s0, Snap());
      if !ok { return; }
      AddTxnsKnown(s0.txnPool, block.txns);
      tail, request, best, fork := PoolAndAdopt(hash, block);
      ghost var mid := s0.(txnPool := txnPool);
      MoveFrame(s0, mid, Snap(), tail, fork);
      MovedTail(s0, Snap());
      PeerLongest(s0, Snap(), rank, true, request.Some?, hash, block, best);
    }
  }
}
