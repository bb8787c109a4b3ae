/** The blockchain object: validates and connects blocks, keeps the mempool, reorganizes, adopts orphans. Each
    method does exactly what the function of the same name says about the state as a value. */
module Machine {
  import opened Types
  import opened MedianTime
  import opened Difficulty
  import opened Ledger
  import opened Chain
  import opened ChainFacts
  import opened Tables
  import opened TableFacts
  import opened SideFacts
  import opened Mempool
  import opened MempoolFacts
  import opened Connecting
  import opened Branches
  import opened Context
  import opened Database
  import opened Node
  import opened NodeFacts
  import opened Adoption
  import opened Runs
  import opened Locator
  import opened TemplateFacts
  import opened Integrity
  import C = Connecting
  import M = Mempool
  import N = Node
  import A = Adoption
  import R = Runs
  import T = Tables

  // ---------------------------------------------------------------- small facts the methods lean on

  /** The overlay of a context that applied a whole block is what the block writes to the table. */
  lemma OverlayIsChanges(table: Accounts, overlay: Accounts, txs: seq<Tx>, miner: Address, amount: int)
    requires overlay.Keys == Touched(txs, miner)
    requires table + overlay == Pay(Transfers(table, txs), miner, amount)
    ensures overlay == ChangesOf(table, txs, miner, amount)
  {
    hide Transfers, Touched;
    var after := Pay(Transfers(table, txs), miner, amount);
    forall a | a in overlay
      ensures overlay[a] == Get(after, a)
    {
      assert (table + overlay)[a] == overlay[a];
    }
  }

  function Backwards<T>(s: seq<T>): (r: seq<T>)
    ensures |r| == |s| && forall i :: 0 <= i < |s| ==> r[i] == s[|s| - 1 - i]
  {
    seq(|s|, i requires 0 <= i < |s| => s[|s| - 1 - i])
  }

  lemma RecentNewest(stamps: seq<int>, window: nat)
    requires stamps != [] && window >= 1
    ensures MedianTimePast(Newest(Recent(stamps, window))) == Mtp(stamps, window)
  {
    MedianIgnoresOrder(Recent(stamps, window));
  }

  /** Connecting as the outcome of a method: the refusal, if any, and the tables afterwards. */
  ghost predicate Connects(p: Params, before: Store, b: Block, now: int, totalWork: int, refusal: Option<Code>, after: Store)
    requires ValidParams(p) && before.rows != []
  {
    var spec := C.Connect(p, before, b, now, totalWork);
    if spec.Ok? then refusal.None? && after == spec.value else refusal == Some(spec.code) && after == before
  }

  lemma ConnectsParts(p: Params, before: Store, b: Block, now: int, totalWork: int, refusal: Option<Code>, after: Store)
    requires ValidParams(p) && before.rows != []
    ensures
      var spec := C.Connect(p, before, b, now, totalWork);
      Connects(p, before, b, now, totalWork, refusal, after) <==>
        (spec.Ok? ==> refusal.None? && after == spec.value) && (spec.Refused? ==> refusal == Some(spec.code) && after == before)
  {
    hide C.Connect;
  }

  /** The ways connecting ends, in the order they are checked. */
  lemma ConnectCases(p: Params, st: Store, b: Block, now: int, totalWork: int)
    requires ValidParams(p) && st.rows != []
    ensures
      var r, mtp := C.Connect(p, st, b, now, totalWork), MtpOf(p, st);
      var refusal := CheckTxs(st.accounts, Immature(p, st.rows, b.height), b.txs, st.index.Keys);
      var subsidy, fees := SubsidyFor(p, st.minted), FeeSum(b.txs);
      if b.height != TipHeight(st) + 1 || b.previous != TipHash(st) then r == Refused(Stale)
      else if b.timestamp <= mtp || b.timestamp > now + p.maxFutureSeconds then r == Refused(BadTimestamp)
      else if refusal.Some? then r == Refused(refusal.value)
      else if !CoinbaseOk(p, b, subsidy, fees) then r == Refused(BadCoinbase)
      else
        b.coinbase.Some?
        && r == Ok(T.ApplyBlock(st, b, b.coinbase.value.recipient, subsidy, fees,
                                ChangesOf(st.accounts, b.txs, b.coinbase.value.recipient, b.coinbase.value.amount),
                                UndoOf(st.accounts, Touched(b.txs, b.coinbase.value.recipient)),
                                st.minted + subsidy, totalWork))
  {
    hide MtpOf, CheckTxs, Immature, SubsidyFor, FeeSum, ChangesOf, UndoOf, Touched, T.ApplyBlock;
  }

  class Blockchain {
    const params: Params
    const storage: Storage
    var orphans: seq<Block>
    var reorgs: nat

    ghost function View(): State
      reads `orphans, `reorgs, storage
    {
      State(storage.View(), orphans, reorgs)
    }

    /** What holds between two calls. */
    ghost predicate Valid()
      reads `orphans, `reorgs, storage
    {
      ValidParams(params) && Inv(params, View()) && storage.depth == 0
    }

    /** A fresh node holds genesis. */
    constructor (p: Params)
      requires ValidParams(p)
      ensures Valid() && params == p && View() == InitialState(p) && fresh(storage)
    {
      params := p;
      storage := new Storage(p);
      orphans, reorgs := [], 0;
      new;
      InitialKeeps(p);
    }

    // ---------------------------------------------------------------- difficulty and time

    method ComputeExpectedDifficulty(parent: Block) returns (d: Option<int>)
      requires ValidParams(params)
      ensures d == ExpectedDifficulty(params, storage.View(), parent)
    {
      if !params.dynamicDifficulty || parent.height == 0 {
        return Some(params.difficulty);
      }
      var need := params.lwmaWindow + TS_FILTER;
      var headers := storage.WalkHeaders(parent.hash, need);
      if |headers| < Min(parent.height + 1, need) {
        return None;
      }
      var next := ComputeNextDifficulty(params, Backwards(headers));
      assert Backwards(headers) == Reversed(headers);
      return Some(next);
    }

    /** Median of the newest timestamps. */
    method MedianNow() returns (mtp: int)
      requires ValidParams(params) && storage.rows != []
      ensures mtp == MtpOf(params, storage.View())
    {
      var stamps := Timestamps(storage.rows);
      RecentNewest(stamps, params.mtpWindow);
      mtp := MedianTimePast(Newest(Recent(stamps, params.mtpWindow)));
    }

    // ---------------------------------------------------------------- connecting

    /** Stateful validation and persistence; inside the caller's transaction. */
    method Connect(b: Block, now: int, totalWork: int) returns (refusal: Option<Code>)
      requires ValidParams(params) && storage.rows != []
      modifies storage`rows, storage`accounts, storage`index, storage`addresses, storage`undos, storage`minted
      ensures Connects(params, old(storage.View()), b, now, totalWork, refusal, storage.View())
      ensures storage.rows != []
    {
      hide *;
      ghost var st := storage.View();
      ViewParts(storage, st);
      ConnectCases(params, st, b, now, totalWork);
      forall r: Option<Code>, after: Store
        ensures
          var spec := C.Connect(params, st, b, now, totalWork);
          Connects(params, st, b, now, totalWork, r, after) <==>
            (spec.Ok? ==> r.None? && after == spec.value) && (spec.Refused? ==> r == Some(spec.code) && after == st)
      {
        ConnectsParts(params, st, b, now, totalWork, r, after);
      }
      TipParts(st);
      var tip := storage.rows[|storage.rows| - 1].block;
      if b.height != tip.height + 1 || b.previous != tip.hash {
        return Some(Stale);
      }
      var mtp := MedianNow();
      if b.timestamp <= mtp || b.timestamp > now + params.maxFutureSeconds {
        return Some(BadTimestamp);
      }
      var ctx := new TxContext(storage.accounts, Immature(params, storage.rows, b.height));
      refusal := ApplyAll(ctx, b.txs, storage.index.Keys);
      if refusal.Some? {
        return refusal;
      }
      var subsidy := SubsidyFor(params, storage.minted);
      if !CoinbaseOk(params, b, subsidy, ctx.fees) {
        return Some(BadCoinbase);
      }
      var cb := b.coinbase.value;
      ctx.Credit(cb.recipient, cb.amount);
      ContextParts(ctx);
      TouchedIs(b.txs, cb.recipient);
      OverlayIsChanges(ctx.table, ctx.overlay, b.txs, cb.recipient, cb.amount);
      storage.ApplyBlock(b, cb.recipient, subsidy, ctx.fees, ctx.overlay, ctx.undo, storage.minted + subsidy, totalWork);
      ApplyParts(st, b, cb.recipient, subsidy, ctx.fees, ctx.overlay, ctx.undo, st.minted + subsidy, totalWork);
      ViewParts(storage, storage.View());
      return None;
    }

    // ---------------------------------------------------------------- mempool

    /** Admission into the mempool. */
    method Admit(tx: Tx, now: int, checkWindow: bool) returns (refusal: Option<Code>)
      requires ValidParams(params) && storage.rows != [] && UniquePool(storage.mempool)
      modifies storage`mempool
      ensures Admits(params, old(storage.View()), tx, now, checkWindow, refusal, storage.View())
    {
      hide *;
      ghost var st := storage.View();
      ViewParts(storage, st);
      TipParts(st);
      AdmitCases(params, st, tx, now, checkWindow);
      if checkWindow && Abs(tx.timestamp - now) > params.mempoolTimestampWindow {
        return Some(BadTimestamp);
      }
      if TxHash(tx) in storage.index || tx in storage.mempool {
        return Some(DuplicateTx);
      }
      if |storage.mempool| >= params.mempoolMaxTxs {
        return Some(MempoolFull);
      }
      if !params.addressOk(tx.sender) {
        return Some(BadStructure);
      }
      var account := Get(storage.accounts, tx.sender);
      var height := storage.rows[|storage.rows| - 1].block.height + 1;
      var immature := AmountOf(Immature(params, storage.rows, height), tx.sender);
      var pending := storage.MempoolForSender(tx.sender);
      if |pending| >= params.mempoolMaxPerSender {
        return Some(MempoolSenderLimit);
      }
      if tx.nonce != account.nonce + |pending| + 1 {
        return Some(BadNonce);
      }
      if tx.amount + tx.fee > account.balance - immature - CostSum(pending) {
        return Some(InsufficientFunds);
      }
      var ok := storage.MempoolAdd(tx);
      PoolView(storage, st);
      if !ok {
        return Some(DuplicateTx);
      }
      return None;
    }

    /** Drop what can no longer be mined. */
    method PruneMempool()
      requires ValidParams(params) && storage.rows != [] && PoolOk(params, storage.mempool)
      modifies storage`mempool
      ensures storage.View() == M.Prune(params, old(storage.View()))
    {
      hide Immature, Queue, PoolOk, Keep;
      ghost var st := storage.View();
      var pool := storage.mempool;
      PoolIsUnique(params, pool);
      var height := storage.rows[|storage.rows| - 1].block.height + 1;
      var immature := Immature(params, storage.rows, height);
      var drop: seq<Tx> := [];
      var senders := set t | t in pool :: t.sender;
      ghost var all := senders;
      while senders != {}
        invariant senders <= all && storage.View() == st
        invariant forall t :: t in drop <==> t in pool && t.sender !in senders && t !in KeptOf(params, st, t.sender)
        decreases |senders|
      {
        var a :| a in senders;
        var account := Get(storage.accounts, a);
        var queue := storage.MempoolForSender(a);
        QueueListing(pool, a);
        var unminable := Unminable(queue, account.nonce, account.balance - AmountOf(immature, a));
        forall t
          ensures t in drop + unminable <==> t in pool && t.sender !in senders - {a} && t !in KeptOf(params, st, t.sender)
        {
          assert t in queue <==> t in PendingOf(pool, a);
        }
        drop := drop + unminable;
        senders := senders - {a};
      }
      storage.MempoolRemove(drop);
      assert storage.mempool == M.Prune(params, st).mempool;
    }

    method ReadmitAll(txs: seq<Tx>, confirmed: set<Tx>, now: int)
      requires ValidParams(params) && storage.rows != [] && PoolOk(params, storage.mempool)
      requires forall i :: 0 <= i < |txs| ==> WellFormedTx(params, txs[i])
      modifies storage`mempool
      ensures storage.View() == Readmit(params, old(storage.View()), txs, confirmed, now)
      ensures PoolOk(params, storage.mempool)
    {
      ghost var st := storage.View();
      assert txs[..0] == [];
      hide WellFormedTx, PoolOk, M.Admit;
      for i := 0 to |txs|
        invariant storage.View() == Readmit(params, st, txs[..i], confirmed, now)
        invariant storage.rows != [] && PoolOk(params, storage.mempool)
      {
        assert txs[..i + 1][..i] == txs[..i];
        if txs[i] !in confirmed {
          PoolIsUnique(params, storage.mempool);
          ghost var before := storage.View();
          var refusal := Admit(txs[i], now, false);
          if refusal.None? {
            AdmitParts(params, before, txs[i], now, false);
            AdmitKeepsPool(params, before, txs[i], now, false);
          }
        }
      }
      assert txs[..|txs|] == txs;
    }

    /** Computes `Restore` in place; the disconnected blocks arrive tip first. */
    method RestoreMempool(disconnected: seq<Block>, connected: seq<Block>, now: int)
      requires ValidParams(params) && storage.rows != [] && PoolOk(params, storage.mempool)
      requires forall i :: 0 <= i < |disconnected| ==> WellFormedBlock(params, disconnected[i])
      modifies storage`mempool
      ensures storage.View() == Restore(params, old(storage.View()), Backwards(disconnected), connected, now)
    {
      hide WellFormedTx, WellFormedBlock, PoolOk, M.Prune, Readmit;
      var confirmed := TxSet(AllTxs(connected));
      PoolSubset(params, storage.mempool, storage.mempool - confirmed);
      storage.MempoolRemove(AllTxs(connected));
      ghost var st := storage.View();
      var blocks := Backwards(disconnected);
      ReadmitNone(params, st, confirmed, now);
      assert blocks[..0] == [];
      for i := 0 to |blocks|
        invariant storage.View() == Readmit(params, st, AllTxs(blocks[..i]), confirmed, now)
        invariant storage.rows != [] && PoolOk(params, storage.mempool)
      {
        assert blocks[..i + 1][..i] == blocks[..i];
        BlockTxs(params, blocks[i]);
        ReadmitSplit(params, st, AllTxs(blocks[..i]), blocks[i].txs, confirmed, now);
        ReadmitAll(blocks[i].txs, confirmed, now);
      }
      assert blocks[..|blocks|] == blocks;
      PruneMempool();
    }

    // ---------------------------------------------------------------- the tip

    method Housekeeping()
      requires ValidParams(params) && storage.rows != [] && SideInv(params, storage.View())
      modifies storage`side, storage`sideOrder
      ensures storage.View() == N.Housekeeping(params, old(storage.View()))
    {
      hide SidePrune;
      SideInvParts(params, storage.View());
      LimitsPositive(params);
      storage.PruneSide(Max(0, storage.rows[|storage.rows| - 1].block.height - params.maxReorgDepth - 1), params.maxSideBlocks);
    }

    /** Computes `Node.ExtendTip` in place, or changes nothing at all. */
    method ExtendTip(b: Block, now: int) returns (refusal: Option<Code>)
      requires ValidParams(params) && storage.depth == 0 && storage.rows != []
      requires StoreInv(params, storage.View())
      modifies storage
      ensures storage.depth == 0 && TipMoves(params, old(storage.View()), b, now, refusal, storage.View())
    {
      hide *;
      ghost var st := storage.View();
      ViewParts(storage, st);
      StoreInvParts(params, st);
      MemPool(params, st);
      var total := storage.rows[|storage.rows| - 1].totalWork + b.difficulty;
      TipParts(st);
      ExtendTipParts(params, st, b, now);
      TipMovesParts(params, st, b, now);
      storage.Begin();
      refusal := Connect(b, now, total);
      ConnectsParts(params, st, b, now, total, refusal, storage.View());
      if refusal.Some? {
        storage.Rollback();
        return;
      }
      ConnectParts(params, st, b, now, total);
      ViewParts(storage, storage.View());
      ClearConfirmed(b.txs);
      SideInvSame(params, st, storage.View());
      storage.Commit();
      Housekeeping();
    }

    /** Drop what a block confirmed, then prune. */
    method ClearConfirmed(txs: seq<Tx>)
      requires ValidParams(params) && storage.rows != [] && PoolOk(params, storage.mempool)
      modifies storage`mempool
      ensures
        var cleared := old(storage.View()).(mempool := old(storage.mempool) - TxSet(txs));
        && cleared.rows != [] && storage.View() == M.Prune(params, cleared)
        && storage.View() == old(storage.View()).(mempool := storage.mempool)
    {
      hide *;
      ghost var before := storage.View();
      ViewParts(storage, before);
      PoolSubset(params, storage.mempool, storage.mempool - TxSet(txs));
      storage.MempoolRemove(txs);
      ViewParts(storage, storage.View());
      PruneParts(params, storage.View());
      PruneMempool();
      ViewParts(storage, storage.View());
    }

    // ---------------------------------------------------------------- reorganization

    /** Collect a stored branch from its end down to the first block that is not a side row. */
    method WalkSide(h: Hash) returns (tainted: bool, path: seq<Block>, totals: seq<int>, start: Hash)
      requires ValidParams(params) && SideInv(params, storage.View())
      ensures SideWalk(params, storage.View(), h) == if tainted then Tainted else Walk(path, totals, start)
    {
      ghost var st := storage.View();
      hide SideInv, SideRowOk;
      start := h;
      var newest: seq<Block>, works: seq<int> := [], [];
      WalkJoinNone(SideWalk(params, st, h));
      while start in storage.side
        invariant WalkJoin(SideWalk(params, st, start), Backwards(newest), Backwards(works)) == SideWalk(params, st, h)
        decreases start
      {
        var row := storage.side[start];
        SideWalkStep(params, st, start);
        if !row.valid {
          return true, [], [], start;
        }
        WalkJoinStep(SideWalk(params, st, row.block.previous), row.block, row.totalWork, newest, works);
        newest := newest + [row.block];
        works := works + [row.totalWork];
        start := row.block.previous;
      }
      path, totals, tainted := Backwards(newest), Backwards(works), false;
      SideWalkEnd(params, st, start);
      WalkJoinEnd(path, totals, start);
    }

    /** Disconnect tips, newest first, until the fork block is the tip. */
    method DisconnectDown(target: Hash, ghost fork: nat) returns (disconnected: seq<Block>)
      requires ValidParams(params) && ChainInv(params, storage.View()) && SideInv(params, storage.View())
      requires fork < |storage.rows| && storage.rows[fork].block.hash == target
      modifies storage`rows, storage`accounts, storage`index, storage`addresses, storage`undos, storage`minted,
               storage`side, storage`sideOrder
      ensures storage.View() == DisconnectTo(params, old(storage.View()), fork)
      ensures disconnected == Backwards(Blocks(old(storage.rows)[fork + 1..]))
    {
      hide *;
      ghost var start := storage.View();
      ViewParts(storage, start);
      ChainInvParts(params, start);
      disconnected := [];
      while storage.rows[|storage.rows| - 1].block.hash != target
        invariant ChainInv(params, storage.View()) && SideInv(params, storage.View()) && fork < |storage.rows| <= |start.rows|
        invariant storage.View().rows == storage.rows
        invariant DisconnectTo(params, storage.View(), fork) == DisconnectTo(params, start, fork)
        invariant storage.rows == start.rows[..|storage.rows|]
        invariant disconnected == Backwards(Blocks(start.rows[|storage.rows|..]))
        decreases |storage.rows|
      {
        ghost var st := storage.View();
        ViewParts(storage, st);
        ChainInvParts(params, st);
        assert storage.rows[fork] == start.rows[fork];
        DisconnectToStep(params, st, fork);
        DisconnectKeepsInv(params, st);
        DisconnectKeepsSide(params, st);
        DisconnectParts(st);
        TipParts(st);
        var tip := storage.DisconnectTip();
        ViewParts(storage, storage.View());
        assert storage.rows == start.rows[..|storage.rows|];
        BackwardsStep(start.rows, |storage.rows|);
        disconnected := disconnected + [tip.value];
      }
      ViewParts(storage, storage.View());
      ghost var n: nat := |storage.rows| - 1;
      assert storage.rows[n] == start.rows[n];
      HashesDistinct(params, start.rows, n, fork);
      DisconnectToStep(params, storage.View(), fork);
    }

    /** Connect a branch in order, taking each block out of the side table. */
    method ConnectBranch(path: seq<Block>, totals: seq<int>, now: int) returns (failed: Option<(nat, Code)>)
      requires ValidParams(params) && storage.rows != [] && |path| == |totals|
      modifies storage`rows, storage`accounts, storage`index, storage`addresses, storage`undos, storage`minted,
               storage`side, storage`sideOrder
      ensures storage.rows != []
      ensures
        var spec := ConnectPath(params, old(storage.View()), path, totals, now);
        && (spec.Connected? ==> failed.None? && storage.View() == spec.store)
        && (spec.FailedAt? ==> failed == Some((spec.index, spec.code)))
    {
      hide *;
      ghost var st := storage.View();
      ViewParts(storage, st);
      assert path[..0] == [] && totals[..0] == [];
      ConnectPathNone(params, st, path[..0], totals[..0], now);
      for i := 0 to |path|
        invariant storage.rows != []
        invariant ConnectPath(params, st, path[..i], totals[..i], now) == Connected(storage.View())
      {
        assert path[..i + 1][..i] == path[..i] && totals[..i + 1][..i] == totals[..i];
        ConnectPathStep(params, st, path[..i + 1], totals[..i + 1], now);
        ghost var before := storage.View();
        ViewParts(storage, before);
        var refusal := Connect(path[i], now, totals[i]);
        ConnectsParts(params, before, path[i], now, totals[i], refusal, storage.View());
        if refusal.Some? {
          ConnectPathStops(params, st, path, totals, now, i + 1);
          return Some((i, refusal.value));
        }
        storage.RemoveSide(path[i].hash);
      }
      assert path[..|path|] == path && totals[..|path|] == totals;
      return None;
    }

    /** Switch to the stored branch ending in h, or refuse and leave the old chain in place. */
    method Reorganize(h: Hash, now: int) returns (outcome: Outcome)
      requires ValidParams(params) && StoreInv(params, storage.View()) && storage.depth == 0
      requires ChainInv(params, storage.View()) && SideInv(params, storage.View()) && storage.rows != []
      modifies `reorgs, storage
      ensures storage.depth == 0
      ensures (View(), outcome) == N.Reorganize(params, old(View()), h, now)
    {
      hide *;
      ghost var s, st := View(), storage.View();
      StateParts(this, s);
      ViewParts(storage, st);
      StoreInvParts(params, st);
      ChainInvParts(params, st);
      ReorganizeCases(params, s, h, now);
      var tainted, path, totals, start := WalkSide(h);
      if tainted {
        StateParts(this, View());
        return Rejected(InvalidParent);
      }
      SideWalkFacts(params, st, h);
      var fork := FindRow(storage.rows, start);
      if fork.None? {
        StateParts(this, View());
        return Done(Side, h, 0, 0);
      }
      FoundRow(st.rows, start);
      TipWorkIsWork(params, st);
      TipParts(st);
      RowAmounts(params, st.rows, fork.value);
      if storage.rows[|storage.rows| - 1].block.height - storage.rows[fork.value].block.height > params.maxReorgDepth {
        StateParts(this, View());
        return Rejected(ReorgTooDeep);
      }
      outcome := Switch(path, totals, fork.value, now);
    }

    /** Roll back to the fork, connect the branch and restore the mempool; on failure the caller rolls back. */
    method ChangeBranch(path: seq<Block>, totals: seq<int>, fork: nat, now: int) returns (failed: Option<(nat, Code)>, gone: nat)
      requires ValidParams(params) && StoreInv(params, storage.View())
      requires ChainInv(params, storage.View()) && SideInv(params, storage.View()) && storage.View().rows != []
      requires |path| == |totals| && fork < |storage.rows|
      requires PathOk(params, path, totals, storage.rows[fork].block.hash)
      modifies storage`rows, storage`accounts, storage`index, storage`addresses, storage`undos, storage`minted,
               storage`side, storage`sideOrder, storage`mempool
      ensures DisconnectTo(params, old(storage.View()), fork).rows != []
      ensures
        var st := old(storage.View());
        var result := ConnectPath(params, DisconnectTo(params, st, fork), path, totals, now);
        && (result.FailedAt? ==> failed == Some((result.index, result.code)))
        && (result.Connected? ==>
              failed.None? && storage.View() == Restore(params, result.store, Blocks(st.rows[fork + 1..]), path, now)
              && SideInv(params, storage.View()) && gone == |Blocks(st.rows[fork + 1..])| && storage.rows != [])
    {
      hide *;
      ghost var st := storage.View();
      ViewParts(storage, st);
      BranchReady(params, st, path, totals, fork, now);
      var disconnected := DisconnectDown(storage.rows[fork].block.hash, fork);
      ViewParts(storage, storage.View());
      gone := |disconnected|;
      failed := ConnectBranch(path, totals, now);
      if failed.None? {
        ViewParts(storage, storage.View());
        RestoreMempool(disconnected, path, now);
        ViewParts(storage, storage.View());
      }
    }

    /** The reorganization proper, as one transaction. */
    method Switch(path: seq<Block>, totals: seq<int>, fork: nat, now: int) returns (outcome: Outcome)
      requires ValidParams(params) && StoreInv(params, storage.View()) && storage.depth == 0
      requires ChainInv(params, storage.View()) && SideInv(params, storage.View()) && storage.View().rows != []
      requires |path| == |totals| && fork < |storage.rows|
      requires PathOk(params, path, totals, storage.rows[fork].block.hash)
      modifies `reorgs, storage
      ensures storage.depth == 0
      ensures (View(), outcome) == N.Switch(params, old(View()), path, totals, fork, now)
    {
      hide *;
      ghost var s, st := View(), storage.View();
      StateParts(this, s);
      ViewParts(storage, st);
      SwitchCases(params, s, path, totals, fork, now);
      TipParts(st);
      var oldTip := storage.rows[|storage.rows| - 1].block.hash;
      storage.Begin();
      var failed, gone := ChangeBranch(path, totals, fork, now);
      if failed.Some? {
        storage.Rollback();
        if failed.value.1 != BadTimestamp {
          var bad := HashList(path[failed.value.0..]);
          storage.MarkInvalid(bad);
        }
        StateParts(this, View());
        return Rejected(failed.value.1);
      }
      ViewParts(storage, storage.View());
      storage.Commit();
      reorgs := reorgs + 1;
      Housekeeping();
      StateParts(this, View());
      return Done(Reorganized, if path == [] then oldTip else path[|path| - 1].hash, gone, |path|);
    }

    // ---------------------------------------------------------------- network blocks

    /** Append to the orphan pool and drop the oldest beyond the cap. */
    method AddOrphan(b: Block)
      requires params.maxOrphans >= 0
      modifies `orphans
      ensures orphans == N.AddOrphan(params, old(orphans), b)
    {
      orphans := orphans + [b];
      ghost var all := orphans;
      while |orphans| > params.maxOrphans
        invariant |orphans| <= |all| && orphans == all[|all| - |orphans|..]
        invariant |orphans| >= Min(|all|, params.maxOrphans)
      {
        orphans := orphans[1..];
      }
    }

    /** Keep a block as a side block and switch to it if it is now the heaviest. */
    method StoreSide(b: Block, total: int, now: int) returns (outcome: Outcome)
      requires ValidParams(params) && StoreInv(params, storage.View()) && storage.depth == 0
      requires ChainInv(params, storage.View()) && SideInv(params, storage.View()) && storage.View().rows != []
      requires WellFormedBlock(params, b) && b.hash !in storage.View().side
      requires FindRow(storage.View().rows, b.previous).Some? || b.previous in storage.View().side
      requires ParentCheck(params, storage.View(), b).None?
      requires total == ParentWork(storage.View(), b.previous) + b.difficulty
      modifies `reorgs, storage
      ensures storage.depth == 0
      ensures (View(), outcome) == N.StoreSide(params, old(View()), b, now)
    {
      hide *;
      ghost var s, st := View(), storage.View();
      StateParts(this, s);
      ViewParts(storage, st);
      StoreInvParts(params, st);
      NewSideRow(params, st, b, now);
      SideAddParts(st, b, total, now);
      storage.AddSide(b, total, now);
      ghost var stored := storage.View();
      ViewParts(storage, stored);
      StoreInvParts(params, stored);
      WithStoreParts(s, stored);
      WithStoreParts(s, N.Housekeeping(params, stored));
      StoreSideCases(params, s, b, now, stored);
      StateParts(this, View());
      TipParts(st);
      if total > storage.rows[|storage.rows| - 1].totalWork {
        outcome := Reorganize(b.hash, now);
      } else {
        Housekeeping();
        StateParts(this, View());
        outcome := Done(Side, b.hash, 0, 0);
      }
    }

    /** A new well-formed block whose parent is stored. */
    method Place(b: Block, now: int) returns (outcome: Outcome)
      requires ValidParams(params) && StoreInv(params, storage.View()) && storage.depth == 0
      requires ChainInv(params, storage.View()) && SideInv(params, storage.View()) && storage.View().rows != []
      requires WellFormedBlock(params, b) && b.hash !in storage.View().side
      requires FindRow(storage.View().rows, b.previous).Some? || b.previous in storage.View().side
      modifies `reorgs, storage
      ensures storage.depth == 0
      ensures (View(), outcome) == N.Place(params, old(View()), b, now)
    {
      hide *;
      ghost var s, st := View(), storage.View();
      StateParts(this, s);
      ViewParts(storage, st);
      PlaceCases(params, s, b, now);
      ParentParts(params, st, b);
      TipParts(st);
      var main := FindRow(storage.rows, b.previous);
      var parent := if main.Some? then storage.rows[main.value].block else storage.side[b.previous].block;
      var parentWork := if main.Some? then storage.rows[main.value].totalWork else storage.side[b.previous].totalWork;
      if b.height != parent.height + 1 {
        return Rejected(BadHeight);
      }
      var expected := ComputeExpectedDifficulty(parent);
      if expected.None? {
        return Rejected(Incomplete);
      }
      if b.difficulty != expected.value {
        return Rejected(BadDifficulty);
      }
      var tip := storage.rows[|storage.rows| - 1].block;
      if b.previous == tip.hash {
        var refusal := ExtendTip(b, now);
        TipMovesParts(params, st, b, now);
        StateParts(this, View());
        WithStoreParts(s, storage.View());
        if refusal.Some? {
          return Rejected(refusal.value);
        }
        return Done(Extended, b.hash, 0, 0);
      }
      if main.Some? && tip.height - parent.height > params.maxReorgDepth {
        return Rejected(ReorgTooDeep);
      }
      outcome := StoreSide(b, parentWork + b.difficulty, now);
    }

    /** Classify and handle one block. */
    method Process(b: Block, now: int) returns (outcome: Outcome)
      requires ValidParams(params) && Inv(params, View()) && storage.depth == 0
      modifies `orphans, `reorgs, storage
      ensures storage.depth == 0
      ensures ChainInv(params, old(storage.View())) && SideInv(params, old(storage.View()))
      ensures (View(), outcome) == N.Process(params, old(View()), b, now)
    {
      hide *;
      ghost var s, st := View(), storage.View();
      StateParts(this, s);
      ViewParts(storage, st);
      InvParts(params, s);
      InvStore(params, s);
      TipParts(st);
      LimitsPositive(params);
      ProcessUnfold(params, s, b, now);
      var known := b.hash in storage.side;
      if known && !storage.side[b.hash].valid {
        return Rejected(InvalidBlock);
      }
      if known && storage.side[b.hash].totalWork > storage.rows[|storage.rows| - 1].totalWork {
        outcome := Reorganize(b.hash, now);
        return;
      }
      if FindRow(storage.rows, b.hash).Some? || known || InOrphans(orphans, b.hash) {
        return Done(Duplicate, b.hash, 0, 0);
      }
      if !WellFormedBlock(params, b) {
        return Rejected(BadStructure);
      }
      var main := FindRow(storage.rows, b.previous);
      if main.None? && b.previous in storage.side && !storage.side[b.previous].valid {
        return Rejected(InvalidParent);
      }
      if main.None? && b.previous !in storage.side {
        AddOrphan(b);
        StateParts(this, View());
        return Done(Orphan, b.hash, 0, 0);
      }
      outcome := Place(b, now);
    }

    /** Process the given orphans in order, keeping the hashes of those not refused. */
    method AdoptAll(children: seq<Block>, now: int) returns (hashes: seq<Hash>, failed: bool)
      requires ValidParams(params) && Inv(params, View()) && storage.depth == 0
      modifies `orphans, `reorgs, storage
      ensures storage.depth == 0 && Inv(params, View())
      ensures A.AdoptChildren(params, old(View()), children, now) == Adopted(View(), hashes, failed)
    {
      hide *;
      ghost var s := View();
      hashes := [];
      assert children[..0] == [];
      AdoptChildrenStep(params, s, children[..0], now);
      for i := 0 to |children|
        invariant storage.depth == 0 && Inv(params, View())
        invariant A.AdoptChildren(params, s, children[..i], now) == Adopted(View(), hashes, false)
      {
        assert children[..i + 1][..i] == children[..i];
        AdoptChildrenStep(params, s, children[..i + 1], now);
        ghost var before := View();
        StateParts(this, before);
        orphans := DropOrphan(orphans, children[i].hash);
        ghost var popped := View();
        StateParts(this, popped);
        PoppedIs(before, children[i].hash);
        ProcessKeepsInv(params, popped, children[i], now);
        var outcome := Process(children[i], now);
        if outcome == Rejected(Incomplete) {
          AdoptChildrenStops(params, s, children, now, i + 1);
          return hashes, true;
        }
        if outcome.Done? {
          hashes := hashes + [children[i].hash];
        }
      }
      assert children[..|children|] == children;
      return hashes, false;
    }

    /** Adopt waiting orphans, the last queued parent first; stops early only on missing ancestry. */
    method AdoptOrphans(parent: Hash, now: int) returns (failed: bool)
      requires ValidParams(params) && Inv(params, View()) && storage.depth == 0
      modifies `orphans, `reorgs, storage
      ensures storage.depth == 0 && Inv(params, View())
      ensures Known(OrphanHashes(old(View()).orphans), old(View()).orphans)
      ensures (View(), failed) == A.Adopt(params, old(View()), OrphanHashes(old(View()).orphans), [parent], now)
    {
      hide *;
      ghost var s := View();
      ghost var U := OrphanHashes(s.orphans);
      OrphansKnown(s.orphans);
      var queue := [parent];
      failed := false;
      while queue != []
        invariant storage.depth == 0 && Inv(params, View()) && Known(U, View().orphans)
        invariant A.Adopt(params, View(), U, queue, now) == A.Adopt(params, s, U, [parent], now)
        decreases Weight(U, queue)
      {
        ghost var before := View();
        StateParts(this, before);
        AdoptStep(params, before, U, queue, now);
        var n := |queue| - 1;
        var hashes, stopped := AdoptAll(ChildrenOf(orphans, queue[n]), now);
        if stopped {
          return true;
        }
        queue := queue[..n] + hashes;
      }
      AdoptStep(params, View(), U, queue, now);
    }

    /** Computes `Adoption.ProcessBlock` in place. */
    method ProcessBlock(b: Block, now: int) returns (outcome: Outcome)
      requires Valid()
      modifies `orphans, `reorgs, storage
      ensures Valid() && ValidParams(params) && Inv(params, old(View()))
      ensures (View(), outcome) == A.ProcessBlock(params, old(View()), b, now)
    {
      ValidIs(this);
      hide *;
      ghost var s := View();
      ProcessKeepsInv(params, s, b, now);
      ProcessBlockUnfold(params, s, b, now);
      outcome := Process(b, now);
      if outcome.Done? && (outcome.status == Extended || outcome.status == Reorganized || outcome.status == Side) {
        var failed := AdoptOrphans(outcome.hash, now);
        if failed {
          outcome := Rejected(Incomplete);
        }
      }
      ValidIs(this);
    }

    // ---------------------------------------------------------------- transactions and mined blocks

    /** Stateless checks, then admission with the timestamp window. */
    method SubmitTransaction(tx: Tx, now: int) returns (refusal: Option<Code>)
      requires Valid()
      modifies storage
      ensures Valid() && old(View()).store.rows != []
      ensures (View(), refusal) == R.SubmitTransaction(params, old(View()), tx, now)
    {
      ValidIs(this);
      hide *;
      ghost var s, st := View(), storage.View();
      StateParts(this, s);
      ViewParts(storage, st);
      InvParts(params, s);
      MemPool(params, st);
      PoolIsUnique(params, st.mempool);
      SubmitKeeps(params, s, tx, now);
      SubmitUnfold(params, s, tx, now);
      WithStoreParts(s, st);
      if !WellFormedTx(params, tx) {
        refusal := Some(BadStructure);
      } else {
        refusal := Admit(tx, now, true);
        AdmitsParts(params, st, tx, now, true, refusal, storage.View());
        WithStoreParts(s, storage.View());
      }
      StateParts(this, View());
      ValidIs(this);
    }

    /** The strict path of the local miner. */
    method SubmitMined(b: Block, now: int) returns (outcome: Outcome)
      requires Valid()
      modifies storage
      ensures Valid() && ValidParams(params) && old(View()).store.rows != []
      ensures (View(), outcome) == R.SubmitMined(params, old(View()), b, now)
    {
      ValidIs(this);
      hide *;
      ghost var s, st := View(), storage.View();
      StateParts(this, s);
      ViewParts(storage, st);
      InvParts(params, s);
      InvStore(params, s);
      TipParts(st);
      MinedKeeps(params, s, b, now);
      MinedUnfold(params, s, b, now);
      var tip := storage.rows[|storage.rows| - 1].block;
      var expected := ComputeExpectedDifficulty(tip);
      if expected.None? {
        outcome := Rejected(Incomplete);
      } else if !WellFormedBlock(params, b) {
        outcome := Rejected(BadStructure);
      } else if b.difficulty != expected.value {
        outcome := Rejected(BadDifficulty);
      } else if b.height != tip.height + 1 || b.previous != tip.hash {
        outcome := Rejected(Stale);
      } else {
        var refusal := ExtendTip(b, now);
        TipMovesParts(params, st, b, now);
        StateParts(this, View());
        WithStoreParts(s, storage.View());
        outcome := if refusal.Some? then Rejected(refusal.value) else Done(Extended, b.hash, 0, 0);
      }
      StateParts(this, View());
      ValidIs(this);
    }

    // ---------------------------------------------------------------- templates, locators, audit

    /** Propose a block on the current tip; refused only for a malformed miner address. */
    method ProposeBlock(miner: Address, now: int) returns (r: Result<BlockTemplate>)
      requires Valid()
      ensures ValidParams(params) && storage.View().rows != []
      ensures !params.addressOk(miner) <==> r == Refused(BadStructure)
      ensures params.addressOk(miner) ==> r.Ok? && IsTemplate(params, storage.View(), miner, now, r.value)
    {
      ValidIs(this);
      hide *;
      StateParts(this, View());
      InvParts(params, View());
      ViewParts(storage, storage.View());
      var listing := storage.MempoolList();
      r := MiningTemplate(params, storage.View(), listing, miner, now);
    }

    /** Locator hashes of the best chain. */
    method BuildLocator() returns (hashes: seq<Hash>)
      requires storage.rows != []
      ensures hashes == LocatorHashes(storage.rows)
    {
      var rows := storage.rows;
      var heights := LocatorHeights(|rows| - 1);
      LocatorInside(|rows| - 1);
      hashes := seq(|heights|, n requires 0 <= n < |heights| => rows[heights[n]].block.hash);
    }

    /** Full audit of the stored chain; after any sequence of calls it finds nothing. */
    method Audit() returns (verdict: Verdict)
      requires Valid()
      ensures verdict == Sound
    {
      ValidIs(this);
      hide *;
      StateParts(this, View());
      InvParts(params, View());
      InvariantPassesAudit(params, storage.View());
      verdict := VerifyIntegrity(params, storage.View());
    }
  }

  lemma ValidIs(chain: Blockchain)
    ensures chain.Valid() <==> ValidParams(chain.params) && Inv(chain.params, chain.View()) && chain.storage.depth == 0
  {
    hide Inv;
  }

  lemma ParentParts(p: Params, st: Store, b: Block)
    requires ValidParams(p) && (FindRow(st.rows, b.previous).Some? || b.previous in st.side)
    ensures
      var main := FindRow(st.rows, b.previous);
      && (main.Some? ==> main.value < |st.rows|)
      && var parent := if main.Some? then st.rows[main.value].block else st.side[b.previous].block;
      var expected := ExpectedDifficulty(p, st, parent);
      && parent == ParentBlock(st, b.previous)
      && ParentWork(st, b.previous) == (if main.Some? then st.rows[main.value].totalWork else st.side[b.previous].totalWork)
      && ParentCheck(p, st, b) ==
           (if b.height != parent.height + 1 then Some(BadHeight)
            else if expected.None? then Some(Incomplete)
            else if b.difficulty != expected.value then Some(BadDifficulty) else None)
  {
    hide ExpectedDifficulty;
  }

  lemma PoppedIs(s: State, h: Hash)
    ensures Popped(s, h) == State(s.store, DropOrphan(s.orphans, h), s.reorgs)
  {}

  lemma {:induction false} AdoptChildrenStops(p: Params, s: State, children: seq<Block>, now: int, n: nat)
    requires ValidParams(p) && Inv(p, s) && n <= |children| && A.AdoptChildren(p, s, children[..n], now).failed
    ensures A.AdoptChildren(p, s, children, now) == A.AdoptChildren(p, s, children[..n], now)
    decreases |children|
  {
    hide *;
    if n == |children| {
      assert children[..n] == children;
    } else {
      var m := |children| - 1;
      assert children[..m][..n] == children[..n];
      AdoptChildrenStops(p, s, children[..m], now, n);
      AdoptChildrenStep(p, s, children, now);
    }
  }

  lemma OrphansKnown(orphans: seq<Block>)
    ensures Known(OrphanHashes(orphans), orphans)
  {}

  lemma ProcessBlockUnfold(p: Params, s: State, b: Block, now: int)
    requires ValidParams(p) && Inv(p, s)
    ensures ChainInv(p, s.store) && SideInv(p, s.store)
    ensures
      var r := N.Process(p, s, b, now);
      if r.1.Done? && (r.1.status == Extended || r.1.status == Reorganized || r.1.status == Side) then
        && Inv(p, r.0) && Known(OrphanHashes(r.0.orphans), r.0.orphans)
        && var adopted := A.Adopt(p, r.0, OrphanHashes(r.0.orphans), [r.1.hash], now);
        A.ProcessBlock(p, s, b, now) == (adopted.0, if adopted.1 then Rejected(Incomplete) else r.1)
      else A.ProcessBlock(p, s, b, now) == r
  {
    hide Inv, N.Process, A.Adopt, ChainInv, SideInv;
    InvParts(p, s);
    ProcessKeepsInv(p, s, b, now);
  }

  lemma SubmitUnfold(p: Params, s: State, tx: Tx, now: int)
    requires s.store.rows != []
    ensures
      var admitted := M.Admit(p, s.store, tx, now, true);
      R.SubmitTransaction(p, s, tx, now) ==
        if !WellFormedTx(p, tx) then (s, Some(BadStructure))
        else if admitted.Refused? then (s, Some(admitted.code)) else (WithStore(s, admitted.value), None)
  {
    hide M.Admit, WellFormedTx;
  }

  lemma AdmitsParts(p: Params, before: Store, tx: Tx, now: int, checkWindow: bool, refusal: Option<Code>, after: Store)
    requires before.rows != []
    ensures
      var spec := M.Admit(p, before, tx, now, checkWindow);
      Admits(p, before, tx, now, checkWindow, refusal, after) <==>
        (spec.Ok? ==> refusal.None? && after == spec.value) && (spec.Refused? ==> refusal == Some(spec.code) && after == before)
  {
    hide M.Admit;
  }

  lemma MinedUnfold(p: Params, s: State, b: Block, now: int)
    requires ValidParams(p) && s.store.rows != []
    ensures
      var st := s.store;
      var expected, next := ExpectedDifficulty(p, st, TipRow(st).block), N.ExtendTip(p, st, b, now);
      R.SubmitMined(p, s, b, now) ==
        if expected.None? then (s, Rejected(Incomplete))
        else if !WellFormedBlock(p, b) then (s, Rejected(BadStructure))
        else if b.difficulty != expected.value then (s, Rejected(BadDifficulty))
        else if b.height != TipHeight(st) + 1 || b.previous != TipHash(st) then (s, Rejected(Stale))
        else if next.Refused? then (s, Rejected(next.code)) else (WithStore(s, next.value), Done(Extended, b.hash, 0, 0))
  {
    hide ExpectedDifficulty, N.ExtendTip, WellFormedBlock;
  }

  lemma BaseReady(p: Params, st: Store, fork: nat)
    requires ValidParams(p) && StoreInv(p, st) && ChainInv(p, st) && SideInv(p, st) && fork < |st.rows|
    ensures
      var base := DisconnectTo(p, st, fork);
      && base.rows != [] && ChainInv(p, base) && SideInv(p, base) && PoolOk(p, base.mempool)
      && TipHash(base) == st.rows[fork].block.hash
  {
    hide *;
    StoreInvParts(p, st);
    ChainInvParts(p, st);
    MemPool(p, st);
    DisconnectToFacts(p, st, fork);
    TipParts(DisconnectTo(p, st, fork));
  }

  lemma ConnectedReady(p: Params, base: Store, path: seq<Block>, totals: seq<int>, gone: seq<Block>, now: int)
    requires ValidParams(p) && base.rows != [] && ChainInv(p, base) && SideInv(p, base) && PoolOk(p, base.mempool)
    requires |path| == |totals| && PathOk(p, path, totals, TipHash(base))
    requires forall i :: 0 <= i < |AllTxs(gone)| ==> WellFormedTx(p, AllTxs(gone)[i])
    requires ConnectPath(p, base, path, totals, now).Connected?
    ensures
      var c := ConnectPath(p, base, path, totals, now).store;
      && c.rows != [] && PoolOk(p, c.mempool)
      && var restored := Restore(p, c, gone, path, now);
      restored.rows != [] && SideInv(p, restored)
  {
    hide *;
    ConnectPathFacts(p, base, path, totals, now);
    var c := ConnectPath(p, base, path, totals, now).store;
    PathConnectedIs(base, path, c);
    RestoreEstablishes(p, c, gone, path, now);
    SideInvSame(p, c, Restore(p, c, gone, path, now));
  }

  /** What the steps of a reorganization may rely on. */
  lemma BranchReady(p: Params, st: Store, path: seq<Block>, totals: seq<int>, fork: nat, now: int)
    requires ValidParams(p) && StoreInv(p, st) && ChainInv(p, st) && SideInv(p, st) && fork < |st.rows|
    requires |path| == |totals| && PathOk(p, path, totals, st.rows[fork].block.hash)
    ensures DisconnectTo(p, st, fork).rows != []
    ensures
      var gone := Backwards(Blocks(st.rows[fork + 1..]));
      Backwards(gone) == Blocks(st.rows[fork + 1..]) && forall i :: 0 <= i < |gone| ==> WellFormedBlock(p, gone[i])
    ensures
      var result := ConnectPath(p, DisconnectTo(p, st, fork), path, totals, now);
      result.Connected? ==>
        && result.store.rows != [] && PoolOk(p, result.store.mempool)
        && var restored := Restore(p, result.store, Blocks(st.rows[fork + 1..]), path, now);
        restored.rows != [] && SideInv(p, restored)
  {
    hide *;
    BaseReady(p, st, fork);
    ChainInvParts(p, st);
    GoneWellFormed(p, st.rows, fork + 1);
    GoneBlocks(p, st.rows, fork + 1);
    BackwardsTwice(Blocks(st.rows[fork + 1..]));
    if ConnectPath(p, DisconnectTo(p, st, fork), path, totals, now).Connected? {
      ConnectedReady(p, DisconnectTo(p, st, fork), path, totals, Blocks(st.rows[fork + 1..]), now);
    }
  }

  lemma StateParts(chain: Blockchain, s: State)
    requires s == chain.View()
    ensures s == State(chain.storage.View(), chain.orphans, chain.reorgs)
  {}

  function HashList(blocks: seq<Block>): (r: seq<Hash>)
    ensures (set h | h in r) == HashesOf(blocks)
  {
    var r := seq(|blocks|, i requires 0 <= i < |blocks| => blocks[i].hash);
    HashListIs(blocks, r);
    r
  }

  lemma HashListIs(blocks: seq<Block>, r: seq<Hash>)
    requires |r| == |blocks| && forall i :: 0 <= i < |r| ==> r[i] == blocks[i].hash
    ensures (set h | h in r) == HashesOf(blocks)
  {
    forall h
      ensures h in r <==> h in HashesOf(blocks)
    {
      if h in r {
        var i :| 0 <= i < |r| && r[i] == h;
        assert blocks[i] in blocks;
      }
      if h in HashesOf(blocks) {
        var b :| b in blocks && b.hash == h;
        var i :| 0 <= i < |blocks| && blocks[i] == b;
        assert r[i] == h;
      }
    }
  }

  /** A walk continued by a path already collected above it. */
  function WalkJoin(below: Walk, path: seq<Block>, totals: seq<int>): Walk {
    if below.Tainted? then Tainted else Walk(below.path + path, below.totals + totals, below.start)
  }

  lemma WalkJoinNone(w: Walk)
    ensures WalkJoin(w, Backwards([]), Backwards([])) == w
  {
    if w.Walk? {
      assert w.path + Backwards([]) == w.path && w.totals + Backwards([]) == w.totals;
    }
  }

  lemma WalkJoinStep(below: Walk, b: Block, work: int, newest: seq<Block>, works: seq<int>)
    ensures
      below.Walk? ==>
        WalkJoin(Walk(below.path + [b], below.totals + [work], below.start), Backwards(newest), Backwards(works))
          == WalkJoin(below, Backwards(newest + [b]), Backwards(works + [work]))
    ensures below.Tainted? ==> WalkJoin(below, Backwards(newest + [b]), Backwards(works + [work])) == Tainted
  {
    assert Backwards(newest + [b]) == [b] + Backwards(newest);
    assert Backwards(works + [work]) == [work] + Backwards(works);
    if below.Walk? {
      assert below.path + [b] + Backwards(newest) == below.path + ([b] + Backwards(newest));
      assert below.totals + [work] + Backwards(works) == below.totals + ([work] + Backwards(works));
    }
  }

  lemma WalkJoinEnd(path: seq<Block>, totals: seq<int>, start: Hash)
    ensures WalkJoin(Walk([], [], start), path, totals) == Walk(path, totals, start)
  {
    assert [] + path == path && [] + totals == totals;
  }

  lemma SideWalkStep(p: Params, st: Store, h: Hash)
    requires ValidParams(p) && SideInv(p, st) && h in st.side
    ensures h.HeaderHash? && st.side[h].block.previous == h.previous
    ensures
      var below := SideWalk(p, st, st.side[h].block.previous);
      SideWalk(p, st, h) ==
        if !st.side[h].valid || below.Tainted? then Tainted
        else Walk(below.path + [st.side[h].block], below.totals + [st.side[h].totalWork], below.start)
  {
    SideWorkIsWork(p, st, h);
  }

  lemma SideWalkEnd(p: Params, st: Store, h: Hash)
    requires ValidParams(p) && SideInv(p, st) && h !in st.side
    ensures SideWalk(p, st, h) == Walk([], [], h)
  {}

  lemma BackwardsStep(rows: seq<Row>, k: nat)
    requires k < |rows|
    ensures Backwards(Blocks(rows[k..])) == Backwards(Blocks(rows[k + 1..])) + [rows[k].block]
  {
    assert rows[k..] == [rows[k]] + rows[k + 1..];
    assert Blocks(rows[k..]) == [rows[k].block] + Blocks(rows[k + 1..]);
  }

  lemma BackwardsTwice(blocks: seq<Block>)
    ensures Backwards(Backwards(blocks)) == blocks
  {}

  lemma GoneBlocks(p: Params, rows: seq<Row>, k: nat)
    requires ValidParams(p) && ValidRows(p, rows) && 1 <= k <= |rows|
    ensures
      var gone := Backwards(Blocks(rows[k..]));
      |gone| == |rows| - k && forall i :: 0 <= i < |gone| ==> WellFormedBlock(p, gone[i])
  {
    hide ValidRows, WellFormedBlock;
    var gone := Backwards(Blocks(rows[k..]));
    forall i | 0 <= i < |gone|
      ensures WellFormedBlock(p, gone[i])
    {
      RowsLinked(p, rows, |rows| - 1 - i);
    }
  }

  lemma {:induction false} ConnectPathStops(p: Params, st: Store, path: seq<Block>, totals: seq<int>, now: int, n: nat)
    requires ValidParams(p) && st.rows != [] && |path| == |totals| && n <= |path|
    requires ConnectPath(p, st, path[..n], totals[..n], now).FailedAt?
    ensures ConnectPath(p, st, path, totals, now) == ConnectPath(p, st, path[..n], totals[..n], now)
    decreases |path|
  {
    hide C.Connect, SideRemove;
    if n == |path| {
      assert path[..n] == path && totals[..n] == totals;
    } else {
      var m := |path| - 1;
      assert path[..m][..n] == path[..n] && totals[..m][..n] == totals[..n];
      ConnectPathStops(p, st, path[..m], totals[..m], now, n);
    }
  }

  /** Extending the tip as the outcome of a method. */
  ghost predicate TipMoves(p: Params, before: Store, b: Block, now: int, refusal: Option<Code>, after: Store)
    requires ValidParams(p) && before.rows != []
  {
    var spec := N.ExtendTip(p, before, b, now);
    if spec.Ok? then refusal.None? && after == spec.value else refusal == Some(spec.code) && after == before
  }

  lemma TipMovesParts(p: Params, before: Store, b: Block, now: int)
    requires ValidParams(p) && before.rows != []
    ensures forall refusal: Option<Code>, after: Store ::
      TipMoves(p, before, b, now, refusal, after) <==>
        var spec := N.ExtendTip(p, before, b, now);
        (spec.Ok? ==> refusal.None? && after == spec.value) && (spec.Refused? ==> refusal == Some(spec.code) && after == before)
  {
    hide N.ExtendTip;
  }

  lemma PoolView(s: Storage, st: Store)
    requires st.rows == s.rows && st.accounts == s.accounts && st.index == s.index && st.addresses == s.addresses
    requires st.undos == s.undos && st.minted == s.minted && st.side == s.side && st.sideOrder == s.sideOrder
    ensures s.View() == st.(mempool := s.mempool)
  {}

  /** The ways admission ends, in the order they are checked. */
  lemma AdmitCases(p: Params, st: Store, tx: Tx, now: int, checkWindow: bool)
    requires st.rows != []
    ensures forall refusal: Option<Code>, after: Store ::
      Admits(p, st, tx, now, checkWindow, refusal, after) <==>
        var pending, account := Queue(st.mempool, tx.sender), Get(st.accounts, tx.sender);
        var immature := AmountOf(Immature(p, st.rows, TipHeight(st) + 1), tx.sender);
        if checkWindow && Abs(tx.timestamp - now) > p.mempoolTimestampWindow then refusal == Some(BadTimestamp) && after == st
        else if TxHash(tx) in st.index || tx in st.mempool then refusal == Some(DuplicateTx) && after == st
        else if |st.mempool| >= p.mempoolMaxTxs then refusal == Some(MempoolFull) && after == st
        else if !p.addressOk(tx.sender) then refusal == Some(BadStructure) && after == st
        else if |pending| >= p.mempoolMaxPerSender then refusal == Some(MempoolSenderLimit) && after == st
        else if tx.nonce != account.nonce + |pending| + 1 then refusal == Some(BadNonce) && after == st
        else if tx.amount + tx.fee > account.balance - immature - CostSum(pending) then refusal == Some(InsufficientFunds) && after == st
        else if exists t :: t in st.mempool && t.sender == tx.sender && t.nonce == tx.nonce then refusal == Some(DuplicateTx) && after == st
        else refusal.None? && after == st.(mempool := st.mempool + {tx})
  {
    hide Queue, Immature, CostSum, Abs, TipHeight;
  }

  /** Admission as the outcome of a method. */
  ghost predicate Admits(p: Params, before: Store, tx: Tx, now: int, checkWindow: bool, refusal: Option<Code>, after: Store)
    requires before.rows != []
  {
    var spec := M.Admit(p, before, tx, now, checkWindow);
    if spec.Ok? then refusal.None? && after == spec.value else refusal == Some(spec.code) && after == before
  }

  /** The members of a queue that pruning drops. */
  method Unminable(queue: seq<Tx>, confirmed: int, funds: int) returns (drop: seq<Tx>)
    requires forall i, j :: 0 <= i < j < |queue| ==> queue[i].nonce < queue[j].nonce
    ensures forall t :: t in drop <==> t in queue && t !in Keep(queue, confirmed, funds, false)
  {
    drop := [];
    var nonce, spendable, broken := confirmed, funds, false;
    ghost var kept: seq<Tx> := [];
    assert queue[0..] == queue;
    for i := 0 to |queue|
      invariant Keep(queue, confirmed, funds, false) == kept + Keep(queue[i..], nonce, spendable, broken)
      invariant forall t :: t in queue[..i] <==> t in kept || t in drop
      invariant forall t :: t in kept ==> t !in drop
    {
      var t := queue[i];
      assert queue[i..][0] == t && queue[i..][1..] == queue[i + 1..];
      assert queue[..i + 1] == queue[..i] + [t];
      assert t !in queue[..i];
      if broken || t.nonce != nonce + 1 || t.Cost() > spendable {
        drop := drop + [t];
        broken := broken || t.nonce > nonce + 1 || t.Cost() > spendable;
      } else {
        kept := kept + [t];
        nonce, spendable := nonce + 1, spendable - t.Cost();
      }
    }
    assert queue[|queue|..] == [] && queue[..|queue|] == queue;
  }

  lemma {:induction false} ReadmitSplit(p: Params, st: Store, a: seq<Tx>, b: seq<Tx>, skip: set<Tx>, now: int)
    requires st.rows != []
    ensures Readmit(p, st, a + b, skip, now) == Readmit(p, Readmit(p, st, a, skip, now), b, skip, now)
  {
    hide M.Admit;
    if b == [] {
      assert a + b == a;
    } else {
      assert (a + b)[..|a + b| - 1] == a + b[..|b| - 1];
      ReadmitSplit(p, st, a, b[..|b| - 1], skip, now);
    }
  }

  lemma ReadmitNone(p: Params, st: Store, skip: set<Tx>, now: int)
    requires st.rows != []
    ensures Readmit(p, st, [], skip, now) == st
  {}

  lemma BlockTxs(p: Params, b: Block)
    requires WellFormedBlock(p, b)
    ensures forall i :: 0 <= i < |b.txs| ==> WellFormedTx(p, b.txs[i])
  {}

  lemma ViewParts(s: Storage, st: Store)
    requires st == s.View()
    ensures st.addresses == s.addresses && st.sideOrder == s.sideOrder
    ensures st.rows == s.rows && st.accounts == s.accounts && st.index == s.index && st.minted == s.minted
    ensures st.mempool == s.mempool && st.side == s.side && st.sideOrder == s.sideOrder && st.undos == s.undos
  {}

  lemma ContextParts(ctx: TxContext)
    requires ctx.Valid()
    ensures ctx.undo == UndoOf(ctx.table, ctx.overlay.Keys) && ctx.View() == ctx.table + ctx.overlay
  {
    hide UndoOf;
  }

  lemma TouchedIs(txs: seq<Tx>, miner: Address)
    ensures Touched(txs, miner) == TouchedBy(txs) + {miner}
  {}
}
