/** Every step keeps the invariant; what a reorganization changes when it succeeds and when it is refused. */
module NodeFacts {
  import opened Types
  import opened Headers
  import opened Chain
  import opened ChainFacts
  import opened Tables
  import opened TableFacts
  import opened SideFacts
  import opened Mempool
  import opened MempoolFacts
  import opened Connecting
  import opened Branches
  import opened Node

  lemma StoreInvParts(p: Params, st: Store)
    requires ValidParams(p)
    ensures StoreInv(p, st) ==> st.rows != []
    ensures StoreInv(p, st) <==> ChainInv(p, st) && SideInv(p, st) && MemInv(p, st)
  {
    hide ChainInv, SideInv, MemInv;
    if ChainInv(p, st) {
      ChainInvParts(p, st);
    }
  }

  /** Within both limits of housekeeping: nothing is due for removal when the tip is at `tipHeight`. */
  ghost predicate Roomy(p: Params, side: map<Hash, SideRow>, tipHeight: int) {
    && |side| <= p.maxSideBlocks
    && forall h :: h in side ==> side[h].block.height >= Max(0, tipHeight - p.maxReorgDepth - 1)
  }

  /** Housekeeping forgets side rows and nothing else, and none while there is room. */
  lemma HousekeepingKeeps(p: Params, st: Store)
    requires ValidParams(p) && ChainInv(p, st) && SideInv(p, st)
    ensures
      var after := Housekeeping(p, st);
      && (Roomy(p, st.side, TipHeight(st)) ==> after == st)
      && ChainInv(p, after) && SideInv(p, after) && (MemInv(p, st) ==> MemInv(p, after))
      && after == st.(side := after.side, sideOrder := after.sideOrder)
      && (forall h :: h in after.side ==> h in st.side && after.side[h] == st.side[h])
  {
    hide *;
    ChainInvParts(p, st);
    HousekeepingIs(p, st);
    SidePruneFacts(p, st, Max(0, TipHeight(st) - p.maxReorgDepth - 1), p.maxSideBlocks);
    SideChangeKeeps(p, st, Housekeeping(p, st));
  }

  /** What housekeeping forgets: every side row more than maxReorgDepth + 1 blocks below the tip, and of the others
      as many as exceed maxSideBlocks, none of them higher than one that stays, nor received later at equal height. */
  lemma HousekeepingExact(p: Params, st: Store)
    requires ValidParams(p) && ChainInv(p, st) && SideInv(p, st)
    ensures
      var side, left := st.side, Housekeeping(p, st).side;
      var high := set h | h in side && side[h].block.height >= TipHeight(st) - p.maxReorgDepth - 1;
      && left.Keys <= high && |left| == Min(|high|, p.maxSideBlocks) && (forall h :: h in left ==> left[h] == side[h])
      && forall k, e :: k in left && e in high && e !in left ==>
           side[e].block.height <= side[k].block.height
           && (side[e].block.height == side[k].block.height ==> side[e].received <= side[k].received)
  {
    hide *;
    ChainInvParts(p, st);
    HousekeepingIs(p, st);
    var side, low := st.side, TipHeight(st) - p.maxReorgDepth - 1;
    forall h | h in side
      ensures side[h].block.height >= 0
    {
      SideWorkIsWork(p, st, h);
      LinkedHeights(p, h);
    }
    LimitsPositive(p);
    AtLeastFloor(side, low);
    PrunedRows(p, st, Max(0, low), p.maxSideBlocks);
  }

  lemma LimitsPositive(p: Params)
    requires ValidParams(p)
    ensures p.maxSideBlocks >= 0 && p.maxReorgDepth >= 0 && p.maxOrphans >= 0
  {}

  lemma AtLeastFloor(side: map<Hash, SideRow>, low: int)
    requires forall h :: h in side ==> side[h].block.height >= 0
    ensures (set h | h in side && side[h].block.height >= Max(0, low)) == set h | h in side && side[h].block.height >= low
  {}

  lemma PrunedRows(p: Params, st: Store, floor: int, count: nat)
    requires ValidParams(p) && SideInv(p, st)
    ensures
      var side, left := st.side, SidePrune(st, floor, count).side;
      var high := set h | h in side && side[h].block.height >= floor;
      && left.Keys <= high && |left| == Min(|high|, count) && (forall h :: h in left ==> left[h] == side[h])
      && forall k, e :: k in left && e in high && e !in left ==>
           side[e].block.height <= side[k].block.height
           && (side[e].block.height == side[k].block.height ==> side[e].received <= side[k].received)
  {
    hide SidePrune, SideInv;
    SidePruneExact(p, st, floor, count);
    var rows := HighRows(st.side, floor);
    assert rows.Keys == set h | h in st.side && st.side[h].block.height >= floor;
    assert |rows| == |rows.Keys|;
  }

  /** A new orphan always finds a place: it is the newest, and only when the pool is full the oldest goes. */
  lemma OrphansMakeRoom(p: Params, orphans: seq<Block>, b: Block)
    requires |orphans| <= p.maxOrphans && p.maxOrphans >= 1
    ensures AddOrphan(p, orphans, b) == (if |orphans| < p.maxOrphans then orphans else orphans[1..]) + [b]
  {}

  lemma HousekeepingIs(p: Params, st: Store)
    requires st.rows != []
    ensures Housekeeping(p, st) == SidePrune(st, Max(0, TipHeight(st) - p.maxReorgDepth - 1), p.maxSideBlocks)
    ensures Roomy(p, st.side, TipHeight(st)) <==>
      |st.side| <= p.maxSideBlocks
      && forall h :: h in st.side ==> st.side[h].block.height >= Max(0, TipHeight(st) - p.maxReorgDepth - 1)
  {
    hide SidePrune, TipHeight;
  }

  // ---------------------------------------------------------------- extension

  lemma ExtendTipParts(p: Params, st: Store, b: Block, now: int)
    requires ValidParams(p) && st.rows != []
    ensures
      var next := Connect(p, st, b, now, TipWork(st) + b.difficulty);
      && (ExtendTip(p, st, b, now).Ok? <==> next.Ok?)
      && (next.Refused? ==> ExtendTip(p, st, b, now) == next)
      && (next.Ok? ==>
            next.value.rows != []
            && var cleared := next.value.(mempool := next.value.mempool - TxSet(b.txs));
            ExtendTip(p, st, b, now) == Ok(Housekeeping(p, Prune(p, cleared))))
  {
    hide Connect, Housekeeping, Prune, TxSet, TipWork, MtpOf;
    if Connect(p, st, b, now, TipWork(st) + b.difficulty).Ok? {
      ConnectParts(p, st, b, now, TipWork(st) + b.difficulty);
    }
  }

  /** Extending the tip with a linked block appends exactly that block and re-establishes everything. */
  lemma ExtendTipKeeps(p: Params, st: Store, b: Block, now: int)
    requires ValidParams(p) && StoreInv(p, st) && WellFormedBlock(p, b)
    requires b.previous == TipHash(st) && b.difficulty == Expected(p, b.previous)
    requires ExtendTip(p, st, b, now).Ok?
    ensures
      var after := ExtendTip(p, st, b, now).value;
      && StoreInv(p, after) && Extends(p, st.rows, b) && after.rows == st.rows + [RowOf(p, st.rows, b)]
      && TipHash(after) == b.hash && TipWork(after) == TipWork(st) + b.difficulty
      && (forall h :: h in after.side ==> h in st.side && after.side[h] == st.side[h])
      && (Roomy(p, st.side, b.height) ==> after.side == st.side)
  {
    hide *;
    StoreInvParts(p, st);
    ExtendTipParts(p, st, b, now);
    ConnectKeepsInv(p, st, b, now, TipWork(st) + b.difficulty);
    ConnectParts(p, st, b, now, TipWork(st) + b.difficulty);
    var next := Connect(p, st, b, now, TipWork(st) + b.difficulty).value;
    var cleared := next.(mempool := next.mempool - TxSet(b.txs));
    SideInvSame(p, st, cleared);
    ChainInvIgnoresPool(p, next, cleared.mempool);
    MemPool(p, st);
    PoolSubset(p, st.mempool, cleared.mempool);
    PruneEstablishes(p, cleared);
    PruneParts(p, cleared);
    var pruned := Prune(p, cleared);
    ChainInvIgnoresPool(p, cleared, pruned.mempool);
    SideInvSame(p, cleared, pruned);
    HousekeepingKeeps(p, pruned);
    StoreInvParts(p, Housekeeping(p, pruned));
    TipParts(next);
    TipParts(pruned);
    TipParts(Housekeeping(p, pruned));
  }

  lemma MemPool(p: Params, st: Store)
    requires st.rows != [] && MemInv(p, st)
    ensures PoolOk(p, st.mempool)
  {
    hide PoolOk;
  }

  // ---------------------------------------------------------------- reorganization

  lemma {:induction false} AllTxsFrom(p: Params, blocks: seq<Block>)
    requires forall i :: 0 <= i < |blocks| ==> WellFormedBlock(p, blocks[i])
    ensures forall i :: 0 <= i < |AllTxs(blocks)| ==> WellFormedTx(p, AllTxs(blocks)[i])
  {
    if blocks != [] {
      AllTxsFrom(p, blocks[..|blocks| - 1]);
      assert WellFormedBlock(p, blocks[|blocks| - 1]);
    }
  }

  lemma GoneWellFormed(p: Params, rows: seq<Row>, k: nat)
    requires ValidParams(p) && ValidRows(p, rows) && 1 <= k <= |rows|
    ensures forall i :: 0 <= i < |AllTxs(Blocks(rows[k..]))| ==> WellFormedTx(p, AllTxs(Blocks(rows[k..]))[i])
  {
    hide ValidRows, WellFormedTx;
    var gone := Blocks(rows[k..]);
    forall i | 0 <= i < |gone|
      ensures WellFormedBlock(p, gone[i])
    {
      RowsLinked(p, rows, k + i);
    }
    AllTxsFrom(p, gone);
  }

  /** The branches a reorganization can take before it touches anything. */
  lemma ReorganizeCases(p: Params, s: State, h: Hash, now: int)
    requires ValidParams(p) && ChainInv(p, s.store) && SideInv(p, s.store)
    ensures
      var st, walk, r := s.store, SideWalk(p, s.store, h), Reorganize(p, s, h, now);
      && (walk.Tainted? ==> r == (s, Rejected(InvalidParent)))
      && (walk.Walk? ==>
            var fork := FindRow(st.rows, walk.start);
            && (fork.None? ==> r == (s, Done(Side, h, 0, 0)))
            && (fork.Some? && |st.rows| - 1 - fork.value > p.maxReorgDepth ==> r == (s, Rejected(ReorgTooDeep)))
            && (fork.Some? && |st.rows| - 1 - fork.value <= p.maxReorgDepth ==>
                  |walk.path| == |walk.totals|
                  && r == Switch(p, s, walk.path, walk.totals, fork.value, now)))
  {
    hide SideWalk, Switch, ChainInv, SideInv;
    var st, walk := s.store, SideWalk(p, s.store, h);
    ChainInvParts(p, st);
    if walk.Walk? {
      SideWalkFacts(p, st, h);
      PathLengths(p, walk.path, walk.totals, walk.start);
      var fork := FindRow(st.rows, walk.start);
      if fork.Some? {
        RowAmounts(p, st.rows, |st.rows| - 1);
        RowAmounts(p, st.rows, fork.value);
      }
    }
  }

  /** The two outcomes of the switch itself. */
  lemma SwitchCases(p: Params, s: State, path: seq<Block>, totals: seq<int>, fork: nat, now: int)
    requires ValidParams(p) && ChainInv(p, s.store) && SideInv(p, s.store)
    requires |path| == |totals| && fork < |s.store.rows|
    ensures
      var st, r := s.store, Switch(p, s, path, totals, fork, now);
      DisconnectTo(p, st, fork).rows != []
      && var result := ConnectPath(p, DisconnectTo(p, st, fork), path, totals, now);
      && (result.FailedAt? ==>
            r == ((if result.code == BadTimestamp then s
                   else s.(store := SideMarkInvalid(st, HashesOf(path[result.index..])))),
                  Rejected(result.code)))
      && (result.Connected? ==>
            var gone := Blocks(st.rows[fork + 1..]);
            var restored := Restore(p, result.store, gone, path, now);
            && restored.rows != []
            && r == (s.(store := Housekeeping(p, restored), reorgs := s.reorgs + 1),
                     Done(Reorganized, if path == [] then TipHash(st) else path[|path| - 1].hash, |gone|, |path|)))
  {
    hide ConnectPath, DisconnectTo, Restore, Housekeeping, SideMarkInvalid, ChainInv, SideInv, HashesOf;
    DisconnectToFacts(p, s.store, fork);
    var result := ConnectPath(p, DisconnectTo(p, s.store, fork), path, totals, now);
    if result.Connected? {
      RestoreRows(p, result.store, Blocks(s.store.rows[fork + 1..]), path, now);
    }
  }

  /** A successful switch: the branch is the best chain above the fork and the invariant holds. */
  lemma SwitchSucceeds(p: Params, s: State, path: seq<Block>, totals: seq<int>, fork: nat, now: int)
    requires ValidParams(p) && StoreInv(p, s.store)
    requires fork < |s.store.rows| && PathOk(p, path, totals, s.store.rows[fork].block.hash) && path != []
    requires |path| == |totals|
    requires Switch(p, s, path, totals, fork, now).1.Done?
    ensures
      var st, r := s.store, Switch(p, s, path, totals, fork, now);
      && StoreInv(p, r.0.store) && r.0.orphans == s.orphans && r.0.reorgs == s.reorgs + 1
      && r.1 == Done(Reorganized, path[|path| - 1].hash, |st.rows| - 1 - fork, |path|)
      && |r.0.store.rows| == fork + 1 + |path| && r.0.store.rows[..fork + 1] == st.rows[..fork + 1]
      && (forall i :: 0 <= i < |path| ==> r.0.store.rows[fork + 1 + i].block == path[i])
      && TipHash(r.0.store) == path[|path| - 1].hash
      && DisconnectTo(p, st, fork).rows != []
      && var result := ConnectPath(p, DisconnectTo(p, st, fork), path, totals, now);
      && result.Connected? && PathConnected(DisconnectTo(p, st, fork), path, result.store)
      && (Roomy(p, result.store.side, |r.0.store.rows| - 1) ==> r.0.store.side == result.store.side)
  {
    hide *;
    StoreInvParts(p, s.store);
    SwitchCases(p, s, path, totals, fork, now);
    var st := s.store;
    ChainInvParts(p, st);
    DisconnectToFacts(p, st, fork);
    var base := DisconnectTo(p, st, fork);
    TipParts(base);
    ConnectPathFacts(p, base, path, totals, now);
    var connected := ConnectPath(p, base, path, totals, now).store;
    PathConnectedIs(base, path, connected);
    MemPool(p, st);
    GoneWellFormed(p, st.rows, fork + 1);
    var gone := Blocks(st.rows[fork + 1..]);
    RestoreEstablishes(p, connected, gone, path, now);
    var restored := Restore(p, connected, gone, path, now);
    SideInvSame(p, connected, restored);
    HousekeepingKeeps(p, restored);
    StoreInvParts(p, Housekeeping(p, restored));
    TipParts(Housekeeping(p, restored));
    TipParts(connected);
    TipWorkIsWork(p, restored);
  }

  /** A successful reorganization: exactly the blocks above the fork leave the best chain, at most
      maxReorgDepth of them, and the stored branch is now the best chain above the fork. */
  lemma ReorganizeSucceeds(p: Params, s: State, h: Hash, now: int)
    requires ValidParams(p) && StoreInv(p, s.store) && h in s.store.side
    requires Reorganize(p, s, h, now).1.Done? && Reorganize(p, s, h, now).1.status == Reorganized
    ensures
      var st, walk, r := s.store, SideWalk(p, s.store, h), Reorganize(p, s, h, now);
      && StoreInv(p, r.0.store) && r.0.orphans == s.orphans && r.0.reorgs == s.reorgs + 1
      && walk.Walk? && FindRow(st.rows, walk.start).Some?
      && var fork := FindRow(st.rows, walk.start).value;
      && r.1 == Done(Reorganized, h, |st.rows| - 1 - fork, |walk.path|)
      && |st.rows| - 1 - fork <= p.maxReorgDepth
      && |r.0.store.rows| == fork + 1 + |walk.path| && r.0.store.rows[..fork + 1] == st.rows[..fork + 1]
      && (forall i :: 0 <= i < |walk.path| ==> r.0.store.rows[fork + 1 + i].block == walk.path[i])
      && TipHash(r.0.store) == h
  {
    hide *;
    StoreInvParts(p, s.store);
    ReorganizeCases(p, s, h, now);
    var st, walk := s.store, SideWalk(p, s.store, h);
    SideWalkFacts(p, st, h);
    FoundRow(st.rows, walk.start);
    SwitchSucceeds(p, s, walk.path, walk.totals, FindRow(st.rows, walk.start).value, now);
  }

  lemma FoundRow(rows: seq<Row>, h: Hash)
    ensures FindRow(rows, h).Some? ==> FindRow(rows, h).value < |rows| && rows[FindRow(rows, h).value].block.hash == h
  {}

  /** Block i of the branch is the one that failed to connect, or comes after it. Nothing is attempted
      when the branch is tainted, does not reach the best chain, or forks too deep; a refusal about time
      condemns nothing. */
  ghost predicate FailsFrom(p: Params, s: State, h: Hash, now: int, i: nat)
    requires ValidParams(p) && ChainInv(p, s.store) && SideInv(p, s.store)
  {
    var walk := SideWalk(p, s.store, h);
    walk.Walk? && i < |walk.path| && FindRow(s.store.rows, walk.start).Some? && |walk.path| == |walk.totals|
    && var fork := FindRow(s.store.rows, walk.start).value;
    && |s.store.rows| - 1 - fork <= p.maxReorgDepth
    && DisconnectTo(p, s.store, fork).rows != []
    && var result := ConnectPath(p, DisconnectTo(p, s.store, fork), walk.path, walk.totals, now);
    result.FailedAt? && result.index <= i && result.code != BadTimestamp
  }

  /** The verdict a reorganization attempt reaches about the stored block x. */
  ghost predicate Condemned(p: Params, s: State, h: Hash, now: int, x: Hash)
    requires ValidParams(p) && ChainInv(p, s.store) && SideInv(p, s.store)
  {
    var walk := SideWalk(p, s.store, h);
    walk.Walk? && exists i :: 0 <= i < |walk.path| && walk.path[i].hash == x && FailsFrom(p, s, h, now, i)
  }

  /** A refused reorganization leaves no trace but verdicts: chain, accounts, supply, indexes, undo rows
      and mempool are those before the attempt, no side row comes or goes, and exactly the block that failed
      and the blocks after it on that branch turn invalid - none when the refusal was about time, or when
      the branch was refused before connecting anything. */
  lemma RefusedReorganizeLeavesNoTrace(p: Params, s: State, h: Hash, now: int)
    requires ValidParams(p) && StoreInv(p, s.store) && h in s.store.side
    requires !(Reorganize(p, s, h, now).1.Done? && Reorganize(p, s, h, now).1.status == Reorganized)
    ensures
      var st, after := s.store, Reorganize(p, s, h, now).0;
      && StoreInv(p, after.store) && after.orphans == s.orphans && after.reorgs == s.reorgs
      && after.store == st.(side := after.store.side) && after.store.side.Keys == st.side.Keys
      && (Reorganize(p, s, h, now).1 == Rejected(BadTimestamp) ==> after == s)
      && (forall x :: x in st.side ==>
            after.store.side[x] == if Condemned(p, s, h, now, x) then st.side[x].(valid := false) else st.side[x])
  {
    hide *;
    StoreInvParts(p, s.store);
    ReorganizeCases(p, s, h, now);
    var st, walk := s.store, SideWalk(p, s.store, h);
    ChainInvParts(p, st);
    FailsParts(p, s, h, now);
    if walk.Walk? && FindRow(st.rows, walk.start).Some?
       && |st.rows| - 1 - FindRow(st.rows, walk.start).value <= p.maxReorgDepth {
      SideWalkFacts(p, st, h);
      FoundRow(st.rows, walk.start);
      var fork := FindRow(st.rows, walk.start).value;
      SwitchCases(p, s, walk.path, walk.totals, fork, now);
      var result := ConnectPath(p, DisconnectTo(p, st, fork), walk.path, walk.totals, now);
      var bad := HashesOf(walk.path[result.index..]);
      MarkParts(st, bad);
      SideMarkKeeps(p, st, bad);
      SideChangeKeeps(p, st, SideMarkInvalid(st, bad));
      StoreInvParts(p, SideMarkInvalid(st, bad));
      forall x: Hash
        ensures result.code != BadTimestamp ==> (x in bad <==> Condemned(p, s, h, now, x))
      {
        HashesIndex(walk.path, result.index, x);
        CondemnedParts(p, s, h, now, x);
      }
    }
    forall x: Hash
      ensures Condemned(p, s, h, now, x) <==>
        walk.Walk? && exists i :: 0 <= i < |walk.path| && walk.path[i].hash == x && FailsFrom(p, s, h, now, i)
    {
      CondemnedParts(p, s, h, now, x);
    }
  }

  lemma CondemnedParts(p: Params, s: State, h: Hash, now: int, x: Hash)
    requires ValidParams(p) && ChainInv(p, s.store) && SideInv(p, s.store)
    ensures
      var walk := SideWalk(p, s.store, h);
      Condemned(p, s, h, now, x) <==>
        walk.Walk? && exists i :: 0 <= i < |walk.path| && walk.path[i].hash == x && FailsFrom(p, s, h, now, i)
  {
    hide SideWalk, FailsFrom, ChainInv, SideInv;
  }

  /** When an attempt gets as far as connecting, what fails is decided by the connection alone. */
  lemma FailsParts(p: Params, s: State, h: Hash, now: int)
    requires ValidParams(p) && ChainInv(p, s.store) && SideInv(p, s.store)
    ensures
      var st, walk := s.store, SideWalk(p, s.store, h);
      if walk.Walk? && FindRow(st.rows, walk.start).Some?
         && |st.rows| - 1 - FindRow(st.rows, walk.start).value <= p.maxReorgDepth && |walk.path| == |walk.totals|
      then
        DisconnectTo(p, st, FindRow(st.rows, walk.start).value).rows != []
        && var result := ConnectPath(p, DisconnectTo(p, st, FindRow(st.rows, walk.start).value), walk.path, walk.totals, now);
        forall i: nat :: FailsFrom(p, s, h, now, i) <==>
          i < |walk.path| && result.FailedAt? && result.index <= i && result.code != BadTimestamp
      else forall i: nat :: !FailsFrom(p, s, h, now, i)
  {
    hide SideWalk, ConnectPath, DisconnectTo, ChainInv, SideInv, FindRow;
    var st, walk := s.store, SideWalk(p, s.store, h);
    if walk.Walk? && FindRow(st.rows, walk.start).Some? {
      DisconnectToFacts(p, st, FindRow(st.rows, walk.start).value);
    }
  }

  lemma MarkParts(st: Store, bad: set<Hash>)
    ensures
      var after := SideMarkInvalid(st, bad);
      && after == st.(side := after.side) && after.side.Keys == st.side.Keys
      && forall x :: x in st.side ==>
           after.side[x] == if x in bad then st.side[x].(valid := false) else st.side[x]
  {}

  lemma HashesIndex(path: seq<Block>, from: nat, x: Hash)
    requires from <= |path|
    ensures x in HashesOf(path[from..]) <==> exists i :: from <= i < |path| && path[i].hash == x
  {
    if x in HashesOf(path[from..]) {
      var b :| b in path[from..] && b.hash == x;
      var j :| 0 <= j < |path[from..]| && path[from..][j] == b;
      assert path[from + j].hash == x;
    }
    if i :| from <= i < |path| && path[i].hash == x {
      assert path[from..][i - from] == path[i];
      assert path[i] in path[from..];
    }
  }

  /** Reorganizing to a branch with more stored work strictly raises the work of the tip. */
  lemma ReorganizeRaisesWork(p: Params, s: State, h: Hash, now: int)
    requires ValidParams(p) && StoreInv(p, s.store) && h in s.store.side
    ensures
      var r := Reorganize(p, s, h, now);
      && r.0.store.rows != [] && s.store.rows != []
      && (r.1.Done? && r.1.status == Reorganized ==> TipWork(r.0.store) == s.store.side[h].totalWork)
      && (!(r.1.Done? && r.1.status == Reorganized) ==> r.0.store.rows == s.store.rows)
  {
    hide *;
    StoreInvParts(p, s.store);
    var r := Reorganize(p, s, h, now);
    if r.1.Done? && r.1.status == Reorganized {
      ReorganizeSucceeds(p, s, h, now);
      StoreInvParts(p, r.0.store);
      TipWorkIsWork(p, r.0.store);
      SideWorkIsWork(p, s.store, h);
    } else {
      RefusedReorganizeLeavesNoTrace(p, s, h, now);
    }
  }

  lemma TipWorkIsWork(p: Params, st: Store)
    requires ValidParams(p) && ChainInv(p, st)
    ensures st.rows != [] && TipWork(st) == Work(p, TipHash(st)) && Linked(p, TipHash(st))
    ensures TipHeight(st) == |st.rows| - 1 == Height(TipHash(st))
  {
    hide ValidRows, Work, Linked, WellFormedBlock;
    RowsLinked(p, st.rows, |st.rows| - 1);
  }

  lemma SideWorkIsWork(p: Params, st: Store, h: Hash)
    requires ValidParams(p) && SideInv(p, st) && h in st.side
    ensures st.side[h].totalWork == Work(p, h) && Linked(p, h) && st.side[h].block.hash == h && h.HeaderHash?
    ensures st.side[h].block.previous == h.previous && WellFormedBlock(p, st.side[h].block) && h != GenesisHash(p)
    ensures st.side[h].block.height == h.height
  {
    hide WellFormedBlock, Work, Linked;
    assert SideRowOk(p, h, st.side[h]);
    SideRowFacts(p, h, st.side[h]);
  }

  /** Whatever a reorganization attempt does, the invariant holds afterwards. */
  lemma ReorganizeKeeps(p: Params, s: State, h: Hash, now: int)
    requires ValidParams(p) && StoreInv(p, s.store) && h in s.store.side
    ensures StoreInv(p, Reorganize(p, s, h, now).0.store)
    ensures Reorganize(p, s, h, now).0.orphans == s.orphans
  {
    hide *;
    StoreInvParts(p, s.store);
    var r := Reorganize(p, s, h, now);
    if r.1.Done? && r.1.status == Reorganized {
      ReorganizeSucceeds(p, s, h, now);
    } else {
      RefusedReorganizeLeavesNoTrace(p, s, h, now);
    }
  }

  // ---------------------------------------------------------------- processing

  function WithStore(s: State, st: Store): State { s.(store := st) }

  lemma WithStoreParts(s: State, st: Store)
    ensures WithStore(s, st) == s.(store := st) && WithStore(s, st).store == st
    ensures WithStore(s, st).orphans == s.orphans && WithStore(s, st).reorgs == s.reorgs
  {}

  lemma StoreSideCases(p: Params, s: State, b: Block, now: int, stored: Store)
    requires ValidParams(p) && ChainInv(p, s.store) && SideInv(p, s.store) && WellFormedBlock(p, b)
    requires FindRow(s.store.rows, b.previous).Some? || b.previous in s.store.side
    requires ParentCheck(p, s.store, b).None?
    requires stored == SideAdd(s.store, b, ParentWork(s.store, b.previous) + b.difficulty, now)
    requires ChainInv(p, stored) && SideInv(p, stored) && s.store.rows != [] && stored.rows == s.store.rows
    requires WithStore(s, stored).store == stored
    ensures
      var r, heavier := StoreSide(p, s, b, now), ParentWork(s.store, b.previous) + b.difficulty > TipWork(s.store);
      && (heavier ==> r == Reorganize(p, WithStore(s, stored), b.hash, now))
      && (!heavier ==> r == (WithStore(s, Housekeeping(p, stored)), Done(Side, b.hash, 0, 0)))
  {
    hide ChainInv, SideInv, WellFormedBlock, ParentCheck, ParentWork, Reorganize, Housekeeping, SideAdd, FindRow, TipWork;
  }

  /** The ways a block with a stored parent can end. */
  lemma PlaceCases(p: Params, s: State, b: Block, now: int)
    requires ValidParams(p) && ChainInv(p, s.store) && SideInv(p, s.store) && WellFormedBlock(p, b)
    requires FindRow(s.store.rows, b.previous).Some? || b.previous in s.store.side
    ensures
      var st, r := s.store, Place(p, s, b, now);
      var refusal := ParentCheck(p, st, b);
      st.rows != []
      && var deep := FindRow(st.rows, b.previous).Some?
                     && TipHeight(st) - ParentBlock(st, b.previous).height > p.maxReorgDepth;
      && (refusal.Some? ==> r == (s, Rejected(refusal.value)))
      && (refusal.None? && b.previous == TipHash(st) ==>
            var next := ExtendTip(p, st, b, now);
            && (next.Refused? ==> r == (s, Rejected(next.code)))
            && (next.Ok? ==> r == (s.(store := next.value), Done(Extended, b.hash, 0, 0))))
      && (refusal.None? && b.previous != TipHash(st) && deep ==> r == (s, Rejected(ReorgTooDeep)))
      && (refusal.None? && b.previous != TipHash(st) && !deep ==> r == StoreSide(p, s, b, now))
  {
    hide ChainInv, SideInv, WellFormedBlock, ParentCheck, StoreSide, ExtendTip, FindRow;
    ChainInvParts(p, s.store);
  }

  /** Storing a side block keeps the invariant and never lowers the tip work. */
  lemma StoreSideKeeps(p: Params, s: State, b: Block, now: int)
    requires ValidParams(p) && StoreInv(p, s.store) && WellFormedBlock(p, b) && b.hash !in s.store.side
    requires FindRow(s.store.rows, b.previous).Some? || b.previous in s.store.side
    requires ParentCheck(p, s.store, b).None?
    ensures
      var r := StoreSide(p, s, b, now);
      && StoreInv(p, r.0.store) && r.0.orphans == s.orphans
      && s.store.rows != [] && r.0.store.rows != [] && TipWork(r.0.store) >= TipWork(s.store)
  {
    hide *;
    StoreInvParts(p, s.store);
    var st, total := s.store, ParentWork(s.store, b.previous) + b.difficulty;
    var stored := SideAdd(st, b, total, now);
    NewSideRow(p, st, b, now);
    WithStoreParts(s, stored);
    WithStoreParts(s, Housekeeping(p, stored));
    StoreSideCases(p, s, b, now, stored);
    SideAddParts(st, b, total, now);
    StoreInvParts(p, stored);
    TipParts(st);
    TipParts(stored);
    if total > TipWork(st) {
      ReorganizeKeeps(p, WithStore(s, stored), b.hash, now);
      ReorganizeRaisesWork(p, WithStore(s, stored), b.hash, now);
      TipParts(StoreSide(p, s, b, now).0.store);
    } else {
      HousekeepingKeeps(p, stored);
      StoreInvParts(p, Housekeeping(p, stored));
      TipParts(Housekeeping(p, stored));
    }
  }

  /** Placing a block keeps the invariant, never lowers the tip work and never touches the orphans. */
  lemma PlaceKeeps(p: Params, s: State, b: Block, now: int)
    requires ValidParams(p) && StoreInv(p, s.store) && WellFormedBlock(p, b) && b.hash !in s.store.side
    requires FindRow(s.store.rows, b.previous).Some? || b.previous in s.store.side
    ensures
      var r := Place(p, s, b, now);
      && StoreInv(p, r.0.store) && r.0.orphans == s.orphans
      && s.store.rows != [] && r.0.store.rows != [] && TipWork(r.0.store) >= TipWork(s.store)
  {
    hide *;
    StoreInvParts(p, s.store);
    PlaceCases(p, s, b, now);
    var st := s.store;
    if ParentCheck(p, st, b).None? {
      ChainInvParts(p, st);
      LinkedChild(p, st, b);
      if b.previous == TipHash(st) {
        if ExtendTip(p, st, b, now).Ok? {
          ExtendTipKeeps(p, st, b, now);
          BlockDifficulty(p, b);
          StoreInvParts(p, ExtendTip(p, st, b, now).value);
        }
      } else {
        StoreSideKeeps(p, s, b, now);
      }
    }
  }

  lemma BlockDifficulty(p: Params, b: Block)
    requires WellFormedBlock(p, b)
    ensures b.difficulty >= 1
  {}

  lemma OrphanCap(p: Params)
    requires ValidParams(p)
    ensures p.maxOrphans >= 0
  {}

  /** The ways processing can go, in the order they are checked. */
  lemma ProcessUnfold(p: Params, s: State, b: Block, now: int)
    requires ValidParams(p) && ChainInv(p, s.store) && SideInv(p, s.store) && s.store.rows != [] && p.maxOrphans >= 0
    ensures
      var st, r := s.store, Process(p, s, b, now);
      var known, main := b.hash in st.side, FindRow(st.rows, b.previous);
      if known && !st.side[b.hash].valid then r == (s, Rejected(InvalidBlock))
      else if known && st.side[b.hash].totalWork > TipWork(st) then r == Reorganize(p, s, b.hash, now)
      else if FindRow(st.rows, b.hash).Some? || known || InOrphans(s.orphans, b.hash) then r == (s, Done(Duplicate, b.hash, 0, 0))
      else if !WellFormedBlock(p, b) then r == (s, Rejected(BadStructure))
      else if main.None? && b.previous in st.side && !st.side[b.previous].valid then r == (s, Rejected(InvalidParent))
      else if main.None? && b.previous !in st.side then
        r == (State(st, AddOrphan(p, s.orphans, b), s.reorgs), Done(Orphan, b.hash, 0, 0))
      else (main.Some? || b.previous in st.side) && r == Place(p, s, b, now)
  {
    hide ChainInv, SideInv, FindRow, WellFormedBlock, Reorganize, Place, AddOrphan, InOrphans, TipWork;
  }

  /** A condemned block stays condemned: the block itself is refused for good, and a new block on top of it is refused
      as well and not even kept, both without a trace. */
  lemma CondemnedRefused(p: Params, s: State, b: Block, now: int)
    requires ValidParams(p) && StoreInv(p, s.store)
    ensures b.hash in s.store.side && !s.store.side[b.hash].valid ==> Process(p, s, b, now) == (s, Rejected(InvalidBlock))
    ensures b.previous in s.store.side && !s.store.side[b.previous].valid && FindRow(s.store.rows, b.previous).None?
            && WellFormedBlock(p, b) && FindRow(s.store.rows, b.hash).None? && b.hash !in s.store.side
            && !InOrphans(s.orphans, b.hash)
            ==> Process(p, s, b, now) == (s, Rejected(InvalidParent))
  {
    hide *;
    StoreInvParts(p, s.store);
    ChainInvParts(p, s.store);
    OrphanCap(p);
    ProcessUnfold(p, s, b, now);
  }

  /** The best chain moves only to strictly more work: equal work never causes a switch. */
  lemma ProcessMovesUp(p: Params, s: State, b: Block, now: int)
    requires ValidParams(p) && StoreInv(p, s.store)
    ensures
      var r := Process(p, s, b, now);
      && s.store.rows != [] && r.0.store.rows != []
      && (r.1.Done? && (r.1.status == Extended || r.1.status == Reorganized) ==> TipWork(r.0.store) > TipWork(s.store))
      && (!(r.1.Done? && (r.1.status == Extended || r.1.status == Reorganized)) ==> r.0.store.rows == s.store.rows)
  {
    hide *;
    StoreInvParts(p, s.store);
    var st := s.store;
    ChainInvParts(p, st);
    OrphanCap(p);
    ProcessUnfold(p, s, b, now);
    if b.hash in st.side && st.side[b.hash].valid && st.side[b.hash].totalWork > TipWork(st) {
      ReorganizeRaisesWork(p, s, b.hash, now);
      ReorganizeStatus(p, s, b.hash, now);
    } else if b.hash !in st.side && FindRow(st.rows, b.hash).None? && !InOrphans(s.orphans, b.hash)
              && WellFormedBlock(p, b) && (FindRow(st.rows, b.previous).Some? || b.previous in st.side) {
      PlaceMovesUp(p, s, b, now);
    }
  }

  lemma ReorganizeStatus(p: Params, s: State, h: Hash, now: int)
    requires ValidParams(p) && ChainInv(p, s.store) && SideInv(p, s.store)
    ensures var r := Reorganize(p, s, h, now); r.1.Done? ==> r.1.status == Reorganized || r.1.status == Side
  {
    hide *;
    ReorganizeCases(p, s, h, now);
    var walk := SideWalk(p, s.store, h);
    if walk.Walk? && FindRow(s.store.rows, walk.start).Some? {
      FoundRow(s.store.rows, walk.start);
      if |walk.path| == |walk.totals| {
        SwitchCases(p, s, walk.path, walk.totals, FindRow(s.store.rows, walk.start).value, now);
      }
    }
  }

  lemma PlaceMovesUp(p: Params, s: State, b: Block, now: int)
    requires ValidParams(p) && StoreInv(p, s.store) && WellFormedBlock(p, b) && b.hash !in s.store.side
    requires FindRow(s.store.rows, b.previous).Some? || b.previous in s.store.side
    requires ChainInv(p, s.store) && SideInv(p, s.store)
    ensures
      var r := Place(p, s, b, now);
      && s.store.rows != [] && r.0.store.rows != []
      && (r.1.Done? && (r.1.status == Extended || r.1.status == Reorganized) ==> TipWork(r.0.store) > TipWork(s.store))
      && (!(r.1.Done? && (r.1.status == Extended || r.1.status == Reorganized)) ==> r.0.store.rows == s.store.rows)
  {
    hide *;
    PlaceCases(p, s, b, now);
    var st := s.store;
    ChainInvParts(p, st);
    if ParentCheck(p, st, b).None? {
      LinkedChild(p, st, b);
      if b.previous == TipHash(st) {
        if ExtendTip(p, st, b, now).Ok? {
          ExtendTipKeeps(p, st, b, now);
          BlockDifficulty(p, b);
          StoreInvParts(p, ExtendTip(p, st, b, now).value);
        }
      } else {
        SideMovesUp(p, s, b, now);
      }
    }
  }

  lemma SideMovesUp(p: Params, s: State, b: Block, now: int)
    requires ValidParams(p) && StoreInv(p, s.store) && WellFormedBlock(p, b) && b.hash !in s.store.side
    requires FindRow(s.store.rows, b.previous).Some? || b.previous in s.store.side
    requires ParentCheck(p, s.store, b).None? && ChainInv(p, s.store) && SideInv(p, s.store)
    ensures
      var r := StoreSide(p, s, b, now);
      && s.store.rows != [] && r.0.store.rows != []
      && (r.1.Done? && (r.1.status == Extended || r.1.status == Reorganized) ==> TipWork(r.0.store) > TipWork(s.store))
      && (!(r.1.Done? && (r.1.status == Extended || r.1.status == Reorganized)) ==> r.0.store.rows == s.store.rows)
  {
    hide *;
    StoreInvParts(p, s.store);
    var st, total := s.store, ParentWork(s.store, b.previous) + b.difficulty;
    var stored := SideAdd(st, b, total, now);
    NewSideRow(p, st, b, now);
    WithStoreParts(s, stored);
    WithStoreParts(s, Housekeeping(p, stored));
    StoreSideCases(p, s, b, now, stored);
    SideAddParts(st, b, total, now);
    StoreInvParts(p, stored);
    if total > TipWork(st) {
      ReorganizeRaisesWork(p, WithStore(s, stored), b.hash, now);
      ReorganizeStatus(p, WithStore(s, stored), b.hash, now);
    } else {
      HousekeepingKeeps(p, stored);
      StoreInvParts(p, Housekeeping(p, stored));
    }
  }

  /** Processing keeps the invariant and never lowers the tip work; an orphan can only be added. */
  lemma ProcessKeeps(p: Params, s: State, b: Block, now: int)
    requires ValidParams(p) && StoreInv(p, s.store)
    ensures
      var r := Process(p, s, b, now);
      && StoreInv(p, r.0.store)
      && s.store.rows != [] && r.0.store.rows != [] && TipWork(r.0.store) >= TipWork(s.store)
      && (r.0.orphans == s.orphans
          || (r.0.orphans == AddOrphan(p, s.orphans, b) && WellFormedBlock(p, b) && !InOrphans(s.orphans, b.hash)))
  {
    hide *;
    StoreInvParts(p, s.store);
    var st := s.store;
    ChainInvParts(p, st);
    OrphanCap(p);
    ProcessUnfold(p, s, b, now);
    if b.hash in st.side && st.side[b.hash].valid && st.side[b.hash].totalWork > TipWork(st) {
      ReorganizeKeeps(p, s, b.hash, now);
      ReorganizeRaisesWork(p, s, b.hash, now);
      TipParts(st);
      TipParts(Reorganize(p, s, b.hash, now).0.store);
    } else if b.hash !in st.side && FindRow(st.rows, b.hash).None? && !InOrphans(s.orphans, b.hash)
              && WellFormedBlock(p, b) && (FindRow(st.rows, b.previous).Some? || b.previous in st.side) {
      PlaceKeeps(p, s, b, now);
    }
  }
}
