/** Steps of a node that only meets blocks of a valid universe: each new block is kept, none is refused. */
module RegimeFacts {
  import opened Types
  import opened Headers
  import opened Chain
  import opened Tables
  import opened TableFacts
  import opened MempoolFacts
  import opened Connecting
  import opened Branches
  import opened Node
  import opened NodeFacts
  import opened Universe

  // ---------------------------------------------------------------- room for side blocks

  /** Hashes of the best chain and of the side rows. */
  function StoredHashes(st: Store): set<Hash> {
    st.side.Keys + set r | r in st.rows :: r.block.hash
  }

  /** With the given rows as best chain, the hashes off it are few enough and high enough for housekeeping
      to forget none of them. */
  ghost predicate SideFits(p: Params, hashes: set<Hash>, rows: seq<Row>) {
    var off := set h | h in hashes && FindRow(rows, h).None?;
    |off| <= p.maxSideBlocks && forall h :: h in off ==> Height(h) >= |rows| - 2 - p.maxReorgDepth
  }

  lemma StoredHashesAre(st: Store, h: Hash)
    ensures h in StoredHashes(st) <==> Stored(st.rows, st.side, h)
  {
    if FindRow(st.rows, h).Some? {
      assert st.rows[FindRow(st.rows, h).value] in st.rows;
    }
    if r :| r in st.rows && r.block.hash == h {
      var i :| 0 <= i < |st.rows| && st.rows[i] == r;
      assert st.rows[i].block.hash == h;
    }
  }

  lemma StoredHashesSame(a: Store, b: Store, h: Hash)
    requires forall x :: Stored(b.rows, b.side, x) <==> Stored(a.rows, a.side, x) || x == h
    ensures StoredHashes(b) == StoredHashes(a) + {h}
  {
    hide StoredHashes, Stored;
    forall x
      ensures x in StoredHashes(b) <==> x in StoredHashes(a) + {h}
    {
      StoredHashesAre(a, x);
      StoredHashesAre(b, x);
    }
  }

  /** Side rows among hashes that fit leave housekeeping nothing to remove. */
  lemma FitsRoomy(p: Params, U: Blocks, rows: seq<Row>, side: map<Hash, SideRow>, bound: int, hashes: set<Hash>)
    requires ValidParams(p) && ValidUniverse(p, U) && SideIn(U, rows, side, bound)
    requires (forall h :: h in side ==> h in hashes) && SideFits(p, hashes, rows)
    ensures Roomy(p, side, |rows| - 1)
  {
    hide ValidUniverse, RowsOf, FindRow, Stored;
    var off := set h | h in hashes && FindRow(rows, h).None?;
    forall h | h in side
      ensures h in off && side[h].block.height == Height(h) && Height(h) >= 0
    {
      assert SideHome(U, rows, side, h, bound);
      HomeParts(p, U, h);
    }
    SubsetSize(side.Keys, off);
    assert |side| == |side.Keys|;
  }

  lemma RegimeParts(p: Params, U: Blocks, st: Store)
    requires ValidParams(p)
    ensures Regime(p, U, st) <==>
      st.rows != [] && StoreInv(p, st) && MainIn(U, st.rows) && SideIn(U, st.rows, st.side, TipWork(st))
    ensures Regime(p, U, st) ==> ChainInv(p, st) && SideInv(p, st) && MemInv(p, st) && ValidRows(p, st.rows)
  {
    hide ChainInv, SideInv, MemInv, StoreInv, MainIn, SideIn, TipWork;
    if Regime(p, U, st) {
      StoreInvParts(p, st);
      ChainInvParts(p, st);
    }
  }

  lemma FindAppend(rows: seq<Row>, r: Row, h: Hash)
    ensures FindRow(rows + [r], h).Some? <==> FindRow(rows, h).Some? || r.block.hash == h
  {
    assert (rows + [r])[..|rows|] == rows;
  }

  // ---------------------------------------------------------------- extension

  lemma ExtendSides(U: Blocks, rows: seq<Row>, r: Row, side: map<Hash, SideRow>, bound: int, bound': int)
    requires SideIn(U, rows, side, bound) && bound <= bound' && r.block.hash !in side
    ensures SideIn(U, rows + [r], side, bound')
  {
    hide FindRow;
    forall h | h in side
      ensures SideHome(U, rows + [r], side, h, bound')
    {
      assert SideHome(U, rows, side, h, bound);
      FindAppend(rows, r, h);
      FindAppend(rows, r, h.previous);
    }
  }

  /** Extending the tip with a block of U. */
  lemma ExtendChain(p: Params, U: Blocks, st: Store, b: Block, now: int)
    requires ValidParams(p) && ValidUniverse(p, U) && OnTime(p, b, now) && Regime(p, U, st) && st.rows != []
    requires Holds(U, b) && b.previous == TipHash(st)
    ensures ExtendTip(p, st, b, now).Ok?
    ensures
      var after := ExtendTip(p, st, b, now).value;
      StoreInv(p, after) && ValidRows(p, after.rows) && MainIn(U, after.rows)
  {
    hide *;
    RegimeParts(p, U, st);
    HoldsParts(U, b);
    HomeParts(p, U, b.hash);
    HomeConnects(p, U, st, b, now, TipWork(st) + b.difficulty);
    ExtendTipParts(p, st, b, now);
    ExtendTipKeeps(p, st, b, now);
    var after := ExtendTip(p, st, b, now).value;
    StoreInvParts(p, after);
    ChainInvParts(p, after);
    RowOfIs(p, st.rows, b);
    MainAppend(U, st.rows, [b], after.rows);
  }

  /** A new block on the tip extends the chain; nothing else moves while the side rows fit. */
  lemma ExtendRegime(p: Params, U: Blocks, st: Store, b: Block, now: int)
    requires ValidParams(p) && ValidUniverse(p, U) && OnTime(p, b, now) && Regime(p, U, st) && st.rows != []
    requires Holds(U, b) && b.previous == TipHash(st) && !Stored(st.rows, st.side, b.hash)
    requires ExtendTip(p, st, b, now).Ok? && SideFits(p, StoredHashes(st) + {b.hash}, ExtendTip(p, st, b, now).value.rows)
    ensures
      var after := ExtendTip(p, st, b, now).value;
      && Regime(p, U, after)
      && forall h :: Stored(after.rows, after.side, h) <==> Stored(st.rows, st.side, h) || h == b.hash
  {
    hide *;
    RegimeParts(p, U, st);
    HoldsParts(U, b);
    HomeParts(p, U, b.hash);
    ExtendChain(p, U, st, b, now);
    ExtendTipKeeps(p, st, b, now);
    BlockDifficulty(p, b);
    var after, r := ExtendTip(p, st, b, now).value, RowOf(p, st.rows, b);
    StoreInvParts(p, after);
    ChainInvParts(p, after);
    RowOfIs(p, st.rows, b);
    StoredParts(st.rows, st.side, b.hash);
    assert after.rows[..|st.rows|] == st.rows;
    ExtendSides(U, st.rows, r, st.side, TipWork(st), TipWork(after));
    SidesStored(st);
    FitsRoomy(p, U, after.rows, st.side, TipWork(after), StoredHashes(st) + {b.hash});
    TipWorkIsWork(p, after);
    TipParts(after);
    assert after.side == st.side;
    RegimeParts(p, U, after);
    forall h
      ensures Stored(after.rows, after.side, h) <==> Stored(st.rows, st.side, h) || h == b.hash
    {
      FindAppend(st.rows, r, h);
      StoredParts(st.rows, st.side, h);
      StoredParts(after.rows, after.side, h);
    }
  }

  lemma SidesStored(st: Store)
    ensures forall h :: h in st.side ==> h in StoredHashes(st)
  {}

  lemma StoredParts(rows: seq<Row>, side: map<Hash, SideRow>, h: Hash)
    ensures Stored(rows, side, h) <==> FindRow(rows, h).Some? || h in side
  {
    hide FindRow;
  }

  // ---------------------------------------------------------------- a new side block

  lemma AddSide(U: Blocks, rows: seq<Row>, side: map<Hash, SideRow>, bound: int, b: Block, total: int, now: int, bound': int)
    requires SideIn(U, rows, side, bound) && bound <= bound' && total <= bound'
    requires Holds(U, b) && b.hash.HeaderHash? && b.previous == b.hash.previous
    requires !Stored(rows, side, b.hash) && Stored(rows, side, b.previous)
    ensures SideIn(U, rows, side[b.hash := SideRow(b, total, true, now)], bound')
  {
    hide FindRow;
    var added := side[b.hash := SideRow(b, total, true, now)];
    forall h | h in added
      ensures SideHome(U, rows, added, h, bound')
    {
      if h != b.hash {
        assert SideHome(U, rows, side, h, bound);
      }
    }
  }

  /** A new side block without the most work is simply kept while the side rows fit. */
  lemma SideRegime(p: Params, U: Blocks, st: Store, b: Block, total: int, now: int)
    requires ValidParams(p) && ValidUniverse(p, U) && Regime(p, U, st) && st.rows != []
    requires Holds(U, b) && !Stored(st.rows, st.side, b.hash) && Stored(st.rows, st.side, b.previous)
    requires total <= TipWork(st) && SideFits(p, StoredHashes(st) + {b.hash}, st.rows)
    requires var stored := SideAdd(st, b, total, now);
             stored.rows != [] && ChainInv(p, stored) && SideInv(p, stored) && MemInv(p, stored)
    ensures
      var stored := SideAdd(st, b, total, now);
      && Housekeeping(p, stored) == stored && Regime(p, U, stored)
      && forall h :: Stored(stored.rows, stored.side, h) <==> Stored(st.rows, st.side, h) || h == b.hash
  {
    hide *;
    RegimeParts(p, U, st);
    HoldsParts(U, b);
    HomeParts(p, U, b.hash);
    StoredParts(st.rows, st.side, b.hash);
    SideAddParts(st, b, total, now);
    var stored := SideAdd(st, b, total, now);
    StoreInvParts(p, stored);
    AddSide(U, st.rows, st.side, TipWork(st), b, total, now, TipWork(st));
    TipParts(st);
    TipParts(stored);
    SidesStored(st);
    FitsRoomy(p, U, stored.rows, stored.side, TipWork(st), StoredHashes(st) + {b.hash});
    TipWorkIsWork(p, stored);
    HousekeepingKeeps(p, stored);
    RegimeParts(p, U, stored);
    forall h
      ensures Stored(stored.rows, stored.side, h) <==> Stored(st.rows, st.side, h) || h == b.hash
    {
      StoredParts(st.rows, st.side, h);
      StoredParts(stored.rows, stored.side, h);
    }
  }

  // ---------------------------------------------------------------- reorganization

  /** Position of the newest ancestor on the best chain, the hash itself included. */
  function ForkRow(rows: seq<Row>, h: Hash): (r: Option<nat>)
    ensures r.Some? ==> r.value < |rows|
    decreases h
  {
    var i := FindRow(rows, h);
    if i.Some? then i else if h.HeaderHash? then ForkRow(rows, h.previous) else None
  }

  lemma ForkRowStep(rows: seq<Row>, h: Hash)
    ensures FindRow(rows, h).Some? ==> ForkRow(rows, h) == FindRow(rows, h)
    ensures FindRow(rows, h).None? && h.HeaderHash? ==> ForkRow(rows, h) == ForkRow(rows, h.previous)
  {
    hide FindRow;
  }

  /** A stored branch of clean side rows leads down to its fork from the best chain. */
  lemma {:induction false} WalkClean(p: Params, U: Blocks, st: Store, h: Hash, bound: int)
    requires ValidParams(p) && SideInv(p, st) && SideIn(U, st.rows, st.side, bound) && Stored(st.rows, st.side, h)
    ensures SideWalk(p, st, h).Walk? && FindRow(st.rows, SideWalk(p, st, h).start).Some?
    ensures FindRow(st.rows, SideWalk(p, st, h).start) == ForkRow(st.rows, h)
    decreases h
  {
    hide FindRow, ForkRow;
    ForkRowStep(st.rows, h);
    if h in st.side {
      assert SideHome(U, st.rows, st.side, h, bound);
      SideWorkIsWork(p, st, h);
      WalkClean(p, U, st, h.previous, bound);
    }
  }

  /** In a shallow set no fork is too deep. */
  lemma {:induction false} ShallowFork(p: Params, U: Blocks, rows: seq<Row>, h: Hash)
    requires ValidParams(p) && ValidUniverse(p, U) && Shallow(p, U) && ValidRows(p, rows) && MainIn(U, rows)
    requires h in U && FindRow(rows, h).None? && ForkRow(rows, h).Some?
    ensures |rows| - 1 - ForkRow(rows, h).value <= p.maxReorgDepth
    decreases h
  {
    hide *;
    HomeParts(p, U, h);
    ForkRowStep(rows, h);
    if FindRow(rows, h.previous).Some? {
      NotTooDeep(p, U, rows, h);
      ForkRowStep(rows, h.previous);
      FoundRow(rows, h.previous);
      HomeLinked(p, U, h);
      HeightStep(p, h);
      var k := FindRow(rows, h.previous).value;
      RowsLinked(p, rows, k);
      HeightIs(rows[k].block);
    } else {
      GenesisOnChain(p, rows);
      ShallowFork(p, U, rows, h.previous);
    }
  }

  lemma GenesisOnChain(p: Params, rows: seq<Row>)
    requires ValidParams(p) && ValidRows(p, rows)
    ensures FindRow(rows, GenesisHash(p)).Some?
  {
    hide GenesisHash, ValidRows, FindRow;
    ValidGenesis(p, rows);
    assert rows[0].block.hash == GenesisHash(p);
  }

  lemma {:induction false} RowWorks(p: Params, rows: seq<Row>, i: nat, j: nat)
    requires ValidParams(p) && ValidRows(p, rows) && i <= j < |rows|
    ensures rows[i].totalWork <= rows[j].totalWork
    decreases j
  {
    hide ValidRows, Work, Linked, WellFormedBlock;
    if i < j {
      RowsLinked(p, rows, j);
      RowsLinked(p, rows, j - 1);
      WorkGrows(p, rows[j].block.hash);
      WorkIsSum(p, rows[j].block.hash);
      RowWorks(p, rows, i, j - 1);
    }
  }

  lemma WorkIsSum(p: Params, h: Hash)
    requires ValidParams(p) && Linked(p, h)
    ensures h == GenesisHash(p) ==> h.height == 0
    ensures h != GenesisHash(p) ==> h.HeaderHash? && Linked(p, h.previous)
  {}

  /** The rows a switch at `fork` moved off the best chain. */
  ghost predicate MovedOff(rows: seq<Row>, fork: nat, h: Hash, r: SideRow) {
    exists i :: fork < i < |rows| && rows[i].block.hash == h && r == SideRow(rows[i].block, rows[i].totalWork, true, 0)
  }

  lemma FindSplit(rows: seq<Row>, k: nat, h: Hash)
    requires k <= |rows|
    ensures FindRow(rows, h).Some? <==> FindRow(rows[..k], h).Some? || exists i :: k <= i < |rows| && rows[i].block.hash == h
  {
    var before := rows[..k];
    if FindRow(before, h).Some? {
      assert rows[FindRow(before, h).value].block.hash == h;
    }
    if FindRow(rows, h).Some? && FindRow(rows, h).value < k {
      assert before[FindRow(rows, h).value].block.hash == h;
    }
  }

  ghost predicate PathHash(path: seq<Block>, h: Hash) {
    exists i :: 0 <= i < |path| && path[i].hash == h
  }

  /** Side rows and best chain before and after a switch to a stored branch. */
  ghost predicate Swapped(rows: seq<Row>, side: map<Hash, SideRow>, fork: nat, path: seq<Block>,
                          rows': seq<Row>, side': map<Hash, SideRow>)
    requires fork < |rows|
  {
    && |rows'| == fork + 1 + |path| && rows'[..fork + 1] == rows[..fork + 1]
    && (forall i :: 0 <= i < |path| ==> rows'[fork + 1 + i].block == path[i] && path[i].hash in side)
    && (forall h :: h in side' ==> !PathHash(path, h) && ((h in side && side'[h] == side[h]) || MovedOff(rows, fork, h, side'[h])))
    && (forall h :: h in side && !PathHash(path, h) ==> h in side')
    && (forall i :: fork < i < |rows| && !PathHash(path, rows[i].block.hash) ==> rows[i].block.hash in side')
  }

  /** A switch loses no block. */
  lemma SwapStored(rows: seq<Row>, side: map<Hash, SideRow>, fork: nat, path: seq<Block>,
                   rows': seq<Row>, side': map<Hash, SideRow>, h: Hash)
    requires fork < |rows| && Swapped(rows, side, fork, path, rows', side')
    ensures Stored(rows', side', h) <==> Stored(rows, side, h)
    ensures FindRow(rows', h).Some? <==> FindRow(rows[..fork + 1], h).Some? || PathHash(path, h)
  {
    hide FindRow;
    FindSplit(rows', fork + 1, h);
    FindSplit(rows, fork + 1, h);
    if PathHash(path, h) {
      var i :| 0 <= i < |path| && path[i].hash == h;
      assert rows'[fork + 1 + i].block.hash == h;
    }
    if i :| fork + 1 <= i < |rows'| && rows'[i].block.hash == h {
      assert path[i - fork - 1] == rows'[fork + 1 + (i - fork - 1)].block;
      assert PathHash(path, h);
    }
  }

  lemma SwapSides(p: Params, U: Blocks, rows: seq<Row>, side: map<Hash, SideRow>, fork: nat, path: seq<Block>,
                  rows': seq<Row>, side': map<Hash, SideRow>, bound: int)
    requires ValidParams(p) && ValidRows(p, rows) && MainIn(U, rows)
    requires fork < |rows| && Swapped(rows, side, fork, path, rows', side')
    requires SideIn(U, rows, side, bound) && rows[|rows| - 1].totalWork <= bound
    ensures SideIn(U, rows', side', bound)
  {
    hide FindRow, ValidRows, Stored, MainIn;
    forall h | h in side'
      ensures SideHome(U, rows', side', h, bound)
    {
      SwapStored(rows, side, fork, path, rows', side', h);
      FindSplit(rows, fork + 1, h);
      if h in side && side'[h] == side[h] {
        assert SideHome(U, rows, side, h, bound);
        SwapStored(rows, side, fork, path, rows', side', h.previous);
      } else {
        var i :| fork < i < |rows| && rows[i].block.hash == h
                 && side'[h] == SideRow(rows[i].block, rows[i].totalWork, true, 0);
        MovedHome(p, U, rows, fork, i);
        SwapStored(rows, side, fork, path, rows', side', h.previous);
        StoredParts(rows, side, h.previous);
      }
    }
  }

  lemma MovedHome(p: Params, U: Blocks, rows: seq<Row>, fork: nat, i: nat)
    requires ValidParams(p) && ValidRows(p, rows) && MainIn(U, rows) && fork < i < |rows|
    ensures
      var h := rows[i].block.hash;
      && h in U && U[h] == rows[i].block && h.HeaderHash?
      && FindRow(rows[..fork + 1], h).None? && FindRow(rows, h.previous).Some?
      && rows[i].totalWork <= rows[|rows| - 1].totalWork
  {
    hide ValidRows, WellFormedBlock, Linked, Work;
    InUniverse(U, rows, i);
    RowsLinked(p, rows, i);
    RowWorks(p, rows, i, |rows| - 1);
    var h := rows[i].block.hash;
    assert FindRow(rows, h.previous).Some? by {
      assert rows[i - 1].block.hash == h.previous;
    }
    if FindRow(rows[..fork + 1], h).Some? {
      var k := FindRow(rows[..fork + 1], h).value;
      assert rows[k] == rows[..fork + 1][k];
      HashesDistinct(p, rows, i, k);
    }
  }

  /** Every side block is on time. */
  ghost predicate SidesOnTime(p: Params, side: map<Hash, SideRow>, now: int) {
    forall h :: h in side ==> OnTime(p, side[h].block, now)
  }

  /** A branch with the most work, all of it on time, is switched to if and only if it does not fork too
      deep; no block is lost while the side rows fit. */
  lemma ReorgRegime(p: Params, U: Blocks, s: State, h: Hash, now: int)
    requires ValidParams(p) && ValidUniverse(p, U) && StoreInv(p, s.store) && s.store.rows != []
    requires SidesOnTime(p, s.store.side, now)
    requires MainIn(U, s.store.rows) && h in s.store.side && TipWork(s.store) <= s.store.side[h].totalWork
    requires SideIn(U, s.store.rows, s.store.side, s.store.side[h].totalWork)
    requires ChainInv(p, s.store) && SideInv(p, s.store)
    ensures ForkRow(s.store.rows, h).Some?
    ensures
      var r := Reorganize(p, s, h, now);
      if |s.store.rows| - 1 - ForkRow(s.store.rows, h).value > p.maxReorgDepth then r == (s, Rejected(ReorgTooDeep))
      else
        && r.1.Done? && r.1.status == Reorganized && r.1.hash == h && r.0.orphans == s.orphans
        && ValidRows(p, r.0.store.rows) && MainIn(U, r.0.store.rows)
        && (SideFits(p, StoredHashes(s.store), r.0.store.rows) ==>
              && Regime(p, U, r.0.store)
              && forall x :: Stored(r.0.store.rows, r.0.store.side, x) <==> Stored(s.store.rows, s.store.side, x))
  {
    hide *;
    StoreInvParts(p, s.store);
    ChainInvParts(p, s.store);
    var fork := ForkOf(p, U, s, h);
    ReorganizeCases(p, s, h, now);
    if |s.store.rows| - 1 - fork <= p.maxReorgDepth {
      ForkConnects(p, U, s, h, now, fork);
      SwitchRegime(p, U, s, h, now, fork);
    }
  }

  /** After the switch. */
  lemma SwitchRegime(p: Params, U: Blocks, s: State, h: Hash, now: int, fork: nat)
    requires ValidParams(p) && ValidUniverse(p, U) && StoreInv(p, s.store) && s.store.rows != []
    requires MainIn(U, s.store.rows) && h in s.store.side && TipWork(s.store) <= s.store.side[h].totalWork
    requires SideIn(U, s.store.rows, s.store.side, s.store.side[h].totalWork)
    requires ChainInv(p, s.store) && SideInv(p, s.store)
    requires fork < |s.store.rows| && SideWalk(p, s.store, h).Walk?
    requires
      var walk := SideWalk(p, s.store, h);
      && |walk.path| == |walk.totals| && walk.path != [] && walk.path[|walk.path| - 1].hash == h
      && PathOk(p, walk.path, walk.totals, s.store.rows[fork].block.hash)
      && (forall i :: 0 <= i < |walk.path| ==> Holds(U, walk.path[i]) && walk.path[i].hash in s.store.side)
      && Reorganize(p, s, h, now) == Switch(p, s, walk.path, walk.totals, fork, now)
      && Switch(p, s, walk.path, walk.totals, fork, now).1.Done?
    ensures
      var r := Reorganize(p, s, h, now);
      && r.1.Done? && r.1.status == Reorganized && r.1.hash == h && r.0.orphans == s.orphans
      && ValidRows(p, r.0.store.rows) && MainIn(U, r.0.store.rows)
      && (SideFits(p, StoredHashes(s.store), r.0.store.rows) ==>
            && Regime(p, U, r.0.store)
            && forall x :: Stored(r.0.store.rows, r.0.store.side, x) <==> Stored(s.store.rows, s.store.side, x))
  {
    hide *;
    var st, r, bound := s.store, Reorganize(p, s, h, now), s.store.side[h].totalWork;
    ChainInvParts(p, st);
    var walk := SideWalk(p, st, h);
    SwitchSucceeds(p, s, walk.path, walk.totals, fork, now);
    SwitchSwaps(p, s, walk.path, walk.totals, fork, now);
    var mid := ConnectPath(p, DisconnectTo(p, st, fork), walk.path, walk.totals, now).store;
    var after := r.0.store;
    StoreInvParts(p, after);
    ChainInvParts(p, after);
    ReorganizeRaisesWork(p, s, h, now);
    SwapMain(U, st.rows, st.side, fork, walk.path, after.rows, mid.side);
    if SideFits(p, StoredHashes(st), after.rows) {
      TipParts(st);
      SwapSides(p, U, st.rows, st.side, fork, walk.path, after.rows, mid.side, bound);
      SwapHashes(st, fork, walk.path, after.rows, mid.side);
      FitsRoomy(p, U, after.rows, mid.side, bound, StoredHashes(st));
      assert after.side == mid.side;
      RegimeParts(p, U, after);
      forall x
        ensures Stored(after.rows, after.side, x) <==> Stored(st.rows, st.side, x)
      {
        SwapStored(st.rows, st.side, fork, walk.path, after.rows, after.side, x);
      }
    }
  }

  lemma SwapHashes(st: Store, fork: nat, path: seq<Block>, rows': seq<Row>, side': map<Hash, SideRow>)
    requires fork < |st.rows| && Swapped(st.rows, st.side, fork, path, rows', side')
    ensures forall h :: h in side' ==> h in StoredHashes(st)
  {
    hide StoredHashes, Swapped, Stored, FindRow;
    forall h | h in side'
      ensures h in StoredHashes(st)
    {
      SwapStored(st.rows, st.side, fork, path, rows', side', h);
      StoredParts(rows', side', h);
      StoredHashesAre(st, h);
    }
  }

  lemma SwapMain(U: Blocks, rows: seq<Row>, side: map<Hash, SideRow>, fork: nat, path: seq<Block>,
                 rows': seq<Row>, side': map<Hash, SideRow>)
    requires fork < |rows| && MainIn(U, rows) && Swapped(rows, side, fork, path, rows', side')
    requires forall i :: 0 <= i < |path| ==> Holds(U, path[i])
    ensures MainIn(U, rows')
  {
    hide Holds, MovedOff, PathHash;
    MainPrefix(U, rows, fork + 1);
    MainAppend(U, rows[..fork + 1], path, rows');
  }

  /** The stored branch is complete down to the best chain. */
  lemma ForkOf(p: Params, U: Blocks, s: State, h: Hash) returns (fork: nat)
    requires ValidParams(p) && ValidUniverse(p, U) && StoreInv(p, s.store) && s.store.rows != []
    requires MainIn(U, s.store.rows) && h in s.store.side
    requires SideIn(U, s.store.rows, s.store.side, s.store.side[h].totalWork)
    requires ChainInv(p, s.store) && SideInv(p, s.store)
    ensures fork < |s.store.rows| && SideWalk(p, s.store, h).Walk?
    ensures
      var st, walk := s.store, SideWalk(p, s.store, h);
      && FindRow(st.rows, walk.start) == Some(fork) == ForkRow(st.rows, h)
      && |walk.path| == |walk.totals| && walk.path != [] && walk.path[|walk.path| - 1].hash == h
      && PathOk(p, walk.path, walk.totals, st.rows[fork].block.hash)
      && (forall i :: 0 <= i < |walk.path| ==>
            Holds(U, walk.path[i]) && walk.path[i].hash in st.side && st.side[walk.path[i].hash].block == walk.path[i])
  {
    hide *;
    var st, bound := s.store, s.store.side[h].totalWork;
    ChainInvParts(p, st);
    StoredParts(st.rows, st.side, h);
    WalkClean(p, U, st, h, bound);
    SideWalkFacts(p, st, h);
    var walk := SideWalk(p, st, h);
    PathLengths(p, walk.path, walk.totals, walk.start);
    fork := FindRow(st.rows, walk.start).value;
    FoundRow(st.rows, walk.start);
    forall i | 0 <= i < |walk.path|
      ensures Holds(U, walk.path[i])
    {
      SideInParts(U, st.rows, st.side, bound, walk.path[i].hash);
    }
  }

  /** The branch connects, so the reorganization is the plain switch. */
  lemma ForkConnects(p: Params, U: Blocks, s: State, h: Hash, now: int, fork: nat)
    requires ValidParams(p) && ValidUniverse(p, U) && SidesOnTime(p, s.store.side, now)
    requires ChainInv(p, s.store) && SideInv(p, s.store) && MainIn(U, s.store.rows) && fork < |s.store.rows|
    requires SideWalk(p, s.store, h).Walk? && |s.store.rows| - 1 - fork <= p.maxReorgDepth
    requires
      var st, walk := s.store, SideWalk(p, s.store, h);
      && FindRow(st.rows, walk.start) == Some(fork) && |walk.path| == |walk.totals|
      && PathOk(p, walk.path, walk.totals, st.rows[fork].block.hash)
      && (forall i :: 0 <= i < |walk.path| ==>
            Holds(U, walk.path[i]) && walk.path[i].hash in st.side && st.side[walk.path[i].hash].block == walk.path[i])
    ensures
      var walk := SideWalk(p, s.store, h);
      && Reorganize(p, s, h, now) == Switch(p, s, walk.path, walk.totals, fork, now)
      && Switch(p, s, walk.path, walk.totals, fork, now).1.Done?
  {
    hide *;
    var st, walk := s.store, SideWalk(p, s.store, h);
    ReorganizeCases(p, s, h, now);
    DisconnectToFacts(p, st, fork);
    var base := DisconnectTo(p, st, fork);
    MainPrefix(U, st.rows, fork + 1);
    TipParts(base);
    forall i | 0 <= i < |walk.path|
      ensures Holds(U, walk.path[i]) && OnTime(p, walk.path[i], now)
    {
      SidesOnTimeAt(p, st.side, now, walk.path[i].hash);
    }
    BranchConnects(p, U, base, walk.path, walk.totals, now);
    SwitchCases(p, s, walk.path, walk.totals, fork, now);
  }

  lemma SidesOnTimeAt(p: Params, side: map<Hash, SideRow>, now: int, h: Hash)
    requires SidesOnTime(p, side, now) && h in side
    ensures OnTime(p, side[h].block, now)
  {}

  lemma SideInParts(U: Blocks, rows: seq<Row>, side: map<Hash, SideRow>, bound: int, h: Hash)
    requires SideIn(U, rows, side, bound) && h in side
    ensures h in U && side[h].block == U[h] && side[h].valid && h.HeaderHash?
    ensures FindRow(rows, h).None? && Stored(rows, side, h.previous) && side[h].totalWork <= bound
    ensures U[h].hash == h ==> Holds(U, U[h])
  {
    hide FindRow, Stored;
    assert SideHome(U, rows, side, h, bound);
  }

  /** What the switch does to best chain and side rows, housekeeping aside. */
  lemma SwitchSwaps(p: Params, s: State, path: seq<Block>, totals: seq<int>, fork: nat, now: int)
    requires ValidParams(p) && StoreInv(p, s.store) && ChainInv(p, s.store) && SideInv(p, s.store)
    requires fork < |s.store.rows| && PathOk(p, path, totals, s.store.rows[fork].block.hash) && path != []
    requires |path| == |totals| && Switch(p, s, path, totals, fork, now).1.Done?
    requires forall i :: 0 <= i < |path| ==> path[i].hash in s.store.side
    ensures DisconnectTo(p, s.store, fork).rows != []
    ensures
      var st, after := s.store, Switch(p, s, path, totals, fork, now).0.store;
      var result := ConnectPath(p, DisconnectTo(p, st, fork), path, totals, now);
      result.Connected? && Swapped(st.rows, st.side, fork, path, after.rows, result.store.side)
  {
    hide *;
    var st, after := s.store, Switch(p, s, path, totals, fork, now).0.store;
    SwitchSucceeds(p, s, path, totals, fork, now);
    DisconnectToFacts(p, st, fork);
    var base := DisconnectTo(p, st, fork);
    var mid := ConnectPath(p, base, path, totals, now).store;
    PathConnectedIs(base, path, mid);
    forall h | h in mid.side
      ensures !PathHash(path, h) && ((h in st.side && mid.side[h] == st.side[h]) || MovedOff(st.rows, fork, h, mid.side[h]))
    {
      PathHashParts(path, h);
      if h !in st.side {
        var i :| fork < i < |st.rows| && st.rows[i].block.hash == h
                 && base.side[h] == SideRow(st.rows[i].block, st.rows[i].totalWork, true, 0);
        MovedOffBuild(st.rows, fork, h, mid.side[h], i);
      }
    }
    forall h | !PathHash(path, h) && (h in st.side || h in base.side)
      ensures h in mid.side
    {
      PathHashParts(path, h);
    }
    SwappedBuild(st.rows, st.side, fork, path, after.rows, mid.side);
  }

  lemma PathHashParts(path: seq<Block>, h: Hash)
    ensures PathHash(path, h) <==> exists i :: 0 <= i < |path| && path[i].hash == h
  {}

  lemma MovedOffBuild(rows: seq<Row>, fork: nat, h: Hash, r: SideRow, i: nat)
    requires fork < i < |rows| && rows[i].block.hash == h && r == SideRow(rows[i].block, rows[i].totalWork, true, 0)
    ensures MovedOff(rows, fork, h, r)
  {}

  lemma SwappedBuild(rows: seq<Row>, side: map<Hash, SideRow>, fork: nat, path: seq<Block>,
                     rows': seq<Row>, side': map<Hash, SideRow>)
    requires fork < |rows| && |rows'| == fork + 1 + |path| && rows'[..fork + 1] == rows[..fork + 1]
    requires forall i :: 0 <= i < |path| ==> rows'[fork + 1 + i].block == path[i]
    requires forall i :: 0 <= i < |path| ==> path[i].hash in side
    requires forall h :: h in side' ==>
      !PathHash(path, h) && ((h in side && side'[h] == side[h]) || MovedOff(rows, fork, h, side'[h]))
    requires forall h :: h in side && !PathHash(path, h) ==> h in side'
    requires forall i :: fork < i < |rows| && !PathHash(path, rows[i].block.hash) ==> rows[i].block.hash in side'
    ensures Swapped(rows, side, fork, path, rows', side')
  {
    hide PathHash, MovedOff;
  }
}
