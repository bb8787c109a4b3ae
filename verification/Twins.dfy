/** Blocks with one digest and different bodies: the digest covers the id of the coinbase but not the rest of it.
    When such a twin arrives before the block it resembles, and what that means for the block. */
module Twins {
  import opened Types
  import opened Merkle
  import opened Headers
  import opened Chain
  import opened Tables
  import opened TableFacts
  import opened HeaderWalk
  import opened Branches
  import MempoolFacts
  import opened Node
  import opened NodeFacts
  import opened Universe
  import opened RegimeFacts
  import opened Limits
  import opened Convergence

  /** Well-formed blocks with the digest of a block are exactly the copies with another coinbase body of the same
      id that leaves the block small enough. */
  lemma TwinShape(p: Params, b: Block, t: Block)
    requires WellFormedBlock(p, b)
    ensures WellFormedBlock(p, t) && t.hash == b.hash
      <==> t == b.(coinbase := t.coinbase) && t.coinbase.Some? && t.coinbase.value.txid == b.coinbase.value.txid
           && p.coinbaseBytes(t.coinbase.value) + BytesSum(p, b.txs) <= p.maxBlockBytes
  {
    hide WellFormedTx, BytesSum, MeetsTarget, Distinct, MerkleRoot, TxIds;
    if WellFormedBlock(p, t) && t.hash == b.hash {
      var x, y := b.coinbase.value, t.coinbase.value;
      MerkleInjective([x.txid] + TxIds(b.txs), [y.txid] + TxIds(t.txs));
      assert ([x.txid] + TxIds(b.txs))[0] == x.txid && ([y.txid] + TxIds(t.txs))[0] == y.txid;
      assert ([x.txid] + TxIds(b.txs))[1..] == TxIds(b.txs) && ([y.txid] + TxIds(t.txs))[1..] == TxIds(t.txs);
      SameIdsSameTxs(b.txs, t.txs);
    }
  }

  lemma SameIdsSameTxs(a: seq<Tx>, b: seq<Tx>)
    requires TxIds(a) == TxIds(b)
    ensures a == b
  {
    forall i | 0 <= i < |a|
      ensures a[i] == b[i]
    {
      assert TxIds(a)[i] == TxIds(b)[i];
    }
  }

  /** A block of U and a twin of it that is not the block. */
  ghost predicate Twin(p: Params, U: Blocks, b: Block, t: Block) {
    Holds(U, b) && WellFormedBlock(p, t) && t.hash == b.hash && t != b
  }

  lemma TwinParts(p: Params, U: Blocks, b: Block, t: Block)
    requires ValidParams(p) && ValidUniverse(p, U) && Twin(p, U, b, t)
    ensures Holds(U, b) && WellFormedBlock(p, t) && WellFormedBlock(p, b) && t.hash == b.hash && t != b
    ensures t.previous == b.previous && t.height == b.height && t.difficulty == b.difficulty && t.timestamp == b.timestamp
  {
    hide WellFormedBlock, ValidUniverse, RowsOf;
    HomeParts(p, U, b.hash);
    TwinShape(p, b, t);
  }

  lemma ParentCheckSame(p: Params, st: Store, b: Block, t: Block)
    requires ValidParams(p) && (FindRow(st.rows, b.previous).Some? || b.previous in st.side)
    requires t.previous == b.previous && t.height == b.height && t.difficulty == b.difficulty
    ensures ParentCheck(p, st, t) == ParentCheck(p, st, b)
  {
    hide ExpectedDifficulty, FindRow;
  }

  /** A twin does not connect where its block does. */
  lemma TwinExtendsNothing(p: Params, U: Blocks, rows: seq<Row>, b: Block, t: Block)
    requires ValidParams(p) && ValidUniverse(p, U) && Twin(p, U, b, t)
    requires rows != [] && rows == RowsOf(p, U, b.previous)
    ensures !Extends(p, rows, t)
  {
    hide *;
    TwinParts(p, U, b, t);
    HoldsParts(U, b);
    HomeParts(p, U, b.hash);
    if Extends(p, rows, t) {
      DigestFixesBlock(p, rows, b, t);
    }
  }

  /** The strict path, and extension on the network path, refuse a twin. */
  lemma TwinOnTip(p: Params, U: Blocks, s: State, b: Block, t: Block, now: int)
    requires ValidParams(p) && ValidUniverse(p, U) && Twin(p, U, b, t) && OnCourse(p, U, s) && s.store.rows != []
    requires b.previous == TipHash(s.store)
    ensures ExtendTip(p, s.store, t, now).Refused?
  {
    hide *;
    var st := s.store;
    TwinParts(p, U, b, t);
    CourseParts(p, U, s);
    RegimeParts(p, U, st);
    HoldsParts(U, b);
    HomeParts(p, U, b.hash);
    TipParts(st);
    RowsDetermined(p, U, st.rows);
    TwinExtendsNothing(p, U, st.rows, b, t);
    if ExtendTip(p, st, t, now).Ok? {
      ExtendTipKeeps(p, st, t, now);
    }
  }

  // ---------------------------------------------------------------- off the tip

  /** The same side blocks and one more; verdicts may differ. */
  ghost predicate SideWith(side: map<Hash, SideRow>, after: map<Hash, SideRow>, h: Hash) {
    after.Keys == side.Keys + {h} && forall x :: x in side && x != h ==> x in after && after[x].block == side[x].block
  }

  lemma SideWithParts(side: map<Hash, SideRow>, after: map<Hash, SideRow>, h: Hash, x: Hash)
    requires SideWith(side, after, h)
    ensures h in after && (x in after <==> x in side || x == h)
    ensures x in side && x != h ==> after[x].block == side[x].block
  {}

  lemma SideWithIs(side: map<Hash, SideRow>, stored: map<Hash, SideRow>, after: map<Hash, SideRow>, h: Hash, row: SideRow)
    requires stored == side[h := row] && after.Keys == stored.Keys
    requires forall x :: x in stored ==> after[x].block == stored[x].block
    ensures SideWith(side, after, h)
  {}

  /** The tables with the twin as a side row. */
  ghost predicate TwinStored(p: Params, U: Blocks, st: Store, b: Block, t: Block, stored: Store)
    requires ValidParams(p) && b.hash in stored.side
  {
    && Regime(p, U, st) && StoreInv(p, stored) && !Stored(st.rows, st.side, b.hash)
    && stored.rows == st.rows && SideWith(st.side, stored.side, b.hash) && stored.side[b.hash].block == t
  }

  /** A branch that ends in a twin is never switched to. */
  lemma TwinNeverTakesOver(p: Params, U: Blocks, st: Store, s: State, b: Block, t: Block, now: int)
    requires ValidParams(p) && ValidUniverse(p, U) && Twin(p, U, b, t) && b.hash in s.store.side
    requires TwinStored(p, U, st, b, t, s.store) && ChainInv(p, s.store) && SideInv(p, s.store)
    ensures !(Reorganize(p, s, b.hash, now).1.Done? && Reorganize(p, s, b.hash, now).1.status == Reorganized)
  {
    hide *;
    var r := Reorganize(p, s, b.hash, now);
    if r.1.Done? && r.1.status == Reorganized {
      TwinStoredParts(p, U, st, b, t, s.store);
      TwinParts(p, U, b, t);
      HoldsParts(U, b);
      RegimeParts(p, U, st);
      ReorganizeSucceeds(p, s, b.hash, now);
      var walk, rows := SideWalk(p, s.store, b.hash), r.0.store.rows;
      SideWalkFacts(p, s.store, b.hash);
      FoundRow(s.store.rows, walk.start);
      var fork, n := FindRow(s.store.rows, walk.start).value, |rows| - 1;
      StoreInvParts(p, r.0.store);
      ChainInvParts(p, r.0.store);
      PathLengths(p, walk.path, walk.totals, walk.start);
      ValidAt(p, rows, n);
      BeforeTwin(p, U, st, s.store, walk.path, walk.totals, walk.start, b, fork, rows);
      RowsDetermined(p, U, rows[..n]);
      RowsLinked(p, rows, n);
      RowsLinked(p, rows, n - 1);
      PathAt(p, walk.path, walk.totals, walk.start, |walk.path| - 1);
      assert rows[n].block == walk.path[|walk.path| - 1];
      TipBefore(rows, n);
      HomeParts(p, U, b.hash);
      TwinExtendsNothing(p, U, rows[..n], b, t);
    }
  }

  lemma TipBefore(rows: seq<Row>, n: nat)
    requires 1 <= n < |rows|
    ensures rows[..n] != [] && rows[..n][|rows[..n]| - 1] == rows[n - 1]
  {}

  lemma TwinStoredParts(p: Params, U: Blocks, st: Store, b: Block, t: Block, stored: Store)
    requires ValidParams(p) && b.hash in stored.side
    ensures TwinStored(p, U, st, b, t, stored) <==>
      && Regime(p, U, st) && StoreInv(p, stored) && !Stored(st.rows, st.side, b.hash)
      && stored.rows == st.rows && SideWith(st.side, stored.side, b.hash) && stored.side[b.hash].block == t
  {
    hide Regime, StoreInv, Stored;
  }

  /** Everything below the twin on its branch is a block of U. */
  lemma BeforeTwin(p: Params, U: Blocks, st: Store, stored: Store, path: seq<Block>, totals: seq<int>, start: Hash, b: Block,
                   fork: nat, rows: seq<Row>)
    requires ValidParams(p) && Regime(p, U, st) && st.rows != []
    requires b.hash in stored.side && stored.rows == st.rows && SideWith(st.side, stored.side, b.hash)
    requires |path| == |totals| && path != [] && PathOk(p, path, totals, start) && path[|path| - 1].hash == b.hash
    requires forall i :: 0 <= i < |path| ==> path[i].hash in stored.side && stored.side[path[i].hash].block == path[i]
    requires fork < |st.rows| && |rows| == fork + 1 + |path| && rows[..fork + 1] == st.rows[..fork + 1]
    requires forall i :: 0 <= i < |path| ==> rows[fork + 1 + i].block == path[i]
    requires ValidRows(p, rows)
    ensures MainIn(U, rows[..|rows| - 1])
  {
    hide *;
    var n := |path| - 1;
    RegimeParts(p, U, st);
    MainPrefix(U, st.rows, fork + 1);
    forall i | 0 <= i < n
      ensures Holds(U, path[i])
    {
      if path[i].hash == b.hash {
        HashesDistinct(p, rows, fork + 1 + i, fork + 1 + n);
      }
      SideWithParts(st.side, stored.side, b.hash, path[i].hash);
      SideInParts(U, st.rows, st.side, TipWork(st), path[i].hash);
    }
    var before := rows[..|rows| - 1];
    assert before[..fork + 1] == rows[..fork + 1];
    MainAppend(U, st.rows[..fork + 1], path[..n], before);
  }

  /** A side row that fits is not pruned. */
  lemma TwinRoomy(p: Params, U: Blocks, st: Store, b: Block, t: Block, stored: Store)
    requires ValidParams(p) && ValidUniverse(p, U) && Twin(p, U, b, t) && b.hash in stored.side
    requires TwinStored(p, U, st, b, t, stored) && SideFits(p, StoredHashes(st) + {b.hash}, st.rows)
    ensures Roomy(p, stored.side, |st.rows| - 1)
  {
    hide *;
    TwinStoredParts(p, U, st, b, t, stored);
    TwinParts(p, U, b, t);
    RegimeParts(p, U, st);
    StoreInvParts(p, stored);
    StoredParts(st.rows, st.side, b.hash);
    SidesStored(st);
    forall h | h in stored.side
      ensures h in StoredHashes(st) + {b.hash} && FindRow(st.rows, h).None?
      ensures stored.side[h].block.height == Height(h) && Height(h) >= 0
    {
      SideWorkIsWork(p, stored, h);
      LinkedHeights(p, h);
      HeightOf(h);
      SideWithParts(st.side, stored.side, b.hash, h);
      if h != b.hash {
        SideInParts(U, st.rows, st.side, TipWork(st), h);
      }
    }
    RoomyBuild(p, stored.side, StoredHashes(st) + {b.hash}, st.rows);
  }

  lemma RoomyBuild(p: Params, side: map<Hash, SideRow>, hashes: set<Hash>, rows: seq<Row>)
    requires SideFits(p, hashes, rows)
    requires forall h :: h in side ==>
      h in hashes && FindRow(rows, h).None? && side[h].block.height == Height(h) && Height(h) >= 0
    ensures Roomy(p, side, |rows| - 1)
  {
    hide FindRow, Height;
    var off := set h | h in hashes && FindRow(rows, h).None?;
    assert side.Keys <= off;
    MempoolFacts.SubsetSize(side.Keys, off);
    assert |side| == |side.Keys|;
  }

  /** A twin whose parent is stored: refused without a trace on the tip, and otherwise kept as a side row in
      the place of its block. The best chain never moves. */
  lemma TwinWithParent(p: Params, U: Blocks, s: State, b: Block, t: Block, now: int)
    requires ValidParams(p) && ValidUniverse(p, U) && Twin(p, U, b, t) && OnCourse(p, U, s) && s.store.rows != []
    requires ChainInv(p, s.store) && SideInv(p, s.store) && !KnownTo(s, b.hash)
    requires Stored(s.store.rows, s.store.side, b.previous) && CallFits(p, s, t, now)
    ensures
      var r := Process(p, s, t, now);
      && r.0.store.rows == s.store.rows && r.0.orphans == s.orphans
      && if b.previous == TipHash(s.store) then r.0 == s && r.1.Rejected?
         else b.hash in r.0.store.side && TwinStored(p, U, s.store, b, t, r.0.store)
  {
    hide *;
    var st := s.store;
    TwinParts(p, U, b, t);
    HoldsParts(U, b);
    CourseParts(p, U, s);
    RegimeParts(p, U, st);
    KnownParts(s, b.hash);
    StoredParts(st.rows, st.side, b.hash);
    ParentPasses(p, U, st, b);
    ParentCheckSame(p, st, b, t);
    CallParts(p, s, t, now);
    ForksParts(p, st, t);
    ForkHeight(p, st, b.previous);
    TwinProcess(p, U, s, t, now);
    PlaceCases(p, s, t, now);
    if b.previous == TipHash(st) {
      TwinOnTip(p, U, s, b, t, now);
    } else {
      TwinOffTip(p, U, s, b, t, now);
    }
  }

  lemma TwinProcess(p: Params, U: Blocks, s: State, t: Block, now: int)
    requires ValidParams(p) && OnCourse(p, U, s) && ChainInv(p, s.store) && SideInv(p, s.store) && s.store.rows != []
    requires WellFormedBlock(p, t) && !KnownTo(s, t.hash)
    ensures
      var st, r := s.store, Process(p, s, t, now);
      && (!Stored(st.rows, st.side, t.previous) ==>
            r == (s.(orphans := AddOrphan(p, s.orphans, t)), Done(Orphan, t.hash, 0, 0)))
      && (Stored(st.rows, st.side, t.previous) ==>
            (FindRow(st.rows, t.previous).Some? || t.previous in st.side) && r == Place(p, s, t, now))
  {
    hide *;
    var st := s.store;
    CourseParts(p, U, s);
    RegimeParts(p, U, st);
    forall h | h in st.side
      ensures st.side[h].valid && st.side[h].totalWork <= TipWork(st)
    {
      SideInParts(U, st.rows, st.side, TipWork(st), h);
    }
    ProcessCases(p, s, t, now);
  }

  lemma TwinOffTip(p: Params, U: Blocks, s: State, b: Block, t: Block, now: int)
    requires ValidParams(p) && ValidUniverse(p, U) && Twin(p, U, b, t) && OnCourse(p, U, s) && s.store.rows != []
    requires ChainInv(p, s.store) && SideInv(p, s.store) && !KnownTo(s, b.hash)
    requires WellFormedBlock(p, t) && t.previous == b.previous
    requires FindRow(s.store.rows, t.previous).Some? || t.previous in s.store.side
    requires ParentCheck(p, s.store, t).None?
    requires
      var r := StoreSide(p, s, t, now);
      r.1.Done? && Kept(r.1.status) ==> SideFits(p, StoredHashes(s.store) + {t.hash}, r.0.store.rows)
    ensures
      var r := StoreSide(p, s, t, now);
      && r.0.store.rows == s.store.rows && r.0.orphans == s.orphans
      && b.hash in r.0.store.side && TwinStored(p, U, s.store, b, t, r.0.store)
  {
    hide *;
    var st, r := s.store, StoreSide(p, s, t, now);
    TwinParts(p, U, b, t);
    CourseParts(p, U, s);
    RegimeParts(p, U, st);
    KnownParts(s, b.hash);
    StoredParts(st.rows, st.side, b.hash);
    NewSideRow(p, st, t, now);
    var total := ParentWork(st, t.previous) + t.difficulty;
    var stored := SideAdd(st, t, total, now);
    SideAddParts(st, t, total, now);
    SideWithIs(st.side, stored.side, stored.side, b.hash, SideRow(t, total, true, now));
    StoreInvParts(p, stored);
    StoreInvParts(p, st);
    WithStoreParts(s, stored);
    WithStoreParts(s, Housekeeping(p, stored));
    StoreSideCases(p, s, t, now, stored);
    TwinStoredParts(p, U, st, b, t, stored);
    Statuses();
    if total > TipWork(st) {
      TwinNeverTakesOver(p, U, st, WithStore(s, stored), b, t, now);
      RefusedReorganizeLeavesNoTrace(p, WithStore(s, stored), b.hash, now);
      SideWithIs(st.side, stored.side, r.0.store.side, b.hash, SideRow(t, total, true, now));
      TwinStoredParts(p, U, st, b, t, r.0.store);
    } else {
      HousekeepingKeeps(p, stored);
      TwinRoomy(p, U, st, b, t, stored);
      TipWorkIsWork(p, stored);
    }
  }

  /** Exactly when a twin that arrives first takes the place of its block: always, unless it would extend the
      tip. Taking the place means that the node then knows the digest with the twin's body, as a side row or an
      orphan, so the block itself is no longer new; the best chain does not move either way. */
  lemma TwinTakesPlace(p: Params, U: Blocks, s: State, b: Block, t: Block, now: int)
    requires ValidParams(p) && ValidUniverse(p, U) && Twin(p, U, b, t) && OnCourse(p, U, s) && s.store.rows != []
    requires ChainInv(p, s.store) && SideInv(p, s.store) && !KnownTo(s, b.hash) && CallFits(p, s, t, now)
    ensures
      var after := Process(p, s, t, now).0;
      && after.store.rows == s.store.rows
      && (KnownTo(after, b.hash) <==> b.previous != TipHash(s.store))
      && (KnownTo(after, b.hash) <==> after != s)
      && (KnownTo(after, b.hash) ==>
            t in after.orphans || (b.hash in after.store.side && after.store.side[b.hash].block == t))
  {
    hide *;
    var st, after := s.store, Process(p, s, t, now).0;
    TwinParts(p, U, b, t);
    KnownParts(s, b.hash);
    KnownParts(after, b.hash);
    CallParts(p, s, t, now);
    TwinProcess(p, U, s, t, now);
    TipStored(st);
    if Stored(st.rows, st.side, b.previous) {
      TwinWithParent(p, U, s, b, t, now);
      StoredParts(after.store.rows, after.store.side, b.hash);
      if b.previous != TipHash(st) {
        TwinStoredParts(p, U, st, b, t, after.store);
      }
    } else {
      TwinOrphan(p, s, t);
    }
  }

  /** What the place is worth: the block itself, delivered after a twin that took its place, is not taken in - a
      duplicate, refused as known to be invalid, or one more attempt to switch to the twin - and the twin
      stays. */
  lemma TwinShutsOut(p: Params, U: Blocks, s: State, after: State, b: Block, t: Block, now: int, later: int)
    requires ValidParams(p) && ValidUniverse(p, U) && Twin(p, U, b, t) && OnCourse(p, U, s) && s.store.rows != []
    requires ChainInv(p, s.store) && SideInv(p, s.store) && !KnownTo(s, b.hash) && CallFits(p, s, t, now)
    requires b.previous != TipHash(s.store) && after == Process(p, s, t, now).0
    ensures ChainInv(p, after.store) && SideInv(p, after.store)
    ensures
      var again := Process(p, after, b, later).0;
      && again.store.rows == s.store.rows
      && (t in again.orphans || (b.hash in again.store.side && again.store.side[b.hash].block == t))
  {
    hide *;
    var st := s.store;
    TwinParts(p, U, b, t);
    KnownParts(s, b.hash);
    StoredParts(st.rows, st.side, b.hash);
    CallParts(p, s, t, now);
    OrphanCap(p);
    TwinProcess(p, U, s, t, now);
    if Stored(st.rows, st.side, b.previous) {
      TwinWithParent(p, U, s, b, t, now);
      TwinStoredParts(p, U, st, b, t, after.store);
      StoreInvParts(p, after.store);
      TwinRetried(p, U, st, after, b, t, later);
    } else {
      OrphanTwinWaits(p, s, b, t, later);
    }
  }

  lemma OrphanTwinWaits(p: Params, s: State, b: Block, t: Block, now: int)
    requires ValidParams(p) && ChainInv(p, s.store) && SideInv(p, s.store) && s.store.rows != []
    requires 0 <= |s.orphans| < p.maxOrphans && t.hash == b.hash && b.hash !in s.store.side
    ensures
      var after := s.(orphans := AddOrphan(p, s.orphans, t));
      && t in after.orphans && Process(p, after, b, now).0 == after
  {
    hide *;
    TwinOrphan(p, s, t);
    ProcessUnfold(p, s.(orphans := s.orphans + [t]), b, now);
  }

  /** Delivering the block to a node that holds its twin as a side row. */
  lemma TwinRetried(p: Params, U: Blocks, st: Store, s: State, b: Block, t: Block, now: int)
    requires ValidParams(p) && ValidUniverse(p, U) && Twin(p, U, b, t) && b.hash in s.store.side && p.maxOrphans >= 0
    requires TwinStored(p, U, st, b, t, s.store)
    ensures
      var again := Process(p, s, b, now).0;
      again.store.rows == s.store.rows && b.hash in again.store.side && again.store.side[b.hash].block == t
  {
    hide *;
    TwinStoredParts(p, U, st, b, t, s.store);
    StoreInvParts(p, s.store);
    ChainInvParts(p, s.store);
    ProcessUnfold(p, s, b, now);
    if s.store.side[b.hash].valid && s.store.side[b.hash].totalWork > TipWork(s.store) {
      TwinNeverTakesOver(p, U, st, s, b, t, now);
      RefusedReorganizeLeavesNoTrace(p, s, b.hash, now);
    }
  }

  lemma TwinOrphan(p: Params, s: State, t: Block)
    requires 0 <= |s.orphans| < p.maxOrphans
    ensures AddOrphan(p, s.orphans, t) == s.orphans + [t] && t in s.orphans + [t] && InOrphans(s.orphans + [t], t.hash)
  {
    assert (s.orphans + [t])[|s.orphans|] == t;
  }
}
