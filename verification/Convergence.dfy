/** Order independence: whatever order valid blocks arrive in, a node ends on the heaviest one. */
module Convergence {
  import opened Types
  import opened Ledger
  import opened Headers
  import opened Chain
  import opened Tables
  import opened TableFacts
  import opened HeaderWalk
  import opened Connecting
  import opened Branches
  import opened Node
  import opened NodeFacts
  import opened Adoption
  import opened Runs
  import opened Universe
  import opened RegimeFacts
  import opened Limits
  import TemplateFacts

  // ---------------------------------------------------------------- one block with a stored parent

  lemma {:induction false} StoredAnchored(p: Params, U: Blocks, st: Store, h: Hash, bound: int)
    requires ValidParams(p) && SideInv(p, st) && SideIn(U, st.rows, st.side, bound) && Stored(st.rows, st.side, h)
    ensures Anchored(st, h)
    decreases h
  {
    hide FindRow;
    if FindRow(st.rows, h).None? {
      assert SideHome(U, st.rows, st.side, h, bound);
      StoredAnchored(p, U, st, h.previous, bound);
    }
  }

  /** A block of U passes every check against its stored parent. */
  lemma ParentPasses(p: Params, U: Blocks, st: Store, b: Block)
    requires ValidParams(p) && ValidUniverse(p, U) && Regime(p, U, st) && ChainInv(p, st) && SideInv(p, st)
    requires Holds(U, b) && Stored(st.rows, st.side, b.previous)
    ensures FindRow(st.rows, b.previous).Some? || b.previous in st.side
    ensures ParentCheck(p, st, b).None? && ParentBlock(st, b.previous).height == b.height - 1
    ensures ParentWork(st, b.previous) + b.difficulty == Work(p, b.hash) && WellFormedBlock(p, b)
  {
    hide *;
    RegimeParts(p, U, st);
    ChainInvParts(p, st);
    HoldsParts(U, b);
    HomeParts(p, U, b.hash);
    HomeLinked(p, U, b.hash);
    HeightStep(p, b.hash);
    StoredParts(st.rows, st.side, b.previous);
    StoredAnchored(p, U, st, b.previous, TipWork(st));
    ParentFacts(p, st, b.previous);
    ExpectedDifficultyExact(p, st, ParentBlock(st, b.previous));
    ParentCheckPasses(p, st, b);
    LinkedChild(p, st, b);
  }

  lemma ParentCheckPasses(p: Params, st: Store, b: Block)
    requires ValidParams(p) && (FindRow(st.rows, b.previous).Some? || b.previous in st.side)
    requires b.height == ParentBlock(st, b.previous).height + 1
    requires ExpectedDifficulty(p, st, ParentBlock(st, b.previous)) == Some(b.difficulty)
    ensures ParentCheck(p, st, b).None?
  {
    hide ExpectedDifficulty, FindRow;
  }

  ghost predicate Gained(st: Store, after: Store, h: Hash) {
    forall x :: Stored(after.rows, after.side, x) <==> Stored(st.rows, st.side, x) || x == h
  }

  lemma GainedParts(st: Store, after: Store, h: Hash)
    ensures Gained(st, after, h) <==>
      forall x :: Stored(after.rows, after.side, x) <==> Stored(st.rows, st.side, x) || x == h
  {
    hide Stored;
  }

  /** A new block was kept on a best chain of blocks of U; while the side rows fit nothing stored is lost. */
  ghost predicate Placed(p: Params, U: Blocks, s: State, b: Block, r: (State, Outcome))
    requires ValidParams(p)
  {
    && r.1.Done? && Kept(r.1.status) && r.1.hash == b.hash && r.0.orphans == s.orphans
    && ValidRows(p, r.0.store.rows) && MainIn(U, r.0.store.rows)
    && (SideFits(p, StoredHashes(s.store) + {b.hash}, r.0.store.rows) ==>
          Regime(p, U, r.0.store) && Gained(s.store, r.0.store, b.hash))
  }

  lemma PlacedParts(p: Params, U: Blocks, s: State, b: Block, r: (State, Outcome))
    requires ValidParams(p)
    ensures Placed(p, U, s, b, r) <==>
      && r.1.Done? && Kept(r.1.status) && r.1.hash == b.hash && r.0.orphans == s.orphans
      && ValidRows(p, r.0.store.rows) && MainIn(U, r.0.store.rows)
      && (SideFits(p, StoredHashes(s.store) + {b.hash}, r.0.store.rows) ==>
            Regime(p, U, r.0.store) && Gained(s.store, r.0.store, b.hash))
  {
    hide Kept, ValidRows, MainIn, SideFits, StoredHashes, Regime, Gained;
  }

  /** Stored as a side block, whether or not it then takes over. */
  lemma StoreSideRegime(p: Params, U: Blocks, s: State, b: Block, now: int)
    requires ValidParams(p) && ValidUniverse(p, U) && Regime(p, U, s.store) && ChainInv(p, s.store) && SideInv(p, s.store)
    requires SidesOnTime(p, s.store.side, now) && OnTime(p, b, now)
    requires Holds(U, b) && !Stored(s.store.rows, s.store.side, b.hash) && Stored(s.store.rows, s.store.side, b.previous)
    requires FindRow(s.store.rows, b.previous).Some? || b.previous in s.store.side
    requires ParentCheck(p, s.store, b).None? && WellFormedBlock(p, b)
    requires ParentWork(s.store, b.previous) + b.difficulty == Work(p, b.hash)
    ensures
      var r, fork := StoreSide(p, s, b, now), ForkRow(s.store.rows, b.previous);
      s.store.rows != [] && fork.Some?
      && if |s.store.rows| - 1 - fork.value > p.maxReorgDepth && Work(p, b.hash) > TipWork(s.store)
         then r.1 == Rejected(ReorgTooDeep) else Placed(p, U, s, b, r)
  {
    hide *;
    var st, total := s.store, ParentWork(s.store, b.previous) + b.difficulty;
    var stored := SideAdd(st, b, total, now);
    RegimeParts(p, U, st);
    HoldsParts(U, b);
    HomeParts(p, U, b.hash);
    StoredParts(st.rows, st.side, b.hash);
    NewSideRow(p, st, b, now);
    WithStoreParts(s, stored);
    WithStoreParts(s, Housekeeping(p, stored));
    StoreSideCases(p, s, b, now, stored);
    SideAddParts(st, b, total, now);
    StoreInvParts(p, stored);
    TipParts(st);
    TipParts(stored);
    Statuses();
    PlacedParts(p, U, s, b, StoreSide(p, s, b, now));
    GainedSide(st, stored, b.hash);
    WalkClean(p, U, st, b.previous, TipWork(st));
    ForkRowStep(st.rows, b.hash);
    if total > TipWork(st) {
      AddSide(U, st.rows, st.side, TipWork(st), b, total, now, total);
      SidesOnTimeAdd(p, st.side, b, SideRow(b, total, true, now), now);
      StoredHashesSame(st, stored, b.hash);
      ReorgRegime(p, U, WithStore(s, stored), b.hash, now);
      var after := Reorganize(p, WithStore(s, stored), b.hash, now).0.store;
      GainedThen(st, stored, after, b.hash);
    } else {
      HousekeepingKeeps(p, stored);
      if SideFits(p, StoredHashes(st) + {b.hash}, st.rows) {
        SideRegime(p, U, st, b, total, now);
      }
    }
  }

  lemma GainedSide(st: Store, stored: Store, h: Hash)
    requires h in stored.side && stored.rows == st.rows && stored.side.Keys == st.side.Keys + {h}
    ensures Gained(st, stored, h)
    ensures forall x :: Stored(stored.rows, stored.side, x) <==> Stored(st.rows, st.side, x) || x == h
  {
    hide FindRow;
    assert forall x :: x in stored.side <==> x in stored.side.Keys;
  }

  lemma GainedThen(st: Store, stored: Store, after: Store, h: Hash)
    requires Gained(st, stored, h)
    ensures (forall x :: Stored(after.rows, after.side, x) <==> Stored(stored.rows, stored.side, x)) ==> Gained(st, after, h)
  {
    hide Stored;
  }

  lemma SidesOnTimeAdd(p: Params, side: map<Hash, SideRow>, b: Block, r: SideRow, now: int)
    requires SidesOnTime(p, side, now) && OnTime(p, b, now) && r.block == b
    ensures SidesOnTime(p, side[b.hash := r], now)
  {
    hide OnTime;
  }

  lemma ForkHeight(p: Params, st: Store, h: Hash)
    requires ValidParams(p) && ValidRows(p, st.rows) && st.rows != []
    ensures FindRow(st.rows, h).Some? ==>
      && ForkRow(st.rows, h) == FindRow(st.rows, h) && ParentBlock(st, h).height == FindRow(st.rows, h).value
      && TipHeight(st) == |st.rows| - 1
  {
    hide ValidRows, FindRow, ForkRow, WellFormedBlock, Linked, Work;
    ForkRowStep(st.rows, h);
    if FindRow(st.rows, h).Some? {
      RowsLinked(p, st.rows, FindRow(st.rows, h).value);
      RowsLinked(p, st.rows, |st.rows| - 1);
    }
  }

  lemma PlaceRegime(p: Params, U: Blocks, s: State, b: Block, now: int)
    requires ValidParams(p) && ValidUniverse(p, U) && Regime(p, U, s.store) && ChainInv(p, s.store) && SideInv(p, s.store)
    requires SidesOnTime(p, s.store.side, now) && OnTime(p, b, now)
    requires Holds(U, b) && !Stored(s.store.rows, s.store.side, b.hash) && Stored(s.store.rows, s.store.side, b.previous)
    requires FindRow(s.store.rows, b.previous).Some? || b.previous in s.store.side
    requires WellFormedBlock(p, b)
    ensures s.store.rows != []
    ensures
      var r := Place(p, s, b, now);
      if ForksTooDeep(p, s.store, b) then r.1 == Rejected(ReorgTooDeep) else Placed(p, U, s, b, r)
  {
    hide *;
    var st := s.store;
    RegimeParts(p, U, st);
    HoldsParts(U, b);
    StoredParts(st.rows, st.side, b.hash);
    ParentPasses(p, U, st, b);
    HomeParts(p, U, b.hash);
    TipWorkIsWork(p, st);
    PlaceCases(p, s, b, now);
    ForksParts(p, st, b);
    ForkHeight(p, st, b.previous);
    Statuses();
    if b.previous == TipHash(st) {
      ExtendChain(p, U, st, b, now);
      var after := ExtendTip(p, st, b, now).value;
      WithStoreParts(s, after);
      PlacedParts(p, U, s, b, Place(p, s, b, now));
      GainedParts(st, after, b.hash);
      if SideFits(p, StoredHashes(st) + {b.hash}, after.rows) {
        ExtendRegime(p, U, st, b, now);
      }
    } else {
      StoreSideRegime(p, U, s, b, now);
    }
  }

  // ---------------------------------------------------------------- any block of the universe

  ghost predicate OrphansIn(U: Blocks, s: State) {
    forall o :: o in s.orphans ==> Holds(U, o) && !Stored(s.store.rows, s.store.side, o.hash)
  }

  /** A node that was only given blocks of U and refused none. */
  ghost predicate OnCourse(p: Params, U: Blocks, s: State)
    requires ValidParams(p)
  {
    Inv(p, s) && Regime(p, U, s.store) && OrphansIn(U, s)
  }

  lemma CourseParts(p: Params, U: Blocks, s: State)
    requires ValidParams(p)
    ensures OnCourse(p, U, s) <==> Inv(p, s) && Regime(p, U, s.store) && OrphansIn(U, s)
    ensures OnCourse(p, U, s) ==>
      OrphansOk(p, s.orphans) && ChainInv(p, s.store) && SideInv(p, s.store) && s.store.rows != []
  {
    hide Inv, Regime, OrphansIn;
    if OnCourse(p, U, s) {
      InvParts(p, s);
    }
  }

  lemma ProcessCases(p: Params, s: State, b: Block, now: int)
    requires ValidParams(p) && ChainInv(p, s.store) && SideInv(p, s.store) && s.store.rows != []
    requires WellFormedBlock(p, b)
    requires forall h :: h in s.store.side ==> s.store.side[h].valid && s.store.side[h].totalWork <= TipWork(s.store)
    ensures
      var st, r := s.store, Process(p, s, b, now);
      && (KnownTo(s, b.hash) ==> r == (s, Done(Duplicate, b.hash, 0, 0)))
      && (!KnownTo(s, b.hash) && !Stored(st.rows, st.side, b.previous) ==>
            r == (s.(orphans := AddOrphan(p, s.orphans, b)), Done(Orphan, b.hash, 0, 0)))
      && (!KnownTo(s, b.hash) && Stored(st.rows, st.side, b.previous) ==>
            (FindRow(st.rows, b.previous).Some? || b.previous in st.side) && r == Place(p, s, b, now))
  {
    hide ChainInv, SideInv, FindRow, WellFormedBlock, Reorganize, Place, AddOrphan, TipWork, InOrphans;
  }

  /** Every block of U the node has heard of is on time. */
  ghost predicate Timely(p: Params, U: Blocks, s: State, now: int) {
    forall h :: h in U && KnownTo(s, h) ==> OnTime(p, U[h], now)
  }

  lemma TimelyParts(p: Params, U: Blocks, s: State, now: int)
    ensures Timely(p, U, s, now) <==> forall h :: h in U && KnownTo(s, h) ==> OnTime(p, U[h], now)
  {
    hide KnownTo, OnTime;
  }

  lemma TimelySides(p: Params, U: Blocks, s: State, now: int, bound: int)
    requires Timely(p, U, s, now) && SideIn(U, s.store.rows, s.store.side, bound)
    ensures SidesOnTime(p, s.store.side, now)
  {
    hide *;
    TimelyParts(p, U, s, now);
    forall h | h in s.store.side
      ensures OnTime(p, s.store.side[h].block, now)
    {
      SideInParts(U, s.store.rows, s.store.side, bound, h);
      StoredParts(s.store.rows, s.store.side, h);
      KnownParts(s, h);
    }
    SidesOnTimeBuild(p, s.store.side, now);
  }

  lemma SidesOnTimeBuild(p: Params, side: map<Hash, SideRow>, now: int)
    requires forall h :: h in side ==> OnTime(p, side[h].block, now)
    ensures SidesOnTime(p, side, now)
  {
    hide OnTime;
  }

  /** The outcome of a new block with a stored parent: refused for depth exactly under the guard, kept
      otherwise. */
  lemma PlaceOutcome(p: Params, U: Blocks, s: State, b: Block, now: int)
    requires ValidParams(p) && ValidUniverse(p, U) && OnCourse(p, U, s) && Holds(U, b)
    requires Timely(p, U, s, now) && OnTime(p, b, now) && ChainInv(p, s.store) && SideInv(p, s.store)
    requires !KnownTo(s, b.hash) && Stored(s.store.rows, s.store.side, b.previous)
    ensures s.store.rows != []
    ensures
      var r := Process(p, s, b, now);
      if ForksTooDeep(p, s.store, b) then r.1 == Rejected(ReorgTooDeep) else Placed(p, U, s, b, r)
  {
    hide *;
    var st := s.store;
    UnfoldProcess(p, U, s, b, now);
    CourseParts(p, U, s);
    RegimeParts(p, U, st);
    HoldsParts(U, b);
    HomeParts(p, U, b.hash);
    KnownParts(s, b.hash);
    TimelySides(p, U, s, now, TipWork(st));
    PlaceRegime(p, U, s, b, now);
  }

  lemma UnfoldProcess(p: Params, U: Blocks, s: State, b: Block, now: int)
    requires ValidParams(p) && ValidUniverse(p, U) && OnCourse(p, U, s) && Holds(U, b)
    requires ChainInv(p, s.store) && SideInv(p, s.store)
    ensures WellFormedBlock(p, b)
    ensures
      var st, r := s.store, Process(p, s, b, now);
      && (KnownTo(s, b.hash) ==> r == (s, Done(Duplicate, b.hash, 0, 0)))
      && (!KnownTo(s, b.hash) && !Stored(st.rows, st.side, b.previous) ==>
            r == (s.(orphans := AddOrphan(p, s.orphans, b)), Done(Orphan, b.hash, 0, 0)))
      && (!KnownTo(s, b.hash) && Stored(st.rows, st.side, b.previous) ==>
            (FindRow(st.rows, b.previous).Some? || b.previous in st.side) && r == Place(p, s, b, now))
  {
    hide *;
    var st := s.store;
    CourseParts(p, U, s);
    RegimeParts(p, U, st);
    HoldsParts(U, b);
    HomeParts(p, U, b.hash);
    forall h | h in st.side
      ensures st.side[h].valid && st.side[h].totalWork <= TipWork(st)
    {
      SideInParts(U, st.rows, st.side, TipWork(st), h);
    }
    ProcessCases(p, s, b, now);
  }

  /** What the node has heard of already, and what is malformed, changes nothing. */
  lemma IgnoredBlock(p: Params, U: Blocks, s: State, b: Block, now: int)
    requires ValidParams(p) && OnCourse(p, U, s) && Inv(p, s) && (KnownTo(s, b.hash) || !WellFormedBlock(p, b))
    requires ChainInv(p, s.store) && SideInv(p, s.store)
    ensures Process(p, s, b, now) == (s, if KnownTo(s, b.hash) then Done(Duplicate, b.hash, 0, 0) else Rejected(BadStructure))
    ensures ProcessBlock(p, s, b, now) == Process(p, s, b, now)
  {
    hide *;
    var st := s.store;
    CourseParts(p, U, s);
    RegimeParts(p, U, st);
    Statuses();
    OrphanCap(p);
    KnownParts(s, b.hash);
    StoredParts(st.rows, st.side, b.hash);
    if b.hash in st.side {
      SideInParts(U, st.rows, st.side, TipWork(st), b.hash);
    }
    ProcessUnfold(p, s, b, now);
    ProcessBlockStep(p, s, b, now);
  }

  /** A block of U that is on time is never refused while no limit is reached: it is known already, waits
      for its parent, or is kept. */
  lemma ProcessRegime(p: Params, U: Blocks, s: State, b: Block, now: int)
    requires ValidParams(p) && ValidUniverse(p, U) && OnCourse(p, U, s) && Holds(U, b)
    requires Timely(p, U, s, now) && OnTime(p, b, now)
    requires ChainInv(p, s.store) && SideInv(p, s.store) && CallFits(p, s, b, now)
    ensures
      var st, r := s.store, Process(p, s, b, now);
      && OnCourse(p, U, r.0)
      && (KnownTo(s, b.hash) ==> r == (s, Done(Duplicate, b.hash, 0, 0)))
      && (!KnownTo(s, b.hash) && !Stored(st.rows, st.side, b.previous) ==>
            r == (s.(orphans := s.orphans + [b]), Done(Orphan, b.hash, 0, 0)))
      && (!KnownTo(s, b.hash) && Stored(st.rows, st.side, b.previous) ==>
            && r.1.Done? && Kept(r.1.status) && r.1.hash == b.hash && r.0.orphans == s.orphans
            && Gained(st, r.0.store, b.hash))
  {
    hide *;
    var st, r := s.store, Process(p, s, b, now);
    CourseParts(p, U, s);
    UnfoldProcess(p, U, s, b, now);
    CallParts(p, s, b, now);
    ProcessKeepsInv(p, s, b, now);
    KnownParts(s, b.hash);
    if !KnownTo(s, b.hash) {
      OrphansInParts(U, s);
      if Stored(st.rows, st.side, b.previous) {
        PlaceOutcome(p, U, s, b, now);
        PlacedParts(p, U, s, b, r);
        OrphansStay(U, s, r.0, b.hash);
      } else {
        OrphanAppend(p, U, s, b);
      }
      CourseParts(p, U, r.0);
    }
  }

  lemma OrphansInParts(U: Blocks, s: State)
    ensures OrphansIn(U, s) <==>
      forall o :: o in s.orphans ==> Holds(U, o) && !Stored(s.store.rows, s.store.side, o.hash)
  {
    hide Stored, Holds;
  }

  lemma OrphansStay(U: Blocks, s: State, after: State, h: Hash)
    requires OrphansIn(U, s) && !InOrphans(s.orphans, h) && after.orphans == s.orphans
    requires Gained(s.store, after.store, h)
    ensures OrphansIn(U, after)
  {
    hide Holds, Stored;
    forall o | o in after.orphans
      ensures Holds(U, o) && !Stored(after.store.rows, after.store.side, o.hash)
    {
      var i :| 0 <= i < |s.orphans| && s.orphans[i] == o;
      assert o.hash == h ==> InOrphans(s.orphans, h);
    }
  }

  lemma OrphanAppend(p: Params, U: Blocks, s: State, b: Block)
    requires ValidParams(p) && |s.orphans| < p.maxOrphans && OrphansIn(U, s) && Holds(U, b)
    requires !Stored(s.store.rows, s.store.side, b.hash)
    ensures AddOrphan(p, s.orphans, b) == s.orphans + [b]
    ensures OrphansIn(U, s.(orphans := AddOrphan(p, s.orphans, b)))
  {
    hide Holds, Stored;
  }

  // ---------------------------------------------------------------- adoption

  /** The orphans whose parent is stored but not queued for adoption. */
  ghost predicate IsStranded(s: State, queue: seq<Hash>, o: Block) {
    o in s.orphans && Stored(s.store.rows, s.store.side, o.previous) && o.previous !in queue
  }

  ghost function Stranded(s: State, queue: seq<Hash>): set<Hash> {
    set o | o in s.orphans && IsStranded(s, queue, o) :: o.hash
  }

  lemma StrandedMember(s: State, queue: seq<Hash>, h: Hash)
    ensures h in Stranded(s, queue) <==> exists o :: IsStranded(s, queue, o) && o.hash == h
  {
    hide Stored;
  }

  lemma StrandedIs(s: State, queue: seq<Hash>, o: Block)
    ensures IsStranded(s, queue, o) <==>
      o in s.orphans && Stored(s.store.rows, s.store.side, o.previous) && o.previous !in queue
  {
    hide Stored;
  }

  /** The same orphans are stranded when the conditions are the same for each. */
  lemma SameStranded(s: State, queue: seq<Hash>, after: State, queue': seq<Hash>)
    requires forall o :: IsStranded(after, queue', o) <==> IsStranded(s, queue, o)
    ensures Stranded(after, queue') == Stranded(s, queue)
  {
    hide *;
    forall h
      ensures h in Stranded(after, queue') <==> h in Stranded(s, queue)
    {
      StrandedMember(s, queue, h);
      StrandedMember(after, queue', h);
    }
  }

  ghost predicate AllStored(s: State, queue: seq<Hash>) {
    forall h :: h in queue ==> Stored(s.store.rows, s.store.side, h)
  }

  /** What one round of adoption did: exactly the children left the orphan pool for the tables. */
  ghost predicate Moved(s: State, after: State, children: seq<Block>) {
    && (forall h :: Stored(after.store.rows, after.store.side, h) <==>
          Stored(s.store.rows, s.store.side, h) || h in BlockHashes(children))
    && (forall o :: o in after.orphans <==> o in s.orphans && o.hash !in BlockHashes(children))
  }

  lemma MovedNone(s: State, children: seq<Block>)
    requires children == []
    ensures Moved(s, s, children)
  {
    hide Stored;
  }

  lemma MovedStep(s: State, before: State, popped: State, after: State, children: seq<Block>)
    requires children != [] && Moved(s, before, children[..|children| - 1])
    requires popped == Popped(before, children[|children| - 1].hash)
    requires after.orphans == popped.orphans && Gained(popped.store, after.store, children[|children| - 1].hash)
    ensures Moved(s, after, children)
  {
    hide Stored;
    var n := |children| - 1;
    BlockHashesAppend(children);
    forall h
      ensures h in BlockHashes(children) <==> h in BlockHashes(children[..n]) || h == children[n].hash
    {}
  }

  lemma BlockHashesAppend(children: seq<Block>)
    requires children != []
    ensures BlockHashes(children) == BlockHashes(children[..|children| - 1]) + [children[|children| - 1].hash]
  {}

  lemma PoppedCourse(p: Params, U: Blocks, s: State, h: Hash)
    requires ValidParams(p) && OnCourse(p, U, s)
    ensures OnCourse(p, U, Popped(s, h)) && Popped(s, h).store == s.store && !InOrphans(Popped(s, h).orphans, h)
  {
    hide Regime, Inv, Stored, Holds;
    PoppedKeeps(p, s, h);
    assert forall b :: b in Popped(s, h).orphans ==> b.hash != h;
  }

  /** After the children before it were adopted, the last child is ready to be processed. */
  lemma ChildReady(p: Params, U: Blocks, s: State, ph: Hash, children: seq<Block>, now: int)
    requires ValidParams(p) && ValidUniverse(p, U) && OnCourse(p, U, s) && Inv(p, s) && Timely(p, U, s, now)
    requires Stored(s.store.rows, s.store.side, ph) && children != []
    requires forall i :: 0 <= i < |children| ==> children[i] in s.orphans && children[i].previous == ph
    requires DistinctSeq(BlockHashes(children))
    requires
      var n := |children| - 1;
      var before := AdoptChildren(p, s, children[..n], now).state;
      OnCourse(p, U, before) && Moved(s, before, children[..n])
    ensures
      var n := |children| - 1;
      var child, before := children[n], AdoptChildren(p, s, children[..n], now).state;
      var popped := Popped(before, child.hash);
      && OnCourse(p, U, popped) && Inv(p, popped) && popped.store == before.store
      && Holds(U, child) && Timely(p, U, popped, now) && OnTime(p, child, now)
      && !KnownTo(popped, child.hash) && Stored(popped.store.rows, popped.store.side, child.previous)
  {
    hide *;
    var n := |children| - 1;
    var child, before := children[n], AdoptChildren(p, s, children[..n], now).state;
    var popped := Popped(before, child.hash);
    PoppedCourse(p, U, before, child.hash);
    CourseParts(p, U, s);
    OrphansInParts(U, s);
    ChildPending(s, before, children, child);
    MovedKeeps(s, before, children[..n], ph);
    KnownParts(popped, child.hash);
    CourseParts(p, U, popped);
    ChildTimely(p, U, s, before, children, now);
  }

  /** Every waiting child of a stored parent is kept while no limit is reached. */
  lemma {:induction false} AdoptChildrenRegime(p: Params, U: Blocks, s: State, ph: Hash, children: seq<Block>, now: int)
    requires ValidParams(p) && ValidUniverse(p, U) && OnCourse(p, U, s) && Inv(p, s) && Timely(p, U, s, now)
    requires Stored(s.store.rows, s.store.side, ph) && ChildrenFit(p, s, children, now)
    requires forall i :: 0 <= i < |children| ==> children[i] in s.orphans && children[i].previous == ph
    requires DistinctSeq(BlockHashes(children))
    ensures
      var r := AdoptChildren(p, s, children, now);
      !r.failed && OnCourse(p, U, r.state) && r.hashes == BlockHashes(children) && Moved(s, r.state, children)
  {
    hide *;
    AdoptChildrenStep(p, s, children, now);
    ChildrenFitStep(p, s, children, now);
    if children == [] {
      MovedNone(s, children);
      assert BlockHashes(children) == [];
    } else {
      var n := |children| - 1;
      var child := children[n];
      BlockHashesAppend(children);
      DistinctPrefix(BlockHashes(children), n);
      assert BlockHashes(children)[..n] == BlockHashes(children[..n]);
      AdoptChildrenRegime(p, U, s, ph, children[..n], now);
      ChildReady(p, U, s, ph, children, now);
      var before := AdoptChildren(p, s, children[..n], now).state;
      var popped := Popped(before, child.hash);
      ProcessRegime(p, U, popped, child, now);
      MovedStep(s, before, popped, AdoptChildren(p, s, children, now).state, children);
    }
  }

  /** What is left after some children were adopted, and the next child, are still on time. */
  lemma ChildTimely(p: Params, U: Blocks, s: State, before: State, children: seq<Block>, now: int)
    requires Timely(p, U, s, now) && OrphansIn(U, s) && children != []
    requires forall i :: 0 <= i < |children| ==> children[i] in s.orphans
    requires Moved(s, before, children[..|children| - 1])
    ensures
      var child := children[|children| - 1];
      Timely(p, U, Popped(before, child.hash), now) && OnTime(p, child, now)
  {
    hide *;
    var child := children[|children| - 1];
    MovedKnown(s, before, children[..|children| - 1]);
    TimelyParts(p, U, s, now);
    TimelyParts(p, U, Popped(before, child.hash), now);
    forall h | KnownTo(Popped(before, child.hash), h)
      ensures KnownTo(s, h)
    {
      PoppedKnown(before, child.hash, h);
      SameKnownAt(s, before, h);
    }
    OrphansInParts(U, s);
    HoldsParts(U, child);
    OrphanKnown(s, child);
  }

  lemma PoppedKnown(s: State, x: Hash, h: Hash)
    requires KnownTo(Popped(s, x), h)
    ensures KnownTo(s, h)
  {
    hide Stored;
    if InOrphans(Popped(s, x).orphans, h) {
      var i :| 0 <= i < |Popped(s, x).orphans| && Popped(s, x).orphans[i].hash == h;
      assert Popped(s, x).orphans[i] in s.orphans;
      var j :| 0 <= j < |s.orphans| && s.orphans[j] == Popped(s, x).orphans[i];
    }
  }

  lemma OrphanKnown(s: State, o: Block)
    requires o in s.orphans
    ensures KnownTo(s, o.hash)
  {
    hide Stored;
    var i :| 0 <= i < |s.orphans| && s.orphans[i] == o;
  }

  lemma MovedKeeps(s: State, before: State, children: seq<Block>, ph: Hash)
    requires Moved(s, before, children) && Stored(s.store.rows, s.store.side, ph)
    ensures Stored(before.store.rows, before.store.side, ph)
  {
    hide Stored;
  }

  lemma ChildPending(s: State, before: State, children: seq<Block>, child: Block)
    requires children != [] && child == children[|children| - 1] && Moved(s, before, children[..|children| - 1])
    requires DistinctSeq(BlockHashes(children)) && !Stored(s.store.rows, s.store.side, child.hash)
    ensures !Stored(before.store.rows, before.store.side, child.hash)
  {
    hide Stored;
    BlockHashesAppend(children);
    DistinctPrefix(BlockHashes(children), |children| - 1);
    assert BlockHashes(children)[..|children| - 1] == BlockHashes(children[..|children| - 1]);
  }

  /** After a round the same orphans are stranded: the children left, and who waits for a child is queued. */
  lemma StrandedStep(U: Blocks, s: State, after: State, queue: seq<Hash>, children: seq<Block>)
    requires queue != [] && AllStored(s, queue) && OrphansIn(U, s)
    requires children == ChildrenOf(s.orphans, queue[|queue| - 1]) && Moved(s, after, children)
    ensures
      var next := queue[..|queue| - 1] + BlockHashes(children);
      Stranded(after, next) == Stranded(s, queue) && AllStored(after, next)
  {
    hide Stored, Holds, Stranded, IsStranded;
    var n := |queue| - 1;
    var next := queue[..n] + BlockHashes(children);
    forall o
      ensures IsStranded(after, next, o) <==> IsStranded(s, queue, o)
    {
      StrandedIs(s, queue, o);
      StrandedIs(after, next, o);
      ChildByHash(U, s, children, o);
      LastQueued(queue, n, o.previous);
      NextMembers(queue[..n], BlockHashes(children), o.previous);
      ChildrenUnstored(U, s, children, o.previous);
    }
    SameStranded(s, queue, after, next);
    forall h | h in next
      ensures Stored(after.store.rows, after.store.side, h)
    {
      assert h in queue[..n] ==> h in queue;
    }
  }

  lemma LastQueued(queue: seq<Hash>, n: nat, h: Hash)
    requires |queue| == n + 1
    ensures h in queue <==> h in queue[..n] || h == queue[n]
  {
    assert queue == queue[..n] + [queue[n]];
  }

  lemma NextMembers(a: seq<Hash>, b: seq<Hash>, h: Hash)
    ensures h in a + b <==> h in a || h in b
  {}

  /** An orphan with the hash of a child is that child. */
  lemma ChildByHash(U: Blocks, s: State, children: seq<Block>, o: Block)
    requires OrphansIn(U, s) && forall c :: c in children ==> c in s.orphans
    ensures o in s.orphans ==> (o.hash in BlockHashes(children) <==> o in children)
  {
    hide Stored;
    if o in s.orphans && o.hash in BlockHashes(children) {
      var i :| 0 <= i < |children| && BlockHashes(children)[i] == o.hash;
      assert children[i] in children;
    }
    if o in children {
      var i :| 0 <= i < |children| && children[i] == o;
      assert BlockHashes(children)[i] == o.hash;
    }
  }

  lemma ChildrenUnstored(U: Blocks, s: State, children: seq<Block>, h: Hash)
    requires OrphansIn(U, s) && forall c :: c in children ==> c in s.orphans
    ensures h in BlockHashes(children) ==> !Stored(s.store.rows, s.store.side, h)
  {
    hide Stored, Holds;
    if h in BlockHashes(children) {
      var i :| 0 <= i < |children| && BlockHashes(children)[i] == h;
      assert children[i] in children;
    }
  }

  /** The set of hashes a node has stored or holds as orphans does not change during adoption. */
  ghost predicate SameKnown(s: State, after: State) {
    forall h :: KnownTo(after, h) <==> KnownTo(s, h)
  }

  lemma MovedKnown(s: State, after: State, children: seq<Block>)
    requires Moved(s, after, children) && forall i :: 0 <= i < |children| ==> children[i] in s.orphans
    ensures SameKnown(s, after)
  {
    hide Stored;
    forall h
      ensures KnownTo(after, h) <==> KnownTo(s, h)
    {
      if InOrphans(s.orphans, h) {
        var i :| 0 <= i < |s.orphans| && s.orphans[i].hash == h;
        if h !in BlockHashes(children) {
          assert s.orphans[i] in after.orphans;
          var j :| 0 <= j < |after.orphans| && after.orphans[j] == s.orphans[i];
        }
      }
      if InOrphans(after.orphans, h) {
        var i :| 0 <= i < |after.orphans| && after.orphans[i].hash == h;
        assert after.orphans[i] in after.orphans;
        var j :| 0 <= j < |s.orphans| && s.orphans[j] == after.orphans[i];
      }
      if h in BlockHashes(children) {
        var i :| 0 <= i < |children| && BlockHashes(children)[i] == h;
        var j :| 0 <= j < |s.orphans| && s.orphans[j] == children[i];
        assert s.orphans[j].hash == h;
      }
    }
  }

  /** The orphans waiting for a queued hash are distinct children of a stored parent. */
  lemma QueuedChildren(p: Params, s: State, queue: seq<Hash>)
    requires ValidParams(p) && Inv(p, s) && AllStored(s, queue) && queue != []
    ensures
      var h := queue[|queue| - 1];
      var children := ChildrenOf(s.orphans, h);
      && Stored(s.store.rows, s.store.side, h) && DistinctSeq(BlockHashes(children))
      && forall i :: 0 <= i < |children| ==> children[i] in s.orphans && children[i].previous == h
  {
    hide *;
    var n := |queue| - 1;
    var children := ChildrenOf(s.orphans, queue[n]);
    InvOrphans(p, s);
    ChildrenFacts(p, s.orphans, queue[n]);
    AllStoredAt(s, queue, n);
    forall i | 0 <= i < |children|
      ensures children[i] in s.orphans && children[i].previous == queue[n]
    {
      assert children[i] in children;
    }
  }

  lemma InvOrphans(p: Params, s: State)
    requires ValidParams(p) && Inv(p, s)
    ensures OrphansOk(p, s.orphans)
  {
    hide OrphansOk, StoreInv;
  }

  /** One round of adoption. */
  lemma AdoptRound(p: Params, U: Blocks, s: State, queue: seq<Hash>, now: int)
    requires ValidParams(p) && ValidUniverse(p, U) && OnCourse(p, U, s) && Inv(p, s) && Timely(p, U, s, now)
    requires AllStored(s, queue) && queue != []
    requires ChildrenFit(p, s, ChildrenOf(s.orphans, queue[|queue| - 1]), now)
    ensures
      var n := |queue| - 1;
      var r := AdoptChildren(p, s, ChildrenOf(s.orphans, queue[n]), now);
      && !r.failed && OnCourse(p, U, r.state) && Timely(p, U, r.state, now) && SameKnown(s, r.state)
      && Stranded(r.state, queue[..n] + r.hashes) == Stranded(s, queue) && AllStored(r.state, queue[..n] + r.hashes)
  {
    hide *;
    var n := |queue| - 1;
    var children := ChildrenOf(s.orphans, queue[n]);
    QueuedChildren(p, s, queue);
    AdoptChildrenRegime(p, U, s, queue[n], children, now);
    var r := AdoptChildren(p, s, children, now);
    CourseParts(p, U, s);
    StrandedStep(U, s, r.state, queue, children);
    MovedKnown(s, r.state, children);
    TimelySame(p, U, s, r.state, now);
  }

  /** Adoption that reaches no limit adopts every orphan whose parent is stored, save those that were stranded
      before it began. */
  lemma {:induction false} AdoptRegime(p: Params, U: Blocks, s: State, W: set<Hash>, queue: seq<Hash>, now: int)
    requires ValidParams(p) && ValidUniverse(p, U) && OnCourse(p, U, s) && Inv(p, s) && Timely(p, U, s, now)
    requires Known(W, s.orphans) && AllStored(s, queue) && AdoptFits(p, s, W, queue, now)
    ensures
      var r := Adopt(p, s, W, queue, now);
      !r.1 && OnCourse(p, U, r.0) && Stranded(r.0, []) == Stranded(s, queue) && SameKnown(s, r.0)
    decreases Weight(W, queue)
  {
    hide *;
    AdoptStep(p, s, W, queue, now);
    AdoptFitsStep(p, s, W, queue, now);
    SameKnownSelf(s);
    if queue != [] {
      var n := |queue| - 1;
      AdoptRound(p, U, s, queue, now);
      var r := AdoptChildren(p, s, ChildrenOf(s.orphans, queue[n]), now);
      AdoptRegime(p, U, r.state, W, queue[..n] + r.hashes, now);
      SameKnownStep(s, r.state, Adopt(p, s, W, queue, now).0);
    }
  }

  lemma TimelySame(p: Params, U: Blocks, s: State, after: State, now: int)
    requires Timely(p, U, s, now) && SameKnown(s, after)
    ensures Timely(p, U, after, now)
  {
    hide KnownTo, OnTime;
  }

  lemma SameKnownSelf(s: State)
    ensures SameKnown(s, s)
  {
    hide KnownTo;
  }

  lemma SameKnownStep(a: State, b: State, c: State)
    requires SameKnown(a, b) && SameKnown(b, c)
    ensures SameKnown(a, c)
  {
    hide KnownTo;
  }

  lemma AllStoredAt(s: State, queue: seq<Hash>, n: nat)
    requires AllStored(s, queue) && n < |queue|
    ensures Stored(s.store.rows, s.store.side, queue[n])
  {
    hide Stored;
  }

  // ---------------------------------------------------------------- deliveries

  lemma ProcessBlockStep(p: Params, s: State, b: Block, now: int)
    requires ValidParams(p) && Inv(p, s)
    ensures ChainInv(p, s.store) && SideInv(p, s.store)
    ensures
      var r := Process(p, s, b, now);
      && (r.1.Done? && Kept(r.1.status) ==>
            && Inv(p, r.0) && Known(OrphanHashes(r.0.orphans), r.0.orphans)
            && ProcessBlock(p, s, b, now).0 == Adopt(p, r.0, OrphanHashes(r.0.orphans), [r.1.hash], now).0)
      && (r.1.Rejected? || !Kept(r.1.status) ==> ProcessBlock(p, s, b, now) == r)
  {
    hide Inv, Process, Adopt, ChainInv, SideInv;
    InvParts(p, s);
    ProcessKeepsInv(p, s, b, now);
  }

  /** A delivered block of U becomes known, the node stays on course, and the same orphans are stranded. */
  lemma DeliverRegime(p: Params, U: Blocks, s: State, b: Block, now: int)
    requires ValidParams(p) && ValidUniverse(p, U) && OnCourse(p, U, s) && Inv(p, s)
    requires Holds(U, b) && Timely(p, U, s, now) && OnTime(p, b, now)
    requires StepFits(p, s, Deliver(b, now))
    ensures
      var after := ProcessBlock(p, s, b, now).0;
      && OnCourse(p, U, after) && Stranded(after, []) == Stranded(s, [])
      && forall h :: KnownTo(after, h) <==> KnownTo(s, h) || h == b.hash
  {
    hide *;
    StepFitsParts(p, s, Deliver(b, now));
    ProcessBlockStep(p, s, b, now);
    ProcessRegime(p, U, s, b, now);
    var r := Process(p, s, b, now);
    Statuses();
    KnownParts(s, b.hash);
    if !KnownTo(s, b.hash) && Stored(s.store.rows, s.store.side, b.previous) {
      CourseParts(p, U, s);
      StrandedGained(s, r.0, b.hash);
      GainedKnown(s, r.0, b.hash);
      HoldsParts(U, b);
      TimelyGained(p, U, s, r.0, b, now);
      AdoptRegime(p, U, r.0, OrphanHashes(r.0.orphans), [r.1.hash], now);
      var after := ProcessBlock(p, s, b, now).0;
      forall h
        ensures KnownTo(after, h) <==> KnownTo(s, h) || h == b.hash
      {
        SameKnownAt(r.0, after, h);
      }
    } else if !KnownTo(s, b.hash) {
      StrandedAppend(s, b);
      forall h
        ensures KnownTo(r.0, h) <==> KnownTo(s, h) || h == b.hash
      {
        KnownAppend(s, b, h);
      }
    }
  }

  lemma GainedKnown(s: State, after: State, h: Hash)
    requires Gained(s.store, after.store, h) && after.orphans == s.orphans
    ensures forall x :: KnownTo(after, x) <==> KnownTo(s, x) || x == h
  {
    hide Stored, InOrphans;
  }

  lemma TimelyGained(p: Params, U: Blocks, s: State, after: State, b: Block, now: int)
    requires Timely(p, U, s, now) && b.hash in U && U[b.hash] == b && OnTime(p, b, now)
    requires forall x :: KnownTo(after, x) <==> KnownTo(s, x) || x == b.hash
    ensures Timely(p, U, after, now)
  {
    hide KnownTo, OnTime;
  }

  lemma SameKnownAt(a: State, b: State, h: Hash)
    requires SameKnown(a, b)
    ensures KnownTo(b, h) <==> KnownTo(a, h)
  {
    hide KnownTo;
  }

  lemma StrandedGained(s: State, after: State, h: Hash)
    requires after.orphans == s.orphans && Gained(s.store, after.store, h) && !Stored(s.store.rows, s.store.side, h)
    ensures Stranded(after, [h]) == Stranded(s, []) && AllStored(after, [h])
  {
    hide Stored, Stranded;
    SameStranded(s, [], after, [h]);
  }

  lemma StrandedAppend(s: State, b: Block)
    requires !Stored(s.store.rows, s.store.side, b.previous)
    ensures Stranded(s.(orphans := s.orphans + [b]), []) == Stranded(s, [])
  {
    hide Stored, Stranded;
    SameStranded(s, [], s.(orphans := s.orphans + [b]), []);
  }

  lemma KnownAppend(s: State, b: Block, h: Hash)
    ensures KnownTo(s.(orphans := s.orphans + [b]), h) <==> KnownTo(s, h) || h == b.hash
  {
    hide Stored;
    var all := s.orphans + [b];
    assert all[|s.orphans|] == b;
    if InOrphans(s.orphans, h) {
      var i :| 0 <= i < |s.orphans| && s.orphans[i].hash == h;
      assert all[i].hash == h;
    }
    if InOrphans(all, h) {
      var i :| 0 <= i < |all| && all[i].hash == h;
      assert i < |s.orphans| ==> s.orphans[i].hash == h;
    }
  }

  /** Transactions do not disturb the course. */
  lemma SubmitRegime(p: Params, U: Blocks, s: State, tx: Tx, now: int)
    requires ValidParams(p) && OnCourse(p, U, s) && Inv(p, s) && s.store.rows != []
    ensures
      var after := SubmitTransaction(p, s, tx, now).0;
      && OnCourse(p, U, after) && Stranded(after, []) == Stranded(s, []) && forall h :: KnownTo(after, h) <==> KnownTo(s, h)
  {
    hide Inv, SubmitTransaction, Stored, Holds, InOrphans, SideHome, StoreInv, TipWork, Stranded;
    SubmitKeeps(p, s, tx, now);
    var after := SubmitTransaction(p, s, tx, now).0;
    InvStore(p, after);
    TipParts(s.store);
    TipParts(after.store);
    SameStranded(s, [], after, []);
  }

  // ---------------------------------------------------------------- mined blocks

  /** The orphans waiting for a hash. */
  ghost function WaitingFor(s: State, h: Hash): set<Hash> {
    set o | o in s.orphans && o.previous == h :: o.hash
  }

  lemma MinedOnTime(p: Params, s: State, b: Block, now: int)
    requires ValidParams(p) && ChainInv(p, s.store) && s.store.rows != []
    requires SubmitMined(p, s, b, now).1.Done?
    ensures OnTime(p, b, now)
  {
    hide *;
    var st := s.store;
    TemplateFacts.DoneMeansExtended(p, s, b, now);
    ExtendTipParts(p, st, b, now);
    ConnectParts(p, st, b, now, TipWork(st) + b.difficulty);
    ConnectExact(p, st, b, now, TipWork(st) + b.difficulty);
    OnTimeIs(p, b, now);
  }

  /** What the strict path accepts is new to the node and on time. */
  lemma MinedIsNew(p: Params, U: Blocks, s: State, b: Block, now: int)
    requires ValidParams(p) && ValidUniverse(p, U) && OnCourse(p, U, s) && s.store.rows != []
    requires SubmitMined(p, s, b, now).1.Done?
    ensures WellFormedBlock(p, b) && b.previous == TipHash(s.store) && ExtendTip(p, s.store, b, now).Ok?
    ensures SubmitMined(p, s, b, now).0 == s.(store := ExtendTip(p, s.store, b, now).value)
    ensures OnTime(p, b, now) && !Stored(s.store.rows, s.store.side, b.hash)
  {
    hide *;
    var st := s.store;
    CourseParts(p, U, s);
    TemplateFacts.DoneMeansExtended(p, s, b, now);
    TipDifficulty(p, st);
    MinedOnTime(p, s, b, now);
    RegimeParts(p, U, st);
    ExtendTipKeeps(p, st, b, now);
    BlockDifficulty(p, b);
    var after := ExtendTip(p, st, b, now).value;
    StoreInvParts(p, after);
    TipWorkIsWork(p, after);
    if Stored(st.rows, st.side, b.hash) {
      StoredWork(p, U, st, b.hash);
    }
  }

  /** A mined block of U is kept and the node stays on course; the strict path adopts nothing, so exactly the
      orphans that were waiting for the block become stranded. */
  lemma MineRegime(p: Params, U: Blocks, s: State, b: Block, now: int)
    requires ValidParams(p) && ValidUniverse(p, U) && OnCourse(p, U, s) && Inv(p, s)
    requires s.store.rows != [] && SubmitMined(p, s, b, now).1.Done? && Holds(U, b) && b.hash !in Stranded(s, [])
    requires StepFits(p, s, Mine(b, now))
    ensures
      var after := SubmitMined(p, s, b, now).0;
      && OnCourse(p, U, after) && Stranded(after, []) == Stranded(s, []) + WaitingFor(s, b.hash)
      && forall h :: KnownTo(after, h) <==> KnownTo(s, h) || h == b.hash
  {
    hide *;
    StepFitsParts(p, s, Mine(b, now));
    CourseParts(p, U, s);
    MinedIsNew(p, U, s, b, now);
    MinedKeeps(p, s, b, now);
    TipStored(s.store);
    var after := SubmitMined(p, s, b, now).0;
    ExtendRegime(p, U, s.store, b, now);
    GainedParts(s.store, after.store, b.hash);
    GainedKnown(s, after, b.hash);
    NotAnOrphan(U, s, b);
    OrphansStay(U, s, after, b.hash);
    CourseParts(p, U, after);
    StrandedMined(s, after, b.hash);
  }

  lemma RowStored(st: Store, k: nat)
    requires k < |st.rows|
    ensures Stored(st.rows, st.side, st.rows[k].block.hash)
  {}

  lemma TipStored(st: Store)
    requires st.rows != []
    ensures Stored(st.rows, st.side, TipHash(st))
  {
    assert st.rows[|st.rows| - 1].block.hash == TipHash(st);
  }

  lemma NotAnOrphan(U: Blocks, s: State, b: Block)
    requires b.hash !in Stranded(s, []) && OrphansIn(U, s) && Holds(U, b) && Stored(s.store.rows, s.store.side, b.previous)
    ensures !InOrphans(s.orphans, b.hash)
  {
    hide Stored, Stranded, IsStranded;
    if InOrphans(s.orphans, b.hash) {
      var o := OrphanOf(U, s, b.hash);
      StrandedIs(s, [], o);
      StrandedMember(s, [], b.hash);
    }
  }

  lemma StrandedMined(s: State, after: State, h: Hash)
    requires after.orphans == s.orphans && Gained(s.store, after.store, h)
    ensures Stranded(after, []) == Stranded(s, []) + WaitingFor(s, h)
  {
    hide Stored, Stranded, IsStranded;
    forall x
      ensures x in Stranded(after, []) <==> x in Stranded(s, []) + WaitingFor(s, h)
    {
      StrandedMember(s, [], x);
      StrandedMember(after, [], x);
      if x in Stranded(s, []) {
        var o :| IsStranded(s, [], o) && o.hash == x;
        StrandedIs(s, [], o);
        StrandedIs(after, [], o);
      }
      if x in WaitingFor(s, h) {
        var o :| o in s.orphans && o.previous == h && o.hash == x;
        StrandedIs(after, [], o);
      }
      if x in Stranded(after, []) {
        var o :| IsStranded(after, [], o) && o.hash == x;
        StrandedIs(s, [], o);
        StrandedIs(after, [], o);
      }
    }
  }

  // ---------------------------------------------------------------- runs fed from U

  ghost predicate Accepts(p: Params, s: State, step: Step)
    requires ValidParams(p) && Inv(p, s)
  {
    InvRows(p, s);
    step.Mine? && SubmitMined(p, s, step.block, step.now).1.Done?
  }

  /** The step hands the node a new block: delivered by the network, well formed and not heard of before, or
      mined locally and accepted. */
  ghost predicate TakesIn(p: Params, s: State, step: Step)
    requires ValidParams(p) && Inv(p, s)
  {
    (step.Deliver? && WellFormedBlock(p, step.block) && !KnownTo(s, step.block.hash)) || Accepts(p, s, step)
  }

  ghost predicate ReceivedAt(p: Params, steps: seq<Step>, k: nat)
    requires ValidParams(p) && k < |steps|
  {
    TakesIn(p, Run(p, steps[..k]), steps[k])
  }

  predicate Carries(step: Step, h: Hash) { !step.Submit? && step.block.hash == h }

  ghost predicate Received(p: Params, steps: seq<Step>, h: Hash)
    requires ValidParams(p)
  {
    exists k :: 0 <= k < |steps| && ReceivedAt(p, steps, k) && Carries(steps[k], h)
  }

  /** The orphans a run left behind: those that were waiting when their parent was mined here. */
  ghost function LeftBehind(p: Params, steps: seq<Step>): set<Hash>
    requires ValidParams(p)
  {
    if steps == [] then {}
    else
      var before, step := steps[..|steps| - 1], steps[|steps| - 1];
      LeftBehind(p, before)
      + if Accepts(p, Run(p, before), step) then WaitingFor(Run(p, before), step.block.hash) else {}
  }

  /** A new block is a block of U; what is mined is not an orphan already left behind. */
  ghost predicate FedAt(p: Params, U: Blocks, steps: seq<Step>, k: nat)
    requires ValidParams(p) && k < |steps|
  {
    ReceivedAt(p, steps, k) ==>
      Holds(U, steps[k].block) && (steps[k].Mine? ==> steps[k].block.hash !in LeftBehind(p, steps[..k]))
  }

  /** A run in which every new block comes from U. Transactions, refused mining attempts, malformed blocks and
      whatever repeats a known hash are arbitrary. */
  ghost predicate FedFrom(p: Params, U: Blocks, steps: seq<Step>)
    requires ValidParams(p)
  {
    forall k :: 0 <= k < |steps| ==> FedAt(p, U, steps, k)
  }

  ghost predicate PunctualAt(p: Params, steps: seq<Step>, i: nat, k: nat)
    requires ValidParams(p) && i <= k < |steps|
  {
    ReceivedAt(p, steps, i) && ReceivedAt(p, steps, k) && steps[k].Deliver? ==> OnTime(p, steps[i].block, steps[k].now)
  }

  /** When a new block is delivered the clock puts neither it nor one received before too far in the future. */
  ghost predicate Punctual(p: Params, steps: seq<Step>)
    requires ValidParams(p)
  {
    forall i, k :: 0 <= i <= k < |steps| ==> PunctualAt(p, steps, i, k)
  }

  /** No block has as much work as `best`. */
  ghost predicate Heaviest(p: Params, U: Blocks, best: Hash) {
    best in U && forall h :: h in U && h != best ==> Work(p, h) < Work(p, best)
  }

  // -------- unfolding

  lemma ReceivedAtIs(p: Params, steps: seq<Step>, k: nat)
    requires ValidParams(p) && k < |steps|
    ensures ReceivedAt(p, steps, k) <==> TakesIn(p, Run(p, steps[..k]), steps[k])
    ensures ReceivedAt(p, steps, k) ==> !steps[k].Submit?
  {
    hide SubmitMined, Run, Inv, WellFormedBlock, KnownTo;
  }

  lemma TakesInIs(p: Params, s: State, step: Step)
    requires ValidParams(p) && Inv(p, s)
    ensures TakesIn(p, s, step) <==>
      (step.Deliver? && WellFormedBlock(p, step.block) && !KnownTo(s, step.block.hash)) || Accepts(p, s, step)
  {
    hide Inv, Accepts, WellFormedBlock, KnownTo;
  }

  lemma LeftBehindStep(p: Params, steps: seq<Step>)
    requires ValidParams(p)
    ensures steps == [] ==> LeftBehind(p, steps) == {}
    ensures steps != [] ==>
      var before, step := steps[..|steps| - 1], steps[|steps| - 1];
      LeftBehind(p, steps) == LeftBehind(p, before)
        + if Accepts(p, Run(p, before), step) then WaitingFor(Run(p, before), step.block.hash) else {}
  {
    hide Run, Inv, Accepts, WaitingFor;
  }

  lemma CarriesIs(step: Step, h: Hash)
    ensures Carries(step, h) <==> !step.Submit? && step.block.hash == h
  {}

  lemma ReceivedPrefix(p: Params, steps: seq<Step>, n: nat, k: nat)
    requires ValidParams(p) && k < n <= |steps|
    ensures ReceivedAt(p, steps[..n], k) <==> ReceivedAt(p, steps, k)
  {
    hide *;
    ReceivedAtIs(p, steps[..n], k);
    ReceivedAtIs(p, steps, k);
    assert steps[..n][..k] == steps[..k];
  }

  lemma ReceivedParts(p: Params, steps: seq<Step>, h: Hash)
    requires ValidParams(p)
    ensures Received(p, steps, h) <==>
      exists k :: 0 <= k < |steps| && ReceivedAt(p, steps, k) && Carries(steps[k], h)
  {
    hide ReceivedAt;
  }

  lemma ReceivedStep(p: Params, steps: seq<Step>, h: Hash)
    requires ValidParams(p)
    ensures Received(p, steps, h) <==>
      steps != [] && (Received(p, steps[..|steps| - 1], h)
                      || (ReceivedAt(p, steps, |steps| - 1) && Carries(steps[|steps| - 1], h)))
  {
    hide *;
    ReceivedParts(p, steps, h);
    if steps != [] {
      var n := |steps| - 1;
      ReceivedParts(p, steps[..n], h);
      forall k | 0 <= k < n
        ensures ReceivedAt(p, steps[..n], k) <==> ReceivedAt(p, steps, k)
      {
        ReceivedPrefix(p, steps, n, k);
      }
      if Received(p, steps, h) {
        var k :| 0 <= k < |steps| && ReceivedAt(p, steps, k) && Carries(steps[k], h);
        assert k < n ==> ReceivedAt(p, steps[..n], k) && Carries(steps[..n][k], h);
      }
      if Received(p, steps[..n], h) {
        var k :| 0 <= k < n && ReceivedAt(p, steps[..n], k) && Carries(steps[..n][k], h);
        assert ReceivedAt(p, steps, k);
      }
    }
  }

  /** Without mining nothing is left behind. */
  lemma {:induction false} NoneMined(p: Params, steps: seq<Step>)
    requires ValidParams(p) && forall k :: 0 <= k < |steps| ==> !steps[k].Mine?
    ensures LeftBehind(p, steps) == {}
  {
    hide *;
    LeftBehindStep(p, steps);
    if steps != [] {
      var n := |steps| - 1;
      NoneMined(p, steps[..n]);
      AcceptsIs(p, Run(p, steps[..n]), steps[n]);
    }
  }

  lemma FedAtIs(p: Params, U: Blocks, steps: seq<Step>, k: nat)
    requires ValidParams(p) && k < |steps|
    ensures FedAt(p, U, steps, k) <==>
      (ReceivedAt(p, steps, k) ==>
         Holds(U, steps[k].block) && (steps[k].Mine? ==> steps[k].block.hash !in LeftBehind(p, steps[..k])))
  {
    hide ReceivedAt, LeftBehind, Holds;
  }

  lemma FedAll(p: Params, U: Blocks, steps: seq<Step>)
    requires ValidParams(p)
    ensures FedFrom(p, U, steps) <==> forall k :: 0 <= k < |steps| ==> FedAt(p, U, steps, k)
  {
    hide FedAt;
  }

  lemma FedPrefix(p: Params, U: Blocks, steps: seq<Step>, n: nat)
    requires ValidParams(p) && FedFrom(p, U, steps) && n <= |steps|
    ensures FedFrom(p, U, steps[..n])
  {
    hide *;
    FedAll(p, U, steps);
    FedAll(p, U, steps[..n]);
    forall k | 0 <= k < n
      ensures FedAt(p, U, steps[..n], k)
    {
      FedAtIs(p, U, steps, k);
      FedAtIs(p, U, steps[..n], k);
      ReceivedPrefix(p, steps, n, k);
      assert steps[..n][..k] == steps[..k];
    }
  }

  lemma PunctualAll(p: Params, steps: seq<Step>)
    requires ValidParams(p)
    ensures Punctual(p, steps) <==> forall i, k :: 0 <= i <= k < |steps| ==> PunctualAt(p, steps, i, k)
  {
    hide PunctualAt;
  }

  lemma PunctualAtIs(p: Params, steps: seq<Step>, i: nat, k: nat)
    requires ValidParams(p) && i <= k < |steps|
    ensures PunctualAt(p, steps, i, k) <==>
      (ReceivedAt(p, steps, i) && ReceivedAt(p, steps, k) && steps[k].Deliver? ==> OnTime(p, steps[i].block, steps[k].now))
  {
    hide ReceivedAt, OnTime;
  }

  lemma PunctualPrefix(p: Params, steps: seq<Step>, n: nat)
    requires ValidParams(p) && Punctual(p, steps) && n <= |steps|
    ensures Punctual(p, steps[..n])
  {
    hide *;
    PunctualAll(p, steps);
    PunctualAll(p, steps[..n]);
    forall i, k | 0 <= i <= k < n
      ensures PunctualAt(p, steps[..n], i, k)
    {
      PunctualAtIs(p, steps, i, k);
      PunctualAtIs(p, steps[..n], i, k);
      ReceivedPrefix(p, steps, n, i);
      ReceivedPrefix(p, steps, n, k);
    }
  }

  /** With a clock that never goes back it is enough that every delivered block is on time when it is
      delivered: a block mined here is on time, or it is not accepted. */
  lemma ClockedIsPunctual(p: Params, steps: seq<Step>)
    requires ValidParams(p) && forall i, k :: 0 <= i <= k < |steps| ==> steps[i].now <= steps[k].now
    requires forall k :: 0 <= k < |steps| && steps[k].Deliver? ==> OnTime(p, steps[k].block, steps[k].now)
    ensures Punctual(p, steps)
  {
    hide *;
    PunctualAll(p, steps);
    forall i, k | 0 <= i <= k < |steps|
      ensures PunctualAt(p, steps, i, k)
    {
      PunctualAtIs(p, steps, i, k);
      ReceivedAtIs(p, steps, i);
      if ReceivedAt(p, steps, i) {
        ReceivedOnTime(p, Run(p, steps[..i]), steps[i]);
        OnTimeIs(p, steps[i].block, steps[i].now);
        OnTimeIs(p, steps[i].block, steps[k].now);
      }
    }
  }

  lemma ReceivedOnTime(p: Params, s: State, step: Step)
    requires ValidParams(p) && Inv(p, s) && TakesIn(p, s, step)
    requires step.Deliver? ==> OnTime(p, step.block, step.now)
    ensures !step.Submit? && OnTime(p, step.block, step.now)
  {
    hide *;
    TakesInIs(p, s, step);
    AcceptsIs(p, s, step);
    if !step.Deliver? {
      InvRows(p, s);
      MinedOnTime(p, s, step.block, step.now);
    }
  }

  lemma InitialCourse(p: Params, U: Blocks)
    requires ValidParams(p)
    ensures OnCourse(p, U, InitialState(p)) && Stranded(InitialState(p), []) == {}
    ensures forall h :: KnownTo(InitialState(p), h) <==> h == GenesisHash(p)
  {
    hide StoreInv, Inv, GenesisHash;
    InitialKeeps(p);
    InvStore(p, InitialState(p));
    InitialHash(p);
    assert InitialState(p).store.rows[0].block.hash == GenesisHash(p);
  }

  lemma InitialHash(p: Params)
    ensures InitialState(p).store.rows == [GenesisRow(p)] && GenesisRow(p).block.hash == GenesisHash(p)
  {}

  /** When a block is delivered, all the node knows is on time. */
  lemma RunTimely(p: Params, U: Blocks, steps: seq<Step>)
    requires ValidParams(p) && ValidUniverse(p, U) && FedFrom(p, U, steps) && Punctual(p, steps)
    requires steps != [] && steps[|steps| - 1].Deliver? && ReceivedAt(p, steps, |steps| - 1)
    requires
      var before := steps[..|steps| - 1];
      forall h :: KnownTo(Run(p, before), h) <==> h == GenesisHash(p) || Received(p, before, h)
    ensures
      var step := steps[|steps| - 1];
      Timely(p, U, Run(p, steps[..|steps| - 1]), step.now) && OnTime(p, step.block, step.now)
  {
    hide *;
    var n := |steps| - 1;
    var before, step := steps[..n], steps[n];
    FedAll(p, U, steps);
    PunctualAll(p, steps);
    PunctualAtIs(p, steps, n, n);
    assert PunctualAt(p, steps, n, n);
    TimelyParts(p, U, Run(p, before), step.now);
    forall h | h in U && KnownTo(Run(p, before), h)
      ensures OnTime(p, U[h], step.now)
    {
      HomeParts(p, U, h);
      ReceivedParts(p, before, h);
      var i :| 0 <= i < n && ReceivedAt(p, before, i) && Carries(before[i], h);
      CarriesIs(before[i], h);
      ReceivedPrefix(p, steps, n, i);
      FedAtIs(p, U, steps, i);
      assert FedAt(p, U, steps, i);
      PunctualAtIs(p, steps, i, n);
      assert PunctualAt(p, steps, i, n);
      HoldsParts(U, steps[i].block);
    }
  }

  /** After any such run the node is on course, knows genesis and exactly what it received, and the orphans with a
      stored parent are exactly those left behind when their parent was mined here. */
  lemma {:induction false} FedRun(p: Params, U: Blocks, steps: seq<Step>)
    requires ValidParams(p) && ValidUniverse(p, U)
    requires FedFrom(p, U, steps) && Punctual(p, steps) && LimitsNotReached(p, steps)
    ensures
      var s := Run(p, steps);
      && OnCourse(p, U, s) && Stranded(s, []) == LeftBehind(p, steps)
      && forall h :: KnownTo(s, h) <==> h == GenesisHash(p) || Received(p, steps, h)
  {
    hide *;
    RunStep(p, steps);
    LimitsStep(p, steps);
    LeftBehindStep(p, steps);
    if steps == [] {
      InitialCourse(p, U);
      forall h
        ensures !Received(p, steps, h)
      {
        ReceivedStep(p, steps, h);
      }
    } else {
      var n := |steps| - 1;
      FedPrefix(p, U, steps, n);
      PunctualPrefix(p, steps, n);
      FedRun(p, U, steps[..n]);
      FedStep(p, U, steps);
    }
  }

  /** The last step of such a run. */
  lemma FedStep(p: Params, U: Blocks, steps: seq<Step>)
    requires ValidParams(p) && ValidUniverse(p, U) && steps != []
    requires FedFrom(p, U, steps) && Punctual(p, steps)
    requires
      var s := Run(p, steps[..|steps| - 1]);
      && OnCourse(p, U, s) && Stranded(s, []) == LeftBehind(p, steps[..|steps| - 1])
      && StepFits(p, s, steps[|steps| - 1])
      && forall h :: KnownTo(s, h) <==> h == GenesisHash(p) || Received(p, steps[..|steps| - 1], h)
    ensures
      var s := Run(p, steps);
      && OnCourse(p, U, s) && Stranded(s, []) == LeftBehind(p, steps)
      && forall h :: KnownTo(s, h) <==> h == GenesisHash(p) || Received(p, steps, h)
  {
    hide *;
    var n := |steps| - 1;
    var before, step := steps[..n], steps[n];
    var s := Run(p, before);
    RunStep(p, steps);
    LeftBehindStep(p, steps);
    FedAll(p, U, steps);
    FedAtIs(p, U, steps, n);
    assert FedAt(p, U, steps, n);
    ReceivedAtIs(p, steps, n);
    TakesInIs(p, s, step);
    AcceptsIs(p, s, step);
    InvRows(p, s);
    if step.Submit? {
      SubmitRegime(p, U, s, step.tx, step.now);
    } else if !TakesIn(p, s, step) {
      IgnoredStep(p, U, s, step);
    } else if step.Deliver? {
      RunTimely(p, U, steps);
      DeliverRegime(p, U, s, step.block, step.now);
    } else {
      MineRegime(p, U, s, step.block, step.now);
    }
    forall h
      ensures KnownTo(Run(p, steps), h) <==> h == GenesisHash(p) || Received(p, steps, h)
    {
      CarriesIs(step, h);
      ReceivedStep(p, steps, h);
    }
  }

  /** A block that is not taken in changes nothing. */
  lemma IgnoredStep(p: Params, U: Blocks, s: State, step: Step)
    requires ValidParams(p) && OnCourse(p, U, s) && Inv(p, s) && !step.Submit? && !TakesIn(p, s, step) && s.store.rows != []
    ensures step.Deliver? ==> ProcessBlock(p, s, step.block, step.now).0 == s
    ensures step.Mine? ==> SubmitMined(p, s, step.block, step.now).0 == s
  {
    hide *;
    TakesInIs(p, s, step);
    AcceptsIs(p, s, step);
    InvRows(p, s);
    if step.Deliver? {
      IgnoredBlock(p, U, s, step.block, step.now);
    } else {
      RefusedMine(p, s, step.block, step.now);
    }
  }

  /** Whatever well-formed block is delivered counts as received, then or earlier. */
  lemma DeliveredIsReceived(p: Params, U: Blocks, steps: seq<Step>, k: nat)
    requires ValidParams(p) && ValidUniverse(p, U)
    requires FedFrom(p, U, steps) && Punctual(p, steps) && LimitsNotReached(p, steps)
    requires k < |steps| && steps[k].Deliver? && WellFormedBlock(p, steps[k].block)
    ensures steps[k].block.hash == GenesisHash(p) || Received(p, steps, steps[k].block.hash)
  {
    hide *;
    var h := steps[k].block.hash;
    FedPrefix(p, U, steps, k);
    PunctualPrefix(p, steps, k);
    LimitsPrefix(p, steps, k);
    FedRun(p, U, steps[..k]);
    ReceivedAtIs(p, steps, k);
    TakesInIs(p, Run(p, steps[..k]), steps[k]);
    CarriesIs(steps[k], h);
    ReceivedParts(p, steps, h);
    ReceivedParts(p, steps[..k], h);
    if Received(p, steps[..k], h) {
      var i :| 0 <= i < k && ReceivedAt(p, steps[..k], i) && Carries(steps[..k][i], h);
      ReceivedPrefix(p, steps, k, i);
    }
  }

  lemma {:induction false} LeftBehindGrows(p: Params, steps: seq<Step>, k: nat)
    requires ValidParams(p) && k <= |steps|
    ensures LeftBehind(p, steps[..k]) <= LeftBehind(p, steps)
    decreases |steps|
  {
    hide *;
    if k == |steps| {
      assert steps[..k] == steps;
    } else {
      LeftBehindStep(p, steps);
      assert steps[..|steps| - 1][..k] == steps[..k];
      LeftBehindGrows(p, steps[..|steps| - 1], k);
    }
  }

  /** Left behind once, an orphan stays out for good: however the run goes on, delivering it or its parent again
      included, it is an orphan and never stored. */
  lemma LeftBehindForGood(p: Params, U: Blocks, steps: seq<Step>, k: nat, h: Hash)
    requires ValidParams(p) && ValidUniverse(p, U) && k <= |steps| && h in LeftBehind(p, steps[..k])
    requires FedFrom(p, U, steps) && Punctual(p, steps) && LimitsNotReached(p, steps)
    ensures var s := Run(p, steps); InOrphans(s.orphans, h) && !Stored(s.store.rows, s.store.side, h)
  {
    hide *;
    var s := Run(p, steps);
    LeftBehindGrows(p, steps, k);
    FedRun(p, U, steps);
    StrandedMember(s, [], h);
    var o :| IsStranded(s, [], o) && o.hash == h;
    StrandedIs(s, [], o);
    CourseParts(p, U, s);
    OrphansInParts(U, s);
    OrphanFound(s.orphans, o);
  }

  lemma OrphanFound(orphans: seq<Block>, o: Block)
    requires o in orphans
    ensures InOrphans(orphans, o.hash)
  {
    var i :| 0 <= i < |orphans| && orphans[i] == o;
  }

  lemma AcceptsIs(p: Params, s: State, step: Step)
    requires ValidParams(p) && Inv(p, s)
    ensures s.store.rows != []
    ensures Accepts(p, s, step) <==> step.Mine? && SubmitMined(p, s, step.block, step.now).1.Done?
  {
    hide Inv, SubmitMined;
    InvRows(p, s);
  }

  /** What the strict path refuses changes nothing. */
  lemma RefusedMine(p: Params, s: State, b: Block, now: int)
    requires ValidParams(p) && s.store.rows != [] && !SubmitMined(p, s, b, now).1.Done?
    ensures SubmitMined(p, s, b, now).0 == s
  {
    hide WellFormedBlock, ExtendTip, ExpectedDifficulty;
  }

  lemma RunStep(p: Params, steps: seq<Step>)
    requires ValidParams(p)
    ensures steps == [] ==> Run(p, steps) == InitialState(p)
    ensures steps != [] ==>
      var s, step := Run(p, steps[..|steps| - 1]), steps[|steps| - 1];
      && Inv(p, s) && s.store.rows != []
      && (step.Submit? ==> Run(p, steps) == SubmitTransaction(p, s, step.tx, step.now).0)
      && (step.Deliver? ==> Run(p, steps) == ProcessBlock(p, s, step.block, step.now).0)
      && (step.Mine? ==> Run(p, steps) == SubmitMined(p, s, step.block, step.now).0)
  {
    hide Inv, SubmitTransaction, ProcessBlock, SubmitMined;
    if steps != [] {
      InvParts(p, Run(p, steps[..|steps| - 1]));
    }
  }

  // ---------------------------------------------------------------- convergence

  /** h is one of the given hashes or descends from one. */
  ghost predicate Behind(hashes: set<Hash>, h: Hash) {
    exists x :: x in hashes && AncestorOrSelf(x, h)
  }

  lemma BehindStep(hashes: set<Hash>, h: Hash)
    requires h.HeaderHash?
    ensures Behind(hashes, h) <==> h in hashes || Behind(hashes, h.previous)
  {
    if h in hashes {
      assert AncestorOrSelf(h, h);
    }
    if Behind(hashes, h.previous) {
      var x :| x in hashes && AncestorOrSelf(x, h.previous);
      assert AncestorOrSelf(x, h);
    }
    if Behind(hashes, h) {
      var x :| x in hashes && AncestorOrSelf(x, h);
      assert x == h || AncestorOrSelf(x, h.previous);
    }
  }

  /** With every block known, exactly those are stored that are not stranded and do not descend from one that
      is. */
  lemma {:induction false} StoredExactly(p: Params, U: Blocks, s: State, h: Hash)
    requires ValidParams(p) && ValidUniverse(p, U) && OnCourse(p, U, s)
    requires KnownTo(s, GenesisHash(p)) && forall x :: x in U ==> KnownTo(s, x)
    requires h in U || h == GenesisHash(p)
    ensures Stored(s.store.rows, s.store.side, h) <==> h == GenesisHash(p) || !Behind(Stranded(s, []), h)
    decreases h
  {
    hide *;
    KnownParts(s, h);
    CourseParts(p, U, s);
    OrphansInParts(U, s);
    if h == GenesisHash(p) {
      if !Stored(s.store.rows, s.store.side, h) {
        var o := OrphanOf(U, s, h);
        HomeParts(p, U, h);
      }
    } else {
      HomeParts(p, U, h);
      BehindStep(Stranded(s, []), h);
      StoredExactly(p, U, s, h.previous);
      StrandedMember(s, [], h);
      GenesisNotStranded(p, U, s);
      if Stored(s.store.rows, s.store.side, h) {
        ParentStored(p, U, s.store, h);
        if h in Stranded(s, []) {
          var o :| IsStranded(s, [], o) && o.hash == h;
          StrandedIs(s, [], o);
        }
      } else {
        var o := OrphanOf(U, s, h);
        StrandedIs(s, [], o);
      }
    }
  }

  lemma GenesisNotStranded(p: Params, U: Blocks, s: State)
    requires ValidParams(p) && ValidUniverse(p, U) && OrphansIn(U, s)
    ensures !Behind(Stranded(s, []), GenesisHash(p))
  {
    hide *;
    if Behind(Stranded(s, []), GenesisHash(p)) {
      BehindGenesis(p, Stranded(s, []));
      var x :| x in Stranded(s, []) && (x == GenesisHash(p) || x == ZeroHash);
      StrandedMember(s, [], x);
      var o :| IsStranded(s, [], o) && o.hash == x;
      StrandedIs(s, [], o);
      OrphansInParts(U, s);
      HoldsParts(U, o);
      HomeParts(p, U, x);
    }
  }

  lemma BehindGenesis(p: Params, hashes: set<Hash>)
    requires Behind(hashes, GenesisHash(p))
    ensures exists x :: x in hashes && (x == GenesisHash(p) || x == ZeroHash)
  {
    var x :| x in hashes && AncestorOrSelf(x, GenesisHash(p));
    assert AncestorOrSelf(x, ZeroHash) ==> x == ZeroHash;
    assert x == GenesisHash(p) || x == ZeroHash;
  }

  /** The parent of a stored block is stored. */
  lemma ParentStored(p: Params, U: Blocks, st: Store, h: Hash)
    requires ValidParams(p) && Regime(p, U, st) && Stored(st.rows, st.side, h) && h != GenesisHash(p)
    ensures h.HeaderHash? && Stored(st.rows, st.side, h.previous)
  {
    hide *;
    RegimeParts(p, U, st);
    StoredParts(st.rows, st.side, h);
    if h in st.side {
      SideInParts(U, st.rows, st.side, TipWork(st), h);
    } else {
      FoundRow(st.rows, h);
      var k := FindRow(st.rows, h).value;
      RowsLinked(p, st.rows, k);
      LinkedHeights(p, h);
      ValidGenesis(p, st.rows);
      RowsOfGenesis(p, U);
      if k > 0 {
        RowStored(st, k - 1);
      }
    }
  }

  lemma OrphanOf(U: Blocks, s: State, h: Hash) returns (o: Block)
    requires InOrphans(s.orphans, h) && OrphansIn(U, s)
    ensures o in s.orphans && h in U && U[h] == o && o.hash == h
  {
    hide Stored;
    var i :| 0 <= i < |s.orphans| && s.orphans[i].hash == h;
    o := s.orphans[i];
    assert o in s.orphans;
  }

  /** What such a run leads to once every block of the set was handed over: stored is exactly what does not
      descend from an orphan left behind, nothing stored has more work than the tip, and orphans remain exactly
      if some were left behind. */
  lemma RunStores(p: Params, U: Blocks, steps: seq<Step>, h: Hash)
    requires ValidParams(p) && ValidUniverse(p, U) && h in U
    requires FedFrom(p, U, steps) && (forall x :: x in U ==> Received(p, steps, x))
    requires Punctual(p, steps) && LimitsNotReached(p, steps)
    ensures
      var s := Run(p, steps);
      && s.store.rows != []
      && (Stored(s.store.rows, s.store.side, h) <==> !Behind(LeftBehind(p, steps), h))
      && (!Behind(LeftBehind(p, steps), h) ==> Work(p, h) <= TipWork(s.store))
      && s.store.rows == RowsOf(p, U, TipHash(s.store)) && (s.orphans == [] <==> LeftBehind(p, steps) == {})
  {
    hide *;
    var s := Run(p, steps);
    FedRun(p, U, steps);
    CourseParts(p, U, s);
    RegimeParts(p, U, s.store);
    StoredExactly(p, U, s, h);
    HomeParts(p, U, h);
    if Stored(s.store.rows, s.store.side, h) {
      StoredWork(p, U, s.store, h);
    }
    RowsDetermined(p, U, s.store.rows);
    TipParts(s.store);
    NoOrphanNoneStranded(s);
    if s.orphans != [] && LeftBehind(p, steps) == {} {
      OrphansInParts(U, s);
      HoldsParts(U, s.orphans[0]);
      StoredExactly(p, U, s, s.orphans[0].hash);
      NoneBehind(s.orphans[0].hash);
    }
  }

  lemma NoOrphanNoneStranded(s: State)
    ensures s.orphans == [] ==> Stranded(s, []) == {}
  {
    hide Stored;
  }

  lemma NoneBehind(h: Hash)
    ensures !Behind({}, h)
  {}

  /** Order independence: after any run that hands over every block of a valid set at least once - in any
      order, with repetitions, junk, transactions and mining in between - and reaches no limit of the node, the
      heaviest block is the tip, the best chain is its ancestry and no orphan is left, if and only if no orphan
      was waiting for a block when that block was mined here. */
  lemma Converges(p: Params, U: Blocks, best: Hash, steps: seq<Step>)
    requires ValidParams(p) && ValidUniverse(p, U) && Heaviest(p, U, best)
    requires FedFrom(p, U, steps) && (forall h :: h in U ==> Received(p, steps, h))
    requires Punctual(p, steps) && LimitsNotReached(p, steps)
    ensures
      var s := Run(p, steps);
      && s.store.rows != []
      && (TipHash(s.store) == best && s.store.rows == RowsOf(p, U, best) && s.orphans == []
          <==> LeftBehind(p, steps) == {})
      && (TipHash(s.store) == best <==> !Behind(LeftBehind(p, steps), best))
  {
    hide *;
    var s := Run(p, steps);
    HeaviestParts(p, U, best);
    RunStores(p, U, steps, best);
    FedRun(p, U, steps);
    CourseParts(p, U, s);
    RegimeParts(p, U, s.store);
    TipWorkIsWork(p, s.store);
    HomeLinked(p, U, best);
    GenesisWork(p);
    TipInUniverse(p, U, s.store);
    TipStored(s.store);
    NoneBehind(best);
  }

  lemma HeaviestParts(p: Params, U: Blocks, best: Hash)
    requires Heaviest(p, U, best)
    ensures best in U && forall h :: h in U && h != best ==> Work(p, h) < Work(p, best)
  {}

  lemma GenesisWork(p: Params)
    ensures Work(p, GenesisHash(p)) == 0
  {}

  lemma TipInUniverse(p: Params, U: Blocks, st: Store)
    requires ValidParams(p) && st.rows != [] && ValidRows(p, st.rows) && MainIn(U, st.rows)
    ensures TipHash(st) == GenesisHash(p) || TipHash(st) in U
  {
    hide ValidRows, Holds;
    if |st.rows| == 1 {
      ValidGenesis(p, st.rows);
    } else {
      InUniverse(U, st.rows, |st.rows| - 1);
    }
  }

  /** Nothing stored has more work than the tip. */
  lemma StoredWork(p: Params, U: Blocks, st: Store, h: Hash)
    requires ValidParams(p) && Regime(p, U, st) && st.rows != [] && Stored(st.rows, st.side, h)
    ensures Work(p, h) <= TipWork(st)
  {
    hide *;
    RegimeParts(p, U, st);
    StoredParts(st.rows, st.side, h);
    TipParts(st);
    if h in st.side {
      SideInParts(U, st.rows, st.side, TipWork(st), h);
      SideWorkIsWork(p, st, h);
    } else {
      FoundRow(st.rows, h);
      var k := FindRow(st.rows, h).value;
      RowsLinked(p, st.rows, k);
      RowWorks(p, st.rows, k, |st.rows| - 1);
    }
  }

  /** Any two nodes fed the same valid set, each in its own order and neither leaving the heaviest block behind,
      agree on the best chain and on every table that depends on it. */
  lemma NodesAgree(p: Params, U: Blocks, best: Hash, steps: seq<Step>, steps': seq<Step>)
    requires ValidParams(p) && ValidUniverse(p, U) && Heaviest(p, U, best)
    requires FedFrom(p, U, steps) && (forall h :: h in U ==> Received(p, steps, h))
    requires FedFrom(p, U, steps') && (forall h :: h in U ==> Received(p, steps', h))
    requires Punctual(p, steps) && LimitsNotReached(p, steps) && !Behind(LeftBehind(p, steps), best)
    requires Punctual(p, steps') && LimitsNotReached(p, steps') && !Behind(LeftBehind(p, steps'), best)
    ensures
      var a, b := Run(p, steps).store, Run(p, steps').store;
      && a.rows == b.rows && Agree(a.accounts, b.accounts) && a.minted == b.minted
      && a.index == b.index && a.addresses == b.addresses && a.undos == b.undos
  {
    hide *;
    HeaviestParts(p, U, best);
    Converges(p, U, best, steps);
    Converges(p, U, best, steps');
    RunStores(p, U, steps, best);
    RunStores(p, U, steps', best);
    InvParts(p, Run(p, steps));
    InvParts(p, Run(p, steps'));
    SameRowsSameTables(p, Run(p, steps).store, Run(p, steps').store);
  }

  /** Universes are what honest nodes make: whatever block a node on course accepts on its tip can be
      added to its universe. */
  lemma AcceptedBlockGrows(p: Params, U: Blocks, s: State, b: Block, now: int)
    requires ValidParams(p) && ValidUniverse(p, U) && OnCourse(p, U, s) && s.store.rows != []
    requires SubmitMined(p, s, b, now).1.Done?
    ensures b.hash in U || ValidUniverse(p, U[b.hash := b])
  {
    hide *;
    CourseParts(p, U, s);
    RegimeParts(p, U, s.store);
    var st := s.store;
    TemplateFacts.DoneMeansExtended(p, s, b, now);
    TipDifficulty(p, st);
    ExtendTipKeeps(p, st, b, now);
    RowsDetermined(p, U, st.rows);
    TipInUniverse(p, U, st);
    TipParts(st);
    if b.hash !in U {
      UniverseGrows(p, U, b);
    }
  }

  /** A fresh node is on course in the empty universe. */
  lemma EmptyUniverse(p: Params)
    requires ValidParams(p)
    ensures ValidUniverse(p, map[]) && OnCourse(p, map[], InitialState(p))
  {
    InitialCourse(p, map[]);
  }
}
