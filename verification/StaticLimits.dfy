/** Bounds on the set of blocks alone under which no run fed from it reaches a limit. */
module StaticLimits {
  import opened Types
  import opened Headers
  import opened Chain
  import opened Tables
  import opened TableFacts
  import opened Node
  import NodeFacts
  import opened Adoption
  import opened Runs
  import opened Universe
  import opened RegimeFacts
  import opened Limits
  import opened Convergence
  import opened Deliveries

  /** No block lags another branch by the depth limit, and all of them fit among side rows and orphans. */
  ghost predicate Small(p: Params, U: Blocks) {
    Shallow(p, U) && |U| <= p.maxSideBlocks && |U| <= p.maxOrphans
  }

  lemma SmallParts(p: Params, U: Blocks)
    requires Small(p, U)
    ensures Shallow(p, U) && |U| <= p.maxSideBlocks && |U| <= p.maxOrphans
  {}

  // ---------------------------------------------------------------- side rows

  ghost predicate FromSet(p: Params, U: Blocks, hashes: set<Hash>) {
    forall h :: h in hashes ==> h == GenesisHash(p) || h in U
  }

  lemma StoredFromSet(p: Params, U: Blocks, st: Store, b: Block)
    requires ValidParams(p) && Regime(p, U, st) && b.hash in U
    ensures FromSet(p, U, StoredHashes(st) + {b.hash})
  {
    hide *;
    RegimeParts(p, U, st);
    forall h | h in StoredHashes(st)
      ensures h == GenesisHash(p) || h in U
    {
      StoredHashesAre(st, h);
      StoredParts(st.rows, st.side, h);
      if h in st.side {
        SideInParts(U, st.rows, st.side, TipWork(st), h);
      } else {
        NodeFacts.FoundRow(st.rows, h);
        var k := FindRow(st.rows, h).value;
        if k == 0 {
          ValidGenesis(p, st.rows);
          RowsOfGenesis(p, U);
        } else {
          InUniverse(U, st.rows, k);
        }
      }
    }
    FromSetBuild(p, U, StoredHashes(st) + {b.hash});
  }

  lemma FromSetBuild(p: Params, U: Blocks, hashes: set<Hash>)
    requires forall h :: h in hashes ==> h == GenesisHash(p) || h in U
    ensures FromSet(p, U, hashes)
  {
    hide GenesisHash;
  }

  lemma SmallFits(p: Params, U: Blocks, hashes: set<Hash>, rows: seq<Row>)
    requires ValidParams(p) && ValidUniverse(p, U) && Small(p, U) && FromSet(p, U, hashes)
    requires ValidRows(p, rows) && MainIn(U, rows)
    ensures SideFits(p, hashes, rows)
  {
    hide ValidRows, ValidUniverse, Shallow, RowsOf, MainIn, FindRow, GenesisHash;
    var off := set h | h in hashes && FindRow(rows, h).None?;
    ValidGenesis(p, rows);
    RowsOfGenesis(p, U);
    forall h | h in off
      ensures h in U && Height(h) >= |rows| - 2 - p.maxReorgDepth
    {
      assert rows[0].block.hash == GenesisHash(p);
      NotTooDeep(p, U, rows, h);
    }
    KeysFit(U, off);
  }

  // ---------------------------------------------------------------- orphans

  lemma {:induction false} DistinctFit(U: Blocks, orphans: seq<Block>)
    requires forall o :: o in orphans ==> Holds(U, o)
    requires forall i, j :: 0 <= i < j < |orphans| ==> orphans[i].hash != orphans[j].hash
    ensures |orphans| <= |U|
  {
    hide Holds;
    var hs := set o | o in orphans :: o.hash;
    DistinctSize(orphans);
    forall h | h in hs
      ensures h in U
    {
      var o :| o in orphans && o.hash == h;
      HoldsParts(U, o);
    }
    KeysFit(U, hs);
  }

  lemma {:induction false} DistinctSize(orphans: seq<Block>)
    requires forall i, j :: 0 <= i < j < |orphans| ==> orphans[i].hash != orphans[j].hash
    ensures |set o | o in orphans :: o.hash| == |orphans|
  {
    var hs := set o | o in orphans :: o.hash;
    if orphans == [] {
      assert hs == {};
    } else {
      var n := |orphans| - 1;
      var before := orphans[..n];
      DistinctSize(before);
      var hb := set o | o in before :: o.hash;
      forall h
        ensures h in hs <==> h in hb || h == orphans[n].hash
      {
        if h in hs {
          var o :| o in orphans && o.hash == h;
          var i :| 0 <= i < |orphans| && orphans[i] == o;
          assert i < n ==> before[i] == o;
        }
        if h in hb {
          var o :| o in before && o.hash == h;
          assert o in orphans;
        }
        assert orphans[n] in orphans;
      }
      assert hs == hb + {orphans[n].hash};
      assert orphans[n].hash !in hb;
    }
  }

  lemma OrphansDistinct(p: Params, orphans: seq<Block>)
    requires OrphansOk(p, orphans)
    ensures forall i, j :: 0 <= i < j < |orphans| ==> orphans[i].hash != orphans[j].hash
  {
    hide WellFormedBlock;
  }

  lemma OrphansFit(p: Params, U: Blocks, s: State, b: Block)
    requires ValidParams(p) && OrphansOk(p, s.orphans) && OrphansIn(U, s) && Holds(U, b) && |U| <= p.maxOrphans
    requires !InOrphans(s.orphans, b.hash)
    ensures |s.orphans| < p.maxOrphans
  {
    hide Holds, Stored, OrphansOk;
    OrphansDistinct(p, s.orphans);
    var all := s.orphans + [b];
    assert forall i :: 0 <= i < |s.orphans| ==> all[i] == s.orphans[i];
    forall i, j | 0 <= i < j < |all|
      ensures all[i].hash != all[j].hash
    {}
    DistinctFit(U, all);
  }

  // ---------------------------------------------------------------- steps

  lemma SmallForks(p: Params, U: Blocks, s: State, b: Block)
    requires ValidParams(p) && ValidUniverse(p, U) && Shallow(p, U) && OnCourse(p, U, s) && s.store.rows != []
    requires Holds(U, b) && !Stored(s.store.rows, s.store.side, b.hash)
    ensures !ForksTooDeep(p, s.store, b)
  {
    hide *;
    CourseParts(p, U, s);
    RegimeParts(p, U, s.store);
    HoldsParts(U, b);
    HomeParts(p, U, b.hash);
    StoredParts(s.store.rows, s.store.side, b.hash);
    ForksParts(p, s.store, b);
    ForkRowStep(s.store.rows, b.hash);
    if ForkRow(s.store.rows, b.previous).Some? {
      ShallowFork(p, U, s.store.rows, b.hash);
    }
  }

  lemma CallSmall(p: Params, U: Blocks, s: State, b: Block, now: int)
    requires ValidParams(p) && ValidUniverse(p, U) && Small(p, U) && OnCourse(p, U, s) && Holds(U, b)
    requires Timely(p, U, s, now) && OnTime(p, b, now) && ChainInv(p, s.store) && SideInv(p, s.store)
    ensures CallFits(p, s, b, now)
  {
    hide *;
    var st, r := s.store, Process(p, s, b, now);
    SmallParts(p, U);
    Statuses();
    CourseParts(p, U, s);
    UnfoldProcess(p, U, s, b, now);
    CallParts(p, s, b, now);
    KnownParts(s, b.hash);
    if !KnownTo(s, b.hash) {
      if Stored(st.rows, st.side, b.previous) {
        PlaceOutcome(p, U, s, b, now);
        PlacedParts(p, U, s, b, r);
        HoldsParts(U, b);
        SmallForks(p, U, s, b);
        StoredFromSet(p, U, st, b);
        SmallFits(p, U, StoredHashes(st) + {b.hash}, r.0.store.rows);
      } else {
        OrphansFit(p, U, s, b);
      }
    }
  }

  lemma {:induction false} ChildrenSmall(p: Params, U: Blocks, s: State, ph: Hash, children: seq<Block>, now: int)
    requires ValidParams(p) && ValidUniverse(p, U) && Small(p, U)
    requires OnCourse(p, U, s) && Inv(p, s) && Timely(p, U, s, now) && Stored(s.store.rows, s.store.side, ph)
    requires forall i :: 0 <= i < |children| ==> children[i] in s.orphans && children[i].previous == ph
    requires DistinctSeq(BlockHashes(children))
    ensures ChildrenFit(p, s, children, now)
  {
    hide *;
    ChildrenFitStep(p, s, children, now);
    if children != [] {
      var n := |children| - 1;
      DistinctPrefix(BlockHashes(children), n);
      assert BlockHashes(children)[..n] == BlockHashes(children[..n]);
      ChildrenSmall(p, U, s, ph, children[..n], now);
      AdoptChildrenRegime(p, U, s, ph, children[..n], now);
      ChildReady(p, U, s, ph, children, now);
      CallSmall(p, U, Popped(AdoptChildren(p, s, children[..n], now).state, children[n].hash), children[n], now);
    }
  }

  lemma {:induction false} AdoptSmall(p: Params, U: Blocks, s: State, W: set<Hash>, queue: seq<Hash>, now: int)
    requires ValidParams(p) && ValidUniverse(p, U) && Small(p, U)
    requires OnCourse(p, U, s) && Inv(p, s) && Timely(p, U, s, now)
    requires Known(W, s.orphans) && AllStored(s, queue)
    ensures AdoptFits(p, s, W, queue, now)
    decreases Weight(W, queue)
  {
    hide *;
    AdoptFitsStep(p, s, W, queue, now);
    if queue != [] {
      var n := |queue| - 1;
      var children := ChildrenOf(s.orphans, queue[n]);
      QueuedChildren(p, s, queue);
      ChildrenSmall(p, U, s, queue[n], children, now);
      AdoptRound(p, U, s, queue, now);
      var r := AdoptChildren(p, s, children, now);
      AdoptSmall(p, U, r.state, W, queue[..n] + r.hashes, now);
    }
  }

  lemma DeliverSmall(p: Params, U: Blocks, s: State, b: Block, now: int)
    requires ValidParams(p) && ValidUniverse(p, U) && Small(p, U) && OnCourse(p, U, s) && Inv(p, s)
    requires Holds(U, b) && Timely(p, U, s, now) && OnTime(p, b, now)
    ensures StepFits(p, s, Deliver(b, now))
  {
    hide *;
    StepFitsParts(p, s, Deliver(b, now));
    CallSmall(p, U, s, b, now);
    ProcessRegime(p, U, s, b, now);
    Statuses();
    var r := Process(p, s, b, now);
    if r.1.Done? && Kept(r.1.status) {
      CourseParts(p, U, s);
      KnownParts(s, b.hash);
      StrandedGained(s, r.0, b.hash);
      GainedKnown(s, r.0, b.hash);
      HoldsParts(U, b);
      TimelyGained(p, U, s, r.0, b, now);
      AdoptSmall(p, U, r.0, OrphanHashes(r.0.orphans), [r.1.hash], now);
    }
  }

  lemma MineSmall(p: Params, U: Blocks, s: State, b: Block, now: int)
    requires ValidParams(p) && ValidUniverse(p, U) && Small(p, U) && OnCourse(p, U, s) && Inv(p, s)
    requires s.store.rows != [] && SubmitMined(p, s, b, now).1.Done? && Holds(U, b)
    ensures StepFits(p, s, Mine(b, now))
  {
    hide *;
    StepFitsParts(p, s, Mine(b, now));
    CourseParts(p, U, s);
    MinedIsNew(p, U, s, b, now);
    ExtendChain(p, U, s.store, b, now);
    HoldsParts(U, b);
    StoredFromSet(p, U, s.store, b);
    SmallFits(p, U, StoredHashes(s.store) + {b.hash}, SubmitMined(p, s, b, now).0.store.rows);
  }

  /** No run fed from a small set reaches a limit. */
  lemma {:induction false} SmallReachesNoLimit(p: Params, U: Blocks, steps: seq<Step>)
    requires ValidParams(p) && ValidUniverse(p, U) && Small(p, U)
    requires FedFrom(p, U, steps) && Punctual(p, steps)
    ensures LimitsNotReached(p, steps)
  {
    hide *;
    LimitsStep(p, steps);
    if steps != [] {
      var n := |steps| - 1;
      var before, step := steps[..n], steps[n];
      FedPrefix(p, U, steps, n);
      PunctualPrefix(p, steps, n);
      SmallReachesNoLimit(p, U, before);
      FedRun(p, U, before);
      var s := Run(p, before);
      StepFitsParts(p, s, step);
      FedAll(p, U, steps);
      FedAtIs(p, U, steps, n);
      assert FedAt(p, U, steps, n);
      ReceivedAtIs(p, steps, n);
      TakesInIs(p, s, step);
      AcceptsIs(p, s, step);
      if !TakesIn(p, s, step) {
        IgnoredFits(p, U, s, step);
      } else if step.Deliver? {
        RunTimely(p, U, steps);
        DeliverSmall(p, U, s, step.block, step.now);
      } else {
        MineSmall(p, U, s, step.block, step.now);
      }
    }
  }

  /** What is not taken in reaches no limit. */
  lemma IgnoredFits(p: Params, U: Blocks, s: State, step: Step)
    requires ValidParams(p) && OnCourse(p, U, s) && Inv(p, s) && !TakesIn(p, s, step)
    ensures StepFits(p, s, step)
  {
    hide *;
    TakesInIs(p, s, step);
    AcceptsIs(p, s, step);
    StepFitsParts(p, s, step);
    Statuses();
    if step.Deliver? {
      IgnoredBlock(p, U, s, step.block, step.now);
      CallParts(p, s, step.block, step.now);
    }
  }

  /** Order independence for a small set: no condition on what happens during the run, the clock aside. */
  lemma SmallConverges(p: Params, U: Blocks, best: Hash, steps: seq<Step>)
    requires ValidParams(p) && ValidUniverse(p, U) && Small(p, U) && Heaviest(p, U, best)
    requires FedFrom(p, U, steps) && (forall h :: h in U ==> Received(p, steps, h)) && Punctual(p, steps)
    ensures
      var s := Run(p, steps);
      && s.store.rows != []
      && (TipHash(s.store) == best && s.store.rows == RowsOf(p, U, best) && s.orphans == []
          <==> LeftBehind(p, steps) == {})
  {
    hide *;
    SmallReachesNoLimit(p, U, steps);
    Converges(p, U, best, steps);
  }

  // ---------------------------------------------------------------- a chain in order

  /** Step k delivers the block after the one delivered before it, or after genesis. */
  predicate NextInChain(p: Params, steps: seq<Step>, k: nat)
    requires k < |steps|
  {
    && steps[k].Deliver? && (k > 0 ==> steps[k - 1].Deliver?)
    && steps[k].block.previous == if k == 0 then GenesisHash(p) else steps[k - 1].block.hash
  }

  /** Every block is delivered right after its parent. */
  predicate InOrder(p: Params, steps: seq<Step>) {
    forall k :: 0 <= k < |steps| ==> NextInChain(p, steps, k)
  }

  lemma InOrderStep(p: Params, steps: seq<Step>)
    requires InOrder(p, steps) && steps != []
    ensures InOrder(p, steps[..|steps| - 1]) && NextInChain(p, steps, |steps| - 1)
  {
    hide GenesisHash;
    var n := |steps| - 1;
    forall k | 0 <= k < n
      ensures NextInChain(p, steps[..n], k)
    {
      assert NextInChain(p, steps, k);
    }
  }

  /** Nothing but the best chain is stored. */
  ghost predicate Plain(s: State, tip: Hash) {
    s.store.side == map[] && s.orphans == [] && s.store.rows != [] && TipHash(s.store) == tip
  }

  lemma PlainParts(s: State, tip: Hash)
    ensures Plain(s, tip) <==> s.store.side == map[] && s.orphans == [] && s.store.rows != [] && TipHash(s.store) == tip
  {}

  /** A block on the tip of the only stored chain is new. */
  lemma NextIsNew(p: Params, U: Blocks, s: State, b: Block)
    requires ValidParams(p) && ValidUniverse(p, U) && OnCourse(p, U, s) && Holds(U, b) && Plain(s, b.previous)
    ensures !KnownTo(s, b.hash)
  {
    hide *;
    PlainParts(s, b.previous);
    CourseParts(p, U, s);
    HoldsParts(U, b);
    HomeParts(p, U, b.hash);
    HomeLinked(p, U, b.hash);
    Headers.WorkGrows(p, b.hash);
    NodeFacts.TipWorkIsWork(p, s.store);
    KnownParts(s, b.hash);
    NoOrphans(b.hash);
    if Stored(s.store.rows, s.store.side, b.hash) {
      StoredWork(p, U, s.store, b.hash);
    }
  }

  lemma NoOrphans(h: Hash)
    ensures !InOrphans([], h)
  {}

  /** With no side rows, nothing is off the chain after an extension. */
  lemma ExtensionFits(p: Params, st: Store, rows: seq<Row>, b: Block)
    requires ValidParams(p) && st.side == map[]
    requires |rows| == |st.rows| + 1 && rows[..|st.rows|] == st.rows && rows[|st.rows|].block == b
    ensures SideFits(p, StoredHashes(st) + {b.hash}, rows)
  {
    hide FindRow, GenesisHash;
    forall h | h in StoredHashes(st) + {b.hash}
      ensures FindRow(rows, h).Some?
    {
      if h == b.hash {
        assert rows[|st.rows|].block.hash == h;
      } else {
        var r :| r in st.rows && r.block.hash == h;
        var i :| 0 <= i < |st.rows| && st.rows[i] == r;
        assert rows[i] == rows[..|st.rows|][i];
      }
    }
    var off := set h | h in StoredHashes(st) + {b.hash} && FindRow(rows, h).None?;
    assert off == {};
  }

  lemma NothingToAdoptFits(p: Params, s: State, h: Hash, now: int)
    requires ValidParams(p) && Inv(p, s) && s.orphans == [] && Known(OrphanHashes(s.orphans), s.orphans)
    ensures AdoptFits(p, s, OrphanHashes(s.orphans), [h], now)
  {
    hide *;
    var W := OrphanHashes(s.orphans);
    NoChildren(h);
    AdoptFitsStep(p, s, W, [h], now);
    AdoptChildrenStep(p, s, [], now);
    ChildrenFitStep(p, s, [], now);
    assert [h][..0] + [] == [];
    AdoptFitsStep(p, s, W, [], now);
  }

  /** A chain delivered in order, however long, reaches no limit: it is stored as the best chain and nothing
      else is. */
  lemma {:induction false} ChainReachesNoLimit(p: Params, U: Blocks, steps: seq<Step>)
    requires ValidParams(p) && ValidUniverse(p, U) && AllFrom(U, steps) && Punctual(p, steps) && InOrder(p, steps)
    ensures FedFrom(p, U, steps) && LimitsNotReached(p, steps)
    ensures steps == [] ==> Plain(Run(p, steps), GenesisHash(p))
    ensures steps != [] ==>
      steps[|steps| - 1].Deliver? && Plain(Run(p, steps), steps[|steps| - 1].block.hash)
  {
    hide *;
    LimitsStep(p, steps);
    RunStep(p, steps);
    InOrderFed(p, U, steps);
    if steps == [] {
      InitialHash(p);
      InitialPlain(p);
    } else {
      var n := |steps| - 1;
      var before, step := steps[..n], steps[n];
      InOrderStep(p, steps);
      NextIs(p, steps, n);
      FedPrefix(p, U, steps, n);
      PunctualPrefix(p, steps, n);
      AllFromAt(U, steps, n);
      ChainReachesNoLimit(p, U, before);
      FedRun(p, U, before);
      HoldsParts(U, step.block);
      HomeParts(p, U, step.block.hash);
      NextIsNew(p, U, Run(p, before), step.block);
      ReceivedAtIs(p, steps, n);
      TakesInIs(p, Run(p, before), step);
      RunTimely(p, U, steps);
      PlainStep(p, U, Run(p, before), step.block, step.now);
    }
  }

  /** Every delivered block is a block of U. */
  predicate AllFrom(U: Blocks, steps: seq<Step>) {
    forall k :: 0 <= k < |steps| && steps[k].Deliver? ==> Holds(U, steps[k].block)
  }

  lemma AllFromAt(U: Blocks, steps: seq<Step>, n: nat)
    requires AllFrom(U, steps) && n < |steps|
    ensures AllFrom(U, steps[..n]) && (steps[n].Deliver? ==> Holds(U, steps[n].block))
  {
    hide Holds;
  }

  lemma InOrderFed(p: Params, U: Blocks, steps: seq<Step>)
    requires ValidParams(p) && AllFrom(U, steps) && InOrder(p, steps)
    ensures FedFrom(p, U, steps)
  {
    hide *;
    FedAll(p, U, steps);
    forall k | 0 <= k < |steps|
      ensures FedAt(p, U, steps, k)
    {
      InOrderAt(p, steps, k);
      AllFromAt(U, steps, k);
      FedAtIs(p, U, steps, k);
    }
  }

  lemma InOrderAt(p: Params, steps: seq<Step>, k: nat)
    requires InOrder(p, steps) && k < |steps|
    ensures steps[k].Deliver?
  {
    hide GenesisHash;
    assert NextInChain(p, steps, k);
  }

  lemma InitialPlain(p: Params)
    ensures Plain(InitialState(p), GenesisHash(p))
  {
    hide GenesisHash;
    InitialHash(p);
  }

  lemma NextIs(p: Params, steps: seq<Step>, k: nat)
    requires k < |steps|
    ensures NextInChain(p, steps, k) <==>
      && steps[k].Deliver? && (k > 0 ==> steps[k - 1].Deliver?)
      && steps[k].block.previous == if k == 0 then GenesisHash(p) else steps[k - 1].block.hash
  {
    hide GenesisHash;
  }

  lemma PlainStep(p: Params, U: Blocks, s: State, b: Block, now: int)
    requires ValidParams(p) && ValidUniverse(p, U) && OnCourse(p, U, s) && Inv(p, s) && Holds(U, b)
    requires Timely(p, U, s, now) && OnTime(p, b, now) && Plain(s, b.previous)
    ensures StepFits(p, s, Deliver(b, now)) && Plain(ProcessBlock(p, s, b, now).0, b.hash)
  {
    hide *;
    PlainParts(s, b.previous);
    StepFitsParts(p, s, Deliver(b, now));
    Statuses();
    NextIsNew(p, U, s, b);
    TipDelivery(p, U, s, b, now);
    var r := Process(p, s, b, now);
    ExtensionFits(p, s.store, r.0.store.rows, b);
    CallParts(p, s, b, now);
    ForksParts(p, s.store, b);
    TipStored(s.store);
    NothingToAdoptFits(p, r.0, r.1.hash, now);
    DeliverAlone(p, s, b, now);
    TipParts(r.0.store);
    PlainParts(r.0, b.hash);
    assert r.0.store.side == map[];
  }
}
