/** A run in which a mined block leaves its waiting child behind: an orphan stays out although its parent is on
    the best chain. */
module StrandedOnMine {
  import opened Types
  import opened Headers
  import opened Tables
  import opened TableFacts
  import opened Connecting
  import opened Node
  import opened NodeFacts
  import opened Adoption
  import opened Runs
  import opened Universe
  import opened RegimeFacts
  import opened Limits
  import opened Convergence
  import opened StaticLimits
  import opened ExampleNetwork


  /** The child arrives first; then its parent is mined here. */
  function Steps(): seq<Step> {
    [Deliver(Heavier(), 0), Mine(Rival(), 0)]
  }

  lemma StepsAre()
    ensures |Steps()| == 2 && Steps()[0] == Deliver(Heavier(), 0) && Steps()[1] == Mine(Rival(), 0)
    ensures Steps()[..0] == [] && Steps()[..1] == [Deliver(Heavier(), 0)] && Steps()[..2] == Steps()
  {
    hide Rival, Heavier;
  }

  lemma OneOrphan(p: Params, b: Block)
    requires p.maxOrphans >= 1
    ensures AddOrphan(p, [], b) == [b]
  {}

  /** At the start nothing but genesis is known. */
  lemma StartKnows()
    requires ValidParams(NETWORK)
    ensures
      var s := InitialState(NETWORK);
      && OnCourse(NETWORK, Network(), s) && Inv(NETWORK, s) && Run(NETWORK, []) == s
      && !KnownTo(s, Heavier().hash) && !Stored(s.store.rows, s.store.side, Rival().hash)
      && ChainInv(NETWORK, s.store) && SideInv(NETWORK, s.store)
  {
    hide *;
    InitialCourse(NETWORK, Network());
    RunStep(NETWORK, []);
    NetworkBlocks();
    HoldsParts(Network(), Heavier());
    HoldsParts(Network(), Rival());
    CourseParts(NETWORK, Network(), InitialState(NETWORK));
    KnownParts(InitialState(NETWORK), Rival().hash);
  }

  /** The child waits. */
  lemma AfterChild()
    requires ValidParams(NETWORK)
    ensures |Steps()| == 2
    ensures Run(NETWORK, Steps()[..1]) == InitialState(NETWORK).(orphans := [Heavier()])
  {
    hide *;
    StepsAre();
    StartKnows();
    NetworkIsUniverse();
    NetworkBlocks();
    NetworkFields();
    NamedBlocks();
    MadeParts(2, Rival().hash, 1, []);
    EmptyStart();
    Statuses();
    var s := InitialState(NETWORK);
    RunStep(NETWORK, Steps()[..1]);
    assert Steps()[..1][..0] == [];
    UnfoldProcess(NETWORK, Network(), s, Heavier(), 0);
    OneOrphan(NETWORK, Heavier());
    ProcessBlockStep(NETWORK, s, Heavier(), 0);
  }

  /** The parent is accepted from the miner. */
  lemma ParentMined()
    requires ValidParams(NETWORK)
    ensures |Steps()| == 2
    ensures
      var s, t := Run(NETWORK, Steps()[..1]), Run(NETWORK, Steps());
      && s.store.rows != [] && SubmitMined(NETWORK, s, Rival(), 0).1.Done?
      && |t.store.rows| == 2 && t.store.rows[1].block == Rival() && t.orphans == [Heavier()]
      && TipHash(t.store) == Rival().hash && TipWork(t.store) == 1
  {
    hide *;
    StepsAre();
    AfterChild();
    StartKnows();
    NetworkIsUniverse();
    NetworkBlocks();
    NetworkFields();
    NamedBlocks();
    MadeParts(1, GenesisHash(NETWORK), 2, []);
    EmptyStart();
    BlocksOnTime();
    NetworkIsSmall();
    HoldsParts(Network(), Rival());
    HomeParts(NETWORK, Network(), Rival().hash);
    var s := Run(NETWORK, Steps()[..1]);
    var st := s.store;
    CourseParts(NETWORK, Network(), InitialState(NETWORK));
    RegimeParts(NETWORK, Network(), st);
    TipDifficulty(NETWORK, st);
    FixedDifficulty(TipHash(st));
    TipWorkIsWork(NETWORK, st);
    ExtendChain(NETWORK, Network(), st, Rival(), 0);
    TemplateFacts.MinedCases(NETWORK, s, Rival(), 0);
    ExtendTipKeeps(NETWORK, st, Rival(), 0);
    RowOfIs(NETWORK, st.rows, Rival());
    WorkStep(GenesisHash(NETWORK));
    RunStep(NETWORK, Steps());
    assert Steps()[..|Steps()| - 1] == Steps()[..1];
  }

  /** A heavier block is left out for good: with its parent as tip it waits among the orphans, and delivering it
      or its parent once more changes nothing. */
  lemma HeavierIsLeftOut(now: int)
    ensures ValidParams(NETWORK) && |Steps()| == 2
    ensures
      var t := Run(NETWORK, Steps());
      && |t.store.rows| == 2 && t.store.rows[1].block == Rival() && t.orphans == [Heavier()]
      && TipWork(t.store) < Work(NETWORK, Heavier().hash)
      && ProcessBlock(NETWORK, t, Heavier(), now) == (t, Done(Duplicate, Heavier().hash, 0, 0))
      && ProcessBlock(NETWORK, t, Rival(), now) == (t, Done(Duplicate, Rival().hash, 0, 0))
  {
    hide *;
    NetworkValid();
    ParentMined();
    NetworkIsSmall();
    RunIsFed();
    var t := Run(NETWORK, Steps());
    InvRows(NETWORK, t);
    TipStored(t.store);
    KnownParts(t, Rival().hash);
    OrphanKnown(t, Heavier());
    IgnoredBlock(NETWORK, Network(), t, Heavier(), now);
    IgnoredBlock(NETWORK, Network(), t, Rival(), now);
  }

  /** The run is one the convergence theorem covers, with the child left behind. */
  lemma RunIsFed()
    requires ValidParams(NETWORK)
    ensures |Steps()| == 2 && OnCourse(NETWORK, Network(), Run(NETWORK, Steps()))
    ensures FedFrom(NETWORK, Network(), Steps()) && Punctual(NETWORK, Steps()) && LimitsNotReached(NETWORK, Steps())
    ensures LeftBehind(NETWORK, Steps()) == {Heavier().hash}
  {
    hide *;
    StepsAre();
    AfterChild();
    ParentMined();
    NetworkBlocks();
    NetworkIsUniverse();
    NetworkIsSmall();
    BlocksOnTime();
    NamedBlocks();
    MadeParts(2, Rival().hash, 1, []);
    NothingBehindFirst();
    forall k | 0 <= k < |Steps()|
      ensures FedAt(NETWORK, Network(), Steps(), k)
    {
      FedAtIs(NETWORK, Network(), Steps(), k);
    }
    FedAll(NETWORK, Network(), Steps());
    ClockedIsPunctual(NETWORK, Steps());
    SmallReachesNoLimit(NETWORK, Network(), Steps());
    FedRun(NETWORK, Network(), Steps());
    LeftBehindStep(NETWORK, Steps());
    assert Steps()[..|Steps()| - 1] == Steps()[..1];
    AcceptsIs(NETWORK, Run(NETWORK, Steps()[..1]), Steps()[1]);
    OneWaits(Run(NETWORK, Steps()[..1]), Heavier());
  }

  lemma NothingBehindFirst()
    requires ValidParams(NETWORK)
    ensures |Steps()| == 2 && LeftBehind(NETWORK, Steps()[..1]) == {} && LeftBehind(NETWORK, Steps()[..0]) == {}
  {
    hide *;
    StepsAre();
    NoneMined(NETWORK, Steps()[..1]);
    NoneMined(NETWORK, Steps()[..0]);
  }

  lemma OneWaits(s: State, b: Block)
    requires s.orphans == [b]
    ensures WaitingFor(s, b.previous) == {b.hash}
  {
    assert b in s.orphans;
  }
}
