/** A run in which a reorganization disconnects a transaction that is still valid and loses it, together with
    the sender's next one. */
module LostOnReorg {
  import opened Types
  import opened Ledger
  import opened Headers
  import opened Chain
  import opened ChainFacts
  import opened Tables
  import opened TableFacts
  import opened Mempool
  import opened MempoolFacts
  import opened Connecting
  import opened Branches
  import opened Node
  import opened NodeFacts
  import opened Adoption
  import opened Runs
  import opened Universe
  import opened Limits
  import opened Convergence
  import opened Deliveries
  import opened StaticLimits
  import opened RestoreFacts
  import opened ReorgReturns
  import opened ExampleNetwork

  // ---------------------------------------------------------------- the only pending transaction

  lemma AdmitAlone(p: Params, st: Store, tx: Tx, now: int)
    requires ValidParams(p) && st.rows != [] && st.mempool == {} && WellFormedTx(p, tx) && NextImmature(p, st) == map[]
    requires Abs(tx.timestamp - now) <= p.mempoolTimestampWindow && TxHash(tx) !in st.index
    requires p.mempoolMaxTxs > 0 && p.mempoolMaxPerSender > 0
    requires tx.nonce == Get(st.accounts, tx.sender).nonce + 1 && tx.Cost() <= Get(st.accounts, tx.sender).balance
    ensures Admit(p, st, tx, now, true) == Ok(st.(mempool := {tx}))
  {
    hide NextImmature, ByNonce;
    assert PendingOf(st.mempool, tx.sender) == {};
    ByNonceEmpty();
    assert {} + {tx} == {tx};
  }

  lemma SubmitAlone(p: Params, s: State, tx: Tx, now: int)
    requires s.store.rows != [] && WellFormedTx(p, tx) && Admit(p, s.store, tx, now, true) == Ok(s.store.(mempool := {tx}))
    ensures SubmitTransaction(p, s, tx, now) == (s.(store := s.store.(mempool := {tx})), None)
  {
    hide WellFormedTx, Admit;
  }

  // ---------------------------------------------------------------- the run

  /** The first transaction is confirmed, the second is submitted, and then the other branch arrives. */
  function Steps(): seq<Step> {
    [Deliver(Confirming(), 0), Submit(SECOND, 0), Deliver(Rival(), 0), Deliver(Heavier(), 0)]
  }

  lemma StepsAre()
    ensures |Steps()| == 4 && Steps()[0] == Deliver(Confirming(), 0) && Steps()[1] == Submit(SECOND, 0)
    ensures Steps()[2] == Deliver(Rival(), 0) && Steps()[3] == Deliver(Heavier(), 0)
    ensures forall k :: 0 <= k < 4 ==> Steps()[k].now == 0
  {
    hide Confirming, Rival, Heavier;
  }

  /** The run is one the convergence theorem covers. */
  lemma RunIsCovered()
    requires ValidParams(NETWORK)
    ensures FedFrom(NETWORK, Network(), Steps()) && Punctual(NETWORK, Steps()) && LimitsNotReached(NETWORK, Steps())
    ensures forall h :: h in Network() ==> Received(NETWORK, Steps(), h)
  {
    hide *;
    StepsAre();
    NetworkBlocks();
    NetworkIsUniverse();
    NetworkIsSmall();
    BlocksOnTime();
    forall k | 0 <= k < |Steps()|
      ensures FedAt(NETWORK, Network(), Steps(), k)
    {
      FedAtIs(NETWORK, Network(), Steps(), k);
      ReceivedAtIs(NETWORK, Steps(), k);
    }
    FedAll(NETWORK, Network(), Steps());
    ClockedIsPunctual(NETWORK, Steps());
    SmallReachesNoLimit(NETWORK, Network(), Steps());
    forall h | h in Network()
      ensures Received(NETWORK, Steps(), h)
    {
      assert h in Network().Keys;
      HomeParts(NETWORK, Network(), h);
      HoldsParts(Network(), Confirming());
      HoldsParts(Network(), Rival());
      HoldsParts(Network(), Heavier());
      DeliveredIsReceived(NETWORK, Network(), Steps(), if h == Confirming().hash then 0 else if h == Rival().hash then 2 else 3);
    }
  }

  /** What is known after k steps of the run. */
  lemma RunSoFar(k: nat)
    requires ValidParams(NETWORK) && k <= 4 == |Steps()|
    ensures
      var s := Run(NETWORK, Steps()[..k]);
      && OnCourse(NETWORK, Network(), s) && ChainInv(NETWORK, s.store) && SideInv(NETWORK, s.store)
      && s.store.rows != []
      && (forall h :: KnownTo(s, h) <==> h == GenesisHash(NETWORK) || Received(NETWORK, Steps()[..k], h))
      && Timely(NETWORK, Network(), s, 0)
    decreases 4 - k
  {
    hide *;
    NetworkIsUniverse();
    RunIsCovered();
    StepsAre();
    FedPrefix(NETWORK, Network(), Steps(), k);
    PunctualPrefix(NETWORK, Steps(), k);
    LimitsPrefix(NETWORK, Steps(), k);
    FedRun(NETWORK, Network(), Steps()[..k]);
    CourseParts(NETWORK, Network(), Run(NETWORK, Steps()[..k]));
    NetworkTimely(Run(NETWORK, Steps()[..k]));
  }

  lemma NotYet(k: nat, h: Hash)
    requires ValidParams(NETWORK) && k <= 4 == |Steps()| && forall i :: 0 <= i < k ==> !Carries(Steps()[i], h)
    requires h != GenesisHash(NETWORK)
    ensures !KnownTo(Run(NETWORK, Steps()[..k]), h)
  {
    hide *;
    RunSoFar(k);
    ReceivedParts(NETWORK, Steps()[..k], h);
  }

  lemma PrefixStep(k: nat)
    requires ValidParams(NETWORK) && 0 < k <= 4 == |Steps()|
    ensures Steps()[..k] != [] && Steps()[..k][|Steps()[..k]| - 1] == Steps()[k - 1]
    ensures Steps()[..k][..|Steps()[..k]| - 1] == Steps()[..k - 1]
  {
    hide *;
  }

  lemma AliceAfterFirst(rows: seq<Row>)
    requires ValidParams(NETWORK) && ValidRows(NETWORK, rows) && |rows| == 2 && rows[1].block == Confirming()
    ensures Get(Replay(NETWORK, rows), ALICE) == Account(98, 1)
  {
    hide *;
    ValidGenesis(NETWORK, rows);
    assert rows[..1] == [GenesisRow(NETWORK)];
    LastRow(NETWORK, rows);
    ReplayStep(NETWORK, rows);
    FirstIsValid();
    NamedBlocks();
    MadeParts(1, GenesisHash(NETWORK), 1, [FIRST]);
    OneTransfer(Replay(NETWORK, rows[..1]));
    MinerIsMiner(1, rows[1].miner, rows[1].subsidy, rows[1].fees, 1, FeeSum([FIRST]));
    PayReads(Transfers(Replay(NETWORK, rows[..1]), [FIRST]), rows[1].miner, rows[1].subsidy + rows[1].fees, ALICE);
    AccountIs(Get(Replay(NETWORK, rows), ALICE));
  }

  lemma AccountIs(x: Account)
    ensures x == Account(x.balance, x.nonce)
  {}

  lemma MinerIsMiner(height: int, miner: Address, subsidy: int, fees: int, subsidy': int, fees': int)
    requires ExpectedCoinbase(height, miner, subsidy, fees) == ExpectedCoinbase(height, MINER, subsidy', fees')
    ensures miner == MINER != ALICE
  {}

  lemma OneTransfer(m: Accounts)
    requires Get(m, ALICE) == Account(100, 0)
    ensures Get(Transfers(m, [FIRST]), ALICE) == Account(98, 1)
  {
    assert [FIRST][..0] == [];
  }

  lemma AfterFirst()
    requires ValidParams(NETWORK)
    ensures
      var s := Run(NETWORK, Steps()[..1]);
      && |Steps()| == 4 && |s.store.rows| == 2 && s.store.rows[1].block == Confirming()
      && s.store.mempool == {} && s.orphans == [] && Get(s.store.accounts, ALICE) == Account(98, 1)
  {
    hide *;
    StepsAre();
    RunSoFar(0);
    RunSoFar(1);
    PrefixStep(1);
    RunStep(NETWORK, Steps()[..0]);
    RunStep(NETWORK, Steps()[..1]);
    InitialHash(NETWORK);
    NetworkIsUniverse();
    NetworkBlocks();
    NamedBlocks();
    MadeParts(1, GenesisHash(NETWORK), 1, [FIRST]);
    BlocksOnTime();
    HoldsParts(Network(), Confirming());
    NotYet(0, Confirming().hash);
    var s, t := InitialState(NETWORK), Run(NETWORK, Steps()[..1]);
    EmptyStart();
    TipDelivery(NETWORK, Network(), s, Confirming(), 0);
    DeliverAlone(NETWORK, s, Confirming(), 0);
    ChainInvParts(NETWORK, t.store);
    AliceAfterFirst(t.store.rows);
    ReadAgrees(t.store.accounts, Replay(NETWORK, t.store.rows), ALICE);
  }

  lemma AfterSecond()
    requires ValidParams(NETWORK)
    ensures |Steps()| == 4
    ensures
      var s, t := Run(NETWORK, Steps()[..1]), Run(NETWORK, Steps()[..2]);
      t == s.(store := s.store.(mempool := {SECOND}))
  {
    hide *;
    StepsAre();
    AfterFirst();
    RunSoFar(1);
    PrefixStep(2);
    RunStep(NETWORK, Steps()[..2]);
    var s := Run(NETWORK, Steps()[..1]);
    NetworkFields();
    NothingImmatureNext(s.store);
    TxFields();
    NotConfirmed(NETWORK, s.store, SECOND);
    AdmitAlone(NETWORK, s.store, SECOND, 0);
    SubmitAlone(NETWORK, s, SECOND, 0);
  }

  lemma NothingImmatureNext(st: Store)
    requires st.rows != []
    ensures NextImmature(NETWORK, st) == map[]
  {
    NothingImmature(st.rows, TipHeight(st) + 1);
  }

  lemma TxFields()
    ensures FIRST.sender == SECOND.sender == ALICE && FIRST.nonce == 1 && SECOND.nonce == 2 && FIRST != SECOND
    ensures FIRST.Cost() == 2 && SECOND.Cost() == 2 && Abs(FIRST.timestamp - 0) == 0 && Abs(SECOND.timestamp - 0) == 0
    ensures NETWORK.mempoolTimestampWindow == 300 && NETWORK.mempoolMaxTxs == 10 && NETWORK.mempoolMaxPerSender == 10
  {}

  lemma AfterRival()
    requires ValidParams(NETWORK)
    ensures |Steps()| == 4
    ensures
      var s := Run(NETWORK, Steps()[..3]);
      && |s.store.rows| == 2 && s.store.rows[1].block == Confirming()
      && s.store.mempool == {SECOND} && s.orphans == [] && Get(s.store.accounts, ALICE) == Account(98, 1)
  {
    hide *;
    StepsAre();
    AfterFirst();
    AfterSecond();
    RunSoFar(2);
    RunSoFar(3);
    PrefixStep(3);
    RunStep(NETWORK, Steps()[..3]);
    NetworkIsUniverse();
    NetworkIsSmall();
    SmallParts(NETWORK, Network());
    NetworkBlocks();
    NamedBlocks();
    MadeParts(1, GenesisHash(NETWORK), 2, []);
    MadeParts(1, GenesisHash(NETWORK), 1, [FIRST]);
    BlocksOnTime();
    HoldsParts(Network(), Rival());
    HoldsParts(Network(), Confirming());
    CarriesIs(Steps()[0], Rival().hash);
    CarriesIs(Steps()[1], Rival().hash);
    NotYet(2, Rival().hash);
    var s := Run(NETWORK, Steps()[..2]);
    TipParts(s.store);
    TipWorkIsWork(NETWORK, s.store);
    ChainInvParts(NETWORK, s.store);
    ValidGenesis(NETWORK, s.store.rows);
    GenesisFields();
    RowStored(s.store, 0);
    KnownParts(s, Rival().hash);
    SmallForks(NETWORK, Network(), s, Rival());
    var stored := SideDelivery(NETWORK, Network(), s, Rival(), 0);
    DeliverAlone(NETWORK, s, Rival(), 0);
  }

  lemma AliceAfterSwitch(rows: seq<Row>)
    requires ValidParams(NETWORK) && ValidRows(NETWORK, rows) && |rows| == 3
    requires rows[1].block == Rival() && rows[2].block == Heavier()
    ensures Get(Replay(NETWORK, rows), ALICE) == Account(100, 0)
  {
    hide *;
    ValidGenesis(NETWORK, rows);
    ValidAt(NETWORK, rows, 2);
    assert rows[..2][..1] == [GenesisRow(NETWORK)];
    LastRow(NETWORK, rows);
    LastRow(NETWORK, rows[..2]);
    ReplayStep(NETWORK, rows);
    ReplayStep(NETWORK, rows[..2]);
    FirstIsValid();
    NamedBlocks();
    MadeParts(1, GenesisHash(NETWORK), 2, []);
    MadeParts(2, Rival().hash, 1, []);
    NoTransfer(Replay(NETWORK, [GenesisRow(NETWORK)]));
    NoTransfer(Replay(NETWORK, rows[..2]));
    MinerIsMiner(1, rows[1].miner, rows[1].subsidy, rows[1].fees, 1, FeeSum([]));
    MinerIsMiner(2, rows[2].miner, rows[2].subsidy, rows[2].fees, 1, FeeSum([]));
    PayReads(Replay(NETWORK, [GenesisRow(NETWORK)]), rows[1].miner, rows[1].subsidy + rows[1].fees, ALICE);
    PayReads(Replay(NETWORK, rows[..2]), rows[2].miner, rows[2].subsidy + rows[2].fees, ALICE);
    AccountIs(Get(Replay(NETWORK, rows), ALICE));
  }

  lemma NoTransfer(m: Accounts)
    ensures Transfers(m, []) == m
  {}

  /** The best chain at the end is the other branch. */
  lemma FinalRows()
    requires ValidParams(NETWORK)
    ensures |Steps()| == 4 && Steps()[..4] == Steps()
    ensures
      var s := Run(NETWORK, Steps());
      && |s.store.rows| == 3 && s.store.rows[1].block == Rival() && s.store.rows[2].block == Heavier()
      && TipHash(s.store) == Heavier().hash && Get(s.store.accounts, ALICE) == Account(100, 0) && ChainInv(NETWORK, s.store)
  {
    hide *;
    StepsAre();
    RunIsCovered();
    NetworkIsUniverse();
    NetworkIsSmall();
    NetworkBlocks();
    NamedBlocks();
    HoldsParts(Network(), Heavier());
    MadeParts(2, Rival().hash, 1, []);
    NoneMined(NETWORK, Steps());
    Converges(NETWORK, Network(), Heavier().hash, Steps());
    var rows := RivalRows();
    HomeParts(NETWORK, Network(), Heavier().hash);
    RowOfIs(NETWORK, rows, Heavier());
    var s := Run(NETWORK, Steps());
    InvRows(NETWORK, s);
    ChainInvParts(NETWORK, s.store);
    AliceAfterSwitch(s.store.rows);
    ReadAgrees(s.store.accounts, Replay(NETWORK, s.store.rows), ALICE);
  }

  /** The last delivery reorganizes. */
  lemma LastSwitches() returns (s: State)
    requires ValidParams(NETWORK)
    ensures StoreInv(NETWORK, s.store) && ChainInv(NETWORK, s.store) && SideInv(NETWORK, s.store)
    ensures Heavier().hash in s.store.side && |s.store.rows| == 2 && s.store.rows[1].block == Confirming()
    ensures s.store.mempool == {SECOND} && Get(s.store.accounts, ALICE) == Account(98, 1)
    ensures
      var r := Reorganize(NETWORK, s, Heavier().hash, 0);
      r.0 == Run(NETWORK, Steps()) && r.1.Done? && r.1.status == Reorganized
  {
    hide *;
    StepsAre();
    AfterRival();
    FinalRows();
    RunSoFar(3);
    PrefixStep(4);
    RunStep(NETWORK, Steps());
    NetworkIsUniverse();
    NetworkIsSmall();
    SmallParts(NETWORK, Network());
    NetworkBlocks();
    NamedBlocks();
    MadeParts(1, GenesisHash(NETWORK), 1, [FIRST]);
    MadeParts(2, Rival().hash, 1, []);
    BlocksOnTime();
    HoldsParts(Network(), Heavier());
    HoldsParts(Network(), Rival());
    CarriesIs(Steps()[0], Heavier().hash);
    CarriesIs(Steps()[1], Heavier().hash);
    CarriesIs(Steps()[2], Heavier().hash);
    NotYet(3, Heavier().hash);
    RivalKnown();
    var t := Run(NETWORK, Steps()[..3]);
    TipParts(t.store);
    TipWorkIsWork(NETWORK, t.store);
    KnownParts(t, Heavier().hash);
    SmallForks(NETWORK, Network(), t, Heavier());
    var stored := SideDelivery(NETWORK, Network(), t, Heavier(), 0);
    DeliverAlone(NETWORK, t, Heavier(), 0);
    s := WithStore(t, stored);
    WithStoreParts(t, stored);
    ReorganizeStatus(NETWORK, s, Heavier().hash, 0);
    ReorganizeRaisesWork(NETWORK, s, Heavier().hash, 0);
  }

  /** The competing block is stored by then. */
  lemma RivalKnown()
    requires ValidParams(NETWORK)
    ensures |Steps()| == 4
    ensures var s := Run(NETWORK, Steps()[..3]); Stored(s.store.rows, s.store.side, Rival().hash)
  {
    hide *;
    StepsAre();
    AfterRival();
    RunSoFar(3);
    RunIsCovered();
    FedPrefix(NETWORK, Network(), Steps(), 3);
    PunctualPrefix(NETWORK, Steps(), 3);
    LimitsPrefix(NETWORK, Steps(), 3);
    NetworkIsUniverse();
    NetworkBlocks();
    HoldsParts(Network(), Rival());
    HomeParts(NETWORK, Network(), Rival().hash);
    DeliveredIsReceived(NETWORK, Network(), Steps()[..3], 2);
    KnownParts(Run(NETWORK, Steps()[..3]), Rival().hash);
    NoOrphans(Rival().hash);
  }

  lemma TwoEmpty(path: seq<Block>)
    requires |path| == 2 && path[0].txs == [] && path[1].txs == []
    ensures TxSet(AllTxs(path)) == {}
  {
    assert path[..1][..0] == [];
    assert AllTxs(path[..1]) == [];
  }

  lemma OneBlock(b: Block)
    ensures AllTxs([b]) == b.txs
  {
    assert [b][..0] == [];
  }

  lemma QueueOfOne(t: Tx)
    ensures Queue({t}, t.sender) != []
  {
    assert UniquePool({t});
    QueueMembers({t}, t.sender);
  }

  /** A still valid transaction is lost: the run confirms Alice's first transaction and has her second
      pending when a heavier branch without either arrives. Afterwards the mempool is empty, although the
      first transaction is valid on the new chain - submitted once more, it is accepted. */
  lemma ValidTransactionIsLost()
    ensures ValidParams(NETWORK) && |Steps()| == 4
    ensures
      var before, after := Run(NETWORK, Steps()[..3]), Run(NETWORK, Steps());
      && |before.store.rows| == 2 && before.store.rows[1].block == Confirming() && before.store.mempool == {SECOND}
      && |after.store.rows| == 3 && after.store.rows[1].block == Rival() && after.store.rows[2].block == Heavier()
      && after.store.mempool == {}
      && SubmitTransaction(NETWORK, after, FIRST, 0).1 == None
  {
    hide *;
    NetworkValid();
    AfterRival();
    FinalRows();
    var s := LastSwitches();
    var st, after := s.store, Run(NETWORK, Steps());
    PoolIsEmptied(s);
    NetworkFields();
    TxFields();
    NothingImmatureNext(after.store);
    NotConfirmed(NETWORK, after.store, FIRST);
    AdmitAlone(NETWORK, after.store, FIRST, 0);
    SubmitAlone(NETWORK, after, FIRST, 0);
  }

  lemma PoolIsEmptied(s: State)
    requires ValidParams(NETWORK) && |Steps()| == 4
    requires StoreInv(NETWORK, s.store) && ChainInv(NETWORK, s.store) && SideInv(NETWORK, s.store)
    requires Heavier().hash in s.store.side && |s.store.rows| == 2 && s.store.rows[1].block == Confirming()
    requires s.store.mempool == {SECOND} && Get(s.store.accounts, ALICE) == Account(98, 1)
    requires
      var r := Reorganize(NETWORK, s, Heavier().hash, 0);
      r.0 == Run(NETWORK, Steps()) && r.1.Done? && r.1.status == Reorganized
    ensures Run(NETWORK, Steps()).store.mempool == {}
  {
    hide *;
    FinalRows();
    NamedBlocks();
    NetworkBlocks();
    MadeParts(1, GenesisHash(NETWORK), 1, [FIRST]);
    MadeParts(1, GenesisHash(NETWORK), 2, []);
    MadeParts(2, Rival().hash, 1, []);
    TxFields();
    var h := Heavier().hash;
    ReorganizeReturns(NETWORK, s, h, 0, ALICE);
    ReorganizeSucceeds(NETWORK, s, h, 0);
    var after, walk := Run(NETWORK, Steps()).store, SideWalk(NETWORK, s.store, h);
    var fork := FindRow(s.store.rows, walk.start).value;
    assert after.rows[fork] == after.rows[..fork + 1][fork] == s.store.rows[fork];
    assert fork == 0;
    assert walk.path[0] == after.rows[1].block && walk.path[1] == after.rows[2].block;
    TwoEmpty(walk.path);
    assert Node.Blocks(s.store.rows[1..]) == [Confirming()];
    OneBlock(Confirming());
    QueueOfOne(SECOND);
    assert {SECOND} - {} == {SECOND};
    RunQueue();
    AllHers(after.mempool);
    EmptyPool(after.mempool, Queue(after.mempool, ALICE));
  }

  lemma AllHers(pool: set<Tx>)
    requires forall t :: t in pool ==> t in {SECOND} || t in [FIRST]
    ensures forall t :: t in pool ==> t.sender == ALICE
  {}

  lemma EmptyPool(pool: set<Tx>, q: seq<Tx>)
    requires (forall t :: t in pool ==> t in q) && q == []
    ensures pool == {}
  {}

  lemma RunQueue()
    requires ValidParams(NETWORK)
    ensures
      var pool := Run(NETWORK, Steps()).store.mempool;
      forall t :: t in Queue(pool, ALICE) <==> t in pool && t.sender == ALICE
  {
    hide *;
    ReachableMempool(NETWORK, Steps(), ALICE);
  }
}
