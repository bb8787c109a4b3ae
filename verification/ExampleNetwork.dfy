/** A network of three blocks in two branches, for runs that show where a promise fails. */
module ExampleNetwork {
  import opened Types
  import opened Merkle
  import opened MedianTime
  import opened Ledger
  import opened Headers
  import opened Chain
  import opened ChainFacts
  import opened Tables
  import opened TableFacts
  import opened Connecting
  import opened Node
  import opened Universe
  import opened Convergence
  import opened StaticLimits

  const ALICE: Address := "alice"
  const BOB: Address := "bob"
  const MINER: Address := "miner"

  /** A small network with fixed difficulty, whose genesis gives everything to one sender. */
  const NETWORK: Params := Params(
    1, 1000, 1, 1, 1, false, 60, 2, 0, 0, 10, 1000, 1000, 1, 300, 10, 10, 300, 10, 10, 10, [(ALICE, 100)],
    a => a != GENESIS_MINER, t => true, t => 0, c => 0, h => 0)

  const FIRST: Tx := Tx(ALICE, BOB, 1, 1, 1, 0, "", "")
  const SECOND: Tx := Tx(ALICE, BOB, 1, 1, 2, 0, "", "")

  function Made(height: int, previous: Hash, nonce: int, txs: seq<Tx>): Block {
    var coinbase := ExpectedCoinbase(height, MINER, 1, FeeSum(txs));
    var merkle := MerkleRoot([coinbase.txid] + TxIds(txs));
    Block(height, previous, merkle, height, 1, nonce, HeaderHash(height, previous, merkle, height, 1, nonce),
          Some(coinbase), txs)
  }

  /** One branch confirms the first transaction; the other is empty and longer by one. */
  function Confirming(): Block { Made(1, GenesisHash(NETWORK), 1, [FIRST]) }

  function Rival(): Block { Made(1, GenesisHash(NETWORK), 2, []) }

  function Heavier(): Block { Made(2, Rival().hash, 1, []) }

  function Network(): Blocks {
    map[Confirming().hash := Confirming(), Rival().hash := Rival(), Heavier().hash := Heavier()]
  }

  lemma NetworkValid()
    ensures ValidParams(NETWORK)
  {
    assert AllocationSum([(ALICE, 100)]) == 100 by {
      assert [(ALICE, 100)][..0] == [];
    }
  }

  lemma NetworkFields()
    ensures !NETWORK.dynamicDifficulty && NETWORK.difficulty == 1 && NETWORK.mtpWindow == 1 && NETWORK.coinbaseMaturity == 0
    ensures NETWORK.blockReward == 1 && NETWORK.maxSupply == 1000 && NETWORK.maxFutureSeconds == 300
    ensures NETWORK.maxReorgDepth == 10 && NETWORK.maxSideBlocks == 10 && NETWORK.maxOrphans == 10
    ensures NETWORK.addressOk(MINER) && NETWORK.addressOk(ALICE) && NETWORK.addressOk(BOB)
    ensures WellFormedTx(NETWORK, FIRST) && WellFormedTx(NETWORK, SECOND)
  {}

  lemma MadeParts(height: int, previous: Hash, nonce: int, txs: seq<Tx>)
    ensures
      var b := Made(height, previous, nonce, txs);
      && b.height == height && b.previous == previous && b.nonce == nonce && b.txs == txs && b.timestamp == height
      && b.difficulty == 1 && b.hash == b.HeaderDigest() && b.hash.HeaderHash? && b.hash.previous == previous
      && b.hash.height == height && b.hash.difficulty == 1 && b.hash.nonce == nonce
      && b.coinbase == Some(ExpectedCoinbase(height, MINER, 1, FeeSum(txs)))
      && b.merkle == MerkleRoot([b.coinbase.value.txid] + TxIds(txs))
  {
    hide MerkleRoot, FeeSum, TxIds, ExpectedCoinbase;
  }

  lemma MadeWellFormed(height: int, previous: Hash, nonce: int, txs: seq<Tx>)
    requires 1 <= height <= 10 && 0 <= nonce <= 10 && (txs == [] || txs == [FIRST])
    ensures WellFormedBlock(NETWORK, Made(height, previous, nonce, txs))
  {
    hide MerkleRoot, WellFormedTx, FeeSum, Made, ExpectedCoinbase;
    MadeParts(height, previous, nonce, txs);
    NetworkFields();
    assert BytesSum(NETWORK, []) == 0;
    assert [FIRST][..0] == [] && BytesSum(NETWORK, [FIRST]) == 0;
  }

  // ---------------------------------------------------------------- the branches are valid

  lemma LastStamp(rows: seq<Row>)
    requires rows != []
    ensures Mtp(Timestamps(rows), 1) == rows[|rows| - 1].block.timestamp
  {
    assert Recent(Timestamps(rows), 1) == [rows[|rows| - 1].block.timestamp];
  }

  lemma NothingImmature(rows: seq<Row>, height: int)
    ensures Immature(NETWORK, rows, height) == map[]
  {}

  lemma SubsidyIsOne(rows: seq<Row>)
    requires ValidParams(NETWORK) && ValidRows(NETWORK, rows) && |rows| <= 10
    ensures SubsidyFor(NETWORK, Minted(NETWORK, rows)) == 1
  {
    hide ValidRows, Minted;
    MintedClosedForm(NETWORK, rows);
    assert AllocationSum(NETWORK.genesisAllocations) == 100 by {
      assert [(ALICE, 100)][..0] == [];
    }
  }

  lemma MadeExtends(rows: seq<Row>, nonce: int, txs: seq<Tx>)
    requires ValidParams(NETWORK) && ValidRows(NETWORK, rows) && |rows| <= 10 && 0 <= nonce <= 10
    requires rows[|rows| - 1].block.timestamp == |rows| - 1 && (txs == [] || txs == [FIRST])
    requires CheckTxs(Replay(NETWORK, rows), map[], txs, IndexOf(rows).Keys).None?
    ensures Extends(NETWORK, rows, Made(|rows|, rows[|rows| - 1].block.hash, nonce, txs))
  {
    hide *;
    var previous := rows[|rows| - 1].block.hash;
    var b := Made(|rows|, previous, nonce, txs);
    MadeParts(|rows|, previous, nonce, txs);
    MadeWellFormed(|rows|, previous, nonce, txs);
    NetworkFields();
    LastStamp(rows);
    NothingImmature(rows, |rows|);
    SubsidyIsOne(rows);
    SmallFees(txs);
    RulesBuild(rows, b);
    FixedDifficulty(previous);
    ExtendsBuild(NETWORK, rows, b);
  }

  lemma FixedDifficulty(parent: Hash)
    requires ValidParams(NETWORK)
    ensures Expected(NETWORK, parent) == 1
  {}

  lemma SmallFees(txs: seq<Tx>)
    requires txs == [] || txs == [FIRST]
    ensures 0 <= FeeSum(txs) <= 1
  {
    assert [FIRST][..0] == [];
  }

  lemma RulesBuild(rows: seq<Row>, b: Block)
    requires ValidParams(NETWORK) && rows != [] && b.timestamp > Mtp(Timestamps(rows), 1)
    requires Immature(NETWORK, rows, b.height) == map[] && NETWORK.mtpWindow == 1
    requires CheckTxs(Replay(NETWORK, rows), map[], b.txs, IndexOf(rows).Keys).None?
    requires SubsidyFor(NETWORK, Minted(NETWORK, rows)) == 1 && 0 <= FeeSum(b.txs) <= 1 && 1 <= b.height <= 10
    requires b.coinbase == Some(ExpectedCoinbase(b.height, MINER, 1, FeeSum(b.txs)))
    ensures StateRules(NETWORK, rows, b)
  {
    hide Mtp, CheckTxs, Replay, Immature, IndexOf, Minted, FeeSum, SubsidyFor, Timestamps;
  }

  /** Alice owns the whole supply at genesis, so her first transaction is valid there. */
  lemma FirstIsValid()
    requires ValidParams(NETWORK)
    ensures CheckTxs(Replay(NETWORK, [GenesisRow(NETWORK)]), map[], [FIRST], IndexOf([GenesisRow(NETWORK)]).Keys).None?
    ensures Get(Replay(NETWORK, [GenesisRow(NETWORK)]), ALICE) == Account(100, 0)
  {
    hide GenesisHash;
    GenesisIndex(NETWORK, [GenesisRow(NETWORK)]);
    assert [(ALICE, 100)][..0] == [] && [FIRST][..0] == [];
    assert GenesisAccounts([(ALICE, 100)]) == map[ALICE := Account(100, 0)];
  }

  lemma GenesisFields()
    ensures GenesisRow(NETWORK).block.timestamp == 0 && GenesisRow(NETWORK).block.hash == GenesisHash(NETWORK)
    ensures GenesisHash(NETWORK).HeaderHash? && GenesisHash(NETWORK).height == 0
  {}

  /** The three blocks have different digests, and each is filed under its own. */
  lemma NetworkBlocks()
    ensures Confirming().hash != Rival().hash && Heavier().hash != Confirming().hash && Heavier().hash != Rival().hash
    ensures Network().Keys == {Confirming().hash, Rival().hash, Heavier().hash} && |Network()| == 3
    ensures Holds(Network(), Confirming()) && Holds(Network(), Rival()) && Holds(Network(), Heavier())
    ensures GenesisHash(NETWORK) !in Network()
  {
    hide Made, GenesisHash;
    GenesisFields();
    MadeParts(1, GenesisHash(NETWORK), 1, [FIRST]);
    MadeParts(1, GenesisHash(NETWORK), 2, []);
    MadeParts(2, Rival().hash, 1, []);
    assert |Network()| == |Network().Keys|;
  }

  lemma HeightOne(nonce: int, txs: seq<Tx>)
    requires ValidParams(NETWORK) && 0 <= nonce <= 10 && (txs == [] || txs == [FIRST])
    ensures Extends(NETWORK, [GenesisRow(NETWORK)], Made(1, GenesisHash(NETWORK), nonce, txs))
  {
    hide *;
    var rows := [GenesisRow(NETWORK)];
    GenesisValid(NETWORK);
    GenesisFields();
    FirstIsValid();
    NoneChecked(Replay(NETWORK, rows), IndexOf(rows).Keys);
    MadeExtends(rows, nonce, txs);
  }

  lemma NoneChecked(m: Accounts, confirmed: set<Hash>)
    ensures CheckTxs(m, map[], [], confirmed).None?
  {}

  lemma RivalRows() returns (rows: seq<Row>)
    requires ValidParams(NETWORK)
    ensures rows == RowsOf(NETWORK, Network(), Rival().hash) && ValidRows(NETWORK, rows) && |rows| == 2
    ensures rows[1].block == Rival() && rows[0] == GenesisRow(NETWORK)
    ensures RowsOf(NETWORK, Network(), GenesisHash(NETWORK)) == [GenesisRow(NETWORK)]
  {
    hide *;
    NetworkBlocks();
    HoldsParts(Network(), Rival());
    MadeParts(1, GenesisHash(NETWORK), 2, []);
    HeightOne(2, []);
    GenesisValid(NETWORK);
    RowsOfGenesis(NETWORK, Network());
    NamedBlocks();
    RowsOfStep(NETWORK, Network(), Rival().hash);
    rows := RowsOf(NETWORK, Network(), Rival().hash);
    AppendRow(NETWORK, [GenesisRow(NETWORK)], Rival());
    RowOfIs(NETWORK, [GenesisRow(NETWORK)], Rival());
  }

  lemma NamedBlocks()
    ensures Confirming() == Made(1, GenesisHash(NETWORK), 1, [FIRST])
    ensures Rival() == Made(1, GenesisHash(NETWORK), 2, []) && Heavier() == Made(2, Rival().hash, 1, [])
  {}

  lemma HeavierExtends()
    requires ValidParams(NETWORK)
    ensures Extends(NETWORK, RowsOf(NETWORK, Network(), Rival().hash), Heavier())
  {
    hide *;
    var rows := RivalRows();
    NamedBlocks();
    MadeParts(1, GenesisHash(NETWORK), 2, []);
    NoneChecked(Replay(NETWORK, rows), IndexOf(rows).Keys);
    MadeExtends(rows, 1, []);
  }

  lemma NetworkIsUniverse()
    requires ValidParams(NETWORK)
    ensures ValidUniverse(NETWORK, Network())
  {
    hide *;
    NetworkBlocks();
    NamedBlocks();
    HoldsParts(Network(), Confirming());
    HoldsParts(Network(), Rival());
    HoldsParts(Network(), Heavier());
    MadeParts(1, GenesisHash(NETWORK), 1, [FIRST]);
    MadeParts(1, GenesisHash(NETWORK), 2, []);
    MadeParts(2, Rival().hash, 1, []);
    var rows := RivalRows();
    HeightOne(1, [FIRST]);
    HeightOne(2, []);
    HeavierExtends();
    forall h | h in Network()
      ensures ValidHome(NETWORK, Network(), h)
    {
      assert h in Network().Keys;
      HomeBuild(NETWORK, Network(), h);
    }
    UniverseBuild(NETWORK, Network());
  }

  lemma NetworkIsSmall()
    requires ValidParams(NETWORK)
    ensures Small(NETWORK, Network()) && Heaviest(NETWORK, Network(), Heavier().hash)
    ensures Work(NETWORK, Confirming().hash) == 1 && Work(NETWORK, Rival().hash) == 1 && Work(NETWORK, Heavier().hash) == 2
  {
    hide *;
    NetworkBlocks();
    NamedBlocks();
    NetworkFields();
    MadeParts(1, GenesisHash(NETWORK), 1, [FIRST]);
    MadeParts(1, GenesisHash(NETWORK), 2, []);
    MadeParts(2, Rival().hash, 1, []);
    WorkStep(GenesisHash(NETWORK));
    WorkStep(Confirming().hash);
    WorkStep(Rival().hash);
    WorkStep(Heavier().hash);
    HoldsParts(Network(), Confirming());
    HoldsParts(Network(), Rival());
    HoldsParts(Network(), Heavier());
    forall h | h in Network()
      ensures h.HeaderHash? && 1 <= h.height <= 2 && (h != Heavier().hash ==> Work(NETWORK, h) == 1)
    {
      assert h in Network().Keys;
    }
    SmallBuild(Network(), Heavier().hash);
  }

  lemma WorkStep(h: Hash)
    ensures h == GenesisHash(NETWORK) ==> Work(NETWORK, h) == 0
    ensures h != GenesisHash(NETWORK) && h.HeaderHash? ==> Work(NETWORK, h) == Work(NETWORK, h.previous) + h.difficulty
  {
    hide GenesisHash;
  }

  lemma SmallBuild(U: Blocks, best: Hash)
    requires |U| <= 10 && best in U && Work(NETWORK, best) == 2
    requires forall h :: h in U ==> h.HeaderHash? && 1 <= h.height <= 2 && (h != best ==> Work(NETWORK, h) == 1)
    requires NETWORK.maxReorgDepth == 10 && NETWORK.maxSideBlocks == 10 && NETWORK.maxOrphans == 10
    ensures Small(NETWORK, U) && Heaviest(NETWORK, U, best)
  {
    hide Work, AncestorOrSelf;
  }

  // ---------------------------------------------------------------- at the start

  lemma BlocksOnTime()
    ensures OnTime(NETWORK, Confirming(), 0) && OnTime(NETWORK, Rival(), 0) && OnTime(NETWORK, Heavier(), 0)
  {
    hide *;
    NamedBlocks();
    NetworkFields();
    MadeParts(1, GenesisHash(NETWORK), 1, [FIRST]);
    MadeParts(1, GenesisHash(NETWORK), 2, []);
    MadeParts(2, Rival().hash, 1, []);
    OnTimeIs(NETWORK, Confirming(), 0);
    OnTimeIs(NETWORK, Rival(), 0);
    OnTimeIs(NETWORK, Heavier(), 0);
  }

  /** Every block of the network is on time from the start. */
  lemma NetworkTimely(s: State)
    ensures Timely(NETWORK, Network(), s, 0)
  {
    hide *;
    BlocksOnTime();
    NetworkBlocks();
    HoldsParts(Network(), Confirming());
    HoldsParts(Network(), Rival());
    HoldsParts(Network(), Heavier());
    TimelyParts(NETWORK, Network(), s, 0);
    forall h | h in Network()
      ensures OnTime(NETWORK, Network()[h], 0)
    {
      assert h in Network().Keys;
    }
  }

  lemma EmptyStart()
    ensures
      var s := InitialState(NETWORK);
      s.store.mempool == {} && s.orphans == [] && TipHash(s.store) == GenesisHash(NETWORK) && |s.store.rows| == 1
  {
    hide GenesisHash, GenesisAccounts, AllocationSum;
    InitialHash(NETWORK);
  }
}
