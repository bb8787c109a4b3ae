/** The best chain as a table of rows, what a valid chain is, and everything it determines. */
module Chain {
  import opened Types
  import opened Merkle
  import opened MedianTime
  import opened Ledger
  import opened Headers

  datatype Row = Row(block: Block, miner: Address, subsidy: int, fees: int, totalWork: int)

  datatype Location = Location(height: int, position: int)

  datatype AddressRow = AddressRow(address: Address, height: int, position: int, txid: Hash)

  function GenesisBlock(p: Params): Block {
    Block(0, ZeroHash, AllocationRoot(p), p.genesisTimestamp, 0, 0, GenesisHash(p), None, [])
  }

  function GenesisRow(p: Params): Row {
    Row(GenesisBlock(p), GENESIS_MINER, 0, 0, 0)
  }

  // ---------------------------------------------------------------- stateless rules

  predicate WellFormedTx(p: Params, tx: Tx) {
    && 1 <= tx.amount <= p.maxSupply
    && p.minFee <= tx.fee <= p.maxSupply
    && 1 <= tx.nonce <= INT_MAX
    && 0 <= tx.timestamp <= INT_MAX
    && p.addressOk(tx.sender) && p.addressOk(tx.recipient) && tx.sender != tx.recipient
    && p.txBytes(tx) <= p.maxTxBytes
    && p.signatureOk(tx)
  }

  function TxIds(txs: seq<Tx>): (r: seq<Hash>)
    ensures |r| == |txs|
  {
    seq(|txs|, i requires 0 <= i < |txs| => TxHash(txs[i]))
  }

  function BytesSum(p: Params, txs: seq<Tx>): nat {
    if txs == [] then 0 else BytesSum(p, txs[..|txs| - 1]) + p.txBytes(txs[|txs| - 1])
  }

  predicate Distinct(txs: seq<Tx>) {
    forall i, j :: 0 <= i < j < |txs| ==> txs[i] != txs[j]
  }

  predicate MeetsTarget(p: Params, hash: Hash, difficulty: int)
    requires difficulty >= 1
  {
    p.hashValue(hash) <= MAX_HASH / difficulty
  }

  predicate WellFormedBlock(p: Params, b: Block) {
    && 1 <= b.height <= INT_MAX && 0 <= b.timestamp <= INT_MAX && 0 <= b.nonce <= INT_MAX
    && 1 <= b.difficulty <= MAX_DIFFICULTY
    && b.coinbase.Some?
    && |b.txs| <= p.maxRegularTxs
    && (forall i :: 0 <= i < |b.txs| ==> WellFormedTx(p, b.txs[i]))
    && Distinct(b.txs)
    && p.coinbaseBytes(b.coinbase.value) + BytesSum(p, b.txs) <= p.maxBlockBytes
    && b.merkle == MerkleRoot([b.coinbase.value.txid] + TxIds(b.txs))
    && b.hash == b.HeaderDigest()
    && MeetsTarget(p, b.hash, b.difficulty)
  }

  // ---------------------------------------------------------------- economics

  function SubsidyFor(p: Params, minted: int): int {
    Max(0, Min(p.blockReward, p.maxSupply - minted))
  }

  function ExpectedCoinbase(height: int, recipient: Address, subsidy: int, fees: int): Coinbase {
    Coinbase(CoinbaseHash(height, recipient, subsidy, fees), height, recipient, subsidy, fees, subsidy + fees)
  }

  predicate CoinbaseOk(p: Params, b: Block, subsidy: int, fees: int) {
    && b.coinbase.Some?
    && var cb := b.coinbase.value;
    && p.addressOk(cb.recipient)
    && 0 <= cb.height <= INT_MAX && 0 <= cb.subsidy <= INT_MAX
    && 0 <= cb.fees <= INT_MAX && 0 <= cb.amount <= INT_MAX
    && cb == ExpectedCoinbase(b.height, cb.recipient, subsidy, fees)
  }

  // ---------------------------------------------------------------- what a chain determines

  function GenesisAccounts(allocations: seq<(Address, int)>): Accounts {
    if allocations == [] then map[]
    else
      var last := allocations[|allocations| - 1];
      GenesisAccounts(allocations[..|allocations| - 1])[last.0 := Account(last.1, 0)]
  }

  /** Replay of the best chain from genesis. */
  function Replay(p: Params, rows: seq<Row>): Accounts {
    if |rows| <= 1 then GenesisAccounts(p.genesisAllocations)
    else
      var r := rows[|rows| - 1];
      Pay(Transfers(Replay(p, rows[..|rows| - 1]), r.block.txs), r.miner, r.subsidy + r.fees)
  }

  function Minted(p: Params, rows: seq<Row>): int {
    if |rows| <= 1 then AllocationSum(p.genesisAllocations)
    else Minted(p, rows[..|rows| - 1]) + rows[|rows| - 1].subsidy
  }

  function IndexUpTo(b: Block, k: nat): map<Hash, Location>
    requires k <= b.EntryCount()
  {
    if k == 0 then map[] else IndexUpTo(b, k - 1)[b.EntryId(k - 1) := Location(b.height, k - 1)]
  }

  function BlockIndex(b: Block): map<Hash, Location> { IndexUpTo(b, b.EntryCount()) }

  /** Where each confirmed transaction is. */
  function IndexOf(rows: seq<Row>): map<Hash, Location> {
    if rows == [] then map[] else IndexOf(rows[..|rows| - 1]) + BlockIndex(rows[|rows| - 1].block)
  }

  function EntryAddresses(b: Block, k: nat): set<AddressRow>
    requires k < b.EntryCount()
  {
    if b.coinbase.Some? && k == 0 then
      {AddressRow(b.coinbase.value.recipient, b.height, 0, b.coinbase.value.txid)}
    else
      var tx := if b.coinbase.Some? then b.txs[k - 1] else b.txs[k];
      {AddressRow(tx.sender, b.height, k, TxHash(tx)), AddressRow(tx.recipient, b.height, k, TxHash(tx))}
  }

  function AddressesUpTo(b: Block, k: nat): set<AddressRow>
    requires k <= b.EntryCount()
  {
    if k == 0 then {} else AddressesUpTo(b, k - 1) + EntryAddresses(b, k - 1)
  }

  function BlockAddresses(b: Block): set<AddressRow> { AddressesUpTo(b, b.EntryCount()) }

  /** Which addresses each confirmed transaction touches. */
  function AddressesOf(rows: seq<Row>): set<AddressRow> {
    if rows == [] then {} else AddressesOf(rows[..|rows| - 1]) + BlockAddresses(rows[|rows| - 1].block)
  }

  /** Undo rows recorded for each height above genesis. */
  function UndosOf(p: Params, rows: seq<Row>): map<int, Accounts> {
    if |rows| <= 1 then map[]
    else
      var before, r := rows[..|rows| - 1], rows[|rows| - 1];
      UndosOf(p, before)[|rows| - 1 := UndoOf(Replay(p, before), Touched(r.block.txs, r.miner))]
  }

  function Timestamps(rows: seq<Row>): (r: seq<int>)
    ensures |r| == |rows|
  {
    seq(|rows|, i requires 0 <= i < |rows| => rows[i].block.timestamp)
  }

  /** Coinbase paid per miner by the rows with low <= height <= high. */
  function CoinbaseAmounts(rows: seq<Row>, low: int, high: int): map<Address, int> {
    if rows == [] || high < low then map[]
    else
      var m, r := CoinbaseAmounts(rows[..|rows| - 1], low, high), rows[|rows| - 1];
      if low <= r.block.height <= high && r.miner != GENESIS_MINER
      then m[r.miner := AmountOf(m, r.miner) + r.subsidy + r.fees]
      else m
  }

  /** Coinbase not yet spendable in a block at the given height. */
  function Immature(p: Params, rows: seq<Row>, height: int): map<Address, int> {
    CoinbaseAmounts(rows, height - p.coinbaseMaturity + 1, height - 1)
  }

  // ---------------------------------------------------------------- valid chains

  function RowOf(p: Params, rows: seq<Row>, b: Block): Row
    requires rows != [] && b.coinbase.Some?
  {
    Row(b, b.coinbase.value.recipient, SubsidyFor(p, Minted(p, rows)), FeeSum(b.txs),
        rows[|rows| - 1].totalWork + b.difficulty)
  }

  /** State rules for b on top of the given rows, the clock aside. */
  ghost predicate StateRules(p: Params, rows: seq<Row>, b: Block)
    requires ValidParams(p) && rows != []
  {
    && b.timestamp > Mtp(Timestamps(rows), p.mtpWindow)
    && CheckTxs(Replay(p, rows), Immature(p, rows, b.height), b.txs, IndexOf(rows).Keys).None?
    && CoinbaseOk(p, b, SubsidyFor(p, Minted(p, rows)), FeeSum(b.txs))
  }

  /** b is a valid next block. */
  ghost predicate Extends(p: Params, rows: seq<Row>, b: Block)
    requires ValidParams(p) && rows != []
  {
    && WellFormedBlock(p, b)
    && b.height == |rows| && b.previous == rows[|rows| - 1].block.hash
    && b.difficulty == Expected(p, b.previous)
    && StateRules(p, rows, b)
  }

  /** A chain of rows every one of which is valid on top of its predecessors. */
  ghost predicate ValidRows(p: Params, rows: seq<Row>): (valid: bool)
    requires ValidParams(p)
    ensures valid ==> rows != []
  {
    && rows != []
    && if |rows| == 1 then rows[0] == GenesisRow(p)
       else
         var before, r := rows[..|rows| - 1], rows[|rows| - 1];
         ValidRows(p, before) && Extends(p, before, r.block) && r == RowOf(p, before, r.block)
  }

  /** One step of the replay, spelled out. */
  lemma ReplayStep(p: Params, rows: seq<Row>)
    ensures |rows| <= 1 ==>
      Replay(p, rows) == GenesisAccounts(p.genesisAllocations) && Minted(p, rows) == AllocationSum(p.genesisAllocations)
    ensures |rows| > 1 ==>
      var before, r := rows[..|rows| - 1], rows[|rows| - 1];
      && Replay(p, rows) == Pay(Transfers(Replay(p, before), r.block.txs), r.miner, r.subsidy + r.fees)
      && Minted(p, rows) == Minted(p, before) + r.subsidy
  {
    hide Pay, Transfers, GenesisAccounts, AllocationSum;
  }

  lemma GenesisIndex(p: Params, rows: seq<Row>)
    requires ValidParams(p) && ValidRows(p, rows) && |rows| == 1
    ensures IndexOf(rows) == map[]
  {
    assert rows[..0] == [] && IndexOf(rows[..0]) == map[];
  }

  lemma {:induction false} ValidPrefix(p: Params, rows: seq<Row>, k: nat)
    requires ValidParams(p) && ValidRows(p, rows) && 1 <= k <= |rows|
    ensures ValidRows(p, rows[..k])
    decreases |rows|
  {
    hide Extends, RowOf;
    if k < |rows| {
      assert rows[..|rows| - 1][..k] == rows[..k];
      ValidPrefix(p, rows[..|rows| - 1], k);
    } else {
      assert rows[..k] == rows;
    }
  }

  /** Every row above genesis extends the rows before it. */
  lemma ValidAt(p: Params, rows: seq<Row>, k: nat)
    requires ValidParams(p) && ValidRows(p, rows) && 1 <= k < |rows|
    ensures ValidRows(p, rows[..k]) && Extends(p, rows[..k], rows[k].block)
    ensures rows[k] == RowOf(p, rows[..k], rows[k].block)
  {
    hide Extends, RowOf;
    ValidPrefix(p, rows, k);
    ValidPrefix(p, rows, k + 1);
    assert rows[..k + 1][..k] == rows[..k];
  }

  lemma ValidGenesis(p: Params, rows: seq<Row>)
    requires ValidParams(p) && ValidRows(p, rows)
    ensures rows[0] == GenesisRow(p)
  {
    ValidPrefix(p, rows, 1);
  }

  /** Row k carries height k, a linked digest and its cumulative work. */
  lemma {:induction false} RowsLinked(p: Params, rows: seq<Row>, k: nat)
    requires ValidParams(p) && ValidRows(p, rows) && k < |rows|
    ensures
      var r := rows[k];
      && r.block.height == k && r.block.hash == r.block.HeaderDigest()
      && Linked(p, r.block.hash) && r.totalWork == Work(p, r.block.hash)
      && (k > 0 ==> r.block.hash.previous == rows[k - 1].block.hash && WellFormedBlock(p, r.block))
    decreases k
  {
    hide *;
    ValidGenesis(p, rows);
    if k > 0 {
      ValidAt(p, rows, k);
      RowsLinked(p, rows, k - 1);
      assert rows[..k][k - 1] == rows[k - 1];
      LinkStep(p, rows[..k], rows[k]);
    } else {
      GenesisLinked(p);
    }
  }

  lemma GenesisLinked(p: Params)
    requires ValidParams(p)
    ensures
      var r := GenesisRow(p);
      r.block.height == 0 && r.block.hash == r.block.HeaderDigest() == GenesisHash(p) && Linked(p, r.block.hash)
      && r.totalWork == Work(p, r.block.hash)
  {}

  /** One more link: heights, difficulty and work follow from the block before. */
  lemma LinkStep(p: Params, before: seq<Row>, r: Row)
    requires ValidParams(p) && before != [] && Extends(p, before, r.block) && r == RowOf(p, before, r.block)
    requires
      var last := before[|before| - 1];
      last.block.height == |before| - 1 && last.block.hash == last.block.HeaderDigest() && Linked(p, last.block.hash)
      && last.totalWork == Work(p, last.block.hash)
    ensures r.block.height == |before| && r.block.hash == r.block.HeaderDigest() && WellFormedBlock(p, r.block)
    ensures Linked(p, r.block.hash) && r.totalWork == Work(p, r.block.hash)
    ensures r.block.hash.previous == before[|before| - 1].block.hash
  {
    hide StateRules, Expected, Minted, SubsidyFor, FeeSum;
    LinkedHeights(p, before[|before| - 1].block.hash);
  }

  lemma HashesDistinct(p: Params, rows: seq<Row>, i: nat, j: nat)
    requires ValidParams(p) && ValidRows(p, rows) && i < |rows| && j < |rows|
    requires rows[i].block.hash == rows[j].block.hash
    ensures i == j
  {
    RowsLinked(p, rows, i);
    RowsLinked(p, rows, j);
  }
}
