/** The data a node handles: hashes, transactions, blocks, network parameters and refusals. */
module Types {

  datatype Option<+T> = None | Some(value: T)

  type Address = string

  const INT_MAX: int := 0x7FFF_FFFF_FFFF_FFFF
  const MAX_DIFFICULTY: int := 0x4000_0000_0000_0000
  const MAX_HASH: nat := 0xFFFF_FFFF_FFFF_FFFF_FFFF_FFFF_FFFF_FFFF_FFFF_FFFF_FFFF_FFFF_FFFF_FFFF_FFFF_FFFF

  /** The miner column of the genesis row; not a well-formed address. */
  const GENESIS_MINER: Address := "GENESIS"

  datatype Tx = Tx(
    sender: Address, recipient: Address, amount: int, fee: int,
    nonce: int, timestamp: int, publicKey: string, signature: string)
  {
    function Cost(): int { amount + fee }
  }

  /** Digests are free: each constructor is one family of hash preimages, so equal digests have equal
      preimages. Encoding.dfy shows that the byte preimages themselves have this property.
      `Foreign` stands for a digest string nobody has shown a preimage of. */
  datatype Hash =
    | ZeroHash
    | Foreign(id: int)
    | Allocations(entries: seq<(Address, int)>)
    | TxHash(tx: Tx)
    | CoinbaseHash(cbHeight: int, recipient: Address, subsidy: int, fees: int)
    | Leaf(txid: Hash)
    | Node(left: Hash, right: Hash)
    | HeaderHash(height: int, previous: Hash, merkle: Hash, timestamp: int, difficulty: int, nonce: int)

  /** A coinbase carries its own txid; nothing but the txid is covered by the block hash. */
  datatype Coinbase = Coinbase(txid: Hash, height: int, recipient: Address, subsidy: int, fees: int, amount: int)

  /** `coinbase` is None for genesis only, whose transaction list is empty. */
  datatype Block = Block(
    height: int, previous: Hash, merkle: Hash, timestamp: int, difficulty: int, nonce: int,
    hash: Hash, coinbase: Option<Coinbase>, txs: seq<Tx>)
  {
    function HeaderDigest(): Hash {
      HeaderHash(height, previous, merkle, timestamp, difficulty, nonce)
    }

    /** Number of entries of the transaction list, coinbase included. */
    function EntryCount(): nat {
      (if coinbase.Some? then 1 else 0) + |txs|
    }

    function EntryId(position: nat): Hash
      requires position < EntryCount()
    {
      if coinbase.Some? then
        if position == 0 then coinbase.value.txid else TxHash(txs[position - 1])
      else TxHash(txs[position])
    }
  }

  /** Consensus and policy constants of a network, with the foreign checks (address checksum, signature,
      serialized sizes, digest as a number) as uninterpreted functions. */
  datatype Params = Params(
    blockReward: int, maxSupply: int, minFee: int, difficulty: int, minDifficulty: int,
    dynamicDifficulty: bool, targetSpacing: int, lwmaWindow: int,
    genesisTimestamp: int, coinbaseMaturity: int,
    maxRegularTxs: int, maxTxBytes: int, maxBlockBytes: int,
    mtpWindow: int, maxFutureSeconds: int,
    mempoolMaxTxs: int, mempoolMaxPerSender: int, mempoolTimestampWindow: int,
    maxReorgDepth: int, maxSideBlocks: int, maxOrphans: int,
    genesisAllocations: seq<(Address, int)>,
    addressOk: Address -> bool, signatureOk: Tx -> bool,
    txBytes: Tx -> nat, coinbaseBytes: Coinbase -> nat, hashValue: Hash -> nat)

  function AllocationSum(entries: seq<(Address, int)>): int {
    if entries == [] then 0
    else AllocationSum(entries[..|entries| - 1]) + entries[|entries| - 1].1
  }

  /** The guards a network profile must pass before a node accepts it. */
  ghost predicate ValidParams(p: Params) {
    && 0 < p.maxSupply <= INT_MAX
    && 0 < p.blockReward <= p.maxSupply
    && 0 < p.minFee <= p.maxSupply
    && 1 <= p.minDifficulty <= p.difficulty <= MAX_DIFFICULTY
    && 0 <= p.coinbaseMaturity
    && 1 <= p.mtpWindow
    && 1 <= p.targetSpacing && 2 <= p.lwmaWindow && 0 <= p.maxFutureSeconds
    && 0 <= p.genesisTimestamp <= INT_MAX
    && 0 <= p.maxReorgDepth && 0 <= p.maxSideBlocks && 0 <= p.maxOrphans
    && 0 <= p.mempoolMaxTxs && 0 <= p.mempoolMaxPerSender && 0 <= p.maxRegularTxs
    && (forall i :: 0 <= i < |p.genesisAllocations| ==> p.genesisAllocations[i].1 > 0)
    && (forall i, j :: 0 <= i < j < |p.genesisAllocations| ==>
          p.genesisAllocations[i].0 != p.genesisAllocations[j].0)
    && AllocationSum(p.genesisAllocations) <= p.maxSupply
    && !p.addressOk(GENESIS_MINER)
  }

  /** Reasons a block or transaction is refused. `BadStructure` gathers every stateless check;
      `Incomplete` is the non-validation error raised when ancestry needed for a difficulty is missing. */
  datatype Code =
    | BadStructure | InvalidBlock | InvalidParent | BadHeight | BadDifficulty | ReorgTooDeep
    | Stale | BadTimestamp | DuplicateTx | BadNonce | InsufficientFunds | BadCoinbase
    | MempoolFull | MempoolSenderLimit | Incomplete

  datatype Result<+T> = Ok(value: T) | Refused(code: Code)

  function Min(a: int, b: int): int { if a <= b then a else b }

  function Max(a: int, b: int): int { if a >= b then a else b }
}
