/** The consensus rules as safety of every run: what every block of the best chain and every transaction a node has
    confirmed or keeps pending satisfies, whichever way it came in. */
module Rules {
  import opened Types
  import opened Merkle
  import opened MedianTime
  import opened Ledger
  import opened Headers
  import opened Chain
  import opened ChainFacts
  import opened Flows
  import opened TableFacts
  import opened Runs

  lemma StatelessRules(p: Params, b: Block)
    requires WellFormedBlock(p, b)
    ensures b.hash == HeaderHash(b.height, b.previous, b.merkle, b.timestamp, b.difficulty, b.nonce)
    ensures b.difficulty >= 1 && p.hashValue(b.hash) * b.difficulty <= MAX_HASH
    ensures b.coinbase.Some? && b.merkle == MerkleRoot([b.coinbase.value.txid] + TxIds(b.txs))
    ensures |b.txs| <= p.maxRegularTxs && p.coinbaseBytes(b.coinbase.value) + BytesSum(p, b.txs) <= p.maxBlockBytes
    ensures forall i, j :: 0 <= i < j < |b.txs| ==> b.txs[i] != b.txs[j]
  {
    hide WellFormedTx, MerkleRoot, BytesSum;
    Difficulty.FloorBound(MAX_HASH, b.difficulty);
    Difficulty.MulMonotone(p.hashValue(b.hash), MAX_HASH / b.difficulty, b.difficulty);
  }

  /** Every block of the best chain after any run: it names its predecessor and its height, its digest covers the header
      and has the work the ancestry requires, it is stamped later than the median of the blocks before, the Merkle root
      covers its ids, both size limits hold, and it repeats no transaction of itself or of an earlier block. */
  lemma ReachableBlocks(p: Params, steps: seq<Step>, k: nat)
    requires ValidParams(p) && 1 <= k < |Run(p, steps).store.rows|
    ensures
      var rows := Run(p, steps).store.rows;
      var b := rows[k].block;
      && b.height == k && b.previous == rows[k - 1].block.hash
      && b.hash == HeaderHash(b.height, b.previous, b.merkle, b.timestamp, b.difficulty, b.nonce)
      && b.difficulty == Expected(p, b.previous) >= 1 && p.hashValue(b.hash) * b.difficulty <= MAX_HASH
      && b.timestamp > Mtp(Timestamps(rows[..k]), p.mtpWindow)
      && b.coinbase.Some? && b.merkle == MerkleRoot([b.coinbase.value.txid] + TxIds(b.txs))
      && |b.txs| <= p.maxRegularTxs && p.coinbaseBytes(b.coinbase.value) + BytesSum(p, b.txs) <= p.maxBlockBytes
      && (forall i, j :: 0 <= i < j < |b.txs| ==> b.txs[i] != b.txs[j])
      && forall t :: t in b.txs ==> !Confirmed(rows[..k], t)
  {
    hide *;
    var rows := Run(p, steps).store.rows;
    InvParts(p, Run(p, steps));
    ChainInvParts(p, Run(p, steps).store);
    ValidAt(p, rows, k);
    RowsLinked(p, rows, k);
    StatelessRules(p, rows[k].block);
    Stamped(p, rows[..k], rows[k].block);
    NoneRepeated(p, rows[..k], rows[k].block);
  }

  lemma Stamped(p: Params, rows: seq<Row>, b: Block)
    requires ValidParams(p) && rows != [] && Extends(p, rows, b)
    ensures b.timestamp > Mtp(Timestamps(rows), p.mtpWindow) && b.difficulty == Expected(p, b.previous)
    ensures b.previous == rows[|rows| - 1].block.hash
  {
    hide Mtp, CheckTxs, Expected, WellFormedBlock;
  }

  lemma NoneRepeated(p: Params, rows: seq<Row>, b: Block)
    requires ValidParams(p) && ValidRows(p, rows) && Extends(p, rows, b)
    ensures forall t :: t in b.txs ==> !Confirmed(rows, t)
  {
    hide *;
    ExtendsChecks(p, rows, b);
    TransactionsExact(p, rows, b.txs);
    forall i | 0 <= i < |b.txs|
      ensures !Confirmed(rows, b.txs[i])
    {
      NewAt(p, rows, b.txs, i);
    }
  }

  lemma NewAt(p: Params, rows: seq<Row>, txs: seq<Tx>, i: nat)
    requires i < |txs| && MaySpend(p, rows, txs, i)
    ensures !Confirmed(rows, txs[i])
  {
    hide Confirmed, Locked, Income, Outlay, Received, Spent, Allocated, Sent, SentIn;
  }

  lemma ConfirmedWellFormed(p: Params, rows: seq<Row>, t: Tx)
    requires ValidParams(p) && ValidRows(p, rows) && Confirmed(rows, t)
    ensures WellFormedTx(p, t)
  {
    hide ValidRows, WellFormedTx;
    var k :| 0 <= k < |rows| && t in rows[k].block.txs;
    GenesisEntries(p, rows);
    ValidPrefix(p, rows, k + 1);
    if k > 0 {
      LastRow(p, rows[..k + 1]);
    }
  }

  /** Every transaction a node has confirmed or keeps pending after any run is signed, moves at least one unit between two
      different well-formed addresses, pays at least the minimum fee, and fits. */
  lemma ReachableTransactions(p: Params, steps: seq<Step>, t: Tx)
    requires ValidParams(p) && (t in Run(p, steps).store.mempool || Confirmed(Run(p, steps).store.rows, t))
    ensures p.signatureOk(t) && p.addressOk(t.sender) && p.addressOk(t.recipient) && t.sender != t.recipient
    ensures 1 <= t.amount <= p.maxSupply && p.minFee <= t.fee <= p.maxSupply && p.txBytes(t) <= p.maxTxBytes
    ensures 1 <= t.nonce <= INT_MAX && 0 <= t.timestamp <= INT_MAX
  {
    hide *;
    var st := Run(p, steps).store;
    InvParts(p, Run(p, steps));
    ChainInvParts(p, st);
    if t in st.mempool {
      ReachableMempool(p, steps, t.sender);
    } else {
      ConfirmedWellFormed(p, st.rows, t);
    }
    TxRules(p, t);
  }

  lemma TxRules(p: Params, t: Tx)
    requires WellFormedTx(p, t)
    ensures p.signatureOk(t) && p.addressOk(t.sender) && p.addressOk(t.recipient) && t.sender != t.recipient
    ensures 1 <= t.amount <= p.maxSupply && p.minFee <= t.fee <= p.maxSupply && p.txBytes(t) <= p.maxTxBytes
    ensures 1 <= t.nonce <= INT_MAX && 0 <= t.timestamp <= INT_MAX
  {}
}
