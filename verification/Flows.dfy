/** The ledger read as account statements: what each address was paid and what it spent, and in these terms which
    block a node connects. */
module Flows {
  import opened Types
  import opened MedianTime
  import opened Ledger
  import opened Chain
  import opened ChainFacts
  import opened Tables
  import opened TableFacts
  import opened MempoolFacts
  import opened Connecting

  // ---------------------------------------------------------------- inside a block

  /** What the transactions pay to a. */
  function Received(txs: seq<Tx>, a: Address): int {
    if txs == [] then 0
    else Received(txs[..|txs| - 1], a) + if txs[|txs| - 1].recipient == a then txs[|txs| - 1].amount else 0
  }

  /** What the transactions cost a. */
  function Spent(txs: seq<Tx>, a: Address): int {
    if txs == [] then 0
    else
      var tx := txs[|txs| - 1];
      Spent(txs[..|txs| - 1], a) + if tx.sender == a then tx.amount + tx.fee else 0
  }

  lemma {:induction false} TransfersFlow(m: Accounts, txs: seq<Tx>, a: Address)
    ensures Get(Transfers(m, txs), a).balance == Get(m, a).balance + Received(txs, a) - Spent(txs, a)
  {
    if txs != [] {
      TransfersFlow(m, txs[..|txs| - 1], a);
    }
  }

  lemma {:induction false} CostIsSpent(txs: seq<Tx>, a: Address)
    requires forall t :: t in txs ==> t.sender == a
    ensures CostSum(txs) == Spent(txs, a)
  {
    if txs != [] {
      assert txs[|txs| - 1] in txs;
      CostIsSpent(txs[..|txs| - 1], a);
    }
  }

  /** Transaction i is new, next in line and covered, each told from the accounts before the block and the
      transactions before it. */
  predicate Passes(m: Accounts, immature: map<Address, int>, txs: seq<Tx>, confirmed: set<Hash>, i: nat)
    requires i < |txs|
  {
    var tx, a := txs[i], txs[i].sender;
    && TxHash(tx) !in confirmed
    && tx.nonce == Get(m, a).nonce + SentIn(txs[..i], a) + 1
    && tx.amount + tx.fee <= Get(m, a).balance + Received(txs[..i], a) - Spent(txs[..i], a) - AmountOf(immature, a)
  }

  lemma LastPasses(m: Accounts, immature: map<Address, int>, txs: seq<Tx>, confirmed: set<Hash>)
    requires txs != [] && CheckTxs(m, immature, txs[..|txs| - 1], confirmed).None?
    ensures CheckTxs(m, immature, txs, confirmed).None? <==> Passes(m, immature, txs, confirmed, |txs| - 1)
  {
    hide Transfers, Received, Spent, SentIn;
    var n := |txs| - 1;
    NonceCounts(m, immature, txs[..n], confirmed, txs[n].sender);
    TransfersFlow(m, txs[..n], txs[n].sender);
  }

  lemma {:induction false} ChecksExact(m: Accounts, immature: map<Address, int>, txs: seq<Tx>, confirmed: set<Hash>)
    ensures CheckTxs(m, immature, txs, confirmed).None?
       <==> forall i :: 0 <= i < |txs| ==> Passes(m, immature, txs, confirmed, i)
  {
    if txs != [] {
      var n := |txs| - 1;
      ChecksExact(m, immature, txs[..n], confirmed);
      forall i | 0 <= i < n
        ensures Passes(m, immature, txs, confirmed, i) <==> Passes(m, immature, txs[..n], confirmed, i)
      {
        assert txs[..n][..i] == txs[..i];
      }
      if CheckTxs(m, immature, txs[..n], confirmed).None? {
        LastPasses(m, immature, txs, confirmed);
      }
      hide Passes;
    }
  }

  // ---------------------------------------------------------------- over a chain

  function Allocated(entries: seq<(Address, int)>, a: Address): int {
    if entries == [] then 0
    else Allocated(entries[..|entries| - 1], a) + if entries[|entries| - 1].0 == a then entries[|entries| - 1].1 else 0
  }

  /** What the blocks pay to a: transactions addressed to it, and the coinbases in its name. */
  function Income(rows: seq<Row>, a: Address): int {
    if rows == [] then 0
    else
      var b := rows[|rows| - 1].block;
      Income(rows[..|rows| - 1], a) + Received(b.txs, a)
      + if b.coinbase.Some? && b.coinbase.value.recipient == a then b.coinbase.value.amount else 0
  }

  function Outlay(rows: seq<Row>, a: Address): int {
    if rows == [] then 0 else Outlay(rows[..|rows| - 1], a) + Spent(rows[|rows| - 1].block.txs, a)
  }

  lemma {:induction false} AllocationFlow(entries: seq<(Address, int)>, a: Address)
    requires forall i, j :: 0 <= i < j < |entries| ==> entries[i].0 != entries[j].0
    ensures Get(GenesisAccounts(entries), a) == Account(Allocated(entries, a), 0)
    ensures (forall i :: 0 <= i < |entries| ==> entries[i].0 != a) ==> Allocated(entries, a) == 0
  {
    if entries != [] {
      AllocationFlow(entries[..|entries| - 1], a);
    }
  }

  lemma ProfileFlow(p: Params, a: Address)
    requires ValidParams(p)
    ensures Get(GenesisAccounts(p.genesisAllocations), a) == Account(Allocated(p.genesisAllocations, a), 0)
  {
    AllocationFlow(p.genesisAllocations, a);
  }

  lemma FlowStep(rows: seq<Row>, a: Address)
    requires rows != []
    ensures
      var before, b := rows[..|rows| - 1], rows[|rows| - 1].block;
      && Income(rows, a) == Income(before, a) + Received(b.txs, a)
           + (if b.coinbase.Some? && b.coinbase.value.recipient == a then b.coinbase.value.amount else 0)
      && Outlay(rows, a) == Outlay(before, a) + Spent(b.txs, a)
  {}

  lemma GenesisFlow(p: Params, rows: seq<Row>, a: Address)
    requires ValidParams(p) && ValidRows(p, rows) && |rows| == 1
    ensures Income(rows, a) == 0 && Outlay(rows, a) == 0
  {
    assert rows[..0] == [];
  }

  lemma CoinbaseParts(height: int, miner: Address, subsidy: int, fees: int)
    ensures
      var cb := ExpectedCoinbase(height, miner, subsidy, fees);
      cb.recipient == miner && cb.amount == subsidy + fees
  {}

  /** The statement of every account: on every branch its balance is its allocation plus everything paid to it
      minus everything it spent, and its nonce the number of its transactions. */
  lemma {:induction false} BalanceIsFlow(p: Params, rows: seq<Row>, a: Address)
    requires ValidParams(p) && ValidRows(p, rows)
    ensures Get(Replay(p, rows), a)
         == Account(Allocated(p.genesisAllocations, a) + Income(rows, a) - Outlay(rows, a), Sent(rows, a))
    decreases |rows|
  {
    hide *;
    ReplayStep(p, rows);
    NonceIsCount(p, rows, a);
    if |rows| == 1 {
      ProfileFlow(p, a);
      GenesisFlow(p, rows, a);
    } else {
      var before, r := rows[..|rows| - 1], rows[|rows| - 1];
      LastRow(p, rows);
      BalanceIsFlow(p, before, a);
      FlowStep(rows, a);
      CoinbaseParts(|before|, r.miner, r.subsidy, r.fees);
      TransfersFlow(Replay(p, before), r.block.txs, a);
      PayReads(Transfers(Replay(p, before), r.block.txs), r.miner, r.subsidy + r.fees, a);
    }
  }

  /** The chain lists the transaction. */
  predicate Confirmed(rows: seq<Row>, tx: Tx) {
    exists k :: 0 <= k < |rows| && tx in rows[k].block.txs
  }

  lemma ConfirmedStep(rows: seq<Row>, tx: Tx)
    requires rows != []
    ensures Confirmed(rows, tx) <==> Confirmed(rows[..|rows| - 1], tx) || tx in rows[|rows| - 1].block.txs
  {
    var before := rows[..|rows| - 1];
    if Confirmed(rows, tx) {
      var k :| 0 <= k < |rows| && tx in rows[k].block.txs;
      assert k < |before| ==> tx in before[k].block.txs;
    }
    if Confirmed(before, tx) {
      var k :| 0 <= k < |before| && tx in before[k].block.txs;
      assert tx in rows[k].block.txs;
    }
  }

  lemma GenesisConfirms(p: Params, rows: seq<Row>, tx: Tx)
    requires ValidParams(p) && ValidRows(p, rows) && |rows| == 1
    ensures !Confirmed(rows, tx)
  {}

  lemma {:induction false} IndexedIsConfirmed(p: Params, rows: seq<Row>, tx: Tx)
    requires ValidParams(p) && ValidRows(p, rows)
    ensures TxHash(tx) in IndexOf(rows) <==> Confirmed(rows, tx)
    decreases |rows|
  {
    hide *;
    if |rows| == 1 {
      GenesisIndex(p, rows);
      GenesisConfirms(p, rows, tx);
    } else {
      var before, r := rows[..|rows| - 1], rows[|rows| - 1];
      LastRow(p, rows);
      IndexStep(rows);
      CoinbaseShape(|before|, r.miner, r.subsidy, r.fees);
      BlockIndexKeys(p, r.block, tx);
      ConfirmedStep(rows, tx);
      IndexedIsConfirmed(p, before, tx);
    }
  }

  /** On top of the chain, transaction i of the list was never confirmed, has the next nonce of its sender, and
      costs no more than the sender's statement shows beyond the rewards still withheld. */
  predicate MaySpend(p: Params, rows: seq<Row>, txs: seq<Tx>, i: nat)
    requires i < |txs|
  {
    var tx, a := txs[i], txs[i].sender;
    && !Confirmed(rows, tx)
    && tx.nonce == Sent(rows, a) + SentIn(txs[..i], a) + 1
    && tx.amount + tx.fee <= Allocated(p.genesisAllocations, a) + Income(rows, a) - Outlay(rows, a)
                             + Received(txs[..i], a) - Spent(txs[..i], a) - Locked(p, rows, a, |rows|)
  }

  lemma MaySpendIs(p: Params, rows: seq<Row>, txs: seq<Tx>, i: nat)
    requires ValidParams(p) && ValidRows(p, rows) && i < |txs|
    ensures MaySpend(p, rows, txs, i)
       <==> Passes(Replay(p, rows), Immature(p, rows, |rows|), txs, IndexOf(rows).Keys, i)
  {
    hide Allocated, Income, Outlay, Received, Spent, Locked, SentIn, Sent, Replay, Immature, IndexOf, ValidRows, Confirmed;
    var a := txs[i].sender;
    BalanceIsFlow(p, rows, a);
    ImmatureIsLocked(p, rows, a, |rows|);
    IndexedIsConfirmed(p, rows, txs[i]);
  }

  /** The transactions of a block pass exactly when each of them may spend. */
  lemma TransactionsExact(p: Params, rows: seq<Row>, txs: seq<Tx>)
    requires ValidParams(p) && ValidRows(p, rows)
    ensures CheckTxs(Replay(p, rows), Immature(p, rows, |rows|), txs, IndexOf(rows).Keys).None?
       <==> forall i :: 0 <= i < |txs| ==> MaySpend(p, rows, txs, i)
  {
    hide *;
    var m, immature, confirmed := Replay(p, rows), Immature(p, rows, |rows|), IndexOf(rows).Keys;
    ChecksExact(m, immature, txs, confirmed);
    forall i | 0 <= i < |txs|
      ensures MaySpend(p, rows, txs, i) <==> Passes(m, immature, txs, confirmed, i)
    {
      MaySpendIs(p, rows, txs, i);
    }
  }

  /** The coinbase pays exactly what is left of the supply, at most the block reward, and all fees, to a
      well-formed address. */
  ghost predicate PaysReward(p: Params, rows: seq<Row>, b: Block) {
    var minted := AllocationSum(p.genesisAllocations) + (|rows| - 1) * p.blockReward;
    var subsidy := if minted + p.blockReward <= p.maxSupply then p.blockReward
                   else if minted <= p.maxSupply then p.maxSupply - minted else 0;
    var fees := FeeSum(b.txs);
    b.coinbase.Some?
    && var a := b.coinbase.value.recipient;
    p.addressOk(a) && b.coinbase.value == Coinbase(CoinbaseHash(|rows|, a, subsidy, fees), |rows|, a, subsidy, fees, subsidy + fees)
  }

  lemma PaysRewardIs(p: Params, rows: seq<Row>, b: Block)
    requires ValidParams(p) && ValidRows(p, rows) && WellFormedBlock(p, b) && b.height == |rows|
    requires CheckTxs(Replay(p, rows), Immature(p, rows, |rows|), b.txs, IndexOf(rows).Keys).None?
    ensures CoinbaseOk(p, b, SubsidyFor(p, Minted(p, rows)), FeeSum(b.txs)) <==> PaysReward(p, rows, b)
  {
    hide ValidRows, Replay, Immature, IndexOf, FeeSum, Minted, BytesSum, Distinct, MeetsTarget, WellFormedTx, CheckTxs,
         Transfers, Total;
    MintedClosedForm(p, rows);
    SpendBounds(p, rows, b.txs, IndexOf(rows).Keys);
  }

  /** Which block a node connects on its tip, in terms of the chain alone: stamped after the median of the recent
      blocks and not too far ahead of the clock, every transaction may spend, and the coinbase pays the reward. */
  lemma ConnectsExactly(p: Params, st: Store, b: Block, now: int, totalWork: int)
    requires ValidParams(p) && ChainInv(p, st) && WellFormedBlock(p, b)
    requires b.height == TipHeight(st) + 1 && b.previous == TipHash(st)
    ensures Connect(p, st, b, now, totalWork).Ok? <==>
      && Mtp(Timestamps(st.rows), p.mtpWindow) < b.timestamp <= now + p.maxFutureSeconds
      && (forall i :: 0 <= i < |b.txs| ==> MaySpend(p, st.rows, b.txs, i))
      && PaysReward(p, st.rows, b)
  {
    hide *;
    ChainInvParts(p, st);
    SpendableNonNegative(p, st, GENESIS_MINER);
    ConnectExact(p, st, b, now, totalWork);
    TransactionsExact(p, st.rows, b.txs);
    StateRulesAre(p, st.rows, b);
    if CheckTxs(Replay(p, st.rows), Immature(p, st.rows, |st.rows|), b.txs, IndexOf(st.rows).Keys).None? {
      PaysRewardIs(p, st.rows, b);
    }
  }

  lemma StateRulesAre(p: Params, rows: seq<Row>, b: Block)
    requires ValidParams(p) && rows != [] && b.height == |rows|
    ensures StateRules(p, rows, b) <==>
      && b.timestamp > Mtp(Timestamps(rows), p.mtpWindow)
      && CheckTxs(Replay(p, rows), Immature(p, rows, |rows|), b.txs, IndexOf(rows).Keys).None?
      && CoinbaseOk(p, b, SubsidyFor(p, Minted(p, rows)), FeeSum(b.txs))
  {
    hide Mtp, CheckTxs, Immature, Replay, IndexOf, CoinbaseOk;
  }
}
