/** What holds on every valid chain: supply, maturity, nonces, medians, difficulties. */
module ChainFacts {
  import opened Types
  import opened MedianTime
  import opened Difficulty
  import opened Ledger
  import opened Headers
  import opened Chain

  /** What validity says about the last row of a chain. */
  lemma LastRow(p: Params, rows: seq<Row>)
    requires ValidParams(p) && ValidRows(p, rows) && |rows| > 1
    ensures
      var before, r := rows[..|rows| - 1], rows[|rows| - 1];
      && before != [] && ValidRows(p, before)
      && (forall i :: 0 <= i < |r.block.txs| ==> WellFormedTx(p, r.block.txs[i]))
      && CheckTxs(Replay(p, before), Immature(p, before, |before|), r.block.txs, IndexOf(before).Keys).None?
      && r.subsidy == SubsidyFor(p, Minted(p, before)) && r.fees == FeeSum(r.block.txs)
      && r.block.height == |before| && r.block.coinbase == Some(ExpectedCoinbase(|before|, r.miner, r.subsidy, r.fees))
      && p.addressOk(r.miner) && Distinct(r.block.txs)
  {
    hide CheckTxs, Mtp, SubsidyFor, FeeSum;
  }

  // ---------------------------------------------------------------- supply

  lemma {:induction false} GenesisTotal(allocations: seq<(Address, int)>)
    requires forall i, j :: 0 <= i < j < |allocations| ==> allocations[i].0 != allocations[j].0
    requires forall i :: 0 <= i < |allocations| ==> allocations[i].1 > 0
    ensures Total(GenesisAccounts(allocations)) == AllocationSum(allocations)
    ensures forall a :: a in GenesisAccounts(allocations) ==>
      (exists i :: 0 <= i < |allocations| && allocations[i].0 == a)
    ensures forall a: Address :: Get(GenesisAccounts(allocations), a).balance >= 0
    ensures forall a: Address :: Get(GenesisAccounts(allocations), a).nonce == 0
  {
    if allocations != [] {
      var before, last := allocations[..|allocations| - 1], allocations[|allocations| - 1];
      GenesisTotal(before);
      forall a: Address
        ensures Get(GenesisAccounts(allocations), a).nonce == 0
        ensures Get(GenesisAccounts(allocations), a).balance >= 0
      {
        assert Get(GenesisAccounts(before), a).nonce == 0;
        assert Get(GenesisAccounts(before), a).balance >= 0;
      }
      assert last.0 !in GenesisAccounts(before);
      TotalWrite(GenesisAccounts(before), last.0, Account(last.1, 0));
    }
  }

  lemma ProfileGenesis(p: Params)
    requires ValidParams(p)
    ensures
      var m := GenesisAccounts(p.genesisAllocations);
      Total(m) == AllocationSum(p.genesisAllocations)
      && forall a: Address :: Get(m, a).balance >= 0 && Get(m, a).nonce == 0
  {
    GenesisTotal(p.genesisAllocations);
  }

  lemma {:induction false} AllocationsPositive(allocations: seq<(Address, int)>)
    requires forall i :: 0 <= i < |allocations| ==> allocations[i].1 > 0
    ensures AllocationSum(allocations) >= 0
  {
    if allocations != [] {
      AllocationsPositive(allocations[..|allocations| - 1]);
    }
  }

  lemma {:induction false} FeesNonNegative(p: Params, txs: seq<Tx>)
    requires ValidParams(p) && forall i :: 0 <= i < |txs| ==> WellFormedTx(p, txs[i])
    ensures FeeSum(txs) >= 0
  {
    if txs != [] {
      FeesNonNegative(p, txs[..|txs| - 1]);
    }
  }

  /** The sum of all balances is the minted supply, on every branch. */
  lemma {:induction false} SupplyConserved(p: Params, rows: seq<Row>)
    requires ValidParams(p) && ValidRows(p, rows)
    ensures Total(Replay(p, rows)) == Minted(p, rows)
  {
    hide *;
    ReplayStep(p, rows);
    if |rows| == 1 {
      ProfileGenesis(p);
    } else {
      var before, r := rows[..|rows| - 1], rows[|rows| - 1];
      LastRow(p, rows);
      SupplyConserved(p, before);
      TransfersConserve(Replay(p, before), r.block.txs);
      PayTotal(Transfers(Replay(p, before), r.block.txs), r.miner, r.subsidy + r.fees);
    }
  }

  /** Minted supply has a closed form: it depends on the height alone and stops exactly at the cap. */
  lemma {:induction false} MintedClosedForm(p: Params, rows: seq<Row>)
    requires ValidParams(p) && ValidRows(p, rows)
    ensures Minted(p, rows)
         == Min(p.maxSupply, AllocationSum(p.genesisAllocations) + (|rows| - 1) * p.blockReward)
    ensures 0 <= Minted(p, rows) <= p.maxSupply
  {
    hide ValidRows;
    AllocationsPositive(p.genesisAllocations);
    if |rows| > 1 {
      LastRow(p, rows);
      MintedClosedForm(p, rows[..|rows| - 1]);
      assert (|rows| - 1) * p.blockReward == (|rows| - 2) * p.blockReward + p.blockReward;
    }
  }

  // ---------------------------------------------------------------- maturity

  /** Widening the height interval only adds coinbases. */
  lemma {:induction false} CoinbaseMonotone(rows: seq<Row>, low: int, high: int, low': int, high': int, a: Address)
    requires forall i :: 0 <= i < |rows| ==> rows[i].subsidy + rows[i].fees >= 0
    requires forall i :: 0 <= i < |rows| && low <= rows[i].block.height <= high ==> low' <= rows[i].block.height <= high'
    ensures 0 <= AmountOf(CoinbaseAmounts(rows, low, high), a) <= AmountOf(CoinbaseAmounts(rows, low', high'), a)
  {
    if rows != [] {
      CoinbaseMonotone(rows[..|rows| - 1], low, high, low', high', a);
    }
  }

  lemma GenesisAmounts(p: Params)
    ensures GenesisRow(p).subsidy == 0 && GenesisRow(p).fees == 0 && GenesisRow(p).block.height == 0
  {}

  lemma SubsidyNonNegative(p: Params, minted: int)
    ensures SubsidyFor(p, minted) >= 0
  {}

  lemma RowAmounts(p: Params, rows: seq<Row>, i: nat)
    requires ValidParams(p) && ValidRows(p, rows) && i < |rows|
    ensures rows[i].subsidy >= 0 && rows[i].fees >= 0 && rows[i].block.height == i
  {
    hide *;
    ValidGenesis(p, rows);
    if i == 0 {
      GenesisAmounts(p);
    } else {
      ValidPrefix(p, rows, i + 1);
      LastRow(p, rows[..i + 1]);
      FeesNonNegative(p, rows[i].block.txs);
      SubsidyNonNegative(p, Minted(p, rows[..i + 1][..i]));
    }
  }

  lemma CoinbaseAppend(rows: seq<Row>, r: Row, low: int, high: int, a: Address)
    ensures AmountOf(CoinbaseAmounts(rows + [r], low, high), a)
         == AmountOf(CoinbaseAmounts(rows, low, high), a)
          + (if low <= r.block.height <= high && r.miner != GENESIS_MINER && r.miner == a
             then r.subsidy + r.fees else 0)
  {
    assert (rows + [r])[..|rows|] == rows;
    if high < low {
      assert CoinbaseAmounts(rows, low, high) == map[];
    }
  }

  /** Rows carry their index as height and pay their miner a non-negative amount. */
  ghost predicate Numbered(rows: seq<Row>) {
    forall i :: 0 <= i < |rows| ==> rows[i].block.height == i && rows[i].subsidy + rows[i].fees >= 0
  }

  lemma ValidNumbered(p: Params, rows: seq<Row>)
    requires ValidParams(p) && ValidRows(p, rows)
    ensures Numbered(rows)
  {
    forall i | 0 <= i < |rows|
      ensures rows[i].block.height == i && rows[i].subsidy + rows[i].fees >= 0
    {
      RowAmounts(p, rows, i);
    }
  }

  /** A new row makes at most its own coinbase immature in addition. */
  lemma ImmatureStep(p: Params, rows: seq<Row>, r: Row, a: Address)
    requires ValidParams(p) && Numbered(rows + [r])
    ensures 0 <= AmountOf(Immature(p, rows + [r], |rows| + 1), a)
         <= AmountOf(Immature(p, rows, |rows|), a) + (if r.miner == a then r.subsidy + r.fees else 0)
  {
    var all, h := rows + [r], |rows|;
    assert all[h] == r && r.subsidy + r.fees >= 0;
    var low := h - p.coinbaseMaturity + 2;
    assert Numbered(rows) by {
      forall i | 0 <= i < |rows|
        ensures rows[i].block.height == i && rows[i].subsidy + rows[i].fees >= 0
      {
        assert all[i] == rows[i];
      }
    }
    CoinbaseAppend(rows, r, low, h, a);
    CoinbaseMonotone(rows, low, h, low - 1, h - 1, a);
  }

  ghost predicate Covers(m: Accounts, immature: map<Address, int>) {
    forall a: Address :: Get(m, a).balance >= AmountOf(immature, a)
  }

  /** Checked transactions never take a sender below its immature amount. */
  lemma {:induction false} TransfersKeepImmature(p: Params, m: Accounts, immature: map<Address, int>, txs: seq<Tx>, confirmed: set<Hash>)
    requires ValidParams(p) && forall i :: 0 <= i < |txs| ==> WellFormedTx(p, txs[i])
    requires CheckTxs(m, immature, txs, confirmed).None?
    requires Covers(m, immature)
    ensures Covers(Transfers(m, txs), immature)
  {
    if txs != [] {
      TransfersKeepImmature(p, m, immature, txs[..|txs| - 1], confirmed);
      var before, tx := Transfers(m, txs[..|txs| - 1]), txs[|txs| - 1];
      forall a: Address
        ensures Get(Transfer(before, tx), a).balance >= AmountOf(immature, a)
      {
        assert Get(before, a).balance >= AmountOf(immature, a);
      }
    }
  }

  lemma GenesisCovers(p: Params, rows: seq<Row>, a: Address)
    requires ValidParams(p) && ValidRows(p, rows) && |rows| == 1
    ensures Get(Replay(p, rows), a).balance >= AmountOf(Immature(p, rows, 1), a) >= 0
  {
    hide GenesisAccounts;
    ProfileGenesis(p);
    var low, high := 1 - p.coinbaseMaturity + 1, 0;
    assert rows[..0] == [] && rows[0].miner == GENESIS_MINER;
    assert CoinbaseAmounts(rows[..0], low, high) == map[];
    assert Immature(p, rows, 1) == CoinbaseAmounts(rows, low, high) == map[];
  }

  lemma CoverStep(p: Params, rows: seq<Row>, a: Address)
    requires ValidParams(p) && ValidRows(p, rows) && |rows| > 1
    requires Covers(Replay(p, rows[..|rows| - 1]), Immature(p, rows[..|rows| - 1], |rows| - 1))
    ensures Get(Replay(p, rows), a).balance >= AmountOf(Immature(p, rows, |rows|), a) >= 0
  {
    hide *;
    var before, r := rows[..|rows| - 1], rows[|rows| - 1];
    LastRow(p, rows);
    assert before + [r] == rows;
    ReplayStep(p, rows);
    ValidNumbered(p, rows);
    ImmatureStep(p, before, r, a);
    var m, immature := Replay(p, before), Immature(p, before, |before|);
    TransfersKeepImmature(p, m, immature, r.block.txs, IndexOf(before).Keys);
    var after := Transfers(m, r.block.txs);
    CoversAt(after, immature, a);
    PayReads(after, r.miner, r.subsidy + r.fees, a);
  }

  lemma CoversAll(m: Accounts, immature: map<Address, int>)
    requires forall a: Address :: Get(m, a).balance >= AmountOf(immature, a)
    ensures Covers(m, immature)
  {}

  lemma CoversAt(m: Accounts, immature: map<Address, int>, a: Address)
    requires Covers(m, immature)
    ensures Get(m, a).balance >= AmountOf(immature, a)
  {}

  lemma PayReads(m: Accounts, to: Address, amount: int, a: Address)
    ensures Get(Pay(m, to, amount), a).balance == Get(m, a).balance + if a == to then amount else 0
    ensures Get(Pay(m, to, amount), a).nonce == Get(m, a).nonce
  {}

  /** The reward of row k still counts as locked in a block at height h. */
  predicate LockedAt(p: Params, k: nat, h: int) { 1 <= k < h < k + p.coinbaseMaturity }

  /** What a mined and may not spend yet in a block at height h, row by row. */
  function Locked(p: Params, rows: seq<Row>, a: Address, h: int): int {
    if rows == [] then 0
    else
      var k := |rows| - 1;
      Locked(p, rows[..k], a, h)
      + if rows[k].miner == a && LockedAt(p, k, h) then rows[k].subsidy + rows[k].fees else 0
  }

  /** Only rows above genesis have a real miner. */
  ghost predicate Mined(rows: seq<Row>) {
    forall i :: 0 <= i < |rows| ==> (rows[i].miner == GENESIS_MINER <==> i == 0)
  }

  lemma ValidMined(p: Params, rows: seq<Row>)
    requires ValidParams(p) && ValidRows(p, rows)
    ensures Mined(rows)
  {
    hide ValidRows;
    forall i | 0 <= i < |rows|
      ensures rows[i].miner == GENESIS_MINER <==> i == 0
    {
      ValidGenesis(p, rows);
      if i > 0 {
        ValidPrefix(p, rows, i + 1);
        LastRow(p, rows[..i + 1]);
      }
    }
  }

  lemma {:induction false} NumberedLocked(p: Params, rows: seq<Row>, a: Address, h: int)
    requires ValidParams(p) && Numbered(rows) && Mined(rows)
    ensures AmountOf(Immature(p, rows, h), a) == Locked(p, rows, a, h)
  {
    var low, high := h - p.coinbaseMaturity + 1, h - 1;
    if rows == [] {
      assert CoinbaseAmounts(rows, low, high) == map[];
    } else {
      var k := |rows| - 1;
      var before, r := rows[..k], rows[k];
      assert before + [r] == rows && r.block.height == k;
      assert forall i :: 0 <= i < k ==> before[i] == rows[i];
      NumberedLocked(p, before, a, h);
      CoinbaseAppend(before, r, low, high, a);
      hide CoinbaseAmounts;
      assert low <= k <= high && r.miner != GENESIS_MINER <==> LockedAt(p, k, h);
    }
  }

  /** The amount withheld from a sender at any height is the sum of the rewards of exactly those rows k it mined
      with k < h < k + coinbaseMaturity. */
  lemma ImmatureIsLocked(p: Params, rows: seq<Row>, a: Address, h: int)
    requires ValidParams(p) && ValidRows(p, rows)
    ensures AmountOf(Immature(p, rows, h), a) == Locked(p, rows, a, h)
  {
    ValidNumbered(p, rows);
    ValidMined(p, rows);
    NumberedLocked(p, rows, a, h);
  }

  /** The rows without the reward of row k. */
  function Unrewarded(rows: seq<Row>, k: nat): seq<Row>
    requires k < |rows|
  {
    rows[k := rows[k].(subsidy := 0, fees := 0)]
  }

  lemma {:induction false} LockedOthers(p: Params, rows: seq<Row>, k: nat, a: Address, h: int)
    requires k < |rows|
    ensures Locked(p, rows, a, h) - Locked(p, Unrewarded(rows, k), a, h)
         == if rows[k].miner == a && LockedAt(p, k, h) then rows[k].subsidy + rows[k].fees else 0
  {
    var n := |rows| - 1;
    var without := Unrewarded(rows, k);
    if k == n {
      assert without[..n] == rows[..n];
    } else {
      assert without[..n] == Unrewarded(rows[..n], k);
      LockedOthers(p, rows[..n], k, a, h);
    }
  }

  /** The reward of row k is withheld from its miner, and from nobody else, in the blocks between heights k and
      k + coinbaseMaturity; at exactly k + coinbaseMaturity it stops counting. */
  lemma RewardMatures(p: Params, rows: seq<Row>, k: nat, a: Address, h: int)
    requires ValidParams(p) && ValidRows(p, rows) && 1 <= k < |rows|
    ensures AmountOf(Immature(p, rows, h), a) - Locked(p, Unrewarded(rows, k), a, h)
         == if a == rows[k].miner && k < h < k + p.coinbaseMaturity then rows[k].subsidy + rows[k].fees else 0
  {
    hide *;
    ImmatureIsLocked(p, rows, a, h);
    LockedOthers(p, rows, k, a, h);
    LockedIs(p, k, h);
  }

  lemma LockedIs(p: Params, k: nat, h: int)
    requires k >= 1
    ensures LockedAt(p, k, h) <==> k < h < k + p.coinbaseMaturity
  {}

  /** Every address can cover at the next height what it mined and may not spend yet, so no balance is ever
      negative. */
  lemma BalanceCoversImmature(p: Params, rows: seq<Row>, a: Address)
    requires ValidParams(p) && ValidRows(p, rows)
    ensures Get(Replay(p, rows), a).balance >= AmountOf(Immature(p, rows, |rows|), a) == Locked(p, rows, a, |rows|) >= 0
  {
    hide *;
    CoversImmature(p, rows, a);
    ImmatureIsLocked(p, rows, a, |rows|);
  }

  lemma {:induction false} CoversImmature(p: Params, rows: seq<Row>, a: Address)
    requires ValidParams(p) && ValidRows(p, rows)
    ensures Get(Replay(p, rows), a).balance >= AmountOf(Immature(p, rows, |rows|), a) >= 0
    decreases |rows|
  {
    hide *;
    if |rows| == 1 {
      GenesisCovers(p, rows, a);
    } else {
      LastRow(p, rows);
      var before := rows[..|rows| - 1];
      var m, immature := Replay(p, before), Immature(p, before, |before|);
      forall b: Address
        ensures Get(m, b).balance >= AmountOf(immature, b)
      {
        CoversImmature(p, before, b);
      }
      CoversAll(m, immature);
      CoverStep(p, rows, a);
    }
  }

  /** No transaction on a valid chain spends a coinbase before its maturity height: right after it, the
      sender still holds the rewards of all rows it mined less than coinbaseMaturity blocks ago. */
  lemma MaturitySafety(p: Params, rows: seq<Row>, k: nat, i: nat)
    requires ValidParams(p) && ValidRows(p, rows) && 1 <= k < |rows| && i < |rows[k].block.txs|
    ensures
      var txs := rows[k].block.txs;
      Get(Transfers(Replay(p, rows[..k]), txs[..i + 1]), txs[i].sender).balance
        >= Locked(p, rows[..k], txs[i].sender, k)
  {
    hide ValidRows, Locked, Immature, Replay, Transfers, CheckTxs, IndexOf;
    ValidPrefix(p, rows, k + 1);
    LastRow(p, rows[..k + 1]);
    assert rows[..k + 1][..k] == rows[..k];
    var before, txs := rows[..k], rows[k].block.txs;
    var m, immature, confirmed := Replay(p, before), Immature(p, before, k), IndexOf(before).Keys;
    forall b: Address
      ensures Get(m, b).balance >= AmountOf(immature, b)
    {
      CoversImmature(p, before, b);
    }
    ImmatureIsLocked(p, before, txs[i].sender, k);
    if i + 1 < |txs| {
      CheckTxsPrefix(m, immature, txs, confirmed, i + 1);
    } else {
      assert txs[..i + 1] == txs;
    }
    TransfersKeepImmature(p, m, immature, txs[..i + 1], confirmed);
  }

  /** Inside any block of a valid chain, after any number of its transactions: every balance, the fees
      collected so far and the coinbase stay within the supply cap. */
  lemma WithinSupply(p: Params, rows: seq<Row>, b: Block, i: nat, a: Address)
    requires ValidParams(p) && ValidRows(p, rows) && Extends(p, rows, b) && i <= |b.txs|
    ensures 0 <= Get(Transfers(Replay(p, rows), b.txs[..i]), a).balance <= p.maxSupply
    ensures 0 <= FeeSum(b.txs[..i]) <= p.maxSupply
    ensures 0 <= SubsidyFor(p, Minted(p, rows)) + FeeSum(b.txs) <= p.maxSupply
  {
    hide *;
    BlockBounds(p, rows, b, i);
    BlockBounds(p, rows, b, |b.txs|);
    assert b.txs[..|b.txs|] == b.txs;
    var m := Transfers(Replay(p, rows), b.txs[..i]);
    RowsAreRead(m);
    BalanceAtMostTotal(m, a);
  }

  lemma ExtendsChecks(p: Params, rows: seq<Row>, b: Block)
    requires ValidParams(p) && rows != [] && Extends(p, rows, b)
    ensures CheckTxs(Replay(p, rows), Immature(p, rows, |rows|), b.txs, IndexOf(rows).Keys).None?
    ensures forall i :: 0 <= i < |b.txs| ==> WellFormedTx(p, b.txs[i])
  {
    hide Mtp, CheckTxs, Immature, Replay, IndexOf;
  }

  lemma RowsAreRead(m: Accounts)
    ensures forall c :: c in m ==> Get(m, c) == m[c]
  {}

  lemma BlockBounds(p: Params, rows: seq<Row>, b: Block, i: nat)
    requires ValidParams(p) && ValidRows(p, rows) && Extends(p, rows, b) && i <= |b.txs|
    ensures forall a: Address :: Get(Transfers(Replay(p, rows), b.txs[..i]), a).balance >= 0
    ensures Total(Transfers(Replay(p, rows), b.txs[..i])) <= Minted(p, rows)
    ensures 0 <= FeeSum(b.txs[..i]) <= Minted(p, rows)
    ensures 0 <= SubsidyFor(p, Minted(p, rows)) <= p.maxSupply - Minted(p, rows)
    ensures Minted(p, rows) <= p.maxSupply
  {
    hide *;
    ExtendsChecks(p, rows, b);
    var m, immature := Replay(p, rows), Immature(p, rows, |rows|);
    if i < |b.txs| {
      CheckTxsPrefix(m, immature, b.txs, IndexOf(rows).Keys, i);
    } else {
      assert b.txs[..i] == b.txs;
    }
    SpendBounds(p, rows, b.txs[..i], IndexOf(rows).Keys);
  }

  /** Checked transactions on top of a valid chain: no balance turns negative, and fees and subsidy stay
      within the supply. */
  lemma SpendBounds(p: Params, rows: seq<Row>, txs: seq<Tx>, confirmed: set<Hash>)
    requires ValidParams(p) && ValidRows(p, rows)
    requires forall i :: 0 <= i < |txs| ==> WellFormedTx(p, txs[i])
    requires CheckTxs(Replay(p, rows), Immature(p, rows, |rows|), txs, confirmed).None?
    ensures forall a: Address :: Get(Transfers(Replay(p, rows), txs), a).balance >= 0
    ensures Total(Transfers(Replay(p, rows), txs)) <= Minted(p, rows)
    ensures 0 <= FeeSum(txs) <= Minted(p, rows)
    ensures 0 <= SubsidyFor(p, Minted(p, rows)) <= p.maxSupply - Minted(p, rows)
    ensures Minted(p, rows) <= p.maxSupply
  {
    hide ValidRows, Replay, Immature, WellFormedTx;
    var m, immature := Replay(p, rows), Immature(p, rows, |rows|);
    forall c: Address
      ensures Get(m, c).balance >= AmountOf(immature, c) >= 0
    {
      BalanceCoversImmature(p, rows, c);
    }
    TransfersKeepImmature(p, m, immature, txs, confirmed);
    var n := Transfers(m, txs);
    forall c: Address
      ensures Get(n, c).balance >= 0
    {
      assert Get(n, c).balance >= AmountOf(immature, c);
      assert AmountOf(immature, c) >= 0;
    }
    TransfersConserve(m, txs);
    SupplyConserved(p, rows);
    MintedClosedForm(p, rows);
    FeesNonNegative(p, txs);
    forall c | c in n
      ensures n[c].balance >= 0
    {
      assert Get(n, c).balance >= 0;
    }
    TotalNonNegative(n);
  }

  // ---------------------------------------------------------------- nonces

  function SentIn(txs: seq<Tx>, a: Address): nat {
    if txs == [] then 0
    else SentIn(txs[..|txs| - 1], a) + if txs[|txs| - 1].sender == a then 1 else 0
  }

  /** How many transactions of a are on the chain. */
  function Sent(rows: seq<Row>, a: Address): nat {
    if rows == [] then 0 else Sent(rows[..|rows| - 1], a) + SentIn(rows[|rows| - 1].block.txs, a)
  }

  lemma {:induction false} NonceCounts(m: Accounts, immature: map<Address, int>, txs: seq<Tx>, confirmed: set<Hash>, a: Address)
    requires CheckTxs(m, immature, txs, confirmed).None?
    ensures Get(Transfers(m, txs), a).nonce == Get(m, a).nonce + SentIn(txs, a)
  {
    if txs != [] {
      NonceCounts(m, immature, txs[..|txs| - 1], confirmed, a);
    }
  }

  lemma SentStep(rows: seq<Row>, a: Address)
    requires rows != []
    ensures Sent(rows, a) == Sent(rows[..|rows| - 1], a) + SentIn(rows[|rows| - 1].block.txs, a)
  {}

  /** Each account's nonce is the number of its transactions on the chain. */
  lemma {:induction false} NonceIsCount(p: Params, rows: seq<Row>, a: Address)
    requires ValidParams(p) && ValidRows(p, rows)
    ensures Get(Replay(p, rows), a).nonce == Sent(rows, a)
    decreases |rows|
  {
    hide *;
    ReplayStep(p, rows);
    SentStep(rows, a);
    if |rows| == 1 {
      ValidGenesis(p, rows);
      ProfileGenesis(p);
      NothingSent(p, a);
    } else {
      var before, r := rows[..|rows| - 1], rows[|rows| - 1];
      LastRow(p, rows);
      NonceIsCount(p, before, a);
      NonceCounts(Replay(p, before), Immature(p, before, |before|), r.block.txs, IndexOf(before).Keys, a);
      PayReads(Transfers(Replay(p, before), r.block.txs), r.miner, r.subsidy + r.fees, a);
    }
  }

  lemma NothingSent(p: Params, a: Address)
    ensures Sent([], a) == 0 && SentIn(GenesisRow(p).block.txs, a) == 0
  {}

  // ---------------------------------------------------------------- confirmed transactions

  lemma {:induction false} IndexUpToKeys(b: Block, k: nat, id: Hash)
    requires k <= b.EntryCount()
    ensures id in IndexUpTo(b, k) <==> exists i :: 0 <= i < k && b.EntryId(i) == id
  {
    if k > 0 {
      IndexUpToKeys(b, k - 1, id);
    }
  }

  lemma IndexStep(rows: seq<Row>)
    requires rows != []
    ensures IndexOf(rows) == IndexOf(rows[..|rows| - 1]) + BlockIndex(rows[|rows| - 1].block)
  {
    hide BlockIndex;
  }

  lemma CoinbaseShape(height: int, miner: Address, subsidy: int, fees: int)
    ensures
      var id := ExpectedCoinbase(height, miner, subsidy, fees).txid;
      id.CoinbaseHash? && id.cbHeight == height
  {}

  lemma BlockIndexKeys(p: Params, b: Block, tx: Tx)
    requires b.coinbase.Some? && b.coinbase.value.txid.CoinbaseHash?
    ensures TxHash(tx) in BlockIndex(b) <==> tx in b.txs
  {
    IndexUpToKeys(b, b.EntryCount(), TxHash(tx));
    if tx in b.txs {
      var i :| 0 <= i < |b.txs| && b.txs[i] == tx;
      assert b.EntryId(i + 1) == TxHash(tx);
    }
  }

  lemma {:induction false} NonceAfter(m: Accounts, immature: map<Address, int>, txs: seq<Tx>, confirmed: set<Hash>, tx: Tx)
    requires CheckTxs(m, immature, txs, confirmed).None? && tx in txs
    ensures Get(m, tx.sender).nonce < tx.nonce <= Get(Transfers(m, txs), tx.sender).nonce
  {
    var before, last := txs[..|txs| - 1], txs[|txs| - 1];
    NonceCounts(m, immature, before, confirmed, tx.sender);
    if tx != last {
      assert tx in before;
      NonceAfter(m, immature, before, confirmed, tx);
    }
  }

  /** A confirmed transaction's nonce has been passed by its sender. */
  lemma {:induction false} ConfirmedNoncePassed(p: Params, rows: seq<Row>, tx: Tx)
    requires ValidParams(p) && ValidRows(p, rows) && TxHash(tx) in IndexOf(rows)
    ensures tx.nonce <= Get(Replay(p, rows), tx.sender).nonce
    decreases |rows|
  {
    hide *;
    if |rows| == 1 {
      GenesisIndex(p, rows);
    } else {
      var before, r := rows[..|rows| - 1], rows[|rows| - 1];
      LastRow(p, rows);
      ReplayStep(p, rows);
      IndexStep(rows);
      CoinbaseShape(|before|, r.miner, r.subsidy, r.fees);
      var m, immature := Replay(p, before), Immature(p, before, |before|);
      NonceCounts(m, immature, r.block.txs, IndexOf(before).Keys, tx.sender);
      PayReads(Transfers(m, r.block.txs), r.miner, r.subsidy + r.fees, tx.sender);
      BlockIndexKeys(p, r.block, tx);
      if tx in r.block.txs {
        NonceAfter(m, immature, r.block.txs, IndexOf(before).Keys, tx);
      } else {
        ConfirmedNoncePassed(p, before, tx);
      }
    }
  }

  // ---------------------------------------------------------------- medians and difficulties

  /** The timestamps of a valid chain are accepted ones, so (window odd) its median never falls. */
  lemma TimestampsAccepted(p: Params, rows: seq<Row>)
    requires ValidParams(p) && ValidRows(p, rows)
    ensures Accepted(Timestamps(rows), p.mtpWindow)
  {
    hide Mtp, CheckTxs, WellFormedBlock, ValidRows, CoinbaseOk;
    forall i | 1 <= i < |rows|
      ensures LaterThanMedian(Timestamps(rows), p.mtpWindow, i)
    {
      ValidAt(p, rows, i);
      assert Timestamps(rows)[..i] == Timestamps(rows[..i]);
    }
  }

  lemma ChainMedianMonotone(p: Params, rows: seq<Row>, i: nat, j: nat)
    requires ValidParams(p) && ValidRows(p, rows) && p.mtpWindow % 2 == 1
    requires 1 <= i <= j <= |rows|
    ensures Mtp(Timestamps(rows[..i]), p.mtpWindow) <= Mtp(Timestamps(rows[..j]), p.mtpWindow)
    ensures j < |rows| ==> rows[j].block.timestamp > Mtp(Timestamps(rows[..i]), p.mtpWindow)
  {
    hide Mtp, ValidRows, Accepted;
    TimestampsAccepted(p, rows);
    MedianMonotone(Timestamps(rows), p.mtpWindow, i, j);
    assert Timestamps(rows)[..i] == Timestamps(rows[..i]);
    assert Timestamps(rows)[..j] == Timestamps(rows[..j]);
    if j < |rows| {
      ExceedsEveryAncestorMedian(Timestamps(rows), p.mtpWindow, i, j);
    }
  }

  /** Every block above genesis declares the difficulty its own ancestry requires, which is in range and
      within a factor two of its parent's. */
  lemma ChainDifficulties(p: Params, rows: seq<Row>, k: nat)
    requires ValidParams(p) && ValidRows(p, rows) && 1 <= k < |rows|
    ensures rows[k].block.difficulty == Expected(p, rows[k - 1].block.hash)
    ensures InRange(p, rows[k].block.difficulty)
    ensures k >= 2 ==>
      rows[k - 1].block.difficulty / 2 <= rows[k].block.difficulty <= 2 * rows[k - 1].block.difficulty
  {
    hide StateRules, Filtered, WellFormedBlock;
    RowsLinked(p, rows, k);
    RowsLinked(p, rows, k - 1);
    LinkedHeights(p, rows[k].block.hash);
    LinkedHeights(p, rows[k - 1].block.hash);
    LinkedDifficulties(p, rows[k].block.hash);
  }
}
