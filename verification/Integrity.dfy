/** The offline audit, as a comparison of the stored tables with what their blocks alone determine. */
module Integrity {
  import opened Types
  import opened MedianTime
  import opened Ledger
  import opened Headers
  import opened Chain
  import opened ChainFacts
  import opened Tables
  import opened TableFacts
  import opened HeaderWalk
  import opened MempoolFacts
  import opened Runs

  datatype Verdict =
    | Sound
    | GenesisMismatch | Unevaluable | Malformed | BrokenLink(height: int) | WorkMismatch(height: int)
    | NonceGap(height: int) | NegativeBalance(height: int) | WrongCoinbase(height: int)
    | SupplyMismatch | AccountMismatch(address: Address)

  /** The rows the listed blocks would get, none of the stored derived columns trusted. */
  function Rebuild(p: Params, rows: seq<Row>): (r: seq<Row>)
    ensures |r| == |rows|
  {
    if |rows| == 0 then []
    else if |rows| == 1 then [GenesisRow(p)]
    else
      var before, b := Rebuild(p, rows[..|rows| - 1]), rows[|rows| - 1].block;
      before + [if b.coinbase.Some? then RowOf(p, before, b) else Row(b, GENESIS_MINER, 0, 0, 0)]
  }

  predicate TxAudited(m: Accounts, tx: Tx) {
    tx.nonce == Get(m, tx.sender).nonce + 1 && Get(m, tx.sender).balance - tx.amount - tx.fee >= 0
  }

  predicate TxsAudited(m: Accounts, txs: seq<Tx>) {
    forall i :: 0 <= i < |txs| ==> TxAudited(Transfers(m, txs[..i]), txs[i])
  }

  /** Row k follows from the blocks before it. */
  ghost predicate RowAudited(p: Params, st: Store, k: nat)
    requires ValidParams(p) && 1 <= k < |st.rows|
  {
    var prev, r, before := st.rows[k - 1].block, st.rows[k], Rebuild(p, st.rows[..k]);
    && ExpectedDifficulty(p, st, prev) == Some(r.block.difficulty) && WellFormedBlock(p, r.block)
    && r.block.previous == prev.hash && r.block.height == prev.height + 1
    && r.totalWork == before[k - 1].totalWork + r.block.difficulty
    && TxsAudited(Replay(p, before), r.block.txs)
    && CoinbaseOk(p, r.block, SubsidyFor(p, Minted(p, before)), FeeSum(r.block.txs))
  }

  ghost predicate Settled(p: Params, st: Store) {
    var m := Replay(p, Rebuild(p, st.rows));
    st.minted == Minted(p, Rebuild(p, st.rows)) && forall a :: a in m ==> Get(st.accounts, a) == m[a]
  }

  ghost predicate Audited(p: Params, st: Store)
    requires ValidParams(p) && st.rows != []
  {
    && st.rows[0].block.hash == GenesisHash(p)
    && (forall k :: 1 <= k < |st.rows| ==> RowAudited(p, st, k))
    && Settled(p, st)
  }

  /** The two dictionaries of the audit hold what the account map holds. */
  ghost predicate Books(balances: map<Address, int>, nonces: map<Address, int>, m: Accounts) {
    && balances.Keys == m.Keys
    && forall a: Address :: Get(m, a) == Account(AmountOf(balances, a), AmountOf(nonces, a))
  }

  /** The dictionaries after one transaction hold the accounts after its transfer. */
  lemma BooksTransfer(balances: map<Address, int>, nonces: map<Address, int>, m: Accounts, tx: Tx)
    requires Books(balances, nonces, m)
    ensures
      var debited := balances[tx.sender := AmountOf(balances, tx.sender) - tx.amount - tx.fee];
      && (TxAudited(m, tx) <==> tx.nonce == AmountOf(nonces, tx.sender) + 1 && debited[tx.sender] >= 0)
      && Books(debited[tx.recipient := AmountOf(debited, tx.recipient) + tx.amount],
               nonces[tx.sender := tx.nonce], Transfer(m, tx))
  {
    var debited := balances[tx.sender := AmountOf(balances, tx.sender) - tx.amount - tx.fee];
    var after := debited[tx.recipient := AmountOf(debited, tx.recipient) + tx.amount];
    assert Get(m, tx.sender) == Account(AmountOf(balances, tx.sender), AmountOf(nonces, tx.sender));
    forall a: Address
      ensures Get(Transfer(m, tx), a) == Account(AmountOf(after, a), AmountOf(nonces[tx.sender := tx.nonce], a))
    {
      assert Get(m, a) == Account(AmountOf(balances, a), AmountOf(nonces, a));
    }
  }

  lemma TransfersStep(m: Accounts, txs: seq<Tx>, i: nat)
    requires i < |txs|
    ensures Transfers(m, txs[..i + 1]) == Transfer(Transfers(m, txs[..i]), txs[i])
    ensures FeeSum(txs[..i + 1]) == FeeSum(txs[..i]) + txs[i].fee
  {
    assert txs[..i + 1][..i] == txs[..i];
  }

  lemma AuditedStep(m: Accounts, txs: seq<Tx>, i: nat)
    requires i < |txs|
    ensures TxsAudited(m, txs[..i + 1]) <==> TxsAudited(m, txs[..i]) && TxAudited(Transfers(m, txs[..i]), txs[i])
    ensures TxsAudited(m, txs) ==> TxsAudited(m, txs[..i + 1])
  {
    hide TxAudited, Transfers;
    assert forall j :: 0 <= j <= i ==> txs[..i + 1][..j] == txs[..j] && txs[..i + 1][j] == txs[j];
    assert forall j :: 0 <= j < i ==> txs[..i][..j] == txs[..j] && txs[..i][j] == txs[j];
    if TxsAudited(m, txs[..i + 1]) {
      assert TxAudited(Transfers(m, txs[..i + 1][..i]), txs[..i + 1][i]);
    }
  }

  method AuditTxs(balances: map<Address, int>, nonces: map<Address, int>, txs: seq<Tx>, height: int, ghost m: Accounts)
    returns (verdict: Verdict, newBalances: map<Address, int>, newNonces: map<Address, int>, fees: int)
    requires Books(balances, nonces, m)
    ensures verdict.Sound? <==> TxsAudited(m, txs)
    ensures verdict.Sound? ==> Books(newBalances, newNonces, Transfers(m, txs)) && fees == FeeSum(txs)
  {
    newBalances, newNonces, fees := balances, nonces, 0;
    assert Transfers(m, txs[..0]) == m && FeeSum(txs[..0]) == 0;
    hide Books, Transfers, TxAudited, TxsAudited, FeeSum;
    for i := 0 to |txs|
      invariant Books(newBalances, newNonces, Transfers(m, txs[..i])) && fees == FeeSum(txs[..i])
      invariant TxsAudited(m, txs[..i])
    {
      var tx := txs[i];
      TransfersStep(m, txs, i);
      AuditedStep(m, txs, i);
      BooksTransfer(newBalances, newNonces, Transfers(m, txs[..i]), tx);
      if tx.nonce != AmountOf(newNonces, tx.sender) + 1 {
        return NonceGap(height), newBalances, newNonces, fees;
      }
      newBalances := newBalances[tx.sender := AmountOf(newBalances, tx.sender) - tx.amount - tx.fee];
      if newBalances[tx.sender] < 0 {
        return NegativeBalance(height), newBalances, newNonces, fees;
      }
      newNonces := newNonces[tx.sender := tx.nonce];
      newBalances := newBalances[tx.recipient := AmountOf(newBalances, tx.recipient) + tx.amount];
      fees := fees + tx.fee;
    }
    assert txs[..|txs|] == txs;
    verdict := Sound;
  }

  function GenesisBalances(allocations: seq<(Address, int)>): map<Address, int> {
    if allocations == [] then map[]
    else GenesisBalances(allocations[..|allocations| - 1])[allocations[|allocations| - 1].0 := allocations[|allocations| - 1].1]
  }

  lemma {:induction false} GenesisBooks(allocations: seq<(Address, int)>)
    ensures Books(GenesisBalances(allocations), map[], GenesisAccounts(allocations))
  {
    if allocations != [] {
      var before, last := allocations[..|allocations| - 1], allocations[|allocations| - 1];
      GenesisBooks(before);
      var balances, m := GenesisBalances(allocations), GenesisAccounts(allocations);
      forall a: Address
        ensures Get(m, a) == Account(AmountOf(balances, a), 0)
      {
        assert Get(GenesisAccounts(before), a) == Account(AmountOf(GenesisBalances(before), a), AmountOf(map[], a));
      }
    }
  }

  lemma RebuildStep(p: Params, rows: seq<Row>, k: nat)
    requires 1 <= k < |rows| && rows[k].block.coinbase.Some?
    ensures
      var before, b := Rebuild(p, rows[..k]), rows[k].block;
      && Rebuild(p, rows[..k + 1]) == before + [RowOf(p, before, b)]
      && Replay(p, Rebuild(p, rows[..k + 1]))
         == Pay(Transfers(Replay(p, before), b.txs), b.coinbase.value.recipient,
                SubsidyFor(p, Minted(p, before)) + FeeSum(b.txs))
      && Minted(p, Rebuild(p, rows[..k + 1])) == Minted(p, before) + SubsidyFor(p, Minted(p, before))
      && Rebuild(p, rows[..k + 1])[k].totalWork == before[k - 1].totalWork + b.difficulty
  {
    hide Replay, Minted, Pay, Transfers, FeeSum, SubsidyFor;
    assert rows[..k + 1][..k] == rows[..k];
    var before, b := Rebuild(p, rows[..k]), rows[k].block;
    var all := before + [RowOf(p, before, b)];
    assert all[..|all| - 1] == before;
    ReplayStep(p, all);
  }

  method AuditAccounts(st: Store, balances: map<Address, int>, nonces: map<Address, int>, ghost m: Accounts)
    returns (verdict: Verdict)
    requires Books(balances, nonces, m)
    ensures verdict.Sound? <==> forall a :: a in m ==> Get(st.accounts, a) == m[a]
  {
    var todo := balances.Keys;
    while todo != {}
      invariant todo <= balances.Keys
      invariant forall a :: a in balances && a !in todo ==> Get(st.accounts, a) == m[a]
      decreases |todo|
    {
      var a :| a in todo;
      assert Get(m, a) == Account(AmountOf(balances, a), AmountOf(nonces, a));
      if Get(st.accounts, a) != Account(balances[a], AmountOf(nonces, a)) {
        return AccountMismatch(a);
      }
      todo := todo - {a};
    }
    verdict := Sound;
  }

  /** The audit accepts exactly the tables that follow from their blocks. Heights are the primary key of
      the blocks table, and opening a database already insists on a block at height 0. */
  method VerifyIntegrity(p: Params, st: Store) returns (verdict: Verdict)
    requires ValidParams(p) && st.rows != [] && st.rows[0].block.height == 0
    requires forall i, j :: 0 <= i < j < |st.rows| ==> st.rows[i].block.height < st.rows[j].block.height
    ensures verdict.Sound? <==> Audited(p, st)
  {
    hide WellFormedBlock, Replay, Minted, ExpectedDifficulty, CoinbaseOk, Transfers, TxsAudited, GenesisBalances,
         GenesisAccounts, FeeSum, SubsidyFor, AllocationSum, Rebuild, Books, Settled;
    var rows := st.rows;
    if rows[0].block.hash != GenesisHash(p) {
      return GenesisMismatch;
    }
    var prev := rows[0].block;
    var minted, work := AllocationSum(p.genesisAllocations), 0;
    var balances, nonces: map<Address, int> := GenesisBalances(p.genesisAllocations), map[];
    GenesisBooks(p.genesisAllocations);
    ghost var m := GenesisAccounts(p.genesisAllocations);
    RebuildGenesis(p, rows);
    for k := 1 to |rows|
      invariant prev == rows[k - 1].block
      invariant m == Replay(p, Rebuild(p, rows[..k])) && Books(balances, nonces, m)
      invariant minted == Minted(p, Rebuild(p, rows[..k]))
      invariant work == Rebuild(p, rows[..k])[k - 1].totalWork
      invariant forall j :: 1 <= j < k ==> RowAudited(p, st, j)
    {
      var r := rows[k];
      var b := r.block;
      assert !RowAudited(p, st, k) ==> !Audited(p, st);
      var expected := ExpectedDifficulty(p, st, prev);
      if expected.None? {
        return Unevaluable;
      }
      if !WellFormedBlock(p, b) || b.difficulty != expected.value {
        return Malformed;
      }
      if b.previous != prev.hash || b.height != prev.height + 1 {
        return BrokenLink(b.height);
      }
      work := work + b.difficulty;
      if r.totalWork != work {
        return WorkMismatch(b.height);
      }
      var subsidy := SubsidyFor(p, minted);
      var outcome, newBalances, newNonces, fees := AuditTxs(balances, nonces, b.txs, b.height, m);
      if !outcome.Sound? {
        return outcome;
      }
      if !CoinbaseOk(p, b, subsidy, fees) {
        return WrongCoinbase(b.height);
      }
      CoinbaseFacts(p, b, subsidy, fees);
      var cb := b.coinbase.value;
      RebuildStep(p, rows, k);
      PayBooks(newBalances, newNonces, Transfers(m, b.txs), cb.recipient, cb.amount);
      m := Pay(Transfers(m, b.txs), cb.recipient, cb.amount);
      balances := newBalances[cb.recipient := AmountOf(newBalances, cb.recipient) + cb.amount];
      nonces := newNonces;
      minted := minted + subsidy;
      prev := b;
    }
    assert rows[..|rows|] == rows;
    SettledIs(p, st);
    if minted != st.minted {
      return SupplyMismatch;
    }
    verdict := AuditAccounts(st, balances, nonces, m);
  }

  lemma SettledIs(p: Params, st: Store)
    ensures
      var m := Replay(p, Rebuild(p, st.rows));
      Settled(p, st) <==>
        st.minted == Minted(p, Rebuild(p, st.rows)) && forall a :: a in m ==> Get(st.accounts, a) == m[a]
  {
    hide Replay, Minted, Rebuild;
  }

  lemma CoinbaseFacts(p: Params, b: Block, subsidy: int, fees: int)
    requires CoinbaseOk(p, b, subsidy, fees)
    ensures b.coinbase.Some? && b.coinbase.value.amount == subsidy + fees
  {}

  lemma RebuildGenesis(p: Params, rows: seq<Row>)
    requires rows != []
    ensures
      var r := Rebuild(p, rows[..1]);
      && r == [GenesisRow(p)] && r[0].totalWork == 0
      && Replay(p, r) == GenesisAccounts(p.genesisAllocations) && Minted(p, r) == AllocationSum(p.genesisAllocations)
  {
    hide GenesisAccounts, AllocationSum;
    ReplayStep(p, Rebuild(p, rows[..1]));
  }

  lemma PayBooks(balances: map<Address, int>, nonces: map<Address, int>, m: Accounts, to: Address, amount: int)
    requires Books(balances, nonces, m)
    ensures Books(balances[to := AmountOf(balances, to) + amount], nonces, Pay(m, to, amount))
  {
    forall a: Address
      ensures Get(Pay(m, to, amount), a)
           == Account(AmountOf(balances[to := AmountOf(balances, to) + amount], a), AmountOf(nonces, a))
    {
      assert Get(m, a) == Account(AmountOf(balances, a), AmountOf(nonces, a));
      assert Get(m, to) == Account(AmountOf(balances, to), AmountOf(nonces, to));
    }
  }

  // ---------------------------------------------------------------- it never raises

  lemma {:induction false} RebuildIsChain(p: Params, rows: seq<Row>)
    requires ValidParams(p) && ValidRows(p, rows)
    ensures Rebuild(p, rows) == rows
  {
    hide Extends, Minted, FeeSum, SubsidyFor;
    if |rows| > 1 {
      var before, r := rows[..|rows| - 1], rows[|rows| - 1];
      RebuildIsChain(p, before);
      LastRow(p, rows);
      assert rows == before + [r];
    }
  }

  lemma TxsPassAudit(p: Params, rows: seq<Row>, b: Block)
    requires ValidParams(p) && ValidRows(p, rows) && Extends(p, rows, b)
    ensures TxsAudited(Replay(p, rows), b.txs)
  {
    var m, immature := Replay(p, rows), Immature(p, rows, b.height);
    hide ValidRows, Replay, Immature, Transfers;
    forall i | 0 <= i < |b.txs|
      ensures TxAudited(Transfers(m, b.txs[..i]), b.txs[i])
    {
      CheckTxsPrefix(m, immature, b.txs, IndexOf(rows).Keys, i);
      BalanceCoversImmature(p, rows, b.txs[i].sender);
    }
  }

  lemma RowPasses(p: Params, st: Store, k: nat)
    requires ValidParams(p) && ChainInv(p, st) && TableFacts.SideInv(p, st) && 1 <= k < |st.rows|
    ensures RowAudited(p, st, k)
  {
    hide *;
    ChainInvParts(p, st);
    var rows, b := st.rows, st.rows[k].block;
    ValidAt(p, rows, k);
    RebuildIsChain(p, rows[..k]);
    TxsPassAudit(p, rows[..k], b);
    ExtendsParts(p, rows[..k], b);
    RowsLinked(p, rows, k);
    RowsLinked(p, rows, k - 1);
    RowAnchored(st, k - 1);
    HeightIs(rows[k - 1].block);
    ExpectedDifficultyExact(p, st, rows[k - 1].block);
    RowWork(p, rows[..k], b);
    RowAuditedBuild(p, st, k);
  }

  lemma RowWork(p: Params, rows: seq<Row>, b: Block)
    requires rows != [] && b.coinbase.Some?
    ensures RowOf(p, rows, b).totalWork == rows[|rows| - 1].totalWork + b.difficulty
  {}

  lemma RowAnchored(st: Store, k: nat)
    requires k < |st.rows|
    ensures Anchored(st, st.rows[k].block.hash)
  {}

  lemma ExtendsParts(p: Params, rows: seq<Row>, b: Block)
    requires ValidParams(p) && rows != [] && Extends(p, rows, b)
    ensures WellFormedBlock(p, b) && b.height == |rows| && b.previous == rows[|rows| - 1].block.hash
    ensures b.difficulty == Expected(p, b.previous) && b.coinbase.Some?
    ensures CoinbaseOk(p, b, SubsidyFor(p, Minted(p, rows)), FeeSum(b.txs))
  {
    hide Mtp, CheckTxs;
  }

  lemma RowAuditedBuild(p: Params, st: Store, k: nat)
    requires ValidParams(p) && 1 <= k < |st.rows|
    requires
      var prev, r, before := st.rows[k - 1].block, st.rows[k], Rebuild(p, st.rows[..k]);
      && ExpectedDifficulty(p, st, prev) == Some(r.block.difficulty) && WellFormedBlock(p, r.block)
      && r.block.previous == prev.hash && r.block.height == prev.height + 1
      && r.totalWork == before[k - 1].totalWork + r.block.difficulty
      && TxsAudited(Replay(p, before), r.block.txs)
      && CoinbaseOk(p, r.block, SubsidyFor(p, Minted(p, before)), FeeSum(r.block.txs))
    ensures RowAudited(p, st, k)
  {
    hide WellFormedBlock, TxsAudited, CoinbaseOk, Rebuild, ExpectedDifficulty, Replay, Minted;
  }

  /** Tables in the invariant pass the audit. */
  lemma InvariantPassesAudit(p: Params, st: Store)
    requires ValidParams(p) && ChainInv(p, st) && TableFacts.SideInv(p, st)
    ensures st.rows != [] && st.rows[0].block.height == 0 && Audited(p, st)
    ensures forall i, j :: 0 <= i < j < |st.rows| ==> st.rows[i].block.height < st.rows[j].block.height
  {
    hide ChainInv, TableFacts.SideInv, RowAudited, Replay, Minted, ValidRows, WellFormedBlock, Rebuild;
    ChainInvParts(p, st);
    RebuildIsChain(p, st.rows);
    ValidGenesis(p, st.rows);
    forall k | 1 <= k < |st.rows|
      ensures RowAudited(p, st, k)
    {
      RowPasses(p, st, k);
    }
    forall k | 0 <= k < |st.rows|
      ensures st.rows[k].block.height == k
    {
      RowsLinked(p, st.rows, k);
    }
    var m := Replay(p, st.rows);
    forall a | a in m
      ensures Get(st.accounts, a) == m[a]
    {
      ReadAgrees(st.accounts, m, a);
    }
  }

  /** The audit never raises, whatever transactions and blocks the node has handled. */
  lemma AuditNeverRaises(p: Params, steps: seq<Step>)
    requires ValidParams(p)
    ensures
      var st := Run(p, steps).store;
      && st.rows != [] && st.rows[0].block.height == 0 && Audited(p, st)
      && forall i, j :: 0 <= i < j < |st.rows| ==> st.rows[i].block.height < st.rows[j].block.height
  {
    hide *;
    InvParts(p, Run(p, steps));
    InvariantPassesAudit(p, Run(p, steps).store);
  }
}
