/** Validating and connecting a block on the current tip, and disconnecting and reconnecting branches. */
module Connecting {
  import opened Types
  import opened MedianTime
  import opened Ledger
  import opened Headers
  import opened Chain
  import opened ChainFacts
  import opened Tables
  import opened TableFacts

  /** The rows a block writes to the accounts table. */
  function ChangesOf(m: Accounts, txs: seq<Tx>, miner: Address, amount: int): Accounts {
    var after := Pay(Transfers(m, txs), miner, amount);
    map a | a in Touched(txs, miner) :: Get(after, a)
  }

  lemma {:induction false} TransfersKeys(m: Accounts, txs: seq<Tx>)
    ensures Transfers(m, txs).Keys == m.Keys + TouchedBy(txs)
    ensures forall a :: a in m && a !in TouchedBy(txs) ==> Transfers(m, txs)[a] == m[a]
  {
    if txs != [] {
      TransfersKeys(m, txs[..|txs| - 1]);
    }
  }

  /** Overlaying the touched rows is the same as performing every transfer. */
  lemma ChangesAreTransfers(m: Accounts, txs: seq<Tx>, miner: Address, amount: int)
    ensures m + ChangesOf(m, txs, miner, amount) == Pay(Transfers(m, txs), miner, amount)
  {
    TransfersKeys(m, txs);
    var left, right := m + ChangesOf(m, txs, miner, amount), Pay(Transfers(m, txs), miner, amount);
    assert left.Keys == right.Keys;
    forall a | a in left
      ensures left[a] == right[a]
    {}
  }

  function MtpOf(p: Params, st: Store): int
    requires ValidParams(p) && st.rows != []
  {
    Mtp(Timestamps(st.rows), p.mtpWindow)
  }

  /** Check a block against the state it would extend and write everything it changes; off the tip it is stale. */
  function Connect(p: Params, st: Store, b: Block, now: int, totalWork: int): Result<Store>
    requires ValidParams(p) && st.rows != []
  {
    if b.height != TipHeight(st) + 1 || b.previous != TipHash(st) then Refused(Stale)
    else if b.timestamp <= MtpOf(p, st) || b.timestamp > now + p.maxFutureSeconds then Refused(BadTimestamp)
    else
      var refusal := CheckTxs(st.accounts, Immature(p, st.rows, b.height), b.txs, st.index.Keys);
      var subsidy := SubsidyFor(p, st.minted);
      var fees := FeeSum(b.txs);
      if refusal.Some? then Refused(refusal.value)
      else if !CoinbaseOk(p, b, subsidy, fees) then Refused(BadCoinbase)
      else
        var cb := b.coinbase.value;
        Ok(ApplyBlock(st, b, cb.recipient, subsidy, fees,
                      ChangesOf(st.accounts, b.txs, cb.recipient, cb.amount),
                      UndoOf(st.accounts, Touched(b.txs, cb.recipient)),
                      st.minted + subsidy, totalWork))
  }

  /** Under the invariant a block connects exactly when it is a valid extension and not from the future;
      the code of a refusal tells the clock apart from everything else. */
  lemma ConnectExact(p: Params, st: Store, b: Block, now: int, totalWork: int)
    requires ValidParams(p) && ChainInv(p, st)
    requires b.height == TipHeight(st) + 1 && b.previous == TipHash(st)
    ensures Connect(p, st, b, now, totalWork).Ok? <==>
            StateRules(p, st.rows, b) && b.timestamp <= now + p.maxFutureSeconds
  {
    hide ValidRows, CheckTxs, Mtp, Immature, ApplyBlock, Agree, Replay, IndexOf, Minted, FeeSum, SubsidyFor;
    CheckTxsAgree(st.accounts, Replay(p, st.rows), Immature(p, st.rows, b.height), b.txs, st.index.Keys);
  }

  /** Connecting a block leaves side rows and mempool alone and appends one row. */
  lemma ConnectParts(p: Params, st: Store, b: Block, now: int, totalWork: int)
    requires ValidParams(p) && st.rows != [] && Connect(p, st, b, now, totalWork).Ok?
    ensures b.height == TipHeight(st) + 1 && b.previous == TipHash(st) && b.coinbase.Some?
    ensures
      var after := Connect(p, st, b, now, totalWork).value;
      && after.side == st.side && after.sideOrder == st.sideOrder && after.mempool == st.mempool
      && after.rows == st.rows + [Row(b, b.coinbase.value.recipient, SubsidyFor(p, st.minted), FeeSum(b.txs), totalWork)]
      && after == ApplyBlock(st, b, b.coinbase.value.recipient, SubsidyFor(p, st.minted), FeeSum(b.txs),
                      ChangesOf(st.accounts, b.txs, b.coinbase.value.recipient, b.coinbase.value.amount),
                      UndoOf(st.accounts, Touched(b.txs, b.coinbase.value.recipient)),
                      st.minted + SubsidyFor(p, st.minted), totalWork)
      && b.coinbase.value.amount == SubsidyFor(p, st.minted) + FeeSum(b.txs)
  {
    hide CheckTxs, Mtp, Immature, ChangesOf, UndoOf, Touched, FeeSum, SubsidyFor, BlockIndex, BlockAddresses;
  }

  /** Connecting keeps every table equal to its replay. */
  lemma ConnectKeepsInv(p: Params, st: Store, b: Block, now: int, totalWork: int)
    requires ValidParams(p) && ChainInv(p, st)
    requires WellFormedBlock(p, b) && b.previous == TipHash(st) && b.difficulty == Expected(p, b.previous)
    requires totalWork == TipWork(st) + b.difficulty
    requires Connect(p, st, b, now, totalWork).Ok?
    ensures
      var after := Connect(p, st, b, now, totalWork).value;
      && ChainInv(p, after) && Extends(p, st.rows, b) && after.rows == st.rows + [RowOf(p, st.rows, b)]
      && TipHash(after) == b.hash && TipWork(after) == totalWork && TipHeight(after) == b.height
  {
    hide *;
    ChainInvParts(p, st);
    ConnectParts(p, st, b, now, totalWork);
    ConnectExact(p, st, b, now, totalWork);
    TipParts(st);
    RowAmounts(p, st.rows, |st.rows| - 1);
    ExtendsBuild(p, st.rows, b);
    var cb := b.coinbase.value;
    ChangesAreTransfers(st.accounts, b.txs, cb.recipient, cb.amount);
    RowOfIs(p, st.rows, b);
    ApplyKeepsInv(p, st, b, ChangesOf(st.accounts, b.txs, cb.recipient, cb.amount));
    TipParts(Connect(p, st, b, now, totalWork).value);
  }

  lemma ExtendsBuild(p: Params, rows: seq<Row>, b: Block)
    requires ValidParams(p) && rows != [] && WellFormedBlock(p, b)
    requires b.height == |rows| && b.previous == rows[|rows| - 1].block.hash
    requires b.difficulty == Expected(p, b.previous) && StateRules(p, rows, b)
    ensures Extends(p, rows, b)
  {
    hide WellFormedBlock, StateRules;
  }

  lemma RowOfIs(p: Params, rows: seq<Row>, b: Block)
    requires rows != [] && b.coinbase.Some?
    ensures RowOf(p, rows, b) == Row(b, b.coinbase.value.recipient, SubsidyFor(p, Minted(p, rows)), FeeSum(b.txs),
                                     rows[|rows| - 1].totalWork + b.difficulty)
  {}

  // ---------------------------------------------------------------- undo inverts connect

  /** Connecting a block and disconnecting it again restores accounts, supply, both indexes, undo rows and
      tip; the block stays behind as a side row with its work, unless one was already stored. */
  lemma DisconnectUndoesConnect(p: Params, st: Store, b: Block, now: int, totalWork: int)
    requires ValidParams(p) && ChainInv(p, st)
    requires WellFormedBlock(p, b) && b.previous == TipHash(st) && b.difficulty == Expected(p, b.previous)
    requires totalWork == TipWork(st) + b.difficulty
    requires Connect(p, st, b, now, totalWork).Ok?
    ensures
      var after := Connect(p, st, b, now, totalWork).value;
      TipHeight(after) in after.undos
      && var back := DisconnectTip(after);
      && Agree(back.accounts, st.accounts) && back.minted == st.minted
      && back.index == st.index && back.addresses == st.addresses && back.undos == st.undos
      && back.rows == st.rows && back.mempool == st.mempool
      && (b.hash in st.side ==> back.side == st.side && back.sideOrder == st.sideOrder)
      && (b.hash !in st.side ==>
            back.side == st.side[b.hash := SideRow(b, totalWork, true, 0)]
            && back.sideOrder == st.sideOrder + [b.hash])
      && ChainInv(p, back)
  {
    hide *;
    ChainInvParts(p, st);
    ConnectKeepsInv(p, st, b, now, totalWork);
    ConnectParts(p, st, b, now, totalWork);
    var after := Connect(p, st, b, now, totalWork).value;
    DisconnectKeepsInv(p, after);
    DisconnectParts(after);
    TipParts(after);
    var back := DisconnectTip(after);
    assert after.rows[..|st.rows|] == st.rows;
    SameRowsSameTables(p, back, st);
  }

  /** The best chain determines every other chain table. */
  lemma SameRowsSameTables(p: Params, a: Store, b: Store)
    requires ValidParams(p) && ChainInv(p, a) && ChainInv(p, b) && a.rows == b.rows
    ensures Agree(a.accounts, b.accounts) && a.minted == b.minted
    ensures a.index == b.index && a.addresses == b.addresses && a.undos == b.undos
  {
    hide *;
    ChainInvParts(p, a);
    ChainInvParts(p, b);
    AgreeSymmetric(b.accounts, Replay(p, b.rows));
    AgreeTransitive(a.accounts, Replay(p, b.rows), b.accounts);
  }

  lemma AgreeSymmetric(m: Accounts, n: Accounts)
    requires Agree(m, n)
    ensures Agree(n, m)
  {
    forall a: Address
      ensures Get(n, a) == Get(m, a)
    {
      assert Get(m, a) == Get(n, a);
    }
  }
}
