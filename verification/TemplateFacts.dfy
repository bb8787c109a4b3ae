/** A node accepts the block it proposed, and connecting it costs no other pending transaction its place. */
module TemplateFacts {
  import opened Types
  import opened Merkle
  import opened MedianTime
  import opened Difficulty
  import opened Ledger
  import opened Headers
  import opened Chain
  import opened ChainFacts
  import opened Tables
  import opened TableFacts
  import opened Mempool
  import opened MempoolFacts
  import opened Context
  import opened Connecting
  import opened Branches
  import opened Node
  import opened NodeFacts
  import opened Adoption
  import opened Runs
  import opened Template

  datatype BlockTemplate = BlockTemplate(
    height: int, previous: Hash, merkle: Hash, timestamp: int, difficulty: int, coinbase: Coinbase, txs: seq<Tx>)

  /** What a miner sends back once it has found a nonce. */
  function Solve(t: BlockTemplate, nonce: int): Block {
    Block(t.height, t.previous, t.merkle, t.timestamp, t.difficulty, nonce,
          HeaderHash(t.height, t.previous, t.merkle, t.timestamp, t.difficulty, nonce), Some(t.coinbase), t.txs)
  }

  /** A template for the current tip: as many transactions as allowed, the higher fees first, the whole reward to the
      miner. */
  ghost predicate IsTemplate(p: Params, st: Store, miner: Address, now: int, t: BlockTemplate)
    requires ValidParams(p) && st.rows != []
  {
    && p.addressOk(miner)
    && t.height == TipHeight(st) + 1 && t.previous == TipHash(st)
    && t.timestamp == Max(now, MtpOf(p, st) + 1)
    && Some(t.difficulty) == ExpectedDifficulty(p, st, TipRow(st).block)
    && t.coinbase == ExpectedCoinbase(t.height, miner, SubsidyFor(p, st.minted), FeeSum(t.txs))
    && t.merkle == MerkleRoot([t.coinbase.txid] + TxIds(t.txs))
    && Selection(p, st, t.txs) && |t.txs| == Min(|st.mempool|, p.maxRegularTxs) && ByFees(st.mempool, t.txs)
  }

  /** Build a template; refused only for a malformed miner address. */
  method MiningTemplate(p: Params, st: Store, listing: seq<Tx>, miner: Address, now: int) returns (r: Result<BlockTemplate>)
    requires ValidParams(p) && ChainInv(p, st) && SideInv(p, st) && st.rows != [] && MemInv(p, st)
    requires ByPriority(listing, st.mempool)
    ensures !p.addressOk(miner) <==> r == Refused(BadStructure)
    ensures p.addressOk(miner) ==> r.Ok? && IsTemplate(p, st, miner, now, r.value)
  {
    hide ChainInv, SideInv, MemInv, Selection, MtpOf, Immature, ByPriority, ByFees, ExpectedDifficulty, ExpectedCoinbase, SubsidyFor, FeeSum,
         ValidParams;
    if !p.addressOk(miner) {
      return Refused(BadStructure);
    }
    TipDifficulty(p, st);
    var height := TipHeight(st) + 1;
    var mtp := MtpOf(p, st);
    var ctx := new TxContext(st.accounts, Immature(p, st.rows, height));
    var selected := SelectTxs(p, st, ctx, listing);
    var coinbase := ExpectedCoinbase(height, miner, SubsidyFor(p, st.minted), ctx.fees);
    var merkle := ComputeMerkleRoot([coinbase.txid] + TxIds(selected));
    var difficulty := ExpectedDifficulty(p, st, TipRow(st).block).value;
    r := Ok(BlockTemplate(height, TipHash(st), merkle, Max(now, mtp + 1), difficulty, coinbase, selected));
  }

  /** What a template leaves out: a sender's first pending transaction is missing only when the template is full, and
      then nothing in it pays less. */
  lemma LeftOutPaysLess(p: Params, st: Store, t: BlockTemplate, miner: Address, now: int, tx: Tx, u: Tx)
    requires ValidParams(p) && st.rows != [] && MemInv(p, st) && IsTemplate(p, st, miner, now, t)
    requires tx in st.mempool && tx.nonce == Get(st.accounts, tx.sender).nonce + 1 && tx !in t.txs && u in t.txs
    ensures |t.txs| == p.maxRegularTxs && u.fee >= tx.fee && (u.fee == tx.fee ==> u.timestamp <= tx.timestamp)
  {
    hide *;
    TemplateParts(p, st, miner, now, t);
    TemplateSize(p, st, miner, now, t);
    SelectionParts(p, st, t.txs);
    if |t.txs| == |st.mempool| {
      SelectedAll(st.mempool, t.txs, tx);
    }
    MemInvAt(p, st, tx.sender);
    PoolIsUnique(p, st.mempool);
    QueueListing(st.mempool, tx.sender);
    NextIsFront(p, st, tx);
    HigherFeesFirst(st.mempool, t.txs, tx, u);
  }

  /** A template is stamped with the earliest time that is neither before the clock nor refused by the median. */
  lemma TemplateStamp(p: Params, st: Store, t: BlockTemplate, miner: Address, now: int, stamp: int)
    requires ValidParams(p) && st.rows != [] && IsTemplate(p, st, miner, now, t)
    ensures t.timestamp >= now && t.timestamp > Mtp(Timestamps(st.rows), p.mtpWindow)
    ensures stamp >= now && stamp > Mtp(Timestamps(st.rows), p.mtpWindow) ==> t.timestamp <= stamp
  {
    hide *;
    TemplateParts(p, st, miner, now, t);
    MtpIs(p, st);
    LaterOf(now, MtpOf(p, st), 0);
    EarliestOf(now, MtpOf(p, st), stamp);
  }

  lemma EarliestOf(now: int, mtp: int, stamp: int)
    ensures Max(now, mtp + 1) >= now && (stamp >= now && stamp > mtp ==> Max(now, mtp + 1) <= stamp)
  {}

  lemma TemplateSize(p: Params, st: Store, miner: Address, now: int, t: BlockTemplate)
    requires ValidParams(p) && st.rows != [] && IsTemplate(p, st, miner, now, t)
    ensures |t.txs| == |st.mempool| || |t.txs| == p.maxRegularTxs
  {
    hide Selection, ByFees, ExpectedDifficulty, MtpOf;
  }

  lemma SelectedAll(pool: set<Tx>, txs: seq<Tx>, t: Tx)
    requires Distinct(txs) && (forall u :: u in txs ==> u in pool) && t in pool && t !in txs
    ensures |txs| != |pool|
  {
    var taken := set u | u in txs;
    ListingSize(txs, taken);
    SubsetSize(taken, pool - {t});
  }

  lemma NextIsFront(p: Params, st: Store, tx: Tx)
    requires Listing(Queue(st.mempool, tx.sender), PendingOf(st.mempool, tx.sender)) && tx in st.mempool && st.rows != []
    requires tx.nonce == Get(st.accounts, tx.sender).nonce + 1
    requires QueueOk(Queue(st.mempool, tx.sender), Get(st.accounts, tx.sender).nonce, Spendable(p, st, tx.sender))
    ensures Queue(st.mempool, tx.sender) != [] && Queue(st.mempool, tx.sender)[0] == tx
  {
    hide Queue, CostSum, Spendable;
    var q := Queue(st.mempool, tx.sender);
    assert tx in q;
    var i :| 0 <= i < |q| && q[i] == tx;
  }

  // ---------------------------------------------------------------- the stateless rules

  lemma {:induction false} BytesBound(p: Params, txs: seq<Tx>)
    requires forall i :: 0 <= i < |txs| ==> WellFormedTx(p, txs[i])
    ensures BytesSum(p, txs) <= |txs| * p.maxTxBytes
  {
    if txs != [] {
      BytesBound(p, txs[..|txs| - 1]);
      assert p.txBytes(txs[|txs| - 1]) <= p.maxTxBytes;
    }
  }

  /** The count limit implies the byte limit on every profile whose limits fit together. */
  lemma BytesFit(p: Params, txs: seq<Tx>, coinbase: Coinbase)
    requires (forall i :: 0 <= i < |txs| ==> WellFormedTx(p, txs[i])) && |txs| <= p.maxRegularTxs && p.maxTxBytes >= 0
    requires p.coinbaseBytes(coinbase) + p.maxRegularTxs * p.maxTxBytes <= p.maxBlockBytes
    ensures p.coinbaseBytes(coinbase) + BytesSum(p, txs) <= p.maxBlockBytes
  {
    BytesBound(p, txs);
    Difficulty.MulMonotone(|txs|, p.maxRegularTxs, p.maxTxBytes);
  }

  lemma ExpectedRange(p: Params, h: Hash)
    requires ValidParams(p) && Linked(p, h)
    ensures InRange(p, Expected(p, h)) && 1 <= Expected(p, h) <= MAX_DIFFICULTY
  {
    hide Linked, NextDifficulty;
    NextInRange(p, Line(h));
  }

  /** A solved template is a well-formed block. */
  lemma SolvedWellFormed(p: Params, st: Store, t: BlockTemplate, miner: Address, now: int, nonce: int)
    requires ValidParams(p) && ChainInv(p, st) && SideInv(p, st) && st.rows != [] && MemInv(p, st)
    requires IsTemplate(p, st, miner, now, t)
    requires 1 <= t.height <= INT_MAX && 0 <= t.timestamp <= INT_MAX && 0 <= nonce <= INT_MAX
    requires p.maxTxBytes >= 0 && p.coinbaseBytes(t.coinbase) + p.maxRegularTxs * p.maxTxBytes <= p.maxBlockBytes
    ensures t.difficulty >= 1 && t.difficulty == Expected(p, t.previous)
    ensures MeetsTarget(p, Solve(t, nonce).hash, t.difficulty) ==> WellFormedBlock(p, Solve(t, nonce))
  {
    TemplateParts(p, st, miner, now, t);
    hide ChainInv, SideInv, IsTemplate, Selection, MemInv, Linked, Expected, CheckTxs, PerSender, MerkleRoot, TipHash, WellFormedTx,
         ExpectedCoinbase;
    TipDifficulty(p, st);
    TipWorkIsWork(p, st);
    ExpectedRange(p, TipHash(st));
    SelectionParts(p, st, t.txs);
    PoolAmounts(p, st, t.txs);
    BytesFit(p, t.txs, t.coinbase);
  }

  lemma TemplateParts(p: Params, st: Store, miner: Address, now: int, t: BlockTemplate)
    requires ValidParams(p) && st.rows != [] && IsTemplate(p, st, miner, now, t)
    ensures p.addressOk(miner) && t.height == TipHeight(st) + 1 && t.previous == TipHash(st)
    ensures t.timestamp == Max(now, MtpOf(p, st) + 1)
    ensures Some(t.difficulty) == ExpectedDifficulty(p, st, TipRow(st).block)
    ensures t.coinbase == ExpectedCoinbase(t.height, miner, SubsidyFor(p, st.minted), FeeSum(t.txs))
    ensures t.merkle == MerkleRoot([t.coinbase.txid] + TxIds(t.txs))
    ensures Selection(p, st, t.txs) && |t.txs| <= p.maxRegularTxs && ByFees(st.mempool, t.txs)
  {
    hide Selection, ByFees, ExpectedDifficulty, MtpOf;
  }

  // ---------------------------------------------------------------- the state rules

  lemma {:induction false} NoneConfirmed(m: Accounts, immature: map<Address, int>, txs: seq<Tx>, confirmed: set<Hash>)
    requires CheckTxs(m, immature, txs, {}).None?
    requires forall t :: t in txs ==> TxHash(t) !in confirmed
    ensures CheckTxs(m, immature, txs, confirmed).None?
  {
    hide CheckTx, Transfers;
    if txs != [] {
      assert txs[|txs| - 1] in txs;
      NoneConfirmed(m, immature, txs[..|txs| - 1], confirmed);
    }
  }

  /** A selection passes the checks of the connecting block. */
  lemma SelectionChecks(p: Params, st: Store, txs: seq<Tx>)
    requires ValidParams(p) && ChainInv(p, st) && st.rows != [] && MemInv(p, st) && Selection(p, st, txs)
    ensures CheckTxs(Replay(p, st.rows), Immature(p, st.rows, |st.rows|), txs, IndexOf(st.rows).Keys).None?
    ensures forall i :: 0 <= i < |txs| ==> WellFormedTx(p, txs[i])
  {
    hide *;
    ChainInvParts(p, st);
    SelectionParts(p, st, txs);
    PoolAmounts(p, st, txs);
    NextImmatureIs(p, st);
    SpendableNonNegative(p, st, GENESIS_MINER);
    forall t | t in txs
      ensures TxHash(t) !in st.index
    {
      PendingNotConfirmed(p, st, t);
    }
    NoneConfirmed(st.accounts, NextImmature(p, st), txs, st.index.Keys);
    CheckTxsAgree(st.accounts, Replay(p, st.rows), NextImmature(p, st), txs, st.index.Keys);
  }

  lemma SolvedStateRules(p: Params, st: Store, t: BlockTemplate, miner: Address, now: int, nonce: int)
    requires ValidParams(p) && ChainInv(p, st) && st.rows != [] && MemInv(p, st) && IsTemplate(p, st, miner, now, t)
    requires t.height <= INT_MAX
    ensures StateRules(p, st.rows, Solve(t, nonce)) && t.height == |st.rows|
  {
    hide *;
    ChainInvParts(p, st);
    TemplateParts(p, st, miner, now, t);
    SelectionChecks(p, st, t.txs);
    SpendableNonNegative(p, st, GENESIS_MINER);
    SpendBounds(p, st.rows, t.txs, IndexOf(st.rows).Keys);
    SupplyCap(p);
    MtpIs(p, st);
    LaterOf(now, MtpOf(p, st), 0);
    var subsidy, fees := SubsidyFor(p, st.minted), FeeSum(t.txs);
    CoinbaseBuild(p, Solve(t, nonce), t.height, miner, subsidy, fees);
    SolveParts(t, nonce);
    CoinbaseBuild(p, Solve(t, nonce), t.height, miner, subsidy, fees);
    StateRulesBuild(p, st.rows, Solve(t, nonce));
  }

  lemma MtpIs(p: Params, st: Store)
    requires ValidParams(p) && st.rows != []
    ensures MtpOf(p, st) == Mtp(Timestamps(st.rows), p.mtpWindow)
  {}

  lemma LaterOf(now: int, mtp: int, slack: int)
    requires slack >= 0
    ensures Max(now, mtp + 1) > mtp && (Max(now, mtp + 1) <= now + slack <==> mtp < now + slack)
  {}

  lemma SolveParts(t: BlockTemplate, nonce: int)
    ensures
      var b := Solve(t, nonce);
      && b.height == t.height && b.previous == t.previous && b.timestamp == t.timestamp && b.txs == t.txs
      && b.coinbase == Some(t.coinbase) && b.difficulty == t.difficulty
  {}

  lemma CoinbaseBuild(p: Params, b: Block, height: int, miner: Address, subsidy: int, fees: int)
    ensures
      p.addressOk(miner) && b.height == height && b.coinbase == Some(ExpectedCoinbase(height, miner, subsidy, fees))
      && 0 <= height <= INT_MAX && 0 <= subsidy && 0 <= fees && subsidy + fees <= INT_MAX
      ==> CoinbaseOk(p, b, subsidy, fees)
  {}

  lemma StateRulesBuild(p: Params, rows: seq<Row>, b: Block)
    requires ValidParams(p) && rows != [] && b.height == |rows|
    requires b.timestamp > Mtp(Timestamps(rows), p.mtpWindow)
    requires CheckTxs(Replay(p, rows), Immature(p, rows, |rows|), b.txs, IndexOf(rows).Keys).None?
    requires CoinbaseOk(p, b, SubsidyFor(p, Minted(p, rows)), FeeSum(b.txs))
    ensures StateRules(p, rows, b)
  {
    hide Mtp, CheckTxs, Immature, Replay, IndexOf, CoinbaseOk;
  }

  /** Once proof of work is met, the node accepts its own template on the same state exactly when the
      timestamp is not too far in the future - on the clock the template was made with, exactly when the
      median of recent blocks is less than maxFutureSeconds ahead. */
  lemma TemplateAccepted(p: Params, s: State, t: BlockTemplate, miner: Address, now: int, nonce: int, later: int)
    requires ValidParams(p) && Inv(p, s) && s.store.rows != []
    requires IsTemplate(p, s.store, miner, now, t)
    requires 1 <= t.height <= INT_MAX && 0 <= t.timestamp <= INT_MAX && 0 <= nonce <= INT_MAX
    requires p.maxTxBytes >= 0 && p.coinbaseBytes(t.coinbase) + p.maxRegularTxs * p.maxTxBytes <= p.maxBlockBytes
    requires t.difficulty >= 1 && MeetsTarget(p, Solve(t, nonce).hash, t.difficulty)
    ensures SubmitMined(p, s, Solve(t, nonce), later).1.Done? <==> t.timestamp <= later + p.maxFutureSeconds
    ensures later == now ==>
      (SubmitMined(p, s, Solve(t, nonce), later).1.Done? <==> MtpOf(p, s.store) < now + p.maxFutureSeconds)
  {
    hide *;
    var st, b := s.store, Solve(t, nonce);
    InvParts(p, s);
    TemplateParts(p, st, miner, now, t);
    SolvedWellFormed(p, st, t, miner, now, nonce);
    SolvedStateRules(p, st, t, miner, now, nonce);
    SolveParts(t, nonce);
    ConnectExact(p, st, b, later, TipWork(st) + b.difficulty);
    ExtendTipParts(p, st, b, later);
    MinedCases(p, s, b, later);
    FuturePositive(p);
    LaterOf(now, MtpOf(p, st), p.maxFutureSeconds);
  }

  lemma FuturePositive(p: Params)
    requires ValidParams(p)
    ensures p.maxFutureSeconds >= 0
  {}

  lemma MinedCases(p: Params, s: State, b: Block, now: int)
    requires ValidParams(p) && s.store.rows != [] && WellFormedBlock(p, b)
    requires ExpectedDifficulty(p, s.store, TipRow(s.store).block) == Some(b.difficulty)
    requires b.height == TipHeight(s.store) + 1 && b.previous == TipHash(s.store)
    ensures
      var next, r := ExtendTip(p, s.store, b, now), SubmitMined(p, s, b, now);
      && (next.Ok? ==> r.1.Done? && r.0 == s.(store := next.value)) && (next.Refused? ==> r == (s, Rejected(next.code)))
  {
    hide ExtendTip, WellFormedBlock, ExpectedDifficulty;
  }

  // ---------------------------------------------------------------- the pool after connecting a template

  /** What connecting a checked block does to one account and its immature amount. */
  lemma ConnectedAccount(p: Params, st: Store, next: Store, b: Block, a: Address)
    requires ValidParams(p) && ChainInv(p, st) && ChainInv(p, next) && st.rows != [] && Extends(p, st.rows, b)
    requires b.coinbase.Some? && next.rows == st.rows + [RowOf(p, st.rows, b)]
    ensures next.rows != []
    ensures Get(next.accounts, a).nonce == Get(Transfers(st.accounts, b.txs), a).nonce
    ensures Spendable(p, next, a) >= Get(Transfers(st.accounts, b.txs), a).balance - AmountOf(NextImmature(p, st), a)
  {
    hide *;
    ChainInvParts(p, st);
    ChainInvParts(p, next);
    var r := RowOf(p, st.rows, b);
    assert next.rows[..|st.rows|] == st.rows;
    RowOfIs(p, st.rows, b);
    ReplayStep(p, next.rows);
    TransfersAgree(st.accounts, Replay(p, st.rows), b.txs);
    ReadAgrees(Transfers(st.accounts, b.txs), Transfers(Replay(p, st.rows), b.txs), a);
    ReadAgrees(next.accounts, Replay(p, next.rows), a);
    PayReads(Transfers(Replay(p, st.rows), b.txs), r.miner, r.subsidy + r.fees, a);
    ValidNumbered(p, next.rows);
    ImmatureStep(p, st.rows, r, a);
    SpendableIs(p, next, a);
    SpendableNonNegative(p, next, a);
    SpendableNonNegative(p, st, a);
    NextImmatureIs(p, st);
  }

  /** The rest of every queue is still in order and affordable after the selection is confirmed. */
  lemma RestStaysOk(p: Params, st: Store, next: Store, b: Block, a: Address)
    requires ValidParams(p) && ChainInv(p, st) && ChainInv(p, next) && st.rows != [] && Extends(p, st.rows, b)
    requires b.coinbase.Some? && next.rows == st.rows + [RowOf(p, st.rows, b)] && next.rows != []
    requires MemInv(p, st) && Selection(p, st, b.txs)
    ensures
      var pool := st.mempool - TxSet(b.txs);
      QueueOk(Queue(pool, a), Get(next.accounts, a).nonce, Spendable(p, next, a))
  {
    hide *;
    SelectionParts(p, st, b.txs);
    SenderState(p, st, b.txs, a);
    ConnectedAccount(p, st, next, b, a);
    var k, q, pool := |FromSender(b.txs, a)|, Queue(st.mempool, a), st.mempool - TxSet(b.txs);
    MemPool(p, st);
    PoolSubset(p, st.mempool, pool);
    PoolIsUnique(p, pool);
    RestListing(st.mempool, b.txs, a, q, k, Get(st.accounts, a).nonce);
    QueueIs(pool, a, q[k..]);
    assert q[..k] + q[k..] == q;
    CostSumSplit(q[..k], q[k..]);
    QueueOkBuild(q, k, Get(st.accounts, a).nonce, Spendable(p, next, a));
  }

  lemma QueueOkBuild(q: seq<Tx>, k: nat, nonce: int, spendable: int)
    requires k <= |q| && (forall i :: 0 <= i < |q| ==> q[i].nonce == nonce + 1 + i) && CostSum(q[k..]) <= spendable
    ensures QueueOk(q[k..], nonce + k, spendable)
  {
    hide CostSum;
  }

  lemma RestListing(all: set<Tx>, txs: seq<Tx>, a: Address, q: seq<Tx>, k: nat, nonce: int)
    requires k <= |q| && FromSender(txs, a) == q[..k]
    requires forall t :: t in q <==> t in all && t.sender == a
    requires forall i :: 0 <= i < |q| ==> q[i].nonce == nonce + 1 + i
    ensures Listing(q[k..], PendingOf(all - TxSet(txs), a))
  {
    forall t
      ensures t in q[k..] <==> t in PendingOf(all - TxSet(txs), a)
    {
      if t in q[k..] {
        var i :| k <= i < |q| && q[i] == t;
        assert forall j :: 0 <= j < k ==> q[j].nonce < t.nonce;
        assert t !in q[..k];
      }
      if t in PendingOf(all - TxSet(txs), a) {
        var i :| 0 <= i < |q| && q[i] == t;
        assert i >= k;
        assert q[k..][i - k] == t;
      }
    }
  }

  /** Connecting its own template, a node confirms exactly the selected transactions and prunes no other
      pending one. */
  lemma TemplateKeepsPool(p: Params, s: State, t: BlockTemplate, miner: Address, now: int, nonce: int, later: int)
    requires ValidParams(p) && Inv(p, s) && s.store.rows != []
    requires IsTemplate(p, s.store, miner, now, t)
    requires SubmitMined(p, s, Solve(t, nonce), later).1.Done?
    ensures SubmitMined(p, s, Solve(t, nonce), later).0.store.mempool == s.store.mempool - TxSet(t.txs)
  {
    hide *;
    var st, b := s.store, Solve(t, nonce);
    InvParts(p, s);
    TemplateParts(p, st, miner, now, t);
    SolveParts(t, nonce);
    DoneMeansExtended(p, s, b, later);
    TipDifficulty(p, st);
    var total := TipWork(st) + b.difficulty;
    ExtendTipParts(p, st, b, later);
    ConnectKeepsInv(p, st, b, later, total);
    ConnectParts(p, st, b, later, total);
    var next := Connect(p, st, b, later, total).value;
    var cleared := next.(mempool := next.mempool - TxSet(b.txs));
    ChainInvIgnoresPool(p, next, cleared.mempool);
    MemPool(p, st);
    PoolSubset(p, st.mempool, cleared.mempool);
    forall a: Address
      ensures QueueOk(Queue(cleared.mempool, a), Get(next.accounts, a).nonce, Spendable(p, next, a))
    {
      RestStaysOk(p, st, next, b, a);
    }
    MemInvBuild(p, next, cleared);
    PruneIdle(p, cleared);
    SideInvSame(p, st, cleared);
    HousekeepingKeeps(p, cleared);
  }

  lemma DoneMeansExtended(p: Params, s: State, b: Block, now: int)
    requires ValidParams(p) && s.store.rows != [] && SubmitMined(p, s, b, now).1.Done?
    ensures WellFormedBlock(p, b) && b.previous == TipHash(s.store)
    ensures ExpectedDifficulty(p, s.store, TipRow(s.store).block) == Some(b.difficulty)
    ensures ExtendTip(p, s.store, b, now).Ok?
    ensures SubmitMined(p, s, b, now).0 == s.(store := ExtendTip(p, s.store, b, now).value)
  {
    hide ExtendTip, WellFormedBlock, ExpectedDifficulty;
  }
}
