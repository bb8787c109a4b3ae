/** Every run of a node: transactions, mined blocks and network blocks in any order, from genesis. */
module Runs {
  import opened Types
  import opened Ledger
  import opened Headers
  import opened Chain
  import opened ChainFacts
  import opened Tables
  import opened TableFacts
  import opened HeaderWalk
  import opened Mempool
  import opened MempoolFacts
  import opened Flows
  import opened Branches
  import opened Node
  import opened NodeFacts
  import opened Adoption

  datatype Step =
    | Submit(tx: Tx, now: int)
    | Mine(block: Block, now: int)
    | Deliver(block: Block, now: int)

  /** Stateless checks, then admission with the timestamp window. */
  ghost function SubmitTransaction(p: Params, s: State, tx: Tx, now: int): (r: (State, Option<Code>))
    requires s.store.rows != []
    ensures r.0 == s.(store := s.store.(mempool := r.0.store.mempool)) && (r.1.Some? ==> r.0 == s)
  {
    if !WellFormedTx(p, tx) then (s, Some(BadStructure))
    else
      var admitted := Admit(p, s.store, tx, now, true);
      if admitted.Refused? then (s, Some(admitted.code)) else (s.(store := admitted.value), None)
  }

  /** The strict path of the local miner: the block must extend the tip. */
  ghost function SubmitMined(p: Params, s: State, b: Block, now: int): (State, Outcome)
    requires ValidParams(p) && s.store.rows != []
  {
    var st := s.store;
    var expected := ExpectedDifficulty(p, st, TipRow(st).block);
    if expected.None? then (s, Rejected(Incomplete))
    else if !WellFormedBlock(p, b) then (s, Rejected(BadStructure))
    else if b.difficulty != expected.value then (s, Rejected(BadDifficulty))
    else if b.height != TipHeight(st) + 1 || b.previous != TipHash(st) then (s, Rejected(Stale))
    else
      var next := ExtendTip(p, st, b, now);
      if next.Refused? then (s, Rejected(next.code))
      else (s.(store := next.value), Done(Extended, b.hash, 0, 0))
  }

  lemma SubmitKeeps(p: Params, s: State, tx: Tx, now: int)
    requires ValidParams(p) && Inv(p, s)
    ensures s.store.rows != []
    ensures
      var r := SubmitTransaction(p, s, tx, now).0;
      Inv(p, r) && r.store == s.store.(mempool := r.store.mempool) && r.orphans == s.orphans
  {
    hide WellFormedTx, Admit, ChainInv, SideInv, MemInv, OrphansOk;
    StoreInvParts(p, s.store);
    if WellFormedTx(p, tx) && Admit(p, s.store, tx, now, true).Ok? {
      AdmitParts(p, s.store, tx, now, true);
      AdmitKeepsMemInv(p, s.store, tx, now, true);
      var after := Admit(p, s.store, tx, now, true).value;
      ChainInvIgnoresPool(p, s.store, after.mempool);
      SideInvSame(p, s.store, after);
      StoreInvParts(p, after);
    }
  }

  /** The tip's ancestry is always stored, so the strict path always knows the required difficulty. */
  lemma TipDifficulty(p: Params, st: Store)
    requires ValidParams(p) && ChainInv(p, st) && SideInv(p, st)
    ensures st.rows != [] && ExpectedDifficulty(p, st, TipRow(st).block) == Some(Expected(p, TipHash(st)))
  {
    hide *;
    ChainInvParts(p, st);
    TipParts(st);
    TipWorkIsWork(p, st);
    AnchoredTip(st);
    ExpectedDifficultyExact(p, st, TipRow(st).block);
  }

  lemma AnchoredTip(st: Store)
    requires st.rows != []
    ensures Anchored(st, TipHash(st))
  {
    assert st.rows[|st.rows| - 1].block.hash == TipHash(st);
  }

  lemma MinedKeeps(p: Params, s: State, b: Block, now: int)
    requires ValidParams(p) && Inv(p, s)
    ensures s.store.rows != []
    ensures
      var r := SubmitMined(p, s, b, now).0;
      && Inv(p, r) && r.store.rows != [] && TipWork(r.store) >= TipWork(s.store)
      && r.orphans == s.orphans
  {
    hide WellFormedBlock, ExtendTip, ChainInv, SideInv, MemInv, OrphansOk, ExpectedDifficulty, Expected, Extends,
         TipHash, TipWork, TipHeight;
    var st := s.store;
    StoreInvParts(p, st);
    TipDifficulty(p, st);
    if WellFormedBlock(p, b) && b.difficulty == Expected(p, TipHash(st)) && b.previous == TipHash(st)
       && ExtendTip(p, st, b, now).Ok? {
      ExtendTipKeeps(p, st, b, now);
      BlockDifficulty(p, b);
      StoreInvParts(p, ExtendTip(p, st, b, now).value);
    }
  }

  // ---------------------------------------------------------------- runs

  ghost function Take(p: Params, s: State, step: Step): State
    requires ValidParams(p) && Inv(p, s)
  {
    StoreInvParts(p, s.store);
    match step
    case Submit(tx, now) => SubmitTransaction(p, s, tx, now).0
    case Mine(b, now) => SubmitMined(p, s, b, now).0
    case Deliver(b, now) => ProcessBlock(p, s, b, now).0
  }

  /** Whatever the step, every invariant survives and the tip's work does not fall. */
  lemma TakeKeeps(p: Params, s: State, step: Step)
    requires ValidParams(p) && Inv(p, s)
    ensures
      var r := Take(p, s, step);
      Inv(p, r) && s.store.rows != [] && r.store.rows != [] && TipWork(r.store) >= TipWork(s.store)
  {
    hide Inv, SubmitTransaction, SubmitMined, ProcessBlock;
    match step
    case Submit(tx, now) => SubmitKeeps(p, s, tx, now);
    case Mine(b, now) => MinedKeeps(p, s, b, now);
    case Deliver(b, now) => ProcessBlockKeeps(p, s, b, now);
  }

  lemma {:induction false} ByNonceEmpty()
    ensures ByNonce({}) == []
  {}

  lemma InitialKeeps(p: Params)
    requires ValidParams(p)
    ensures Inv(p, InitialState(p))
  {
    hide ChainInv, SideInv, WellFormedTx;
    InitialInv(p);
    var st := InitialStore(p);
    forall a: Address
      ensures PendingOf(st.mempool, a) == {} && Queue(st.mempool, a) == []
      ensures QueueOk(Queue(st.mempool, a), Get(st.accounts, a).nonce, Spendable(p, st, a))
    {
      ByNonceEmpty();
      assert PendingOf(st.mempool, a) == {};
      SpendableNonNegative(p, st, a);
    }
    assert PoolOk(p, st.mempool);
  }

  ghost function Run(p: Params, steps: seq<Step>): (s: State)
    requires ValidParams(p)
    ensures Inv(p, s)
  {
    if steps == [] then
      InitialKeeps(p);
      InitialState(p)
    else
      TakeKeeps(p, Run(p, steps[..|steps| - 1]), steps[|steps| - 1]);
      Take(p, Run(p, steps[..|steps| - 1]), steps[|steps| - 1])
  }

  /** In every reachable state every table is the replay of the best chain from genesis: balances, nonces,
      minted supply, both indexes, undo rows and the work of every row. */
  lemma ReplayRefinement(p: Params, steps: seq<Step>)
    requires ValidParams(p)
    ensures
      var st := Run(p, steps).store;
      && ValidRows(p, st.rows) && Agree(st.accounts, Replay(p, st.rows)) && st.minted == Minted(p, st.rows)
      && st.index == IndexOf(st.rows) && st.addresses == AddressesOf(st.rows) && st.undos == UndosOf(p, st.rows)
      && forall k :: 0 <= k < |st.rows| ==> st.rows[k].totalWork == Work(p, st.rows[k].block.hash)
  {
    hide *;
    var st := Run(p, steps).store;
    InvParts(p, Run(p, steps));
    ChainInvParts(p, st);
    forall k | 0 <= k < |st.rows|
      ensures st.rows[k].totalWork == Work(p, st.rows[k].block.hash)
    {
      RowsLinked(p, st.rows, k);
    }
  }

  lemma InvParts(p: Params, s: State)
    requires ValidParams(p) && Inv(p, s)
    ensures ChainInv(p, s.store) && SideInv(p, s.store) && s.store.rows != [] && MemInv(p, s.store)
    ensures OrphansOk(p, s.orphans)
  {
    hide ChainInv, SideInv, MemInv, OrphansOk;
    StoreInvParts(p, s.store);
  }

  /** Over any run the work of the tip never falls. */
  lemma {:induction false} WorkNeverFalls(p: Params, steps: seq<Step>, k: nat)
    requires ValidParams(p) && k <= |steps|
    ensures
      var early, late := Run(p, steps[..k]), Run(p, steps);
      early.store.rows != [] && late.store.rows != [] && TipWork(early.store) <= TipWork(late.store)
    decreases |steps|
  {
    hide Inv, Take, TipWork;
    if k == |steps| {
      assert steps[..k] == steps;
      InvParts(p, Run(p, steps));
    } else {
      var before := steps[..|steps| - 1];
      assert before[..k] == steps[..k];
      WorkNeverFalls(p, before, k);
      TakeKeeps(p, Run(p, before), steps[|steps| - 1]);
    }
  }

  /** The ledger at every reachable state: balances sum to the minted supply, which has a closed form; every account
      is its allocation plus what the best chain paid to it minus what it spent there, its nonce the number of its
      transactions; every balance covers the rewards still withheld at the next height and stays below the cap. */
  lemma ReachableLedger(p: Params, steps: seq<Step>, a: Address)
    requires ValidParams(p)
    ensures
      var st := Run(p, steps).store;
      && st.rows != []
      && Total(st.accounts) == st.minted
      && st.minted == Min(p.maxSupply, AllocationSum(p.genesisAllocations) + (|st.rows| - 1) * p.blockReward)
      && 0 <= Locked(p, st.rows, a, |st.rows|) <= Get(st.accounts, a).balance <= p.maxSupply <= INT_MAX
      && Get(st.accounts, a)
         == Account(Allocated(p.genesisAllocations, a) + Income(st.rows, a) - Outlay(st.rows, a), Sent(st.rows, a))
  {
    hide *;
    var st := Run(p, steps).store;
    InvParts(p, Run(p, steps));
    LedgerFacts(p, st, a);
  }

  lemma LedgerFacts(p: Params, st: Store, a: Address)
    requires ValidParams(p) && ChainInv(p, st)
    ensures st.rows != [] && Total(st.accounts) == st.minted
    ensures st.minted == Min(p.maxSupply, AllocationSum(p.genesisAllocations) + (|st.rows| - 1) * p.blockReward)
    ensures 0 <= Locked(p, st.rows, a, |st.rows|) <= Get(st.accounts, a).balance <= p.maxSupply <= INT_MAX
    ensures Get(st.accounts, a)
         == Account(Allocated(p.genesisAllocations, a) + Income(st.rows, a) - Outlay(st.rows, a), Sent(st.rows, a))
  {
    hide *;
    ChainInvParts(p, st);
    var m := Replay(p, st.rows);
    SupplyConserved(p, st.rows);
    MintedClosedForm(p, st.rows);
    TotalAgrees(st.accounts, m);
    ReadAgrees(st.accounts, m, a);
    BalanceIsFlow(p, st.rows, a);
    BalanceCoversImmature(p, st.rows, a);
    forall b: Address
      ensures Get(m, b).balance >= 0
    {
      BalanceCoversImmature(p, st.rows, b);
    }
    RowsNonNegative(m);
    BalanceAtMostTotal(m, a);
    SupplyCap(p);
  }

  lemma SupplyCap(p: Params)
    requires ValidParams(p)
    ensures p.maxSupply <= INT_MAX
  {}

  lemma RowsNonNegative(m: Accounts)
    requires forall b: Address :: Get(m, b).balance >= 0
    ensures forall b :: b in m ==> m[b].balance >= 0
  {
    forall b | b in m
      ensures m[b].balance >= 0
    {
      assert Get(m, b).balance >= 0;
    }
  }

  lemma NextImmatureIs(p: Params, st: Store)
    requires st.rows != []
    ensures NextImmature(p, st) == Immature(p, st.rows, TipHeight(st) + 1)
  {}

  /** The pool at every reachable state: each sender's transactions continue its confirmed nonce without a
      gap, are jointly affordable from mature funds, are unconfirmed, and respect both caps. */
  lemma ReachableMempool(p: Params, steps: seq<Step>, a: Address)
    requires ValidParams(p)
    ensures
      var st := Run(p, steps).store;
      && st.rows != []
      && (forall t :: t in Queue(st.mempool, a) <==> t in st.mempool && t.sender == a)
      && (forall i :: 0 <= i < |Queue(st.mempool, a)| ==>
            Queue(st.mempool, a)[i].nonce == Get(st.accounts, a).nonce + 1 + i)
      && Spent(Queue(st.mempool, a), a) <= Get(st.accounts, a).balance - Locked(p, st.rows, a, |st.rows|)
      && |st.mempool| <= p.mempoolMaxTxs && |Queue(st.mempool, a)| <= p.mempoolMaxPerSender
      && (forall t :: t in st.mempool ==> WellFormedTx(p, t) && TxHash(t) !in st.index)
  {
    hide *;
    var st := Run(p, steps).store;
    InvParts(p, Run(p, steps));
    MemPoolFacts(p, st, a);
    SpendableNonNegative(p, st, a);
    NextImmatureIs(p, st);
    ChainInvParts(p, st);
    ImmatureIsLocked(p, st.rows, a, |st.rows|);
    CostIsSpent(Queue(st.mempool, a), a);
    forall t | t in st.mempool
      ensures TxHash(t) !in st.index
    {
      PendingNotConfirmed(p, st, t);
    }
  }

  lemma MemPoolFacts(p: Params, st: Store, a: Address)
    requires st.rows != [] && MemInv(p, st)
    ensures forall t :: t in Queue(st.mempool, a) <==> t in st.mempool && t.sender == a
    ensures forall i :: 0 <= i < |Queue(st.mempool, a)| ==>
      Queue(st.mempool, a)[i].nonce == Get(st.accounts, a).nonce + 1 + i
    ensures CostSum(Queue(st.mempool, a)) <= Get(st.accounts, a).balance - AmountOf(NextImmature(p, st), a)
    ensures |st.mempool| <= p.mempoolMaxTxs && |Queue(st.mempool, a)| <= p.mempoolMaxPerSender
    ensures forall t :: t in st.mempool ==> WellFormedTx(p, t)
  {
    hide WellFormedTx, CostSum, Immature;
    MemInvAt(p, st, a);
    QueueListing(st.mempool, a);
  }
}
