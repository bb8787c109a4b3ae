/** Single deliveries spelled out: on the tip, off the tip, and with nothing to adopt. */
module Deliveries {
  import opened Types
  import opened Headers
  import opened Chain
  import opened Tables
  import opened TableFacts
  import opened Mempool
  import opened MempoolFacts
  import opened Connecting
  import opened Branches
  import opened Node
  import opened NodeFacts
  import opened Adoption
  import opened Universe
  import opened RegimeFacts
  import opened Limits
  import opened Convergence

  lemma NoChildren(h: Hash)
    ensures ChildrenOf([], h) == []
  {}

  lemma NothingToAdopt(p: Params, s: State, h: Hash, now: int)
    requires ValidParams(p) && Inv(p, s) && s.orphans == [] && Known(OrphanHashes(s.orphans), s.orphans)
    ensures Adopt(p, s, OrphanHashes(s.orphans), [h], now).0 == s
  {
    hide *;
    var W := OrphanHashes(s.orphans);
    NoChildren(h);
    AdoptStep(p, s, W, [h], now);
    AdoptChildrenStep(p, s, [], now);
    assert [h][..0] + [] == [];
    AdoptStep(p, s, W, [], now);
  }

  /** Without orphans a delivery is just the processing of the block. */
  lemma DeliverAlone(p: Params, s: State, b: Block, now: int)
    requires ValidParams(p) && Inv(p, s) && ChainInv(p, s.store) && SideInv(p, s.store)
    requires Process(p, s, b, now).0.orphans == []
    ensures ProcessBlock(p, s, b, now).0 == Process(p, s, b, now).0
  {
    hide *;
    ProcessBlockStep(p, s, b, now);
    var r := Process(p, s, b, now);
    if r.1.Done? && Kept(r.1.status) {
      NothingToAdopt(p, r.0, r.1.hash, now);
    }
  }

  /** A new block on the tip extends the chain. */
  lemma TipDelivery(p: Params, U: Blocks, s: State, b: Block, now: int)
    requires ValidParams(p) && ValidUniverse(p, U) && OnCourse(p, U, s) && Holds(U, b)
    requires Timely(p, U, s, now) && OnTime(p, b, now) && ChainInv(p, s.store) && SideInv(p, s.store)
    requires s.store.rows != [] && !KnownTo(s, b.hash) && b.previous == TipHash(s.store)
    ensures
      var r := Process(p, s, b, now);
      && r.1 == Done(Extended, b.hash, 0, 0) && r.0.orphans == s.orphans
      && r.0.store.mempool <= s.store.mempool && (forall h :: h in r.0.store.side ==> h in s.store.side)
      && |r.0.store.rows| == |s.store.rows| + 1 && r.0.store.rows[..|s.store.rows|] == s.store.rows
      && r.0.store.rows[|s.store.rows|].block == b
  {
    hide *;
    var st := s.store;
    TipStored(st);
    UnfoldProcess(p, U, s, b, now);
    CourseParts(p, U, s);
    RegimeParts(p, U, st);
    HoldsParts(U, b);
    HomeParts(p, U, b.hash);
    ParentPasses(p, U, st, b);
    PlaceCases(p, s, b, now);
    ExtendChain(p, U, st, b, now);
    ExtendTipKeeps(p, st, b, now);
    ExtendTipShrinks(p, st, b, now);
    RowOfIs(p, st.rows, b);
  }

  lemma ExtendTipShrinks(p: Params, st: Store, b: Block, now: int)
    requires ValidParams(p) && StoreInv(p, st) && st.rows != [] && ExtendTip(p, st, b, now).Ok?
    requires WellFormedBlock(p, b) && b.previous == TipHash(st) && b.difficulty == Expected(p, b.previous)
    ensures ExtendTip(p, st, b, now).value.mempool <= st.mempool
  {
    hide *;
    StoreInvParts(p, st);
    ExtendTipParts(p, st, b, now);
    ConnectParts(p, st, b, now, TipWork(st) + b.difficulty);
    ConnectKeepsInv(p, st, b, now, TipWork(st) + b.difficulty);
    var next := Connect(p, st, b, now, TipWork(st) + b.difficulty).value;
    var cleared := next.(mempool := next.mempool - TxSet(b.txs));
    PruneParts(p, cleared);
    ChainInvIgnoresPool(p, next, Prune(p, cleared).mempool);
    SideInvSame(p, st, Prune(p, cleared));
    HousekeepingKeeps(p, Prune(p, cleared));
  }

  /** A new block off the tip: kept aside, or switched to when it is heavier. */
  lemma SideDelivery(p: Params, U: Blocks, s: State, b: Block, now: int) returns (stored: Store)
    requires ValidParams(p) && ValidUniverse(p, U) && OnCourse(p, U, s) && Holds(U, b)
    requires Timely(p, U, s, now) && OnTime(p, b, now) && ChainInv(p, s.store) && SideInv(p, s.store)
    requires s.store.rows != [] && !ForksTooDeep(p, s.store, b) && !KnownTo(s, b.hash) && b.previous != TipHash(s.store)
    requires Stored(s.store.rows, s.store.side, b.previous)
    ensures stored.rows == s.store.rows && stored.accounts == s.store.accounts && stored.mempool == s.store.mempool
    ensures StoreInv(p, stored) && b.hash in stored.side && WithStore(s, stored).store == stored
    ensures ChainInv(p, stored) && SideInv(p, stored)
    ensures
      var r := Process(p, s, b, now);
      && r.1.Done? && Kept(r.1.status) && r.0.orphans == s.orphans
      && (Work(p, b.hash) > TipWork(s.store) ==> r == Reorganize(p, WithStore(s, stored), b.hash, now))
      && (Work(p, b.hash) <= TipWork(s.store) ==>
            r.0.store.rows == s.store.rows && r.0.store.mempool == s.store.mempool
            && r.0.store.accounts == s.store.accounts)
  {
    hide *;
    var st, total := s.store, Work(p, b.hash);
    stored := SideAdd(st, b, total, now);
    KnownParts(s, b.hash);
    PlaceOutcome(p, U, s, b, now);
    PlacedParts(p, U, s, b, Process(p, s, b, now));
    UnfoldProcess(p, U, s, b, now);
    CourseParts(p, U, s);
    RegimeParts(p, U, st);
    ParentPasses(p, U, st, b);
    KnownParts(s, b.hash);
    StoredParts(st.rows, st.side, b.hash);
    NewSideRow(p, st, b, now);
    StoreInvParts(p, stored);
    SideAddParts(st, b, total, now);
    WithStoreParts(s, stored);
    WithStoreParts(s, Housekeeping(p, stored));
    StoreSideCases(p, s, b, now, stored);
    PlaceCases(p, s, b, now);
    HousekeepingKeeps(p, stored);
  }

  // ---------------------------------------------------------------- refused for time

  lemma ParentCheckCodes(p: Params, st: Store, b: Block)
    requires ValidParams(p) && (FindRow(st.rows, b.previous).Some? || b.previous in st.side)
    ensures ParentCheck(p, st, b) != Some(BadTimestamp)
  {
    hide ExpectedDifficulty, FindRow;
  }

  /** A branch refused because one of its blocks is from the future: the delivered block stays behind as a side
      row, nothing is adopted, and so the orphans that were waiting for it are stranded beside it - until it is
      delivered again, which attempts the switch anew. */
  lemma RefusedForTime(p: Params, s: State, b: Block, now: int, later: int)
    requires ValidParams(p) && Inv(p, s) && ChainInv(p, s.store) && SideInv(p, s.store) && s.store.rows != []
    requires !KnownTo(s, b.hash) && b.previous != TipHash(s.store)
    requires Process(p, s, b, now).1 == Rejected(BadTimestamp)
    ensures
      var r := Process(p, s, b, now);
      && ProcessBlock(p, s, b, now) == r && r.0.orphans == s.orphans && r.0.store.rows == s.store.rows
      && b.hash in r.0.store.side && Stranded(r.0, []) == Stranded(s, []) + WaitingFor(s, b.hash)
      && ChainInv(p, r.0.store) && SideInv(p, r.0.store)
      && Process(p, r.0, b, later) == Reorganize(p, r.0, b.hash, later)
  {
    hide *;
    var st, r := s.store, Process(p, s, b, now);
    OrphanCap(p);
    InvStore(p, s);
    KnownParts(s, b.hash);
    StoredParts(st.rows, st.side, b.hash);
    ProcessUnfold(p, s, b, now);
    ProcessBlockStep(p, s, b, now);
    ParentCheckCodes(p, st, b);
    PlaceCases(p, s, b, now);
    NewSideRow(p, st, b, now);
    StoreInvParts(p, st);
    var total := ParentWork(st, b.previous) + b.difficulty;
    var stored := SideAdd(st, b, total, now);
    SideAddParts(st, b, total, now);
    StoreInvParts(p, stored);
    WithStoreParts(s, stored);
    WithStoreParts(s, Housekeeping(p, stored));
    StoreSideCases(p, s, b, now, stored);
    RefusedReorganizeLeavesNoTrace(p, WithStore(s, stored), b.hash, now);
    TipParts(st);
    TipParts(stored);
    GainedSide(st, stored, b.hash);
    StrandedMined(s, r.0, b.hash);
    ProcessUnfold(p, r.0, b, later);
  }
}
