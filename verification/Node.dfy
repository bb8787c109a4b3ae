/** The steps of a node as functions of its state: transactions, mined blocks, network blocks. */
module Node {
  import opened Types
  import opened Ledger
  import opened Headers
  import opened Chain
  import opened Tables
  import opened TableFacts
  import opened SideFacts
  import opened Mempool
  import opened MempoolFacts
  import opened Connecting
  import opened Branches

  /** Persistent tables, the in-memory orphan pool (oldest first) and the reorganization counter. */
  datatype State = State(store: Store, orphans: seq<Block>, reorgs: nat)

  datatype Status = Extended | Reorganized | Side | Orphan | Duplicate

  datatype Outcome =
    | Done(status: Status, hash: Hash, disconnected: nat, connected: nat)
    | Rejected(code: Code)

  function InitialState(p: Params): State { State(InitialStore(p), [], 0) }

  /** Everything that holds of the tables between steps. */
  ghost predicate StoreInv(p: Params, st: Store)
    requires ValidParams(p)
  {
    ChainInv(p, st) && SideInv(p, st) && MemInv(p, st)
  }

  function Housekeeping(p: Params, st: Store): Store
    requires st.rows != []
  {
    SidePrune(st, Max(0, TipHeight(st) - p.maxReorgDepth - 1), p.maxSideBlocks)
  }

  /** Connect on the tip, drop what the block confirmed, prune the mempool. */
  ghost function ExtendTip(p: Params, st: Store, b: Block, now: int): Result<Store>
    requires ValidParams(p) && st.rows != []
  {
    var next := Connect(p, st, b, now, TipWork(st) + b.difficulty);
    if next.Refused? then next
    else
      ConnectParts(p, st, b, now, TipWork(st) + b.difficulty);
      Ok(Housekeeping(p, Prune(p, next.value.(mempool := next.value.mempool - TxSet(b.txs)))))
  }

  function Blocks(rows: seq<Row>): (r: seq<Block>)
    ensures |r| == |rows| && forall i :: 0 <= i < |r| ==> r[i] == rows[i].block
  {
    seq(|rows|, i requires 0 <= i < |rows| => rows[i].block)
  }

  function HashesOf(blocks: seq<Block>): set<Hash> { set b | b in blocks :: b.hash }

  /** Roll back to the fork, connect the branch, restore the mempool - or keep the old chain and remember
      which blocks failed (nothing when the refusal was only about time). */
  ghost function Switch(p: Params, s: State, path: seq<Block>, totals: seq<int>, fork: nat, now: int): (State, Outcome)
    requires ValidParams(p) && ChainInv(p, s.store) && SideInv(p, s.store)
    requires |path| == |totals| && fork < |s.store.rows|
  {
    var st := s.store;
    DisconnectToFacts(p, st, fork);
    var base := DisconnectTo(p, st, fork);
    var result := ConnectPath(p, base, path, totals, now);
    if result.FailedAt? then
      (if result.code == BadTimestamp then s
       else s.(store := SideMarkInvalid(st, HashesOf(path[result.index..]))),
       Rejected(result.code))
    else
      var gone := Blocks(st.rows[fork + 1..]);
      RestoreRows(p, result.store, gone, path, now);
      var restored := Restore(p, result.store, gone, path, now);
      (s.(store := Housekeeping(p, restored), reorgs := s.reorgs + 1),
       Done(Reorganized, if path == [] then TipHash(st) else path[|path| - 1].hash, |gone|, |path|))
  }

  /** Switch to the stored branch ending in h, or refuse and leave the old chain in place. */
  ghost function Reorganize(p: Params, s: State, h: Hash, now: int): (State, Outcome)
    requires ValidParams(p) && ChainInv(p, s.store) && SideInv(p, s.store)
  {
    var walk := SideWalk(p, s.store, h);
    if walk.Tainted? then (s, Rejected(InvalidParent))
    else
      SideWalkFacts(p, s.store, h);
      var fork := FindRow(s.store.rows, walk.start);
      if fork.None? then (s, Done(Side, h, 0, 0))
      else if TipHeight(s.store) - s.store.rows[fork.value].block.height > p.maxReorgDepth then
        (s, Rejected(ReorgTooDeep))
      else Switch(p, s, walk.path, walk.totals, fork.value, now)
  }

  lemma RestoreRows(p: Params, st: Store, gone: seq<Block>, path: seq<Block>, now: int)
    requires st.rows != []
    ensures Restore(p, st, gone, path, now).rows == st.rows
  {
    hide KeptOf, AllTxs, Admit;
  }

  predicate InOrphans(orphans: seq<Block>, h: Hash) {
    exists i :: 0 <= i < |orphans| && orphans[i].hash == h
  }

  /** Append and drop the oldest beyond the cap. */
  function AddOrphan(p: Params, orphans: seq<Block>, b: Block): seq<Block>
    requires p.maxOrphans >= 0
  {
    var all := orphans + [b];
    if |all| > p.maxOrphans then all[|all| - p.maxOrphans..] else all
  }

  /** Classify and handle one block from any source. */
  ghost function Process(p: Params, s: State, b: Block, now: int): (State, Outcome)
    requires ValidParams(p) && ChainInv(p, s.store) && SideInv(p, s.store)
  {
    var st := s.store;
    if b.hash in st.side && !st.side[b.hash].valid then (s, Rejected(InvalidBlock))
    else if b.hash in st.side && st.side[b.hash].totalWork > TipWork(st) then Reorganize(p, s, b.hash, now)
    else if FindRow(st.rows, b.hash).Some? || b.hash in st.side || InOrphans(s.orphans, b.hash) then
      (s, Done(Duplicate, b.hash, 0, 0))
    else if !WellFormedBlock(p, b) then (s, Rejected(BadStructure))
    else
      var main := FindRow(st.rows, b.previous);
      if main.None? && b.previous in st.side && !st.side[b.previous].valid then (s, Rejected(InvalidParent))
      else if main.None? && b.previous !in st.side then
        (s.(orphans := AddOrphan(p, s.orphans, b)), Done(Orphan, b.hash, 0, 0))
      else Place(p, s, b, now)
  }

  function ParentBlock(st: Store, h: Hash): Block
    requires FindRow(st.rows, h).Some? || h in st.side
  {
    var main := FindRow(st.rows, h);
    if main.Some? then st.rows[main.value].block else st.side[h].block
  }

  function ParentWork(st: Store, h: Hash): int
    requires FindRow(st.rows, h).Some? || h in st.side
  {
    var main := FindRow(st.rows, h);
    if main.Some? then st.rows[main.value].totalWork else st.side[h].totalWork
  }

  /** The checks of a block against its stored parent. */
  function ParentCheck(p: Params, st: Store, b: Block): Option<Code>
    requires ValidParams(p) && (FindRow(st.rows, b.previous).Some? || b.previous in st.side)
  {
    var parent := ParentBlock(st, b.previous);
    var expected := ExpectedDifficulty(p, st, parent);
    if b.height != parent.height + 1 then Some(BadHeight)
    else if expected.None? then Some(Incomplete)
    else if b.difficulty != expected.value then Some(BadDifficulty)
    else None
  }

  /** The tables with a checked block added as a side row. */
  ghost function WithSide(p: Params, st: Store, b: Block, now: int): (stored: Store)
    requires ValidParams(p) && ChainInv(p, st) && SideInv(p, st) && WellFormedBlock(p, b)
    requires FindRow(st.rows, b.previous).Some? || b.previous in st.side
    requires ParentCheck(p, st, b).None?
    ensures ChainInv(p, stored) && SideInv(p, stored) && stored.rows == st.rows != []
  {
    NewSideRow(p, st, b, now);
    SideAdd(st, b, ParentWork(st, b.previous) + b.difficulty, now)
  }

  /** Keep a block as a side block and switch to it if it is now the heaviest. */
  ghost function StoreSide(p: Params, s: State, b: Block, now: int): (State, Outcome)
    requires ValidParams(p) && ChainInv(p, s.store) && SideInv(p, s.store) && WellFormedBlock(p, b)
    requires FindRow(s.store.rows, b.previous).Some? || b.previous in s.store.side
    requires ParentCheck(p, s.store, b).None?
  {
    var st, stored := s.store, WithSide(p, s.store, b, now);
    if ParentWork(st, b.previous) + b.difficulty > TipWork(st) then Reorganize(p, s.(store := stored), b.hash, now)
    else (s.(store := Housekeeping(p, stored)), Done(Side, b.hash, 0, 0))
  }

  /** A new well-formed block whose parent is stored: extend, store as side block, or reorganize to it. */
  ghost function Place(p: Params, s: State, b: Block, now: int): (State, Outcome)
    requires ValidParams(p) && ChainInv(p, s.store) && SideInv(p, s.store) && WellFormedBlock(p, b)
    requires FindRow(s.store.rows, b.previous).Some? || b.previous in s.store.side
  {
    var st := s.store;
    var refusal := ParentCheck(p, st, b);
    if refusal.Some? then (s, Rejected(refusal.value))
    else if b.previous == TipHash(st) then
      var next := ExtendTip(p, st, b, now);
      if next.Refused? then (s, Rejected(next.code))
      else (s.(store := next.value), Done(Extended, b.hash, 0, 0))
    else if FindRow(st.rows, b.previous).Some?
            && TipHeight(st) - ParentBlock(st, b.previous).height > p.maxReorgDepth then
      (s, Rejected(ReorgTooDeep))
    else StoreSide(p, s, b, now)
  }

  /** A stored parent is linked and carries its exact work. */
  lemma ParentFacts(p: Params, st: Store, h: Hash)
    requires ValidParams(p) && ValidRows(p, st.rows) && SideInv(p, st)
    requires FindRow(st.rows, h).Some? || h in st.side
    ensures Linked(p, h) && ParentBlock(st, h).hash == h && ParentBlock(st, h).height == Height(h)
    ensures ParentWork(st, h) == Work(p, h)
  {
    hide WellFormedBlock, ValidRows, Linked, Work;
    var main := FindRow(st.rows, h);
    if main.Some? {
      RowsLinked(p, st.rows, main.value);
    } else {
      assert SideRowOk(p, h, st.side[h]);
      SideRowFacts(p, h, st.side[h]);
    }
  }

  /** A block that passed the checks against its stored parent is a proper side row. */
  lemma LinkedChild(p: Params, st: Store, b: Block)
    requires ValidParams(p) && ValidRows(p, st.rows) && SideInv(p, st) && WellFormedBlock(p, b)
    requires FindRow(st.rows, b.previous).Some? || b.previous in st.side
    requires ParentCheck(p, st, b).None?
    ensures Linked(p, b.hash) && b.hash != GenesisHash(p) && b.difficulty == Expected(p, b.previous)
    ensures ParentWork(st, b.previous) + b.difficulty == Work(p, b.hash)
  {
    hide ValidRows, SideInv, ExpectedDifficulty, Expected;
    ParentFacts(p, st, b.previous);
    HeaderWalk.ExpectedDifficultyExact(p, st, ParentBlock(st, b.previous));
  }

  lemma NewSideRow(p: Params, st: Store, b: Block, now: int)
    requires ValidParams(p) && ChainInv(p, st) && SideInv(p, st) && WellFormedBlock(p, b)
    requires FindRow(st.rows, b.previous).Some? || b.previous in st.side
    requires ParentCheck(p, st, b).None?
    ensures
      var stored := SideAdd(st, b, ParentWork(st, b.previous) + b.difficulty, now);
      && ChainInv(p, stored) && SideInv(p, stored) && stored.rows == st.rows
      && (MemInv(p, st) ==> MemInv(p, stored))
  {
    hide *;
    ChainInvParts(p, st);
    LinkedChild(p, st, b);
    var total := ParentWork(st, b.previous) + b.difficulty;
    SideRowBuild(p, b, total, now);
    SideAddKeeps(p, st, b, total, now);
    SideAddParts(st, b, total, now);
    SideChangeKeeps(p, st, SideAdd(st, b, total, now));
  }

  lemma SideRowBuild(p: Params, b: Block, totalWork: int, received: int)
    requires ValidParams(p) && WellFormedBlock(p, b) && Linked(p, b.hash) && b.hash != GenesisHash(p)
    requires totalWork == Work(p, b.hash)
    ensures SideRowOk(p, b.hash, SideRow(b, totalWork, true, received))
  {}

  /** Changing side rows only does not disturb the chain tables or the mempool. */
  lemma SideChangeKeeps(p: Params, st: Store, after: Store)
    requires ValidParams(p) && ChainInv(p, st)
    requires after == st.(side := after.side, sideOrder := after.sideOrder)
    ensures ChainInv(p, after) && (MemInv(p, st) ==> MemInv(p, after))
  {
    hide *;
    ChainInvParts(p, st);
    ChainInvBuild(p, after);
    if MemInv(p, st) {
      MemInvTransport(p, st, after);
    }
  }

  lemma MemInvTransport(p: Params, st: Store, after: Store)
    requires st.rows != [] && MemInv(p, st)
    requires after == st.(side := after.side, sideOrder := after.sideOrder)
    ensures MemInv(p, after)
  {
    hide PoolOk, QueueOk, Queue, Immature;
    forall a: Address
      ensures QueueOk(Queue(after.mempool, a), Get(after.accounts, a).nonce, Spendable(p, after, a))
    {
      assert Spendable(p, after, a) == Spendable(p, st, a);
    }
  }

  // ---------------------------------------------------------------- orphans

  /** The orphans waiting for ph, oldest first. */
  function ChildrenOf(orphans: seq<Block>, ph: Hash): (r: seq<Block>)
    ensures forall b :: b in r <==> b in orphans && b.previous == ph
  {
    if orphans == [] then []
    else if orphans[0].previous == ph then [orphans[0]] + ChildrenOf(orphans[1..], ph)
    else ChildrenOf(orphans[1..], ph)
  }

  function DropOrphan(orphans: seq<Block>, h: Hash): (r: seq<Block>)
    ensures forall b :: b in r <==> b in orphans && b.hash != h
  {
    if orphans == [] then []
    else if orphans[0].hash == h then DropOrphan(orphans[1..], h)
    else [orphans[0]] + DropOrphan(orphans[1..], h)
  }
}
