/** The node's tables as a value, and each storage operation as a function of it. */
module Tables {
  import opened Types
  import opened Difficulty
  import opened Ledger
  import opened Chain

  datatype SideRow = SideRow(block: Block, totalWork: int, valid: bool, received: int)

  /** `sideOrder` lists the side rows in insertion order; it only breaks ties when rows are pruned. */
  datatype Store = Store(
    rows: seq<Row>, accounts: Accounts, index: map<Hash, Location>, addresses: set<AddressRow>,
    undos: map<int, Accounts>, minted: int,
    side: map<Hash, SideRow>, sideOrder: seq<Hash>, mempool: set<Tx>)

  function TipRow(st: Store): Row
    requires st.rows != []
  {
    st.rows[|st.rows| - 1]
  }

  function TipHash(st: Store): Hash
    requires st.rows != []
  {
    TipRow(st).block.hash
  }

  function TipHeight(st: Store): int
    requires st.rows != []
  {
    TipRow(st).block.height
  }

  function TipWork(st: Store): int
    requires st.rows != []
  {
    TipRow(st).totalWork
  }

  /** Position of a block hash among the rows. */
  function FindRow(rows: seq<Row>, h: Hash): (r: Option<nat>)
    ensures r.Some? ==> r.value < |rows| && rows[r.value].block.hash == h
    ensures r.None? ==> forall i :: 0 <= i < |rows| ==> rows[i].block.hash != h
  {
    if rows == [] then None
    else if rows[|rows| - 1].block.hash == h then Some(|rows| - 1)
    else FindRow(rows[..|rows| - 1], h)
  }

  function InitialStore(p: Params): Store {
    Store([GenesisRow(p)], GenesisAccounts(p.genesisAllocations), map[], {}, map[],
          AllocationSum(p.genesisAllocations), map[], [], {})
  }

  // ---------------------------------------------------------------- side blocks

  function Without<T(==, !new)>(s: seq<T>, x: T): (r: seq<T>)
    ensures forall y :: y in r <==> y in s && y != x
  {
    if s == [] then []
    else if s[0] == x then Without(s[1..], x)
    else [s[0]] + Without(s[1..], x)
  }

  /** INSERT OR IGNORE: a stored row is never overwritten. */
  function SideAdd(st: Store, b: Block, totalWork: int, received: int): Store {
    if b.hash in st.side then st
    else st.(side := st.side[b.hash := SideRow(b, totalWork, true, received)], sideOrder := st.sideOrder + [b.hash])
  }

  function SideRemove(st: Store, h: Hash): Store {
    st.(side := st.side - {h}, sideOrder := Without(st.sideOrder, h))
  }

  function SideMarkInvalid(st: Store, hashes: set<Hash>): Store {
    st.(side := map h | h in st.side :: if h in hashes then st.side[h].(valid := false) else st.side[h])
  }

  predicate Older(a: SideRow, b: SideRow) {
    a.block.height < b.block.height || (a.block.height == b.block.height && a.received < b.received)
  }

  /** First of the listed hashes whose row no listed row is older than. */
  function Oldest(order: seq<Hash>, side: map<Hash, SideRow>): (h: Hash)
    requires order != [] && forall x :: x in order ==> x in side
    ensures h in order && forall x :: x in order ==> !Older(side[x], side[h])
  {
    if |order| == 1 then order[0]
    else
      var rest := Oldest(order[1..], side);
      if Older(side[rest], side[order[0]]) then rest else order[0]
  }

  function EvictOldest(order: seq<Hash>, side: map<Hash, SideRow>, count: nat): (map<Hash, SideRow>, seq<Hash>)
    requires forall x :: x in order ==> x in side
    decreases count
  {
    if count == 0 || order == [] then (side, order)
    else
      var h := Oldest(order, side);
      EvictOldest(Without(order, h), side - {h}, count - 1)
  }

  function FilterOrder(order: seq<Hash>, keep: set<Hash>): (r: seq<Hash>)
    ensures forall x :: x in r <==> x in order && x in keep
  {
    if order == [] then []
    else if order[0] in keep then [order[0]] + FilterOrder(order[1..], keep)
    else FilterOrder(order[1..], keep)
  }

  /** Two rounds of forgetting: first by height, then by number. */
  function SidePrune(st: Store, minHeight: int, maxCount: int): Store {
    var kept := map h | h in st.side && st.side[h].block.height >= minHeight :: st.side[h];
    var order := FilterOrder(st.sideOrder, kept.Keys);
    var pruned := EvictOldest(order, kept, if |kept| > maxCount then |kept| - maxCount else 0);
    st.(side := pruned.0, sideOrder := pruned.1)
  }

  // ---------------------------------------------------------------- header walk

  /** Entries of rows[low..i], newest first. */
  function RowEntries(rows: seq<Row>, low: nat, i: nat): (r: seq<Entry>)
    requires low <= i < |rows|
    ensures |r| == i - low + 1
  {
    seq(i - low + 1, k requires 0 <= k <= i - low =>
      Entry(rows[i - k].block.timestamp, rows[i - k].block.difficulty))
  }

  /** Up to `count` entries ending at h, newest first: through side rows by hash until the best chain is
      reached, then by height. */
  function HeaderChain(st: Store, h: Hash, count: nat): (r: seq<Entry>)
    ensures |r| <= count
    decreases count
  {
    if count == 0 then []
    else
      var i := FindRow(st.rows, h);
      if i.Some? then RowEntries(st.rows, if i.value + 1 >= count then i.value + 1 - count else 0, i.value)
      else if h in st.side then
        var b := st.side[h].block;
        [Entry(b.timestamp, b.difficulty)] + HeaderChain(st, b.previous, count - 1)
      else []
  }

  function Reversed(s: seq<Entry>): (r: seq<Entry>)
    ensures |r| == |s| && forall i :: 0 <= i < |s| ==> r[i] == s[|s| - 1 - i]
  {
    seq(|s|, i requires 0 <= i < |s| => s[|s| - 1 - i])
  }

  /** The same requirement read off the tables; None when the walk comes back too short. */
  function ExpectedDifficulty(p: Params, st: Store, parent: Block): Option<int>
    requires ValidParams(p)
  {
    if !p.dynamicDifficulty || parent.height == 0 then Some(p.difficulty)
    else
      var headers := HeaderChain(st, parent.hash, Need(p));
      if |headers| < Min(parent.height + 1, Need(p)) then None
      else Some(NextDifficulty(p, Reversed(headers)))
  }

  // ---------------------------------------------------------------- connect and disconnect

  /** Persist a validated block with all resulting changes. */
  function ApplyBlock(st: Store, b: Block, miner: Address, subsidy: int, fees: int,
                      changes: Accounts, undo: Accounts, minted: int, totalWork: int): Store {
    st.(rows := st.rows + [Row(b, miner, subsidy, fees, totalWork)],
        index := st.index + BlockIndex(b),
        addresses := st.addresses + BlockAddresses(b),
        accounts := st.accounts + changes,
        undos := st.undos[b.height := undo],
        minted := minted)
  }

  /** The tables one block earlier, with the removed block kept among the side rows. */
  function DisconnectTip(st: Store): Store
    requires st.rows != [] && TipHeight(st) in st.undos
  {
    var tip := TipRow(st);
    var h := tip.block.height;
    SideAdd(
      st.(accounts := st.accounts + st.undos[h],
          index := (map id | id in st.index && st.index[id].height != h :: st.index[id]),
          addresses := (set r | r in st.addresses && r.height != h),
          undos := st.undos - {h},
          rows := st.rows[..|st.rows| - 1],
          minted := st.minted - tip.subsidy),
      tip.block, tip.totalWork, 0)
  }
}
