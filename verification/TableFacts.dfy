/** The invariant tying every table to the best chain, and that connecting and disconnecting keep it. */
module TableFacts {
  import opened Types
  import opened Ledger
  import opened Headers
  import opened Chain
  import opened ChainFacts
  import opened Tables

  /** Every table is what a replay of the best chain from genesis produces. */
  ghost predicate ChainInv(p: Params, st: Store)
    requires ValidParams(p)
  {
    && ValidRows(p, st.rows)
    && Agree(st.accounts, Replay(p, st.rows))
    && st.minted == Minted(p, st.rows)
    && st.index == IndexOf(st.rows)
    && st.addresses == AddressesOf(st.rows)
    && st.undos == UndosOf(p, st.rows)
  }

  /** Stored side rows: keyed by digest, well formed, linked to genesis, with their exact work. */
  ghost predicate SideRowOk(p: Params, h: Hash, r: SideRow)
    requires ValidParams(p)
  {
    && r.block.hash == h && WellFormedBlock(p, r.block) && Linked(p, h) && r.totalWork == Work(p, h)
    && h != GenesisHash(p)
  }

  ghost predicate SideInv(p: Params, st: Store)
    requires ValidParams(p)
  {
    && (forall h :: h in st.side ==> SideRowOk(p, h, st.side[h]))
    && (forall x :: x in st.sideOrder <==> x in st.side)
    && (forall i, j :: 0 <= i < j < |st.sideOrder| ==> st.sideOrder[i] != st.sideOrder[j])
  }

  lemma InitialInv(p: Params)
    requires ValidParams(p)
    ensures ChainInv(p, InitialStore(p)) && SideInv(p, InitialStore(p))
  {
    var st := InitialStore(p);
    assert st.rows[..0] == [] && IndexOf(st.rows[..0]) == map[] && AddressesOf(st.rows[..0]) == {};
  }

  // ---------------------------------------------------------------- one step of each table

  lemma TablesStep(p: Params, rows: seq<Row>)
    requires |rows| > 1
    ensures
      var before, r := rows[..|rows| - 1], rows[|rows| - 1];
      && IndexOf(rows) == IndexOf(before) + BlockIndex(r.block)
      && AddressesOf(rows) == AddressesOf(before) + BlockAddresses(r.block)
      && UndosOf(p, rows) == UndosOf(p, before)[|rows| - 1 := UndoOf(Replay(p, before), Touched(r.block.txs, r.miner))]
  {
    hide Replay, BlockIndex, BlockAddresses, UndoOf, Touched;
  }

  // ---------------------------------------------------------------- indexes

  lemma {:induction false} IndexUpToAt(b: Block, k: nat, id: Hash)
    requires k <= b.EntryCount() && id in IndexUpTo(b, k)
    ensures
      var at := IndexUpTo(b, k)[id];
      at.height == b.height && 0 <= at.position < k && b.EntryId(at.position) == id
  {
    if b.EntryId(k - 1) != id {
      IndexUpToAt(b, k - 1, id);
    }
  }

  ghost predicate DistinctIds(b: Block) {
    forall i, j :: 0 <= i < j < b.EntryCount() ==> b.EntryId(i) != b.EntryId(j)
  }

  lemma {:induction false} IndexUpToComplete(b: Block, k: nat, i: nat)
    requires i < k <= b.EntryCount() && DistinctIds(b)
    ensures b.EntryId(i) in IndexUpTo(b, k) && IndexUpTo(b, k)[b.EntryId(i)] == Location(b.height, i)
  {
    if i < k - 1 {
      IndexUpToComplete(b, k - 1, i);
    }
  }

  lemma BlockIndexAt(b: Block, id: Hash)
    requires id in BlockIndex(b) && b.coinbase.Some? && b.coinbase.value.txid.CoinbaseHash?
    requires b.coinbase.value.txid.cbHeight == b.height
    ensures
      var at := BlockIndex(b)[id];
      && at.height == b.height && 0 <= at.position < b.EntryCount() && b.EntryId(at.position) == id
      && (id.CoinbaseHash? ==> id.cbHeight == at.height) && (id.CoinbaseHash? || id.TxHash?)
  {
    IndexUpToAt(b, b.EntryCount(), id);
  }

  /** Every indexed id is where the index says, and a coinbase id is at the height it names. */
  lemma {:induction false} IndexedHeights(p: Params, rows: seq<Row>, id: Hash)
    requires ValidParams(p) && ValidRows(p, rows) && id in IndexOf(rows)
    ensures
      var at := IndexOf(rows)[id];
      && 0 <= at.height < |rows| && 0 <= at.position < rows[at.height].block.EntryCount()
      && rows[at.height].block.EntryId(at.position) == id
      && (id.CoinbaseHash? ==> id.cbHeight == at.height)
      && (id.CoinbaseHash? || id.TxHash?)
    decreases |rows|
  {
    hide *;
    if |rows| == 1 {
      GenesisIndex(p, rows);
    } else {
      var before, r := rows[..|rows| - 1], rows[|rows| - 1];
      LastRow(p, rows);
      TablesStep(p, rows);
      if id in BlockIndex(r.block) {
        CoinbaseShape(|before|, r.miner, r.subsidy, r.fees);
        BlockIndexAt(r.block, id);
      } else {
        IndexedHeights(p, before, id);
        assert rows[IndexOf(before)[id].height] == before[IndexOf(before)[id].height];
      }
    }
  }

  /** The new block's ids are all new. */
  lemma FreshIds(p: Params, rows: seq<Row>, b: Block, id: Hash)
    requires ValidParams(p) && ValidRows(p, rows) && b.height == |rows|
    requires CheckTxs(Replay(p, rows), Immature(p, rows, b.height), b.txs, IndexOf(rows).Keys).None?
    requires b.coinbase.Some? && b.coinbase.value.txid.CoinbaseHash? && b.coinbase.value.txid.cbHeight == b.height
    requires id in BlockIndex(b)
    ensures id !in IndexOf(rows)
  {
    hide ValidRows;
    IndexUpToAt(b, b.EntryCount(), id);
    var at := BlockIndex(b)[id];
    if at.position == 0 {
      if id in IndexOf(rows) {
        IndexedHeights(p, rows, id);
      }
    } else {
      CheckTxsPrefix(Replay(p, rows), Immature(p, rows, b.height), b.txs, IndexOf(rows).Keys, at.position - 1);
    }
  }

  lemma IndexDropAt(p: Params, rows: seq<Row>, id: Hash)
    requires ValidParams(p) && ValidRows(p, rows) && |rows| > 1
    ensures
      var all, before, h := IndexOf(rows), IndexOf(rows[..|rows| - 1]), |rows| - 1;
      && (id in all && all[id].height != h <==> id in before)
      && (id in before ==> all[id] == before[id])
  {
    hide *;
    var before, r := rows[..|rows| - 1], rows[|rows| - 1];
    LastRow(p, rows);
    TablesStep(p, rows);
    CoinbaseShape(|before|, r.miner, r.subsidy, r.fees);
    if id in BlockIndex(r.block) {
      FreshIds(p, before, r.block, id);
      BlockIndexHeight(r.block, id);
    } else if id in IndexOf(before) {
      IndexedHeights(p, before, id);
    }
  }

  /** Deleting the tip's height from the index leaves the index of the remaining rows. */
  lemma IndexDrop(p: Params, rows: seq<Row>)
    requires ValidParams(p) && ValidRows(p, rows) && |rows| > 1
    ensures
      var all, h := IndexOf(rows), |rows| - 1;
      (map id | id in all && all[id].height != h :: all[id]) == IndexOf(rows[..|rows| - 1])
  {
    hide *;
    var all, h, before := IndexOf(rows), |rows| - 1, IndexOf(rows[..|rows| - 1]);
    forall id
      ensures id in all && all[id].height != h <==> id in before
      ensures id in before ==> all[id] == before[id]
    {
      IndexDropAt(p, rows, id);
    }
  }

  lemma BlockIndexHeight(b: Block, id: Hash)
    requires id in BlockIndex(b)
    ensures BlockIndex(b)[id].height == b.height
  {
    IndexUpToAt(b, b.EntryCount(), id);
  }

  /** The index is exactly the inverse of the best chain: an id is at a place iff it is listed there. */
  lemma {:induction false} IndexIsInverse(p: Params, rows: seq<Row>, id: Hash, at: Location)
    requires ValidParams(p) && ValidRows(p, rows)
    ensures (id in IndexOf(rows) && IndexOf(rows)[id] == at) <==>
            (0 <= at.height < |rows| && 0 <= at.position < rows[at.height].block.EntryCount()
             && rows[at.height].block.EntryId(at.position) == id)
    decreases |rows|
  {
    if id in IndexOf(rows) && IndexOf(rows)[id] == at {
      IndexedHeights(p, rows, id);
    }
    if 0 <= at.height < |rows| && 0 <= at.position < rows[at.height].block.EntryCount()
       && rows[at.height].block.EntryId(at.position) == id {
      IndexComplete(p, rows, at);
    }
  }

  lemma ValidDistinctIds(p: Params, rows: seq<Row>)
    requires ValidParams(p) && ValidRows(p, rows) && |rows| > 1
    ensures DistinctIds(rows[|rows| - 1].block)
  {
    hide ValidRows, CheckTxs;
    LastRow(p, rows);
    var b := rows[|rows| - 1].block;
    forall i, j | 0 <= i < j < b.EntryCount()
      ensures b.EntryId(i) != b.EntryId(j)
    {
      assert i > 0 ==> b.txs[i - 1] != b.txs[j - 1];
    }
  }

  lemma GenesisEntries(p: Params, rows: seq<Row>)
    requires ValidParams(p) && ValidRows(p, rows)
    ensures rows[0].block.EntryCount() == 0
  {
    ValidGenesis(p, rows);
  }

  lemma IndexTop(p: Params, rows: seq<Row>, position: nat)
    requires ValidParams(p) && ValidRows(p, rows) && |rows| > 1
    requires position < rows[|rows| - 1].block.EntryCount()
    ensures
      var id := rows[|rows| - 1].block.EntryId(position);
      id in IndexOf(rows) && IndexOf(rows)[id] == Location(|rows| - 1, position)
  {
    hide *;
    LastRow(p, rows);
    TablesStep(p, rows);
    ValidDistinctIds(p, rows);
    BlockIndexComplete(rows[|rows| - 1].block, position);
  }

  lemma {:induction false} IndexComplete(p: Params, rows: seq<Row>, at: Location)
    requires ValidParams(p) && ValidRows(p, rows)
    requires 0 <= at.height < |rows| && 0 <= at.position < rows[at.height].block.EntryCount()
    ensures
      var id := rows[at.height].block.EntryId(at.position);
      id in IndexOf(rows) && IndexOf(rows)[id] == at
    decreases |rows|
  {
    hide *;
    GenesisEntries(p, rows);
    if at.height == |rows| - 1 {
      IndexTop(p, rows, at.position);
    } else {
      var before := rows[..|rows| - 1];
      LastRow(p, rows);
      assert rows[at.height] == before[at.height];
      IndexComplete(p, before, at);
      IndexDropAt(p, rows, rows[at.height].block.EntryId(at.position));
    }
  }

  lemma BlockIndexComplete(b: Block, i: nat)
    requires i < b.EntryCount() && DistinctIds(b)
    ensures b.EntryId(i) in BlockIndex(b) && BlockIndex(b)[b.EntryId(i)] == Location(b.height, i)
  {
    IndexUpToComplete(b, b.EntryCount(), i);
  }

  lemma {:induction false} AddressesUpToAt(b: Block, k: nat, r: AddressRow)
    requires k <= b.EntryCount()
    ensures r in AddressesUpTo(b, k) <==> 0 <= r.position < k && r in EntryAddresses(b, r.position)
  {
    if k > 0 {
      AddressesUpToAt(b, k - 1, r);
    }
  }

  /** The address table lists exactly the (address, height, position) triples of the best chain. */
  lemma {:induction false} AddressesAreInverse(p: Params, rows: seq<Row>, r: AddressRow)
    requires ValidParams(p) && ValidRows(p, rows)
    ensures r in AddressesOf(rows) <==>
            (0 <= r.height < |rows| && 0 <= r.position < rows[r.height].block.EntryCount()
             && r in EntryAddresses(rows[r.height].block, r.position))
    decreases |rows|
  {
    if |rows| > 1 {
      hide *;
      var before, last := rows[..|rows| - 1], rows[|rows| - 1];
      LastRow(p, rows);
      TablesStep(p, rows);
      BlockAddressesAt(last.block, r);
      AddressesAreInverse(p, before, r);
      assert forall i :: 0 <= i < |before| ==> rows[i] == before[i];
    } else {
      ValidGenesis(p, rows);
      assert rows[..0] == [] && AddressesOf(rows[..0]) == {};
    }
  }

  lemma BlockAddressesAt(b: Block, r: AddressRow)
    ensures r in BlockAddresses(b) <==>
      r.height == b.height && 0 <= r.position < b.EntryCount() && r in EntryAddresses(b, r.position)
  {
    AddressesUpToAt(b, b.EntryCount(), r);
  }

  /** The id index, told from the blocks: an id is at a place exactly when it is the id of the coinbase there, at
      position 0, or of the transaction there, at one more than its position in the block's list. */
  lemma IndexListsBlocks(p: Params, rows: seq<Row>, id: Hash, at: Location)
    requires ValidParams(p) && ValidRows(p, rows)
    ensures (id in IndexOf(rows) && IndexOf(rows)[id] == at) <==>
      1 <= at.height < |rows|
      && var b := rows[at.height].block;
      && b.coinbase.Some?
      && ((at.position == 0 && id == b.coinbase.value.txid)
          || (1 <= at.position <= |b.txs| && id == TxHash(b.txs[at.position - 1])))
  {
    hide IndexOf, ValidRows;
    IndexIsInverse(p, rows, id, at);
    GenesisEntries(p, rows);
    if 1 <= at.height < |rows| {
      CoinbaseOfRow(p, rows, at.height);
    }
  }

  lemma CoinbaseOfRow(p: Params, rows: seq<Row>, k: nat)
    requires ValidParams(p) && ValidRows(p, rows) && 1 <= k < |rows|
    ensures rows[k].block.coinbase.Some?
  {
    hide ValidRows;
    ValidPrefix(p, rows, k + 1);
    LastRow(p, rows[..k + 1]);
  }

  /** The address table, told from the blocks: it lists the recipient of every coinbase and both sides of every
      transaction, with their places, and nothing else. */
  lemma AddressesListBlocks(p: Params, rows: seq<Row>, r: AddressRow)
    requires ValidParams(p) && ValidRows(p, rows)
    ensures r in AddressesOf(rows) <==>
      1 <= r.height < |rows|
      && var b := rows[r.height].block;
      && b.coinbase.Some?
      && ((r.position == 0 && r.address == b.coinbase.value.recipient && r.txid == b.coinbase.value.txid)
          || (1 <= r.position <= |b.txs|
              && var tx := b.txs[r.position - 1];
              (r.address == tx.sender || r.address == tx.recipient) && r.txid == TxHash(tx)))
  {
    hide AddressesOf, ValidRows;
    AddressesAreInverse(p, rows, r);
    GenesisEntries(p, rows);
    if 1 <= r.height < |rows| {
      CoinbaseOfRow(p, rows, r.height);
      RowsLinked(p, rows, r.height);
    }
  }

  lemma AddressesDrop(p: Params, rows: seq<Row>)
    requires ValidParams(p) && ValidRows(p, rows) && |rows| > 1
    ensures (set r | r in AddressesOf(rows) && r.height != |rows| - 1) == AddressesOf(rows[..|rows| - 1])
  {
    hide *;
    var before := rows[..|rows| - 1];
    LastRow(p, rows);
    forall r: AddressRow
      ensures r in AddressesOf(rows) && r.height != |rows| - 1 <==> r in AddressesOf(before)
    {
      AddressesAreInverse(p, rows, r);
      AddressesAreInverse(p, before, r);
    }
  }

  // ---------------------------------------------------------------- undo rows

  lemma {:induction false} UndoKeys(p: Params, rows: seq<Row>)
    ensures forall i :: i in UndosOf(p, rows) <==> 1 <= i < |rows|
  {
    if |rows| > 1 {
      UndoKeys(p, rows[..|rows| - 1]);
    }
  }

  lemma UndoDrop(p: Params, rows: seq<Row>)
    requires |rows| > 1
    ensures UndosOf(p, rows) - {|rows| - 1} == UndosOf(p, rows[..|rows| - 1])
  {
    UndoKeys(p, rows[..|rows| - 1]);
  }

  // ---------------------------------------------------------------- connect, disconnect

  /** Storing a valid next block keeps the invariant. */
  lemma ApplyKeepsInv(p: Params, st: Store, b: Block, changes: Accounts)
    requires ValidParams(p) && ChainInv(p, st) && Extends(p, st.rows, b)
    requires
      var r := RowOf(p, st.rows, b);
      st.accounts + changes == Pay(Transfers(st.accounts, b.txs), r.miner, r.subsidy + r.fees)
    ensures
      var r := RowOf(p, st.rows, b);
      var undo := UndoOf(st.accounts, Touched(b.txs, r.miner));
      var after := ApplyBlock(st, b, r.miner, r.subsidy, r.fees, changes, undo, st.minted + r.subsidy, r.totalWork);
      ChainInv(p, after) && after.rows == st.rows + [r]
  {
    hide *;
    ChainInvParts(p, st);
    AppendRow(p, st.rows, b);
    var r := RowOf(p, st.rows, b);
    var rows := st.rows + [r];
    assert rows[..|rows| - 1] == st.rows && rows[|rows| - 1] == r;
    ReplayStep(p, rows);
    TablesStep(p, rows);
    var m := Replay(p, st.rows);
    TransfersAgree(st.accounts, m, b.txs);
    PayAgrees(Transfers(st.accounts, b.txs), Transfers(m, b.txs), r.miner, r.subsidy + r.fees);
    UndoAgrees(st.accounts, m, Touched(b.txs, r.miner));
    var undo := UndoOf(st.accounts, Touched(b.txs, r.miner));
    ApplyParts(st, b, r.miner, r.subsidy, r.fees, changes, undo, st.minted + r.subsidy, r.totalWork);
    ChainInvBuild(p, ApplyBlock(st, b, r.miner, r.subsidy, r.fees, changes, undo, st.minted + r.subsidy, r.totalWork));
  }

  lemma AppendRow(p: Params, rows: seq<Row>, b: Block)
    requires ValidParams(p) && ValidRows(p, rows) && Extends(p, rows, b)
    ensures
      var r := RowOf(p, rows, b);
      && ValidRows(p, rows + [r]) && r.block == b && b.height == |rows|
      && b.coinbase.Some? && r.miner == b.coinbase.value.recipient
  {
    hide StateRules, Minted, SubsidyFor, FeeSum;
    var r := RowOf(p, rows, b);
    assert (rows + [r])[..|rows|] == rows;
  }

  lemma ChainInvParts(p: Params, st: Store)
    requires ValidParams(p) && ChainInv(p, st)
    ensures ValidRows(p, st.rows) && Agree(st.accounts, Replay(p, st.rows)) && st.minted == Minted(p, st.rows)
    ensures st.index == IndexOf(st.rows) && st.addresses == AddressesOf(st.rows) && st.undos == UndosOf(p, st.rows)
  {}

  lemma ChainInvBuild(p: Params, st: Store)
    requires ValidParams(p)
    requires ValidRows(p, st.rows) && Agree(st.accounts, Replay(p, st.rows)) && st.minted == Minted(p, st.rows)
    requires st.index == IndexOf(st.rows) && st.addresses == AddressesOf(st.rows) && st.undos == UndosOf(p, st.rows)
    ensures ChainInv(p, st)
  {}

  lemma ApplyParts(st: Store, b: Block, miner: Address, subsidy: int, fees: int,
                   changes: Accounts, undo: Accounts, minted: int, totalWork: int)
    ensures
      var after := ApplyBlock(st, b, miner, subsidy, fees, changes, undo, minted, totalWork);
      && after.rows == st.rows + [Row(b, miner, subsidy, fees, totalWork)]
      && after.index == st.index + BlockIndex(b) && after.addresses == st.addresses + BlockAddresses(b)
      && after.accounts == st.accounts + changes && after.undos == st.undos[b.height := undo]
      && after.minted == minted && after.side == st.side && after.sideOrder == st.sideOrder
      && after.mempool == st.mempool
  {
    hide BlockIndex, BlockAddresses;
  }

  /** Removing the tip restores every table to its state before the tip was connected. */
  lemma DisconnectKeepsInv(p: Params, st: Store)
    requires ValidParams(p) && ChainInv(p, st) && |st.rows| > 1
    ensures TipHeight(st) == |st.rows| - 1 && TipHeight(st) in st.undos
    ensures ChainInv(p, DisconnectTip(st)) && DisconnectTip(st).rows == st.rows[..|st.rows| - 1]
    ensures DisconnectTip(st).mempool == st.mempool
  {
    hide *;
    var before, r := st.rows[..|st.rows| - 1], st.rows[|st.rows| - 1];
    ChainInvParts(p, st);
    LastRow(p, st.rows);
    TablesStep(p, st.rows);
    ReplayStep(p, st.rows);
    TipParts(st);
    var m := Replay(p, before);
    var after := Pay(Transfers(m, r.block.txs), r.miner, r.subsidy + r.fees);
    var undo := st.undos[|st.rows| - 1];
    UndoRestores(m, r.block.txs, r.miner, r.subsidy + r.fees);
    AgreeOverwrite(st.accounts, after, undo);
    AgreeTransitive(st.accounts + undo, after + undo, m);
    DisconnectParts(st);
    UndoDrop(p, st.rows);
    IndexDrop(p, st.rows);
    AddressesDrop(p, st.rows);
    ChainInvBuild(p, DisconnectTip(st));
  }

  lemma TipParts(st: Store)
    requires st.rows != []
    ensures TipRow(st) == st.rows[|st.rows| - 1]
    ensures TipHeight(st) == TipRow(st).block.height && TipHash(st) == TipRow(st).block.hash
    ensures TipWork(st) == TipRow(st).totalWork
  {}

  lemma DisconnectParts(st: Store)
    requires st.rows != [] && TipHeight(st) in st.undos
    ensures
      var after, h := DisconnectTip(st), TipHeight(st);
      && after.accounts == st.accounts + st.undos[h]
      && after.index == (map id | id in st.index && st.index[id].height != h :: st.index[id])
      && after.addresses == (set r | r in st.addresses && r.height != h)
      && after.undos == st.undos - {h} && after.rows == st.rows[..|st.rows| - 1]
      && after.minted == st.minted - TipRow(st).subsidy && after.mempool == st.mempool
      && (TipHash(st) in st.side ==> after.side == st.side && after.sideOrder == st.sideOrder)
      && (TipHash(st) !in st.side ==>
            after.side == st.side[TipHash(st) := SideRow(TipRow(st).block, TipWork(st), true, 0)]
            && after.sideOrder == st.sideOrder + [TipHash(st)])
  {}

  lemma AgreeOverwrite(m: Accounts, n: Accounts, undo: Accounts)
    requires Agree(m, n)
    ensures Agree(m + undo, n + undo)
  {
    forall a: Address
      ensures Get(m + undo, a) == Get(n + undo, a)
    {
      assert Get(m, a) == Get(n, a);
    }
  }

  lemma AgreeTransitive(m: Accounts, n: Accounts, k: Accounts)
    requires Agree(m, n) && Agree(n, k)
    ensures Agree(m, k)
  {
    forall a: Address
      ensures Get(m, a) == Get(k, a)
    {
      assert Get(m, a) == Get(n, a);
    }
  }
}
