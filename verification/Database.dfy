/** The tables as an object updated in place, with all-or-nothing transactions. */
module Database {
  import opened Types
  import opened Difficulty
  import opened Ledger
  import opened Chain
  import opened Tables
  import opened Mempool
  import opened MempoolFacts
  import opened Template

  lemma NoEviction(order: seq<Hash>, side: map<Hash, SideRow>)
    requires forall x :: x in order ==> x in side
    ensures EvictOldest(order, side, 0) == (side, order)
  {}

  predicate NotAfter(a: Tx, b: Tx) { a.fee > b.fee || (a.fee == b.fee && a.timestamp <= b.timestamp) }

  lemma FirstByPriority(s: set<Tx>)
    requires s != {}
    ensures exists t :: t in s && forall u :: u in s ==> NotAfter(t, u)
  {
    var t :| t in s;
    var rest := s - {t};
    assert forall u :: u in s ==> u == t || u in rest;
    if rest == {} {
      assert t in s && forall u :: u in s ==> NotAfter(t, u);
    } else {
      FirstByPriority(rest);
      var m :| m in rest && forall u :: u in rest ==> NotAfter(m, u);
      var first := if NotAfter(t, m) then t else m;
      assert first in s && forall u :: u in s ==> NotAfter(first, u);
    }
  }

  class Storage {
    var rows: seq<Row>
    var accounts: Accounts
    var index: map<Hash, Location>
    var addresses: set<AddressRow>
    var undos: map<int, Accounts>
    var minted: int
    var side: map<Hash, SideRow>
    var sideOrder: seq<Hash>
    var mempool: set<Tx>

    /** Nesting of open transactions, and what the outermost one started from. */
    var depth: nat
    var saved: Store

    function View(): Store
      reads `rows, `accounts, `index, `addresses, `undos, `minted, `side, `sideOrder, `mempool
    {
      Store(rows, accounts, index, addresses, undos, minted, side, sideOrder, mempool)
    }

    /** A fresh database holds genesis and its allocations. */
    constructor (p: Params)
      ensures View() == InitialStore(p) && depth == 0
    {
      rows, index, addresses, undos := [GenesisRow(p)], map[], {}, map[];
      side, sideOrder, mempool := map[], [], {};
      depth, saved := 0, InitialStore(p);
      var table: Accounts := map[];
      var total := 0;
      var allocations := p.genesisAllocations;
      assert allocations[..0] == [];
      for i := 0 to |allocations|
        invariant table == GenesisAccounts(allocations[..i]) && total == AllocationSum(allocations[..i])
      {
        assert allocations[..i + 1][..i] == allocations[..i];
        table := table[allocations[i].0 := Account(allocations[i].1, 0)];
        total := total + allocations[i].1;
      }
      assert allocations[..|allocations|] == allocations;
      accounts, minted := table, total;
    }

    // -------------------------------------------------------------- transactions

    /** Enter a transaction; an inner one joins the outer. */
    method Begin()
      modifies `depth, `saved
      ensures depth == old(depth) + 1 && saved == if old(depth) == 0 then View() else old(saved)
    {
      if depth == 0 {
        saved := View();
      }
      depth := depth + 1;
    }

    method Commit()
      requires depth > 0
      modifies `depth
      ensures depth == old(depth) - 1
    {
      depth := depth - 1;
    }

    /** Leave by failure: the outermost transaction restores what it started from. */
    method Rollback()
      requires depth > 0
      modifies this
      ensures depth == old(depth) - 1 && saved == old(saved)
      ensures View() == if old(depth) == 1 then old(saved) else old(View())
    {
      depth := depth - 1;
      if depth == 0 {
        rows, accounts, index := saved.rows, saved.accounts, saved.index;
        addresses, undos, minted := saved.addresses, saved.undos, saved.minted;
        side, sideOrder, mempool := saved.side, saved.sideOrder, saved.mempool;
      }
    }

    // -------------------------------------------------------------- connect and disconnect

    /** Upsert account rows. */
    method WriteAccounts(changes: Accounts)
      modifies `accounts
      ensures accounts == old(accounts) + changes
    {
      var todo := changes.Keys;
      while todo != {}
        invariant todo <= changes.Keys
        invariant accounts.Keys == old(accounts).Keys + (changes.Keys - todo)
        invariant forall a :: a in accounts ==>
          accounts[a] == if a in changes && a !in todo then changes[a] else old(accounts)[a]
        decreases |todo|
      {
        var a :| a in todo;
        accounts := accounts[a := changes[a]];
        todo := todo - {a};
      }
      assert accounts == old(accounts) + changes;
    }

    method IndexEntries(b: Block)
      modifies `index
      ensures index == old(index) + BlockIndex(b)
    {
      assert IndexUpTo(b, 0) == map[];
      for position := 0 to b.EntryCount()
        invariant index == old(index) + IndexUpTo(b, position)
      {
        index := index[b.EntryId(position) := Location(b.height, position)];
      }
    }

    method IndexAddresses(b: Block)
      modifies `addresses
      ensures addresses == old(addresses) + BlockAddresses(b)
    {
      assert AddressesUpTo(b, 0) == {};
      for position := 0 to b.EntryCount()
        invariant addresses == old(addresses) + AddressesUpTo(b, position)
      {
        addresses := addresses + EntryAddresses(b, position);
      }
    }

    /** Persist a validated block with all resulting changes. */
    method ApplyBlock(b: Block, miner: Address, subsidy: int, fees: int,
                      changes: Accounts, undo: Accounts, supply: int, totalWork: int)
      modifies `rows, `accounts, `index, `addresses, `undos, `minted
      ensures View() == Tables.ApplyBlock(old(View()), b, miner, subsidy, fees, changes, undo, supply, totalWork)
    {
      hide BlockIndex, BlockAddresses;
      rows := rows + [Row(b, miner, subsidy, fees, totalWork)];
      IndexEntries(b);
      IndexAddresses(b);
      WriteAccounts(changes);
      undos := undos[b.height := undo];
      minted := supply;
    }

    /** Computes `Tables.DisconnectTip` in place; genesis and a tip without undo rows are refused. */
    method DisconnectTip() returns (tip: Option<Block>)
      requires rows != []
      modifies `rows, `accounts, `index, `addresses, `undos, `minted, `side, `sideOrder
      ensures tip.None? <==> old(TipHeight(View()) == 0 || TipHeight(View()) !in undos)
      ensures tip.None? ==> View() == old(View())
      ensures tip.Some? ==> tip.value == old(TipRow(View()).block) && View() == old(Tables.DisconnectTip(View()))
    {
      var last := rows[|rows| - 1];
      var height := last.block.height;
      if height == 0 || height !in undos {
        return None;
      }
      WriteAccounts(undos[height]);
      index := map id | id in index && index[id].height != height :: index[id];
      addresses := set r | r in addresses && r.height != height;
      undos := undos - {height};
      rows := rows[..|rows| - 1];
      minted := minted - last.subsidy;
      AddSide(last.block, last.totalWork, 0);
      return Some(last.block);
    }

    // -------------------------------------------------------------- side blocks

    /** A stored row is never overwritten. */
    method AddSide(b: Block, totalWork: int, received: int)
      modifies `side, `sideOrder
      ensures View() == SideAdd(old(View()), b, totalWork, received)
    {
      if b.hash !in side {
        side := side[b.hash := SideRow(b, totalWork, true, received)];
        sideOrder := sideOrder + [b.hash];
      }
    }

    method RemoveSide(h: Hash)
      modifies `side, `sideOrder
      ensures View() == SideRemove(old(View()), h)
    {
      side := side - {h};
      sideOrder := Without(sideOrder, h);
    }

    method MarkInvalid(hashes: seq<Hash>)
      modifies `side
      ensures View() == SideMarkInvalid(old(View()), set h | h in hashes)
    {
      for i := 0 to |hashes|
        invariant side.Keys == old(side).Keys
        invariant forall h :: h in side ==>
          side[h] == if h in hashes[..i] then old(side)[h].(valid := false) else old(side)[h]
      {
        if hashes[i] in side {
          side := side[hashes[i] := side[hashes[i]].(valid := false)];
        }
      }
    }

    /** Computes `SidePrune` in place. */
    method PruneSide(minHeight: int, maxCount: nat)
      requires forall h :: h in sideOrder <==> h in side
      modifies `side, `sideOrder
      ensures View() == SidePrune(old(View()), minHeight, maxCount)
    {
      hide EvictOldest, FilterOrder;
      side := map h | h in side && side[h].block.height >= minHeight :: side[h];
      sideOrder := FilterOrder(sideOrder, side.Keys);
      var excess := |side| - maxCount;
      if excess > 0 {
        var left := EvictOldest(sideOrder, side, excess);
        side, sideOrder := left.0, left.1;
      } else {
        NoEviction(sideOrder, side);
      }
    }

    // -------------------------------------------------------------- header walk

    /** Headers of a block and its ancestors, newest first: by hash along side branches until the best chain
        is reached, then by height. */
    method WalkHeaders(h: Hash, count: nat) returns (headers: seq<Entry>)
      ensures headers == HeaderChain(View(), h, count)
    {
      headers := [];
      var cursor := h;
      while |headers| < count
        invariant |headers| <= count
        invariant headers + HeaderChain(View(), cursor, count - |headers|) == HeaderChain(View(), h, count)
        decreases count - |headers|
      {
        var left := count - |headers|;
        var i := FindRow(rows, cursor);
        if i.Some? {
          var low := if i.value + 1 >= left then i.value + 1 - left else 0;
          headers := headers + RowEntries(rows, low, i.value);
          return;
        }
        if cursor !in side {
          assert HeaderChain(View(), cursor, left) == [];
          return;
        }
        var b := side[cursor].block;
        headers := headers + [Entry(b.timestamp, b.difficulty)];
        cursor := b.previous;
      }
      assert HeaderChain(View(), cursor, 0) == [];
    }

    // -------------------------------------------------------------- mempool

    /** A sender's pending transactions in nonce order; (sender, nonce) is unique in the table. */
    method MempoolForSender(a: Address) returns (queue: seq<Tx>)
      requires UniquePool(mempool)
      ensures queue == Queue(mempool, a)
    {
      queue := [];
      var pending := PendingOf(mempool, a);
      var rest := pending;
      while rest != {}
        invariant rest <= pending
        invariant forall t :: t in queue <==> t in pending - rest
        invariant forall i, j :: 0 <= i < j < |queue| ==> queue[i].nonce < queue[j].nonce
        invariant forall i, t :: 0 <= i < |queue| && t in rest ==> queue[i].nonce < t.nonce
        decreases |rest|
      {
        LeastNonce(rest);
        var t :| t in rest && forall u :: u in rest ==> t.nonce <= u.nonce;
        forall u | u in rest - {t}
          ensures t.nonce < u.nonce
        {
          assert t in mempool && u in mempool && t.sender == u.sender;
        }
        queue := queue + [t];
        rest := rest - {t};
      }
      assert Listing(queue, pending);
      QueueIs(mempool, a, queue);
    }

    /** The whole pool by descending fee, then by timestamp. */
    method MempoolList() returns (listing: seq<Tx>)
      ensures ByPriority(listing, mempool)
    {
      listing := [];
      var rest := mempool;
      while rest != {}
        invariant rest <= mempool
        invariant forall t :: t in listing <==> t in mempool - rest
        invariant forall i, j :: 0 <= i < j < |listing| ==> listing[i] != listing[j]
        invariant forall i, j :: 0 <= i < j < |listing| ==> NotAfter(listing[i], listing[j])
        invariant forall i, t :: 0 <= i < |listing| && t in rest ==> NotAfter(listing[i], t)
        decreases |rest|
      {
        FirstByPriority(rest);
        var t :| t in rest && forall u :: u in rest ==> NotAfter(t, u);
        assert t !in listing;
        listing := listing + [t];
        rest := rest - {t};
      }
    }

    /** Refused when the id or the (sender, nonce) pair is taken. */
    method MempoolAdd(tx: Tx) returns (ok: bool)
      modifies `mempool
      ensures ok <==> tx !in old(mempool) && forall t :: t in old(mempool) && t.sender == tx.sender ==> t.nonce != tx.nonce
      ensures mempool == if ok then old(mempool) + {tx} else old(mempool)
    {
      ok := tx !in mempool && forall t :: t in mempool && t.sender == tx.sender ==> t.nonce != tx.nonce;
      if ok {
        mempool := mempool + {tx};
      }
    }

    method MempoolRemove(txs: seq<Tx>)
      modifies `mempool
      ensures mempool == old(mempool) - TxSet(txs) && View() == old(View()).(mempool := mempool)
    {
      for i := 0 to |txs|
        invariant mempool == old(mempool) - TxSet(txs[..i])
      {
        assert TxSet(txs[..i + 1]) == TxSet(txs[..i]) + {txs[i]};
        mempool := mempool - {txs[i]};
      }
      assert txs[..|txs|] == txs;
    }
  }
}
