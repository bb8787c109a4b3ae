/** Which disconnected transactions are pending after a successful reorganization, and when none of them is. */
module ReorgReturns {
  import opened Types
  import opened Ledger
  import opened Chain
  import opened ChainFacts
  import opened Tables
  import opened TableFacts
  import opened Mempool
  import opened MempoolFacts
  import opened Branches
  import opened Node
  import opened NodeFacts
  import opened RestoreFacts

  // ---------------------------------------------------------------- nonces along a chain

  /** The nonces m + 1 .. n, in order. */
  ghost predicate Climbs(q: seq<Tx>, m: int, n: int) {
    |q| == Max(0, n - m) && forall i :: 0 <= i < |q| ==> q[i].nonce == m + 1 + i
  }

  lemma ClimbsStep(q: seq<Tx>, m: int, n: int, t: Tx)
    requires Climbs(q, m, n) && t.nonce == n + 1
    ensures Climbs(if t.nonce > m then q + [t] else q, m, n + 1)
  {}

  lemma TransferNonces(m: Accounts, tx: Tx, a: Address)
    ensures Get(Transfer(m, tx), a).nonce == if tx.sender == a then tx.nonce else Get(m, a).nonce
  {}

  /** Within a block the sender's nonces go on climbing. */
  lemma {:induction false} BlockClimbs(m: Accounts, immature: map<Address, int>, txs: seq<Tx>, confirmed: set<Hash>,
                                       earlier: seq<Tx>, a: Address, low: int)
    requires CheckTxs(m, immature, txs, confirmed).None?
    requires Climbs(Outstanding(earlier, a, low), low, Get(m, a).nonce)
    ensures Climbs(Outstanding(earlier + txs, a, low), low, Get(Transfers(m, txs), a).nonce)
  {
    hide Outstanding, Climbs, Transfer, Get;
    if txs == [] {
      assert earlier + txs == earlier;
    } else {
      var n := |txs| - 1;
      BlockClimbs(m, immature, txs[..n], confirmed, earlier, a, low);
      TransferNonces(Transfers(m, txs[..n]), txs[n], a);
      var all := earlier + txs;
      assert all[..|all| - 1] == earlier + txs[..n] && all[|all| - 1] == txs[n];
      OutstandingStep(all, a, low);
      if txs[n].sender == a {
        ClimbsStep(Outstanding(earlier + txs[..n], a, low), low, Get(Transfers(m, txs[..n]), a).nonce, txs[n]);
      }
    }
  }

  lemma AllTxsStep(rows: seq<Row>, k: nat)
    requires k < |rows|
    ensures AllTxs(Blocks(rows[k..]))
         == AllTxs(Blocks(rows[..|rows| - 1][k..])) + rows[|rows| - 1].block.txs
  {
    var all := Blocks(rows[k..]);
    assert all[..|all| - 1] == Blocks(rows[..|rows| - 1][k..]);
  }

  /** A sender's transactions in the rows from k on, those above any nonce it had reached by then. */
  lemma {:induction false} ChainClimbs(p: Params, rows: seq<Row>, k: nat, a: Address, low: int)
    requires ValidParams(p) && ValidRows(p, rows) && 1 <= k <= |rows|
    requires low >= Get(Replay(p, rows[..k]), a).nonce
    ensures Climbs(Outstanding(AllTxs(Blocks(rows[k..])), a, low), low, Get(Replay(p, rows), a).nonce)
    decreases |rows|
  {
    hide *;
    if k == |rows| {
      assert rows[..k] == rows;
      NoneOutstanding(rows, a, low, Get(Replay(p, rows), a).nonce);
    } else {
      var before, r := rows[..|rows| - 1], rows[|rows| - 1];
      assert before[..k] == rows[..k];
      LastRow(p, rows);
      ChainClimbs(p, before, k, a, low);
      ReplayStep(p, rows);
      AllTxsStep(rows, k);
      BlockClimbs(Replay(p, before), Immature(p, before, |before|), r.block.txs, IndexOf(before).Keys,
                  AllTxs(Blocks(before[k..])), a, low);
      PayReads(Transfers(Replay(p, before), r.block.txs), r.miner, r.subsidy + r.fees, a);
    }
  }

  lemma NoneOutstanding(rows: seq<Row>, a: Address, low: int, n: int)
    requires low >= n
    ensures Climbs(Outstanding(AllTxs(Blocks(rows[|rows|..])), a, low), low, n)
  {
    assert Blocks(rows[|rows|..]) == [];
  }

  /** Nonces only grow along a chain. */
  lemma {:induction false} NonceGrows(p: Params, rows: seq<Row>, k: nat, a: Address)
    requires ValidParams(p) && ValidRows(p, rows) && 1 <= k <= |rows|
    ensures Get(Replay(p, rows[..k]), a).nonce <= Get(Replay(p, rows), a).nonce
    decreases |rows|
  {
    hide *;
    if k == |rows| {
      assert rows[..k] == rows;
    } else {
      var before := rows[..|rows| - 1];
      assert before[..k] == rows[..k];
      LastRow(p, rows);
      NonceGrows(p, before, k, a);
      NonceIsCount(p, rows, a);
      NonceIsCount(p, before, a);
      SentStep(rows, a);
    }
  }

  lemma ClimbsParts(q: seq<Tx>, m: int, n: int)
    ensures Climbs(q, m, n) <==> |q| == Max(0, n - m) && forall i :: 0 <= i < |q| ==> q[i].nonce == m + 1 + i
  {}

  /** The chain after a switch confirms nothing its sender's nonce has not passed. */
  lemma BranchPassed(p: Params, rows: seq<Row>, k: nat, t: Tx)
    requires ValidParams(p) && ValidRows(p, rows) && 1 <= k <= |rows| && t in AllTxs(Blocks(rows[k..]))
    ensures t.nonce <= Get(Replay(p, rows), t.sender).nonce
  {
    hide *;
    var n := Get(Replay(p, rows), t.sender).nonce;
    NonceGrows(p, rows, k, t.sender);
    ChainClimbs(p, rows, k, t.sender, n);
    ClimbsParts(Outstanding(AllTxs(Blocks(rows[k..])), t.sender, n), n, n);
    MaxIs(0);
    assert t !in Outstanding(AllTxs(Blocks(rows[k..])), t.sender, n);
  }

  // ---------------------------------------------------------------- after a switch

  /** Of the transactions disconnected by a switch, those of a sender above its new nonce continue that nonce
      and come before everything the sender still had pending. */
  lemma SwitchContinues(p: Params, st: Store, after: Store, fork: nat, a: Address)
    requires ValidParams(p) && StoreInv(p, st) && ChainInv(p, after)
    requires ValidRows(p, st.rows) && ValidRows(p, after.rows) && fork < |st.rows| && fork < |after.rows|
    requires after.rows[..fork + 1] == st.rows[..fork + 1]
    ensures
      var gone, confirmed := AllTxs(Blocks(st.rows[fork + 1..])), TxSet(AllTxs(Blocks(after.rows[fork + 1..])));
      var n, m := Get(st.accounts, a).nonce, Get(after.accounts, a).nonce;
      && Climbs(Outstanding(gone, a, m), m, n)
      && (n > m ==> Continues(after.(mempool := st.mempool - confirmed), gone, confirmed, a))
  {
    hide *;
    StoreInvParts(p, st);
    ChainInvParts(p, st);
    ChainInvParts(p, after);
    var gone, confirmed := AllTxs(Blocks(st.rows[fork + 1..])), TxSet(AllTxs(Blocks(after.rows[fork + 1..])));
    ReadAgrees(st.accounts, Replay(p, st.rows), a);
    ReadAgrees(after.accounts, Replay(p, after.rows), a);
    var n, m := Get(st.accounts, a).nonce, Get(after.accounts, a).nonce;
    NonceGrows(p, after.rows, fork + 1, a);
    ChainClimbs(p, st.rows, fork + 1, a, m);
    if n > m {
      var back, left := Outstanding(gone, a, m), after.(mempool := st.mempool - confirmed);
      ClimbsParts(back, m, n);
      MaxIs(n - m);
      forall t | t in back
        ensures t !in confirmed
      {
        InTxSet(AllTxs(Blocks(after.rows[fork + 1..])), t);
        if t in confirmed {
          BranchPassed(p, after.rows, fork + 1, t);
        }
      }
      MemInvAt(p, st, a);
      PoolIsUnique(p, st.mempool);
      QueueMembers(st.mempool, a);
      PendingAbove(Queue(st.mempool, a), n, Spendable(p, st, a));
      forall t | t in left.mempool && t.sender == a
        ensures t.nonce > m + |back|
      {
        assert t in Queue(st.mempool, a);
      }
      ContinuesParts(left, gone, confirmed, a);
    }
  }

  lemma MaxIs(x: int)
    requires x >= 0
    ensures Max(0, x) == x
  {}

  lemma InTxSet(txs: seq<Tx>, t: Tx)
    ensures t in TxSet(txs) <==> t in txs
  {}

  lemma PendingAbove(q: seq<Tx>, nonce: int, spendable: int)
    requires QueueOk(q, nonce, spendable)
    ensures forall t :: t in q ==> t.nonce > nonce
  {
    hide CostSum;
  }

  // ---------------------------------------------------------------- after a reorganization

  lemma BranchBlocks(rows: seq<Row>, k: nat, path: seq<Block>)
    requires |rows| == k + |path| && forall i :: 0 <= i < |path| ==> rows[k + i].block == path[i]
    ensures Blocks(rows[k..]) == path
  {}

  /** The pool after a switch is what the restore step makes of the old one on the switched tables. */
  ghost predicate SwitchedPool(p: Params, st: Store, fork: nat, path: seq<Block>, now: int, mid: Store, after: Store)
    requires ValidParams(p) && fork < |st.rows|
  {
    && ChainInv(p, mid) && mid.rows == after.rows != [] && mid.accounts == after.accounts && mid.mempool == st.mempool
    && after.mempool == Restore(p, mid, Blocks(st.rows[fork + 1..]), path, now).mempool
    && fork < |after.rows| && after.rows[..fork + 1] == st.rows[..fork + 1] && Blocks(after.rows[fork + 1..]) == path
  }

  lemma SwitchedPoolParts(p: Params, st: Store, fork: nat, path: seq<Block>, now: int, mid: Store, after: Store)
    requires ValidParams(p) && fork < |st.rows|
    ensures SwitchedPool(p, st, fork, path, now, mid, after) <==>
      && ChainInv(p, mid) && mid.rows == after.rows != [] && mid.accounts == after.accounts && mid.mempool == st.mempool
      && after.mempool == Restore(p, mid, Blocks(st.rows[fork + 1..]), path, now).mempool
      && fork < |after.rows| && after.rows[..fork + 1] == st.rows[..fork + 1] && Blocks(after.rows[fork + 1..]) == path
  {
    hide Restore, ChainInv, Blocks;
  }

  lemma RestoredPool(p: Params, st: Store, fork: nat, path: seq<Block>, now: int, mid: Store)
    requires ValidParams(p) && ChainInv(p, st) && MemInv(p, st) && ChainInv(p, mid) && SideInv(p, mid)
    requires ValidRows(p, st.rows) && fork < |st.rows| && mid.mempool == st.mempool && mid.rows != []
    requires |mid.rows| == fork + 1 + |path| && mid.rows[..fork + 1] == st.rows[..fork + 1]
    requires forall i :: 0 <= i < |path| ==> mid.rows[fork + 1 + i].block == path[i]
    ensures Restore(p, mid, Blocks(st.rows[fork + 1..]), path, now).rows != []
    ensures SwitchedPool(p, st, fork, path, now, mid,
                         Housekeeping(p, Restore(p, mid, Blocks(st.rows[fork + 1..]), path, now)))
  {
    hide *;
    MemPool(p, st);
    GoneWellFormed(p, st.rows, fork + 1);
    RestoreEstablishes(p, mid, Blocks(st.rows[fork + 1..]), path, now);
    var restored := Restore(p, mid, Blocks(st.rows[fork + 1..]), path, now);
    SideInvSame(p, mid, restored);
    HousekeepingKeeps(p, restored);
    BranchBlocks(mid.rows, fork + 1, path);
    SwitchedPoolParts(p, st, fork, path, now, mid, Housekeeping(p, restored));
  }

  lemma SwitchRestores(p: Params, s: State, path: seq<Block>, totals: seq<int>, fork: nat, now: int) returns (mid: Store)
    requires ValidParams(p) && StoreInv(p, s.store) && ChainInv(p, s.store) && SideInv(p, s.store)
    requires fork < |s.store.rows| && PathOk(p, path, totals, s.store.rows[fork].block.hash)
    requires |path| == |totals| && Switch(p, s, path, totals, fork, now).1.Done?
    ensures SwitchedPool(p, s.store, fork, path, now, mid, Switch(p, s, path, totals, fork, now).0.store)
  {
    hide *;
    var st := s.store;
    StoreInvParts(p, st);
    ChainInvParts(p, st);
    SwitchCases(p, s, path, totals, fork, now);
    DisconnectToFacts(p, st, fork);
    var base := DisconnectTo(p, st, fork);
    TipParts(base);
    ConnectPathFacts(p, base, path, totals, now);
    mid := ConnectPath(p, base, path, totals, now).store;
    PathConnectedIs(base, path, mid);
    ChainInvParts(p, mid);
    RestoredPool(p, st, fork, path, now, mid);
  }

  /** So it is after a successful reorganization. */
  lemma ReorganizeRestores(p: Params, s: State, h: Hash, now: int) returns (mid: Store, fork: nat)
    requires ValidParams(p) && StoreInv(p, s.store) && h in s.store.side
    requires Reorganize(p, s, h, now).1.Done? && Reorganize(p, s, h, now).1.status == Reorganized
    ensures SideWalk(p, s.store, h).Walk? && FindRow(s.store.rows, SideWalk(p, s.store, h).start) == Some(fork)
    ensures fork < |s.store.rows| && StoreInv(p, Reorganize(p, s, h, now).0.store)
    ensures SwitchedPool(p, s.store, fork, SideWalk(p, s.store, h).path, now, mid, Reorganize(p, s, h, now).0.store)
  {
    hide *;
    StoreInvParts(p, s.store);
    var st, walk := s.store, SideWalk(p, s.store, h);
    ReorganizeSucceeds(p, s, h, now);
    ReorganizeCases(p, s, h, now);
    SideWalkFacts(p, st, h);
    FoundRow(st.rows, walk.start);
    fork := FindRow(st.rows, walk.start).value;
    mid := SwitchRestores(p, s, walk.path, walk.totals, fork, now);
  }

  /** What a sender has pending after a successful reorganization. Of its disconnected transactions those
      above its new nonce are still in sequence: they are numbered from there up to its old nonce. If there
      are any and the sender had anything else pending, which can only be later nonces, nothing of it is
      pending afterwards; if it had nothing else, all of them are, given funds and room. So transactions that
      are still valid return if and only if the sender had nothing else pending. Nothing but old pending and
      disconnected transactions is in the pool. */
  lemma ReorganizeReturns(p: Params, s: State, h: Hash, now: int, a: Address)
    requires ValidParams(p) && StoreInv(p, s.store) && h in s.store.side
    requires Reorganize(p, s, h, now).1.Done? && Reorganize(p, s, h, now).1.status == Reorganized
    ensures SideWalk(p, s.store, h).Walk? && FindRow(s.store.rows, SideWalk(p, s.store, h).start).Some?
    ensures
      var st, after, walk := s.store, Reorganize(p, s, h, now).0.store, SideWalk(p, s.store, h);
      var fork := FindRow(st.rows, walk.start).value;
      fork < |st.rows| && after.rows != []
      && var gone, left := AllTxs(Blocks(st.rows[fork + 1..])), st.mempool - TxSet(AllTxs(walk.path));
      var n, m := Get(st.accounts, a).nonce, Get(after.accounts, a).nonce;
      var back := Outstanding(gone, a, m);
      && |back| == Max(0, n - m) && (forall i :: 0 <= i < |back| ==> back[i].nonce == m + 1 + i)
      && (n > m && Queue(left, a) != [] ==> Queue(after.mempool, a) == [])
      && (n > m && CostSum(back) <= Spendable(p, after, a)
          && |left| + |gone| <= p.mempoolMaxTxs && |back| <= p.mempoolMaxPerSender ==>
            (Queue(after.mempool, a) == back <==> Queue(left, a) == []))
      && (forall t :: t in after.mempool ==> t in left || t in gone)
  {
    hide *;
    StoreInvParts(p, s.store);
    var st, after, walk := s.store, Reorganize(p, s, h, now).0.store, SideWalk(p, s.store, h);
    var mid, fork := ReorganizeRestores(p, s, h, now);
    SwitchedPoolParts(p, st, fork, walk.path, now, mid, after);
    ChainInvParts(p, st);
    ChainInvParts(p, mid);
    var gone, confirmed := AllTxs(Blocks(st.rows[fork + 1..])), TxSet(AllTxs(walk.path));
    var n, m := Get(st.accounts, a).nonce, Get(after.accounts, a).nonce;
    var back, cleared := Outstanding(gone, a, m), mid.(mempool := mid.mempool - confirmed);
    SwitchContinues(p, st, mid, fork, a);
    ClimbsParts(back, m, n);
    MemPool(p, st);
    GoneWellFormed(p, st.rows, fork + 1);
    SpendableAcross(p, after, cleared, a);
    AffordableBuild(p, cleared, gone, a);
    if n > m {
      MaxIs(n - m);
      RestoreReturns(p, mid, Blocks(st.rows[fork + 1..]), walk.path, now, a);
    }
    RestorePool(p, mid, Blocks(st.rows[fork + 1..]), walk.path, now);
  }

  /** What a sender keeps when its nonce moved up over a switch to the given branch: its pending transactions
      up to the new nonce are gone, confirmed or in conflict; if one of those in conflict costs more than the
      sender can spend now, the rest goes with it; otherwise the rest stays from the front as far as the funds
      reach. */
  ghost predicate KeepsPending(p: Params, st: Store, after: Store, path: seq<Block>, a: Address)
    requires after.rows != [] && Get(st.accounts, a).nonce <= Get(after.accounts, a).nonce
  {
    var queue, confirmed, funds := Queue(st.mempool, a), TxSet(AllTxs(path)), Spendable(p, after, a);
    var moved := Get(after.accounts, a).nonce - Get(st.accounts, a).nonce;
    var k := if moved <= |queue| then moved else |queue|;
    if exists t :: t in queue[..k] && t !in confirmed && t.Cost() > funds then Queue(after.mempool, a) == []
    else AffordablePart(Queue(after.mempool, a), queue[k..], funds)
  }

  /** What a sender keeps when the new branch confirms at least as many of its transactions as the old one. */
  lemma ReorganizeKeepsPending(p: Params, s: State, h: Hash, now: int, a: Address)
    requires ValidParams(p) && StoreInv(p, s.store) && h in s.store.side
    requires Reorganize(p, s, h, now).1.Done? && Reorganize(p, s, h, now).1.status == Reorganized
    requires Get(s.store.accounts, a).nonce <= Get(Reorganize(p, s, h, now).0.store.accounts, a).nonce
    ensures SideWalk(p, s.store, h).Walk? && Reorganize(p, s, h, now).0.store.rows != []
    ensures KeepsPending(p, s.store, Reorganize(p, s, h, now).0.store, SideWalk(p, s.store, h).path, a)
  {
    hide *;
    StoreInvParts(p, s.store);
    var st, after, walk := s.store, Reorganize(p, s, h, now).0.store, SideWalk(p, s.store, h);
    var mid, fork := ReorganizeRestores(p, s, h, now);
    SwitchedPoolParts(p, st, fork, walk.path, now, mid, after);
    ChainInvParts(p, st);
    ChainInvParts(p, mid);
    var gone, confirmed := AllTxs(Blocks(st.rows[fork + 1..])), TxSet(AllTxs(walk.path));
    var n, m := Get(st.accounts, a).nonce, Get(after.accounts, a).nonce;
    SwitchContinues(p, st, mid, fork, a);
    ClimbsParts(Outstanding(gone, a, m), m, n);
    MaxNot(n - m);
    MemPool(p, st);
    GoneWellFormed(p, st.rows, fork + 1);
    RestoreKeeps(p, mid, Blocks(st.rows[fork + 1..]), walk.path, now, a);
    SpendableAcross(p, after, mid, a);
    MemInvAt(p, st, a);
    forall t | t in AllTxs(walk.path) && t.sender == a
      ensures t.nonce <= m
    {
      BranchPassed(p, after.rows, fork + 1, t);
      ReadAgrees(mid.accounts, Replay(p, mid.rows), a);
    }
    QueueCosts(p, st.mempool, a);
    PoolIsUnique(p, st.mempool);
    QueueMembers(st.mempool, a);
    KeepAfter(Queue(st.mempool, a), AllTxs(walk.path), n, m, Spendable(p, st, a), Spendable(p, after, a), a);
    KeepsPendingIs(p, st, after, walk.path, a);
  }

  lemma MaxNot(x: int)
    requires x <= 0
    ensures Max(0, x) == 0
  {}

  lemma KeepsPendingIs(p: Params, st: Store, after: Store, path: seq<Block>, a: Address)
    requires after.rows != [] && Get(st.accounts, a).nonce <= Get(after.accounts, a).nonce
    ensures KeepsPending(p, st, after, path, a) <==>
      var queue, confirmed, funds := Queue(st.mempool, a), TxSet(AllTxs(path)), Spendable(p, after, a);
      var moved := Get(after.accounts, a).nonce - Get(st.accounts, a).nonce;
      var k := if moved <= |queue| then moved else |queue|;
      if exists t :: t in queue[..k] && t !in confirmed && t.Cost() > funds then Queue(after.mempool, a) == []
      else AffordablePart(Queue(after.mempool, a), queue[k..], funds)
  {
    hide Queue, TxSet, AllTxs, Spendable, AffordablePart, Get;
  }

  /** Pruning a queue in sequence after the nonce moved from n to m. */
  lemma KeepAfter(queue: seq<Tx>, branch: seq<Tx>, n: int, m: int, before: int, funds: int, a: Address)
    requires QueueOk(queue, n, before) && PositiveCosts(queue) && n <= m && funds >= 0
    requires forall t :: t in queue ==> t.sender == a
    requires forall t :: t in branch && t.sender == a ==> t.nonce <= m
    ensures
      var k := if m - n <= |queue| then m - n else |queue|;
      var kept, confirmed := Keep(Except(queue, TxSet(branch)), m, funds, false), TxSet(branch);
      if exists t :: t in queue[..k] && t !in confirmed && t.Cost() > funds then kept == []
      else AffordablePart(kept, queue[k..], funds)
  {
    hide Keep, Except, CostSum, AffordablePart;
    var k := if m - n <= |queue| then m - n else |queue|;
    var confirmed, rest := TxSet(branch), queue[k..];
    forall i | k <= i < |queue|
      ensures queue[i] !in confirmed
    {
      assert queue[i] in queue && queue[i].nonce == n + 1 + i;
    }
    ExceptSplit(queue, confirmed, k);
    var passed := Except(queue[..k], confirmed);
    forall i | 0 <= i < |passed|
      ensures passed[i].nonce <= m
    {
      assert passed[i] in passed && passed[i] in queue[..k];
      var j :| 0 <= j < k && queue[..k][j] == passed[i];
    }
    KeepPassed(passed, rest, m, funds);
    if forall t :: t in passed ==> t.Cost() <= funds {
      KeepAffordable(rest, m, funds);
    }
  }

  lemma SpendableAcross(p: Params, x: Store, y: Store, a: Address)
    requires x.rows == y.rows != [] && x.accounts == y.accounts
    ensures Spendable(p, x, a) == Spendable(p, y, a)
  {}

  lemma AffordableBuild(p: Params, st: Store, txs: seq<Tx>, a: Address)
    requires st.rows != []
    ensures Affordable(p, st, txs, a) <==>
      var back := Outstanding(txs, a, Get(st.accounts, a).nonce);
      && CostSum(back) <= Spendable(p, st, a)
      && |st.mempool| + |txs| <= p.mempoolMaxTxs && |back| <= p.mempoolMaxPerSender
  {
    hide Outstanding, CostSum, Spendable, Get;
  }

  /** The restore step adds nothing but disconnected transactions. */
  lemma RestorePool(p: Params, st: Store, disconnected: seq<Block>, connected: seq<Block>, now: int)
    requires st.rows != []
    ensures forall t :: t in Restore(p, st, disconnected, connected, now).mempool ==>
      t in st.mempool - TxSet(AllTxs(connected)) || t in AllTxs(disconnected)
  {
    hide *;
    var confirmed := TxSet(AllTxs(connected));
    var cleared := st.(mempool := st.mempool - confirmed);
    RestoreIs(p, st, disconnected, connected, now);
    ReadmitGrows(p, cleared, AllTxs(disconnected), confirmed, now);
    PruneParts(p, Readmit(p, cleared, AllTxs(disconnected), confirmed, now));
  }
}
