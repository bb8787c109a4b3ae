/** The mempool invariant: gap-free, affordable, unconfirmed, capped queues. */
module MempoolFacts {
  import opened Types
  import opened Ledger
  import opened Chain
  import opened ChainFacts
  import opened Tables
  import opened TableFacts
  import opened Mempool

  // ---------------------------------------------------------------- queues

  /** q lists exactly the transactions of s, by strictly increasing nonce. */
  ghost predicate Listing(q: seq<Tx>, s: set<Tx>) {
    && (forall t :: t in q <==> t in s)
    && (forall i, j :: 0 <= i < j < |q| ==> q[i].nonce < q[j].nonce)
  }

  ghost predicate DistinctNonces(s: set<Tx>) {
    forall t, u :: t in s && u in s && t.nonce == u.nonce ==> t == u
  }

  lemma {:induction false} ByNonceListing(s: set<Tx>)
    requires DistinctNonces(s)
    ensures Listing(ByNonce(s), s) && |ByNonce(s)| == |s|
  {
    if s != {} {
      LeastNonce(s);
      var t :| t in s && (forall u :: u in s ==> t.nonce <= u.nonce) && ByNonce(s) == [t] + ByNonce(s - {t});
      hide ByNonce;
      ByNonceListing(s - {t});
      ListingCons(t, ByNonce(s - {t}), s);
    }
  }

  lemma ListingCons(t: Tx, rest: seq<Tx>, s: set<Tx>)
    requires DistinctNonces(s) && t in s && (forall u :: u in s ==> t.nonce <= u.nonce) && Listing(rest, s - {t})
    ensures Listing([t] + rest, s)
  {
    forall i | 0 <= i < |rest|
      ensures t.nonce < rest[i].nonce
    {
      assert rest[i] in s - {t};
    }
  }

  lemma {:induction false} ListingUnique(q: seq<Tx>, r: seq<Tx>, s: set<Tx>)
    requires Listing(q, s) && Listing(r, s)
    ensures q == r
    decreases |q|
  {
    assert r != [] ==> r[0] in q;
    if q != [] {
      assert q[0] in s && q[0] in r;
      assert r[0] in s && r[0] in q;
      assert q[0] == r[0];
      ListingTail(q, s);
      ListingTail(r, s);
      ListingUnique(q[1..], r[1..], s - {q[0]});
      assert q == [q[0]] + q[1..] && r == [r[0]] + r[1..];
    }
  }

  lemma ListingTail(q: seq<Tx>, s: set<Tx>)
    requires Listing(q, s) && q != []
    ensures Listing(q[1..], s - {q[0]})
  {
    forall t
      ensures t in q[1..] <==> t in s - {q[0]}
    {
      if t in q[1..] {
        var i :| 0 <= i < |q[1..]| && q[1..][i] == t;
        assert q[i + 1] == t && q[0].nonce < q[i + 1].nonce;
      }
      if t in s - {q[0]} {
        var i :| 0 <= i < |q| && q[i] == t;
        assert q[1..][i - 1] == t;
      }
    }
  }

  // ---------------------------------------------------------------- the invariant

  ghost predicate UniquePool(pool: set<Tx>) {
    forall t, u :: t in pool && u in pool && t.sender == u.sender && t.nonce == u.nonce ==> t == u
  }

  /** What every pool satisfies, even in the middle of a reorganization. */
  ghost predicate PoolOk(p: Params, pool: set<Tx>) {
    && (forall t :: t in pool ==> WellFormedTx(p, t))
    && UniquePool(pool)
    && |pool| <= p.mempoolMaxTxs
    && (forall a: Address :: |PendingOf(pool, a)| <= p.mempoolMaxPerSender)
  }

  /** Nonces follow the confirmed one without a gap, and the total cost is affordable. */
  ghost predicate QueueOk(q: seq<Tx>, nonce: int, spendable: int) {
    (forall i :: 0 <= i < |q| ==> q[i].nonce == nonce + 1 + i) && CostSum(q) <= spendable
  }

  function Spendable(p: Params, st: Store, a: Address): int
    requires st.rows != []
  {
    Get(st.accounts, a).balance - AmountOf(NextImmature(p, st), a)
  }

  ghost predicate MemInv(p: Params, st: Store)
    requires st.rows != []
  {
    && PoolOk(p, st.mempool)
    && forall a: Address :: QueueOk(Queue(st.mempool, a), Get(st.accounts, a).nonce, Spendable(p, st, a))
  }

  lemma QueueListing(pool: set<Tx>, a: Address)
    requires UniquePool(pool)
    ensures Listing(Queue(pool, a), PendingOf(pool, a)) && |Queue(pool, a)| == |PendingOf(pool, a)|
  {
    assert DistinctNonces(PendingOf(pool, a));
    ByNonceListing(PendingOf(pool, a));
  }

  lemma QueueIs(pool: set<Tx>, a: Address, q: seq<Tx>)
    requires UniquePool(pool) && Listing(q, PendingOf(pool, a))
    ensures Queue(pool, a) == q
  {
    QueueListing(pool, a);
    ListingUnique(Queue(pool, a), q, PendingOf(pool, a));
  }

  // ---------------------------------------------------------------- sums

  lemma {:induction false} CostSumFront(t: Tx, q: seq<Tx>)
    ensures CostSum([t] + q) == t.Cost() + CostSum(q)
  {
    if q == [] {
      assert [t] + q == [t] && [t][..0] == [];
    } else {
      CostSumFront(t, q[..|q| - 1]);
      assert ([t] + q)[..|q|] == [t] + q[..|q| - 1];
    }
  }

  ghost predicate PositiveCosts(q: seq<Tx>) {
    forall i :: 0 <= i < |q| ==> q[i].Cost() > 0
  }

  lemma {:induction false} CostSumNonNegative(q: seq<Tx>)
    requires PositiveCosts(q)
    ensures CostSum(q) >= 0
  {
    if q != [] {
      CostSumNonNegative(q[..|q| - 1]);
    }
  }

  // ---------------------------------------------------------------- pruning

  lemma {:induction false} KeepIsOk(q: seq<Tx>, nonce: int, spendable: int, broken: bool)
    requires spendable >= 0 && PositiveCosts(q)
    ensures QueueOk(Keep(q, nonce, spendable, broken), nonce, spendable)
    ensures forall t :: t in Keep(q, nonce, spendable, broken) ==> t in q
  {
    if q != [] {
      var t := q[0];
      assert forall u :: u in q[1..] ==> u in q;
      if broken || t.nonce != nonce + 1 || t.Cost() > spendable {
        KeepIsOk(q[1..], nonce, spendable, broken || t.nonce > nonce + 1 || t.Cost() > spendable);
      } else {
        var rest := Keep(q[1..], nonce + 1, spendable - t.Cost(), false);
        KeepIsOk(q[1..], nonce + 1, spendable - t.Cost(), false);
        CostSumFront(t, rest);
      }
    }
  }

  /** Pruning is the identity on a queue that is in order and affordable. */
  lemma {:induction false} KeepAll(q: seq<Tx>, nonce: int, spendable: int)
    requires QueueOk(q, nonce, spendable) && PositiveCosts(q)
    ensures Keep(q, nonce, spendable, false) == q
  {
    if q != [] {
      var t := q[0];
      assert [t] + q[1..] == q;
      CostSumFront(t, q[1..]);
      CostSumNonNegative(q[1..]);
      assert forall i :: 0 <= i < |q[1..]| ==> q[1..][i] == q[i + 1];
      KeepAll(q[1..], nonce + 1, spendable - t.Cost());
    }
  }

  lemma SubsetSize<T>(a: set<T>, b: set<T>)
    requires a <= b
    ensures |a| <= |b|
  {
    assert b == a + (b - a);
  }

  lemma PoolSubset(p: Params, pool: set<Tx>, sub: set<Tx>)
    requires PoolOk(p, pool) && sub <= pool
    ensures PoolOk(p, sub)
  {
    SubsetSize(sub, pool);
    forall a: Address
      ensures |PendingOf(sub, a)| <= p.mempoolMaxPerSender
    {
      assert |PendingOf(pool, a)| <= p.mempoolMaxPerSender;
      SubsetSize(PendingOf(sub, a), PendingOf(pool, a));
    }
  }

  lemma QueueCosts(p: Params, pool: set<Tx>, a: Address)
    requires ValidParams(p) && PoolOk(p, pool)
    ensures PositiveCosts(Queue(pool, a))
  {
    QueueListing(pool, a);
    var q := Queue(pool, a);
    forall i | 0 <= i < |q|
      ensures q[i].Cost() > 0
    {
      assert q[i] in PendingOf(pool, a);
    }
  }

  /** Balances cover immature amounts, in the store as in the replay. */
  lemma SpendableNonNegative(p: Params, st: Store, a: Address)
    requires ValidParams(p) && ChainInv(p, st)
    ensures Spendable(p, st, a) >= 0 && TipHeight(st) == |st.rows| - 1
  {
    hide *;
    ChainInvParts(p, st);
    RowAmounts(p, st.rows, |st.rows| - 1);
    TipParts(st);
    BalanceCoversImmature(p, st.rows, a);
    ReadAgrees(st.accounts, Replay(p, st.rows), a);
    SpendableIs(p, st, a);
  }

  lemma ReadAgrees(m: Accounts, n: Accounts, a: Address)
    requires Agree(m, n)
    ensures Get(m, a) == Get(n, a)
  {}

  lemma SpendableIs(p: Params, st: Store, a: Address)
    requires st.rows != []
    ensures Spendable(p, st, a)
         == Get(st.accounts, a).balance - AmountOf(Immature(p, st.rows, TipHeight(st) + 1), a)
  {}

  lemma SpendableSame(p: Params, st: Store, after: Store, a: Address)
    requires st.rows != [] && after == st.(mempool := after.mempool)
    ensures Spendable(p, after, a) == Spendable(p, st, a) && after.accounts == st.accounts && after.index == st.index
  {}

  /** After pruning, each queue is exactly the surviving part of the old one. */
  lemma PrunedQueue(p: Params, st: Store, a: Address)
    requires ValidParams(p) && st.rows != [] && PoolOk(p, st.mempool)
    requires Spendable(p, st, a) >= 0
    ensures PoolOk(p, Prune(p, st).mempool)
    ensures Queue(Prune(p, st).mempool, a) == KeptOf(p, st, a)
    ensures QueueOk(KeptOf(p, st, a), Get(st.accounts, a).nonce, Spendable(p, st, a))
  {
    hide *;
    QueueCosts(p, st.mempool, a);
    PoolIsUnique(p, st.mempool);
    QueueListing(st.mempool, a);
    var q, kept := Queue(st.mempool, a), KeptOf(p, st, a);
    KeptIs(p, st, a);
    KeepIsOk(q, Get(st.accounts, a).nonce, Spendable(p, st, a), false);
    PruneParts(p, st);
    PoolSubset(p, st.mempool, Prune(p, st).mempool);
    PoolIsUnique(p, Prune(p, st).mempool);
    KeptListing(p, st, a, q, kept);
    QueueIs(Prune(p, st).mempool, a, kept);
  }

  lemma KeptIs(p: Params, st: Store, a: Address)
    requires st.rows != []
    ensures KeptOf(p, st, a) == Keep(Queue(st.mempool, a), Get(st.accounts, a).nonce, Spendable(p, st, a), false)
  {
    hide Keep, Queue;
  }

  lemma {:induction false} KeepAscends(q: seq<Tx>, nonce: int, spendable: int, broken: bool)
    requires forall i, j :: 0 <= i < j < |q| ==> q[i].nonce < q[j].nonce
    ensures
      var r := Keep(q, nonce, spendable, broken);
      (forall i, j :: 0 <= i < j < |r| ==> r[i].nonce < r[j].nonce) && forall t :: t in r ==> t in q
  {
    if q != [] {
      var t, rest := q[0], q[1..];
      assert forall i :: 0 <= i < |rest| ==> rest[i] == q[i + 1];
      assert forall u :: u in rest ==> u in q && t.nonce < u.nonce;
      if broken || t.nonce != nonce + 1 || t.Cost() > spendable {
        KeepAscends(rest, nonce, spendable, broken || t.nonce > nonce + 1 || t.Cost() > spendable);
      } else {
        KeepAscends(rest, nonce + 1, spendable - t.Cost(), false);
      }
    }
  }

  lemma KeptListing(p: Params, st: Store, a: Address, q: seq<Tx>, kept: seq<Tx>)
    requires st.rows != [] && Listing(q, PendingOf(st.mempool, a)) && kept == KeptOf(p, st, a) && q == Queue(st.mempool, a)
    ensures Listing(kept, PendingOf(Prune(p, st).mempool, a))
  {
    hide Keep, Queue, Spendable;
    KeptIs(p, st, a);
    KeepAscends(q, Get(st.accounts, a).nonce, Spendable(p, st, a), false);
  }

  /** Pruning establishes the invariant from any well-formed, capped pool. */
  lemma PruneEstablishes(p: Params, st: Store)
    requires ValidParams(p) && ChainInv(p, st) && PoolOk(p, st.mempool)
    ensures MemInv(p, Prune(p, st))
  {
    hide *;
    ChainInvParts(p, st);
    forall a: Address
      ensures QueueOk(Queue(Prune(p, st).mempool, a), Get(st.accounts, a).nonce, Spendable(p, st, a))
    {
      SpendableNonNegative(p, st, a);
      PrunedQueue(p, st, a);
    }
    SpendableNonNegative(p, st, GENESIS_MINER);
    PrunedQueue(p, st, GENESIS_MINER);
    PruneParts(p, st);
    MemInvBuild(p, st, Prune(p, st));
  }

  lemma PruneParts(p: Params, st: Store)
    requires st.rows != []
    ensures Prune(p, st) == st.(mempool := Prune(p, st).mempool) && Prune(p, st).mempool <= st.mempool
  {
    hide KeptOf;
  }

  lemma MemInvBuild(p: Params, st: Store, after: Store)
    requires st.rows != [] && after == st.(mempool := after.mempool) && PoolOk(p, after.mempool)
    requires forall a: Address :: QueueOk(Queue(after.mempool, a), Get(st.accounts, a).nonce, Spendable(p, st, a))
    ensures MemInv(p, after)
  {
    hide PoolOk, QueueOk, Queue, Immature;
    forall a: Address
      ensures QueueOk(Queue(after.mempool, a), Get(after.accounts, a).nonce, Spendable(p, after, a))
    {
      assert Spendable(p, after, a) == Spendable(p, st, a);
    }
  }

  lemma MemInvAt(p: Params, st: Store, a: Address)
    requires st.rows != [] && MemInv(p, st)
    ensures PoolOk(p, st.mempool)
    ensures QueueOk(Queue(st.mempool, a), Get(st.accounts, a).nonce, Spendable(p, st, a))
  {
    hide PoolOk, QueueOk, Queue, Immature;
    assert Spendable(p, st, a) == Spendable(p, st, a);
  }

  /** A pool that satisfies the invariant is left alone by pruning. */
  lemma PruneIdle(p: Params, st: Store)
    requires ValidParams(p) && st.rows != [] && MemInv(p, st)
    ensures Prune(p, st) == st
  {
    hide WellFormedTx, Immature, CostSum, Keep;
    forall t | t in st.mempool
      ensures t in KeptOf(p, st, t.sender)
    {
      MemInvAt(p, st, t.sender);
      QueueCosts(p, st.mempool, t.sender);
      QueueListing(st.mempool, t.sender);
      KeepAll(Queue(st.mempool, t.sender), Get(st.accounts, t.sender).nonce, Spendable(p, st, t.sender));
      assert t in PendingOf(st.mempool, t.sender);
    }
    assert Prune(p, st).mempool == st.mempool;
  }

  // ---------------------------------------------------------------- admission

  lemma AdmitParts(p: Params, st: Store, tx: Tx, now: int, checkWindow: bool)
    requires st.rows != [] && Admit(p, st, tx, now, checkWindow).Ok?
    ensures Admit(p, st, tx, now, checkWindow) == Ok(st.(mempool := st.mempool + {tx}))
    ensures tx !in st.mempool && |st.mempool| < p.mempoolMaxTxs && TxHash(tx) !in st.index
    ensures |Queue(st.mempool, tx.sender)| < p.mempoolMaxPerSender
    ensures tx.nonce == Get(st.accounts, tx.sender).nonce + |Queue(st.mempool, tx.sender)| + 1
    ensures tx.Cost() <= Spendable(p, st, tx.sender) - CostSum(Queue(st.mempool, tx.sender))
    ensures forall t :: t in st.mempool && t.sender == tx.sender ==> t.nonce != tx.nonce
  {
    hide Queue, Immature, CostSum;
  }

  lemma PendingAfter(pool: set<Tx>, tx: Tx, a: Address)
    ensures PendingOf(pool + {tx}, a) == if a == tx.sender then PendingOf(pool, a) + {tx} else PendingOf(pool, a)
  {}

  lemma PoolAdd(p: Params, pool: set<Tx>, tx: Tx)
    requires PoolOk(p, pool) && WellFormedTx(p, tx) && tx !in pool
    requires |pool| < p.mempoolMaxTxs && |PendingOf(pool, tx.sender)| < p.mempoolMaxPerSender
    requires forall t :: t in pool && t.sender == tx.sender ==> t.nonce != tx.nonce
    ensures PoolOk(p, pool + {tx})
  {
    hide WellFormedTx, PendingOf;
    forall a: Address
      ensures |PendingOf(pool + {tx}, a)| <= p.mempoolMaxPerSender
    {
      PendingAfter(pool, tx, a);
      assert |PendingOf(pool, a)| <= p.mempoolMaxPerSender;
    }
  }

  /** Admission keeps a pool well formed and within its caps, whatever state the queues are in. */
  lemma AdmitKeepsPool(p: Params, st: Store, tx: Tx, now: int, checkWindow: bool)
    requires ValidParams(p) && st.rows != [] && PoolOk(p, st.mempool) && WellFormedTx(p, tx)
    requires Admit(p, st, tx, now, checkWindow).Ok?
    ensures PoolOk(p, st.mempool + {tx})
  {
    hide WellFormedTx, Admit, PoolOk, Queue;
    AdmitParts(p, st, tx, now, checkWindow);
    PoolIsUnique(p, st.mempool);
    QueueListing(st.mempool, tx.sender);
    PoolAdd(p, st.mempool, tx);
  }

  lemma PoolIsUnique(p: Params, pool: set<Tx>)
    requires PoolOk(p, pool)
    ensures UniquePool(pool)
  {}

  /** The admitted transaction goes to the end of its sender's queue; other queues do not move. */
  lemma AdmittedQueue(p: Params, st: Store, tx: Tx, now: int, checkWindow: bool, a: Address)
    requires ValidParams(p) && st.rows != [] && MemInv(p, st) && WellFormedTx(p, tx)
    requires Admit(p, st, tx, now, checkWindow).Ok?
    ensures Queue(st.mempool + {tx}, a)
         == if a == tx.sender then Queue(st.mempool, a) + [tx] else Queue(st.mempool, a)
  {
    hide *;
    AdmitParts(p, st, tx, now, checkWindow);
    MemInvAt(p, st, a);
    AdmitKeepsPool(p, st, tx, now, checkWindow);
    PoolIsUnique(p, st.mempool);
    PoolIsUnique(p, st.mempool + {tx});
    QueueListing(st.mempool, a);
    PendingAfter(st.mempool, tx, a);
    var q := Queue(st.mempool, a);
    if a == tx.sender {
      QueueNonces(q, Get(st.accounts, a).nonce, Spendable(p, st, a));
      ListingAppend(q, PendingOf(st.mempool, a), tx);
      QueueIs(st.mempool + {tx}, a, q + [tx]);
    } else {
      SameQueue(st.mempool, st.mempool + {tx}, a);
    }
  }

  lemma QueueNonces(q: seq<Tx>, nonce: int, spendable: int)
    requires QueueOk(q, nonce, spendable)
    ensures forall t :: t in q ==> t.nonce < nonce + 1 + |q|
  {
    hide CostSum;
  }

  lemma ListingAppend(q: seq<Tx>, s: set<Tx>, tx: Tx)
    requires Listing(q, s) && forall t :: t in q ==> t.nonce < tx.nonce
    ensures Listing(q + [tx], s + {tx})
  {}

  lemma SameQueue(a: set<Tx>, b: set<Tx>, who: Address)
    requires a == b || PendingOf(a, who) == PendingOf(b, who)
    ensures Queue(a, who) == Queue(b, who)
  {}

  lemma AdmitKeepsMemInv(p: Params, st: Store, tx: Tx, now: int, checkWindow: bool)
    requires ValidParams(p) && st.rows != [] && MemInv(p, st) && WellFormedTx(p, tx)
    requires Admit(p, st, tx, now, checkWindow).Ok?
    ensures MemInv(p, Admit(p, st, tx, now, checkWindow).value)
  {
    hide WellFormedTx, Admit, Queue, Immature, PoolOk;
    AdmitParts(p, st, tx, now, checkWindow);
    MemInvAt(p, st, tx.sender);
    AdmitKeepsPool(p, st, tx, now, checkWindow);
    var after := st.(mempool := st.mempool + {tx});
    forall a: Address
      ensures QueueOk(Queue(after.mempool, a), Get(st.accounts, a).nonce, Spendable(p, st, a))
    {
      MemInvAt(p, st, a);
      AdmittedQueue(p, st, tx, now, checkWindow, a);
      if a == tx.sender {
        var q := Queue(st.mempool, a);
        assert (q + [tx])[..|q|] == q;
      }
    }
    MemInvBuild(p, st, after);
  }

  /** A nonce above the confirmed one is not on the chain. */
  lemma NotConfirmed(p: Params, st: Store, tx: Tx)
    requires ValidParams(p) && ChainInv(p, st) && tx.nonce > Get(st.accounts, tx.sender).nonce
    ensures TxHash(tx) !in st.index
  {
    hide ValidRows;
    if TxHash(tx) in st.index {
      ConfirmedNoncePassed(p, st.rows, tx);
      ReadAgrees(st.accounts, Replay(p, st.rows), tx.sender);
    }
  }

  /** No pending transaction is confirmed. */
  lemma PendingNotConfirmed(p: Params, st: Store, tx: Tx)
    requires ValidParams(p) && ChainInv(p, st) && MemInv(p, st) && tx in st.mempool
    ensures TxHash(tx) !in st.index
  {
    hide WellFormedTx, Immature, CostSum, ValidRows;
    MemInvAt(p, st, tx.sender);
    QueueListing(st.mempool, tx.sender);
    assert tx in PendingOf(st.mempool, tx.sender);
    var q := Queue(st.mempool, tx.sender);
    var i :| 0 <= i < |q| && q[i] == tx;
    if TxHash(tx) in st.index {
      ConfirmedNoncePassed(p, st.rows, tx);
      ReadAgrees(st.accounts, Replay(p, st.rows), tx.sender);
    }
  }

  // ---------------------------------------------------------------- restoring

  lemma {:induction false} ReadmitKeepsPool(p: Params, st: Store, txs: seq<Tx>, skip: set<Tx>, now: int)
    requires ValidParams(p) && st.rows != [] && PoolOk(p, st.mempool)
    requires forall i :: 0 <= i < |txs| ==> WellFormedTx(p, txs[i])
    ensures PoolOk(p, Readmit(p, st, txs, skip, now).mempool)
  {
    hide WellFormedTx, Admit, PoolOk;
    if txs != [] {
      ReadmitKeepsPool(p, st, txs[..|txs| - 1], skip, now);
      var before, tx := Readmit(p, st, txs[..|txs| - 1], skip, now), txs[|txs| - 1];
      if tx !in skip && Admit(p, before, tx, now, false).Ok? {
        AdmitParts(p, before, tx, now, false);
        AdmitKeepsPool(p, before, tx, now, false);
      }
    }
  }

  lemma ChainInvIgnoresPool(p: Params, st: Store, pool: set<Tx>)
    requires ValidParams(p) && ChainInv(p, st)
    ensures ChainInv(p, st.(mempool := pool))
  {
    hide ValidRows, Agree;
  }

  /** Restoring after a reorganization re-establishes the invariant and touches nothing but the pool. */
  lemma RestoreEstablishes(p: Params, st: Store, disconnected: seq<Block>, connected: seq<Block>, now: int)
    requires ValidParams(p) && ChainInv(p, st) && PoolOk(p, st.mempool)
    requires forall i :: 0 <= i < |AllTxs(disconnected)| ==> WellFormedTx(p, AllTxs(disconnected)[i])
    ensures
      var after := Restore(p, st, disconnected, connected, now);
      && MemInv(p, after) && ChainInv(p, after) && after == st.(mempool := after.mempool)
  {
    hide WellFormedTx, PoolOk, ChainInv, MemInv, Prune;
    ChainInvParts(p, st);
    var confirmed := TxSet(AllTxs(connected));
    var cleared := st.(mempool := st.mempool - confirmed);
    PoolSubset(p, st.mempool, cleared.mempool);
    ReadmitKeepsPool(p, cleared, AllTxs(disconnected), confirmed, now);
    var readmitted := Readmit(p, cleared, AllTxs(disconnected), confirmed, now);
    ChainInvIgnoresPool(p, st, readmitted.mempool);
    PruneEstablishes(p, readmitted);
    PruneParts(p, readmitted);
    ChainInvIgnoresPool(p, st, Prune(p, readmitted).mempool);
  }
}
