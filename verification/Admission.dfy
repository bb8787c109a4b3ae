/** Which submitted transactions a node accepts, told from the chain and the pool alone. */
module Admission {
  import opened Types
  import opened Ledger
  import opened Chain
  import opened ChainFacts
  import opened Tables
  import opened TableFacts
  import opened Flows
  import opened Mempool
  import opened MempoolFacts
  import opened Node
  import opened Adoption
  import opened Runs

  /** Stamped within the window around the clock, room in the pool, next in line behind what its sender has
      confirmed and pending, and covered by what the sender's statement leaves beyond its pending transactions and
      the rewards still withheld. */
  ghost predicate Admissible(p: Params, st: Store, tx: Tx, now: int) {
    var a, pending := tx.sender, PendingOf(st.mempool, tx.sender);
    && now - p.mempoolTimestampWindow <= tx.timestamp <= now + p.mempoolTimestampWindow
    && |st.mempool| < p.mempoolMaxTxs && |pending| < p.mempoolMaxPerSender
    && tx.nonce == Sent(st.rows, a) + |pending| + 1
    && tx.amount + tx.fee + Spent(Queue(st.mempool, a), a)
         <= Allocated(p.genesisAllocations, a) + Income(st.rows, a) - Outlay(st.rows, a) - Locked(p, st.rows, a, |st.rows|)
  }

  /** The account behind the statement, and the pending transactions in nonce order. */
  lemma SenderStands(p: Params, st: Store, a: Address)
    requires ValidParams(p) && ChainInv(p, st) && st.rows != [] && MemInv(p, st)
    ensures Get(st.accounts, a).nonce == Sent(st.rows, a)
    ensures MempoolFacts.Spendable(p, st, a)
         == Allocated(p.genesisAllocations, a) + Income(st.rows, a) - Outlay(st.rows, a) - Locked(p, st.rows, a, |st.rows|)
    ensures |Queue(st.mempool, a)| == |PendingOf(st.mempool, a)|
    ensures CostSum(Queue(st.mempool, a)) == Spent(Queue(st.mempool, a), a)
    ensures forall t :: t in st.mempool && t.sender == a ==> t.nonce <= Get(st.accounts, a).nonce + |Queue(st.mempool, a)|
  {
    hide *;
    ChainInvParts(p, st);
    BalanceIsFlow(p, st.rows, a);
    ReadAgrees(st.accounts, Replay(p, st.rows), a);
    SpendableNonNegative(p, st, a);
    SpendableIs(p, st, a);
    ImmatureIsLocked(p, st.rows, a, |st.rows|);
    MemInvAt(p, st, a);
    PoolIsUnique(p, st.mempool);
    QueueListing(st.mempool, a);
    QueueMembersOf(st.mempool, a);
    CostIsSpent(Queue(st.mempool, a), a);
    QueueNonces(Queue(st.mempool, a), Get(st.accounts, a).nonce, MempoolFacts.Spendable(p, st, a));
  }

  lemma QueueMembersOf(pool: set<Tx>, a: Address)
    requires Listing(Queue(pool, a), PendingOf(pool, a))
    ensures forall t :: t in Queue(pool, a) <==> t in pool && t.sender == a
  {
    hide Queue;
  }

  /** The node accepts a transaction exactly when it is well formed and admissible, and then the pool gains it and
      nothing else changes; it blames the timestamp exactly when a well-formed transaction is stamped outside the
      window. */
  lemma SubmitExact(p: Params, s: State, tx: Tx, now: int)
    requires ValidParams(p) && Inv(p, s)
    ensures s.store.rows != []
    ensures
      var r := SubmitTransaction(p, s, tx, now);
      && (r.1.None? <==> WellFormedTx(p, tx) && Admissible(p, s.store, tx, now))
      && r.0 == (if r.1.None? then s.(store := s.store.(mempool := s.store.mempool + {tx})) else s)
      && (r.1 == Some(BadTimestamp) <==>
            WellFormedTx(p, tx)
            && (tx.timestamp < now - p.mempoolTimestampWindow || tx.timestamp > now + p.mempoolTimestampWindow))
  {
    hide *;
    InvParts(p, s);
    SenderStands(p, s.store, tx.sender);
    if tx.nonce > Get(s.store.accounts, tx.sender).nonce {
      NotConfirmed(p, s.store, tx);
    }
    SubmitCases(p, s, tx, now);
    AdmissibleIs(p, s.store, tx, now);
  }

  lemma AdmissibleIs(p: Params, st: Store, tx: Tx, now: int)
    ensures Admissible(p, st, tx, now) <==>
      var a, pending := tx.sender, PendingOf(st.mempool, tx.sender);
      && now - p.mempoolTimestampWindow <= tx.timestamp <= now + p.mempoolTimestampWindow
      && |st.mempool| < p.mempoolMaxTxs && |pending| < p.mempoolMaxPerSender
      && tx.nonce == Sent(st.rows, a) + |pending| + 1
      && tx.amount + tx.fee + Spent(Queue(st.mempool, a), a)
           <= Allocated(p.genesisAllocations, a) + Income(st.rows, a) - Outlay(st.rows, a) - Locked(p, st.rows, a, |st.rows|)
  {
    hide Sent, Queue, PendingOf, Spent, Allocated, Income, Outlay, Locked;
  }

  lemma SubmitCases(p: Params, s: State, tx: Tx, now: int)
    requires s.store.rows != []
    requires
      forall t :: t in s.store.mempool && t.sender == tx.sender ==>
        t.nonce <= Get(s.store.accounts, tx.sender).nonce + |Queue(s.store.mempool, tx.sender)|
    requires tx.nonce > Get(s.store.accounts, tx.sender).nonce ==> TxHash(tx) !in s.store.index
    ensures
      var st, q, r := s.store, Queue(s.store.mempool, tx.sender), SubmitTransaction(p, s, tx, now);
      && (r.1.None? <==>
            WellFormedTx(p, tx)
            && now - p.mempoolTimestampWindow <= tx.timestamp <= now + p.mempoolTimestampWindow
            && |st.mempool| < p.mempoolMaxTxs && |q| < p.mempoolMaxPerSender
            && tx.nonce == Get(st.accounts, tx.sender).nonce + |q| + 1
            && tx.amount + tx.fee + CostSum(q) <= MempoolFacts.Spendable(p, st, tx.sender))
      && r.0 == (if r.1.None? then s.(store := st.(mempool := st.mempool + {tx})) else s)
      && (r.1 == Some(BadTimestamp) <==>
            WellFormedTx(p, tx)
            && (tx.timestamp < now - p.mempoolTimestampWindow || tx.timestamp > now + p.mempoolTimestampWindow))
  {
    hide Queue, CostSum, Immature, Get, AmountOf;
    assert WellFormedTx(p, tx) ==> p.addressOk(tx.sender);
    hide WellFormedTx;
  }
}
