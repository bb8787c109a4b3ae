/** What becomes of a transaction a peer relays: admitted, held, remembered or ignored, told from the chain, the pool
    and what is held already. */
module Relaying {
  import opened Types
  import opened Ledger
  import opened Chain
  import opened ChainFacts
  import opened Mempool
  import opened MempoolFacts
  import opened Node
  import opened Adoption
  import opened Runs
  import opened Admission
  import opened FuturePool

  /** Well formed, in the window and within both caps of the pool, but ahead of its turn, with its sender holding fewer
      than the limit. */
  ghost predicate Early(p: Params, limits: Limits, r: Relay, tx: Tx, now: int, at: real) {
    var a, st, pending := tx.sender, r.chain.store, PendingOf(r.chain.store.mempool, tx.sender);
    && WellFormedTx(p, tx)
    && now - p.mempoolTimestampWindow <= tx.timestamp <= now + p.mempoolTimestampWindow
    && |st.mempool| < p.mempoolMaxTxs && |pending| < p.mempoolMaxPerSender
    && tx.nonce > Sent(st.rows, a) + |pending| + 1
    && |LiveOf(r.parked, a, at, limits.futureTtl)| < limits.futurePerSender
  }

  lemma NonceRefused(p: Params, s: State, tx: Tx, now: int)
    requires s.store.rows != []
    requires
      forall t :: t in s.store.mempool && t.sender == tx.sender ==>
        t.nonce <= Get(s.store.accounts, tx.sender).nonce + |Queue(s.store.mempool, tx.sender)|
    requires tx.nonce > Get(s.store.accounts, tx.sender).nonce ==> TxHash(tx) !in s.store.index
    requires tx.nonce > Get(s.store.accounts, tx.sender).nonce + |Queue(s.store.mempool, tx.sender)| + 1
    ensures SubmitTransaction(p, s, tx, now).1 == Some(BadNonce) <==>
      && WellFormedTx(p, tx)
      && now - p.mempoolTimestampWindow <= tx.timestamp <= now + p.mempoolTimestampWindow
      && |s.store.mempool| < p.mempoolMaxTxs && |Queue(s.store.mempool, tx.sender)| < p.mempoolMaxPerSender
    ensures SubmitTransaction(p, s, tx, now).1.Some?
  {
    hide Queue, CostSum, Immature, Get, AmountOf;
    assert WellFormedTx(p, tx) ==> p.addressOk(tx.sender);
    hide WellFormedTx;
  }

  lemma OnTxCases(p: Params, limits: Limits, r: Relay, tx: Tx, now: int, at: real)
    requires r.chain.store.rows != [] && Unique(r.parked) && tx !in r.seen && !Holding(r.parked, tx)
    ensures
      var code, n := SubmitTransaction(p, r.chain, tx, now).1, OnTx(p, limits, r, tx, now, at);
      && (code.None? ==> !Holding(n.parked, tx))
      && (code.Some? && code != Some(BadNonce) ==> n.parked == r.parked)
      && (code == Some(BadNonce) ==>
            n == Park(p, limits, r.(seen := SeenAdd(limits, r.seen, tx)), tx, at).0)
  {
    hide SubmitTransaction, Park, Release, SeenAdd, Holding, Unique;
    var submitted := SubmitTransaction(p, r.chain, tx, now);
    if submitted.1.None? {
      var next := r.(chain := submitted.0, seen := SeenAdd(limits, r.seen, tx));
      ReleaseLeavesFuture(p, limits, next, now);
      NotAdded(r.parked, Release(p, limits, next, now).parked, tx);
    }
  }

  lemma NotAdded(parked: seq<Parked>, after: seq<Parked>, tx: Tx)
    requires !Holding(parked, tx) && forall q :: q in after ==> q in parked
    ensures !Holding(after, tx)
  {
    forall i | 0 <= i < |after|
      ensures after[i].tx != tx
    {
      assert after[i] in parked;
      var j :| 0 <= j < |parked| && parked[j] == after[i];
    }
  }

  lemma HeldByPark(p: Params, limits: Limits, r: Relay, tx: Tx, at: real)
    requires Unique(r.parked) && |r.parked| <= limits.futureMax && limits.futureMax >= 1 && !Holding(r.parked, tx)
    ensures Holding(Park(p, limits, r, tx, at).0.parked, tx) <==> Park(p, limits, r, tx, at).1
  {
    hide Holding, Unique, LiveOf, Queue, OldestLive, Park;
    ParkExact(p, limits, r, tx, at);
    var n := Park(p, limits, r, tx, at);
    if n.1 {
      InHolds(n.0.parked, Parked(at, tx));
    } else {
      ParkRefused(p, limits, r, tx, at);
      UnexpiredMembers(r.parked, at, limits.futureTtl);
      NotAdded(r.parked, n.0.parked, tx);
    }
  }

  lemma InHolds(parked: seq<Parked>, q: Parked)
    requires q in parked
    ensures Holding(parked, q.tx)
  {
    var i :| 0 <= i < |parked| && parked[i] == q;
  }

  lemma ParkRefused(p: Params, limits: Limits, r: Relay, tx: Tx, at: real)
    requires !Park(p, limits, r, tx, at).1
    ensures
      var n := Park(p, limits, r, tx, at).0;
      n.parked == r.parked || n.parked == Unexpired(r.parked, at, limits.futureTtl)
  {
    hide Unexpired, CountOf, NextNonce;
  }

  /** A transaction seen for the first time ends up held exactly when it is early. */
  lemma HeldExactly(p: Params, limits: Limits, r: Relay, tx: Tx, now: int, at: real)
    requires ValidParams(p) && Inv(p, r.chain) && Unique(r.parked) && |r.parked| <= limits.futureMax && limits.futureMax >= 1
    requires tx !in r.seen && !Holding(r.parked, tx)
    ensures r.chain.store.rows != []
    ensures Holding(OnTx(p, limits, r, tx, now, at).parked, tx) <==> Early(p, limits, r, tx, now, at)
  {
    hide *;
    var st := r.chain.store;
    InvParts(p, r.chain);
    SenderStands(p, st, tx.sender);
    if tx.nonce > Get(st.accounts, tx.sender).nonce {
      NotConfirmed(p, st, tx);
    }
    OnTxCases(p, limits, r, tx, now, at);
    var noted := r.(seen := SeenAdd(limits, r.seen, tx));
    HeldByPark(p, limits, noted, tx, at);
    ParkExact(p, limits, noted, tx, at);
    EarlyIs(p, limits, r, tx, now, at);
    if tx.nonce > Get(st.accounts, tx.sender).nonce + |Queue(st.mempool, tx.sender)| + 1 {
      NonceRefused(p, r.chain, tx, now);
      WellFormedAddress(p, tx);
    }
  }

  lemma WellFormedAddress(p: Params, tx: Tx)
    ensures WellFormedTx(p, tx) ==> p.addressOk(tx.sender)
  {}

  lemma EarlyIs(p: Params, limits: Limits, r: Relay, tx: Tx, now: int, at: real)
    ensures Early(p, limits, r, tx, now, at) <==>
      var a, st, pending := tx.sender, r.chain.store, PendingOf(r.chain.store.mempool, tx.sender);
      && WellFormedTx(p, tx)
      && now - p.mempoolTimestampWindow <= tx.timestamp <= now + p.mempoolTimestampWindow
      && |st.mempool| < p.mempoolMaxTxs && |pending| < p.mempoolMaxPerSender
      && tx.nonce > Sent(st.rows, a) + |pending| + 1
      && |LiveOf(r.parked, a, at, limits.futureTtl)| < limits.futurePerSender
  {
    hide WellFormedTx, PendingOf, Sent, LiveOf;
  }

  lemma SeenHas(limits: Limits, seen: seq<Tx>, tx: Tx)
    requires limits.seenCache >= 1
    ensures tx in SeenAdd(limits, seen, tx)
  {
    var r := SeenAdd(limits, seen, tx);
    assert r[|r| - 1] == tx;
  }

  /** A malformed transaction leaves no trace, so it is judged again when it comes back; a well-formed one that is
      refused is remembered. */
  lemma OnTxRemembers(p: Params, limits: Limits, r: Relay, tx: Tx, now: int, at: real)
    requires r.chain.store.rows != [] && Unique(r.parked) && tx !in r.seen && limits.seenCache >= 1
    ensures !WellFormedTx(p, tx) ==> OnTx(p, limits, r, tx, now, at) == r
    ensures WellFormedTx(p, tx) && SubmitTransaction(p, r.chain, tx, now).1.Some? ==>
      tx in OnTx(p, limits, r, tx, now, at).seen
  {
    hide Queue, CostSum, Immature, Get, AmountOf, Release, Unexpired, CountOf, Put, NextNonce, SeenAdd;
    SeenHas(limits, r.seen, tx);
    assert WellFormedTx(p, tx) ==> p.addressOk(tx.sender);
    hide WellFormedTx;
  }
}
