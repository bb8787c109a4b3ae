/** Relay order does not matter: consecutive transactions of one sender all get in, in whatever order they
    arrive. */
module OutOfOrder {
  import opened Types
  import opened Ledger
  import opened Chain
  import opened Tables
  import opened TableFacts
  import opened Mempool
  import opened MempoolFacts
  import opened Node
  import opened Adoption
  import opened Runs
  import opened Template
  import opened FuturePool

  /** Transaction i is well formed and i places after the sender's next nonce. */
  ghost predicate InSeries(p: Params, st: Store, a: Address, txs: seq<Tx>, i: nat)
    requires i < |txs|
  {
    WellFormedTx(p, txs[i]) && txs[i].sender == a && txs[i].nonce == NextNonce(st, a) + i
  }

  /** Consecutive transactions that continue a sender's queue, jointly affordable and within both caps. */
  ghost predicate Series(p: Params, st: Store, a: Address, txs: seq<Tx>)
    requires st.rows != []
  {
    && (forall i :: 0 <= i < |txs| ==> InSeries(p, st, a, txs, i))
    && CostSum(Queue(st.mempool, a)) + CostSum(txs) <= Spendable(p, st, a)
    && |st.mempool| + |txs| <= p.mempoolMaxTxs && |Queue(st.mempool, a)| + |txs| <= p.mempoolMaxPerSender
  }

  predicate InWindow(p: Params, txs: seq<Tx>, now: int) {
    forall i :: 0 <= i < |txs| ==> Abs(txs[i].timestamp - now) <= p.mempoolTimestampWindow
  }

  /** The chain state with the first j transactions of the series pending. */
  function With(s: State, txs: seq<Tx>, j: nat): State
    requires j <= |txs|
  {
    s.(store := s.store.(mempool := s.store.mempool + TxSet(txs[..j])))
  }

  lemma WithStep(s: State, txs: seq<Tx>, j: nat)
    requires j < |txs|
    ensures With(s, txs, j + 1).store.mempool == With(s, txs, j).store.mempool + {txs[j]}
  {
    assert txs[..j + 1] == txs[..j] + [txs[j]];
  }

  lemma SeriesAt(p: Params, st: Store, a: Address, txs: seq<Tx>, i: nat)
    requires st.rows != [] && Series(p, st, a, txs) && i < |txs|
    ensures WellFormedTx(p, txs[i]) && txs[i].sender == a && txs[i].nonce == NextNonce(st, a) + i
    ensures p.addressOk(txs[i].sender)
    ensures CostSum(Queue(st.mempool, a)) + CostSum(txs) <= Spendable(p, st, a)
    ensures |st.mempool| + |txs| <= p.mempoolMaxTxs && |Queue(st.mempool, a)| + |txs| <= p.mempoolMaxPerSender
  {
    hide CostSum, Queue;
    assert InSeries(p, st, a, txs, i);
  }

  lemma SeriesDistinct(p: Params, st: Store, a: Address, txs: seq<Tx>)
    requires st.rows != [] && Series(p, st, a, txs)
    ensures Distinct(txs)
  {
    forall i, j | 0 <= i < j < |txs|
      ensures txs[i] != txs[j]
    {
      SeriesAt(p, st, a, txs, i);
      SeriesAt(p, st, a, txs, j);
    }
  }

  lemma SeriesCosts(p: Params, st: Store, a: Address, txs: seq<Tx>)
    requires ValidParams(p) && st.rows != [] && Series(p, st, a, txs)
    ensures PositiveCosts(txs)
  {
    hide CostSum, Queue, Spendable;
    forall i | 0 <= i < |txs|
      ensures txs[i].Cost() > 0
    {
      SeriesAt(p, st, a, txs, i);
    }
  }

  // ---------------------------------------------------------------- submission

  /** What the pool looks like with the first j pending. */
  ghost predicate Base(p: Params, s: State, a: Address, txs: seq<Tx>, j: nat)
    requires ValidParams(p) && j <= |txs|
  {
    var st := With(s, txs, j).store;
    && st.rows != [] && ChainInv(p, st) && MemInv(p, st)
    && Queue(st.mempool, a) == Queue(s.store.mempool, a) + txs[..j]
    && |st.mempool| == |s.store.mempool| + j
  }

  /** A transaction of the series that is not pending yet is neither confirmed nor in conflict. */
  lemma NotKnown(p: Params, s: State, a: Address, txs: seq<Tx>, j: nat, i: nat)
    requires ValidParams(p) && s.store.rows != [] && Series(p, s.store, a, txs) && j <= i < |txs| && Base(p, s, a, txs, j)
    ensures
      var st := With(s, txs, j).store;
      && TxHash(txs[i]) !in st.index && txs[i] !in st.mempool
      && (forall t :: t in st.mempool && t.sender == a ==> t.nonce != txs[i].nonce)
      && NextNonce(st, a) == NextNonce(s.store, a) + j && Get(st.accounts, a) == Get(s.store.accounts, a)
      && Spendable(p, st, a) == Spendable(p, s.store, a)
  {
    hide *;
    var st := With(s, txs, j).store;
    BaseParts(p, s, a, txs, j);
    WithOnlyPool(s, txs, j);
    SeriesAt(p, s.store, a, txs, i);
    NextNonceIs(st, a);
    NextNonceIs(s.store, a);
    NonceAhead(p, st, txs[i], a);
    SpendableSame(p, s.store, st, a);
    NotConfirmed(p, st, txs[i]);
  }

  /** A nonce at or above the next one is ahead of everything the sender has pending. */
  lemma NonceAhead(p: Params, st: Store, tx: Tx, a: Address)
    requires st.rows != [] && MemInv(p, st) && tx.sender == a && tx.nonce >= NextNonce(st, a)
    ensures tx !in st.mempool && (forall t :: t in st.mempool && t.sender == a ==> t.nonce != tx.nonce)
    ensures tx.nonce > Get(st.accounts, a).nonce
  {
    hide WellFormedTx, CostSum, Immature, Queue;
    MemInvAt(p, st, a);
    QueueListing(st.mempool, a);
    var q := Queue(st.mempool, a);
    forall t | t in st.mempool && t.sender == a
      ensures t.nonce < tx.nonce
    {
      assert t in PendingOf(st.mempool, a);
      var k :| 0 <= k < |q| && q[k] == t;
    }
  }

  lemma AffordNext(p: Params, s: State, a: Address, txs: seq<Tx>, j: nat)
    requires ValidParams(p) && s.store.rows != [] && Series(p, s.store, a, txs) && j < |txs|
    ensures CostSum(Queue(s.store.mempool, a) + txs[..j]) + txs[j].Cost() <= Spendable(p, s.store, a)
  {
    hide Queue, Spendable, WellFormedTx;
    SeriesAt(p, s.store, a, txs, j);
    SeriesCosts(p, s.store, a, txs);
    QueuePrefixCost(txs, j);
    CostSumSplit(Queue(s.store.mempool, a), txs[..j]);
  }

  /** The next one in line is admitted; one further ahead is refused for its nonce and nothing else. */
  lemma SubmitInSeries(p: Params, s: State, a: Address, txs: seq<Tx>, j: nat, i: nat, now: int)
    requires ValidParams(p) && s.store.rows != [] && Series(p, s.store, a, txs) && j <= i < |txs| && Base(p, s, a, txs, j)
    ensures
      var at, open := With(s, txs, j), Abs(txs[i].timestamp - now) <= p.mempoolTimestampWindow;
      && at.store.rows != []
      && (i == j ==> Admit(p, at.store, txs[j], now, false) == Ok(With(s, txs, j + 1).store))
      && (i == j && open ==> SubmitTransaction(p, at, txs[j], now) == (With(s, txs, j + 1), None))
      && (i > j && open ==> SubmitTransaction(p, at, txs[i], now) == (at, Some(BadNonce)))
  {
    hide WellFormedTx, CostSum, Immature, ValidRows, Queue, ChainInv, MemInv, Abs;
    SeriesAt(p, s.store, a, txs, i);
    NotKnown(p, s, a, txs, j, i);
    AffordNext(p, s, a, txs, j);
    WithStep(s, txs, j);
    var st := With(s, txs, j).store;
    SpendableUnfold(p, st, a);
  }

  lemma SpendableUnfold(p: Params, st: Store, a: Address)
    requires st.rows != []
    ensures Spendable(p, st, a) == Get(st.accounts, a).balance - AmountOf(NextImmature(p, st), a)
  {}

  lemma BaseBuild(p: Params, s: State, a: Address, txs: seq<Tx>, j: nat)
    requires ValidParams(p) && j <= |txs|
    requires
      var st := With(s, txs, j).store;
      && st.rows != [] && ChainInv(p, st) && MemInv(p, st)
      && Queue(st.mempool, a) == Queue(s.store.mempool, a) + txs[..j] && |st.mempool| == |s.store.mempool| + j
    ensures Base(p, s, a, txs, j)
  {
    hide ChainInv, MemInv, Queue, With;
  }

  lemma BaseParts(p: Params, s: State, a: Address, txs: seq<Tx>, j: nat)
    requires ValidParams(p) && j <= |txs| && Base(p, s, a, txs, j)
    ensures
      var st := With(s, txs, j).store;
      && st.rows != [] && ChainInv(p, st) && MemInv(p, st)
      && Queue(st.mempool, a) == Queue(s.store.mempool, a) + txs[..j] && |st.mempool| == |s.store.mempool| + j
  {
    hide ChainInv, MemInv, Queue, With;
  }

  lemma WithStart(s: State, txs: seq<Tx>)
    ensures With(s, txs, 0) == s
  {
    assert TxSet(txs[..0]) == {};
    assert s.store.mempool + {} == s.store.mempool;
  }

  lemma {:induction false} BaseHolds(p: Params, s: State, a: Address, txs: seq<Tx>, j: nat)
    requires ValidParams(p) && Inv(p, s) && s.store.rows != [] && Series(p, s.store, a, txs) && j <= |txs|
    ensures Base(p, s, a, txs, j)
  {
    hide *;
    InvParts(p, s);
    if j == 0 {
      WithStart(s, txs);
      assert Queue(s.store.mempool, a) + txs[..0] == Queue(s.store.mempool, a);
    } else {
      BaseHolds(p, s, a, txs, j - 1);
      BaseParts(p, s, a, txs, j - 1);
      var before, now := With(s, txs, j - 1).store, txs[j - 1].timestamp;
      SubmitInSeries(p, s, a, txs, j - 1, j - 1, now);
      SeriesAt(p, s.store, a, txs, j - 1);
      WithStep(s, txs, j - 1);
      AdmitKeepsMemInv(p, before, txs[j - 1], now, false);
      AdmitParts(p, before, txs[j - 1], now, false);
      AdmittedQueue(p, before, txs[j - 1], now, false, a);
      ChainInvIgnoresPool(p, s.store, With(s, txs, j).store.mempool);
      WithOnlyPool(s, txs, j);
      assert txs[..j] == txs[..j - 1] + [txs[j - 1]];
      assert Queue(s.store.mempool, a) + txs[..j] == Queue(s.store.mempool, a) + txs[..j - 1] + [txs[j - 1]];
    }
    BaseBuild(p, s, a, txs, j);
  }

  lemma WithOnlyPool(s: State, txs: seq<Tx>, j: nat)
    requires j <= |txs|
    ensures With(s, txs, j).store == s.store.(mempool := With(s, txs, j).store.mempool)
  {}

  // ---------------------------------------------------------------- the relay during the deliveries

  /** Held entries of other senders. */
  function OthersOf(parked: seq<Parked>, a: Address): (r: seq<Parked>)
    ensures forall q :: q in r <==> q in parked && q.tx.sender != a
  {
    if parked == [] then []
    else
      var before, last := OthersOf(parked[..|parked| - 1], a), parked[|parked| - 1];
      if last.tx.sender == a then before else before + [last]
  }

  /** Of the sender, exactly the delivered transactions from position j on are held. */
  ghost predicate HeldFrom(parked: seq<Parked>, a: Address, txs: seq<Tx>, delivered: set<Tx>, j: nat) {
    && (forall t :: Holding(parked, t) && t.sender == a ==> t in delivered && exists i :: j <= i < |txs| && txs[i] == t)
    && (forall i :: j <= i < |txs| && txs[i] in delivered ==> Holding(parked, txs[i]))
  }

  /** The first j are pending and were delivered, the other delivered ones are held, the rest is unseen;
      nothing happened to what is held of other senders. */
  ghost predicate Good(s: State, a: Address, txs: seq<Tx>, others: seq<Parked>, r: Relay, delivered: set<Tx>, j: nat) {
    && j <= |txs| && r.chain == With(s, txs, j) && Unique(r.parked) && OthersOf(r.parked, a) == others
    && (forall i :: 0 <= i < j ==> txs[i] in delivered)
    && HeldFrom(r.parked, a, txs, delivered, j)
    && (forall t :: t in txs && t !in delivered ==> t !in r.seen)
  }

  /** A transaction of another sender that stays ahead of its turn, whatever is admitted here. */
  ghost predicate Waits(p: Params, st: Store, a: Address, t: Tx) {
    && WellFormedTx(p, t) && t.sender != a && t.nonce > NextNonce(st, t.sender)
    && |Queue(st.mempool, t.sender)| < p.mempoolMaxPerSender
  }

  /** Neither admitted nor dropped by any retry while the series arrives. */
  ghost predicate Undisturbed(p: Params, st: Store, a: Address, txs: seq<Tx>, others: seq<Parked>) {
    && (forall q :: q in others ==> Waits(p, st, a, q.tx))
    && (others != [] ==> |st.mempool| + |txs| < p.mempoolMaxTxs)
  }

  lemma UndisturbedAt(p: Params, st: Store, a: Address, txs: seq<Tx>, others: seq<Parked>, q: Parked)
    requires Undisturbed(p, st, a, txs, others) && q in others
    ensures WellFormedTx(p, q.tx) && q.tx.sender != a && q.tx.nonce > NextNonce(st, q.tx.sender)
    ensures |Queue(st.mempool, q.tx.sender)| < p.mempoolMaxPerSender && |st.mempool| + |txs| < p.mempoolMaxTxs
    ensures p.addressOk(q.tx.sender)
  {
    hide NextNonce, Queue;
    assert Waits(p, st, a, q.tx);
  }

  lemma {:induction false} OthersUnpark(parked: seq<Parked>, tx: Tx, a: Address)
    requires tx.sender == a
    ensures OthersOf(Unpark(parked, tx), a) == OthersOf(parked, a)
  {
    if parked != [] {
      var before, last := parked[..|parked| - 1], parked[|parked| - 1];
      OthersUnpark(before, tx, a);
      if last.tx != tx {
        assert (Unpark(before, tx) + [last])[..|Unpark(before, tx)|] == Unpark(before, tx);
      }
    }
  }

  lemma OthersAppend(parked: seq<Parked>, q: Parked, a: Address)
    requires q.tx.sender == a
    ensures OthersOf(parked + [q], a) == OthersOf(parked, a)
    ensures CountOf(parked + [q], a) == CountOf(parked, a) + 1
  {
    assert (parked + [q])[..|parked|] == parked;
  }

  lemma {:induction false} OthersCount(parked: seq<Parked>, a: Address)
    ensures |parked| == CountOf(parked, a) + |OthersOf(parked, a)|
  {
    if parked != [] {
      OthersCount(parked[..|parked| - 1], a);
    }
  }

  /** Nobody else's queue moves while the series is admitted. */
  lemma OtherQueues(s: State, a: Address, txs: seq<Tx>, j: nat, b: Address)
    requires j <= |txs| && a != b && forall i :: 0 <= i < |txs| ==> txs[i].sender == a
    ensures Queue(With(s, txs, j).store.mempool, b) == Queue(s.store.mempool, b)
    ensures NextNonce(With(s, txs, j).store, b) == NextNonce(s.store, b)
  {
    assert PendingOf(With(s, txs, j).store.mempool, b) == PendingOf(s.store.mempool, b);
  }

  /** Retrying what waits for another sender changes nothing. */
  lemma SubmitWaiting(p: Params, s: State, a: Address, txs: seq<Tx>, others: seq<Parked>, j: nat, q: Parked, now: int)
    requires ValidParams(p) && s.store.rows != [] && Series(p, s.store, a, txs) && j <= |txs| && Base(p, s, a, txs, j)
    requires Undisturbed(p, s.store, a, txs, others) && q in others && Abs(q.tx.timestamp - now) <= p.mempoolTimestampWindow
    ensures
      var at := With(s, txs, j);
      && at.store.rows != [] && SubmitTransaction(p, at, q.tx, now) == (at, Some(BadNonce))
      && NextNonce(at.store, q.tx.sender) < q.tx.nonce
  {
    hide *;
    var at, b := With(s, txs, j), q.tx.sender;
    UndisturbedAt(p, s.store, a, txs, others, q);
    BaseParts(p, s, a, txs, j);
    forall i | 0 <= i < |txs|
      ensures txs[i].sender == a
    {
      SeriesAt(p, s.store, a, txs, i);
    }
    OtherQueues(s, a, txs, j, b);
    NonceAhead(p, at.store, q.tx, b);
    NotConfirmed(p, at.store, q.tx);
    NextNonceIs(at.store, b);
    AheadRefused(p, at, q.tx, now);
  }

  lemma AheadRefused(p: Params, at: State, tx: Tx, now: int)
    requires at.store.rows != [] && WellFormedTx(p, tx) && p.addressOk(tx.sender)
    requires Abs(tx.timestamp - now) <= p.mempoolTimestampWindow && TxHash(tx) !in at.store.index && tx !in at.store.mempool
    requires |at.store.mempool| < p.mempoolMaxTxs && |Queue(at.store.mempool, tx.sender)| < p.mempoolMaxPerSender
    requires tx.nonce > Get(at.store.accounts, tx.sender).nonce + |Queue(at.store.mempool, tx.sender)| + 1
    ensures SubmitTransaction(p, at, tx, now) == (at, Some(BadNonce))
  {
    hide WellFormedTx, Queue, Immature, CostSum, Abs;
  }

  lemma HoldsUnpark(parked: seq<Parked>, tx: Tx, t: Tx)
    ensures Holding(Unpark(parked, tx), t) <==> Holding(parked, t) && t != tx
  {
    if Holding(parked, t) && t != tx {
      UnparkOthers(parked, tx, t);
    }
    if Holding(Unpark(parked, tx), t) {
      var i :| 0 <= i < |Unpark(parked, tx)| && Unpark(parked, tx)[i].tx == t;
      assert Unpark(parked, tx)[i] in parked;
      var k :| 0 <= k < |parked| && parked[k] == Unpark(parked, tx)[i];
    }
  }

  /** The next one in line leaves the held transactions for the pool. */
  lemma GoodNext(s: State, a: Address, txs: seq<Tx>, others: seq<Parked>, r: Relay, delivered: set<Tx>, j: nat, after: Relay)
    requires Good(s, a, txs, others, r, delivered, j) && j < |txs| && Holding(r.parked, txs[j]) && Distinct(txs)
    requires txs[j].sender == a
    requires after.chain == With(s, txs, j + 1) && after.parked == Unpark(r.parked, txs[j])
    requires forall t :: t in after.seen ==> t in r.seen || t == txs[j]
    ensures Good(s, a, txs, others, after, delivered, j + 1)
  {
    hide Holding, With, Unique, OthersOf;
    UnparkUnique(r.parked, txs[j]);
    OthersUnpark(r.parked, txs[j], a);
    forall u
      ensures Holding(after.parked, u) <==> Holding(r.parked, u) && u != txs[j]
    {
      HoldsUnpark(r.parked, txs[j], u);
    }
  }

  /** What is held is a transaction of the series from position j on, or one of another sender. */
  lemma HeldPlace(s: State, a: Address, txs: seq<Tx>, others: seq<Parked>, r: Relay, delivered: set<Tx>, j: nat, t: Tx)
    requires Good(s, a, txs, others, r, delivered, j) && Holding(r.parked, t)
    ensures r.chain == With(s, txs, j) && j <= |txs|
    ensures t.sender == a ==> exists i :: j <= i < |txs| && txs[i] == t
    ensures t.sender != a ==> exists q :: q in others && q.tx == t
  {
    hide With, Unique;
    HeldMember(r.parked, t);
    var q :| q in r.parked && q.tx == t;
    assert t.sender != a ==> q in OthersOf(r.parked, a);
  }

  lemma RetryCases(p: Params, limits: Limits, r: Relay, tx: Tx, now: int)
    requires r.chain.store.rows != []
    ensures
      var submitted, after := SubmitTransaction(p, r.chain, tx, now), Retry(p, limits, r, tx, now).0;
      && (submitted.1.None? ==>
            after.chain == submitted.0 && after.parked == Unpark(r.parked, tx)
            && forall t :: t in after.seen ==> t in r.seen || t == tx)
      && (submitted.1 == Some(BadNonce) && NextNonce(r.chain.store, tx.sender) < tx.nonce ==> after == r)
  {
    hide SubmitTransaction, NextNonce;
  }

  /** Retrying the next one in line moves it to the pool; nothing else moves. */
  lemma RetryGood(p: Params, s: State, a: Address, txs: seq<Tx>, others: seq<Parked>, limits: Limits, r: Relay, delivered: set<Tx>,
                  j: nat, t: Tx, now: int)
    returns (k: nat)
    requires ValidParams(p) && Inv(p, s) && s.store.rows != [] && Series(p, s.store, a, txs)
    requires Undisturbed(p, s.store, a, txs, others) && InWindow(p, txs, now) && InWindow(p, Txs(others), now)
    requires r.chain.store.rows != [] && Good(s, a, txs, others, r, delivered, j) && Holding(r.parked, t)
    ensures j <= k <= |txs| && Good(s, a, txs, others, Retry(p, limits, r, t, now).0, delivered, k)
  {
    hide *;
    HeldPlace(s, a, txs, others, r, delivered, j, t);
    BaseHolds(p, s, a, txs, j);
    RetryCases(p, limits, r, t, now);
    k := j;
    if t.sender == a {
      var i :| j <= i < |txs| && txs[i] == t;
      InWindowAt(p, txs, now, i);
      SubmitInSeries(p, s, a, txs, j, i, now);
      NotKnown(p, s, a, txs, j, i);
      SeriesAt(p, s.store, a, txs, i);
      SeriesDistinct(p, s.store, a, txs);
      if i == j {
        k := j + 1;
        GoodNext(s, a, txs, others, r, delivered, j, Retry(p, limits, r, t, now).0);
      }
    } else {
      var q :| q in others && q.tx == t;
      InWindowHeld(p, others, now, q);
      SubmitWaiting(p, s, a, txs, others, j, q, now);
    }
  }

  lemma InWindowHeld(p: Params, others: seq<Parked>, now: int, q: Parked)
    requires InWindow(p, Txs(others), now) && q in others
    ensures Abs(q.tx.timestamp - now) <= p.mempoolTimestampWindow
  {
    var i :| 0 <= i < |others| && others[i] == q;
    assert Txs(others)[i] == q.tx;
  }

  lemma {:induction false} PassGood(p: Params, s: State, a: Address, txs: seq<Tx>, others: seq<Parked>, limits: Limits, r: Relay,
                                    delivered: set<Tx>, j: nat, order: seq<Tx>, now: int)
    returns (k: nat)
    requires ValidParams(p) && Inv(p, s) && s.store.rows != [] && Series(p, s.store, a, txs)
    requires Undisturbed(p, s.store, a, txs, others) && InWindow(p, txs, now) && InWindow(p, Txs(others), now)
    requires r.chain.store.rows != [] && Good(s, a, txs, others, r, delivered, j)
    requires Distinct(order) && forall t :: t in order ==> Holding(r.parked, t)
    ensures j <= k <= |txs| && Good(s, a, txs, others, RetryAll(p, limits, r, order, now).0, delivered, k)
  {
    hide Series, Inv, Retry, Good, Holding, InWindow, ValidParams, Undisturbed;
    GoodParts(s, a, txs, others, r, delivered, j);
    if order == [] {
      k := j;
    } else {
      var m := |order| - 1;
      var before := PassGood(p, s, a, txs, others, limits, r, delivered, j, order[..m], now);
      PassShrinks(p, limits, r, order[..m], now);
      assert order[m] in order && order[m] !in order[..m];
      k := RetryGood(p, s, a, txs, others, limits, RetryAll(p, limits, r, order[..m], now).0, delivered, before, order[m], now);
    }
  }

  lemma GoodParts(s: State, a: Address, txs: seq<Tx>, others: seq<Parked>, r: Relay, delivered: set<Tx>, j: nat)
    requires Good(s, a, txs, others, r, delivered, j)
    ensures j <= |txs| && r.chain == With(s, txs, j) && Unique(r.parked) && OthersOf(r.parked, a) == others
    ensures HeldFrom(r.parked, a, txs, delivered, j)
  {
    hide HeldFrom, With, OthersOf;
  }

  /** After releasing, the next one in line has not been delivered. */
  lemma {:induction false} ReleaseGood(p: Params, s: State, a: Address, txs: seq<Tx>, others: seq<Parked>, limits: Limits, r: Relay,
                                       delivered: set<Tx>, j: nat, now: int)
    returns (k: nat)
    requires ValidParams(p) && Inv(p, s) && s.store.rows != [] && Series(p, s.store, a, txs)
    requires Undisturbed(p, s.store, a, txs, others) && InWindow(p, txs, now) && InWindow(p, Txs(others), now)
    requires r.chain.store.rows != [] && Unique(r.parked) && Good(s, a, txs, others, r, delivered, j)
    ensures j <= k <= |txs| && Good(s, a, txs, others, Release(p, limits, r, now), delivered, k)
    ensures k < |txs| ==> txs[k] !in delivered
    decreases |r.parked|
  {
    hide *;
    GoodParts(s, a, txs, others, r, delivered, j);
    ReleaseStep(p, limits, r, now);
    if r.parked == [] {
      k := j;
      NoneHeld(r.parked, a, txs, delivered, j);
    } else {
      var order := RetryOrder(r.parked);
      OrderUnique(r.parked);
      PassShrinks(p, limits, r, order, now);
      k := PassGood(p, s, a, txs, others, limits, r, delivered, j, order, now);
      var pass := RetryAll(p, limits, r, order, now);
      GoodParts(s, a, txs, others, pass.0, delivered, k);
      if pass.1 {
        k := ReleaseGood(p, s, a, txs, others, limits, pass.0, delivered, k, now);
      } else if k < |txs| && txs[k] in delivered {
        ReleaseLeavesFuture(p, limits, r, now);
        BaseHolds(p, s, a, txs, k);
        NotKnown(p, s, a, txs, k, k);
        SeriesAt(p, s.store, a, txs, k);
        NextHeld(pass.0.parked, a, txs, delivered, k);
        HeldMember(pass.0.parked, txs[k]);
      }
    }
  }

  lemma ReleaseStep(p: Params, limits: Limits, r: Relay, now: int)
    requires r.chain.store.rows != [] && Unique(r.parked)
    ensures r.parked == [] ==> Release(p, limits, r, now) == r
    ensures r.parked != [] ==>
      var pass := RetryAll(p, limits, r, RetryOrder(r.parked), now);
      && Unique(pass.0.parked) && pass.0.chain.store.rows != []
      && (pass.1 ==> |pass.0.parked| < |r.parked| && Release(p, limits, r, now) == Release(p, limits, pass.0, now))
      && (!pass.1 ==> Release(p, limits, r, now) == pass.0)
  {
    hide RetryAll, Unique, Holding, RetryOrder;
    if r.parked != [] {
      OrderUnique(r.parked);
      PassShrinks(p, limits, r, RetryOrder(r.parked), now);
    }
  }

  lemma NextHeld(parked: seq<Parked>, a: Address, txs: seq<Tx>, delivered: set<Tx>, k: nat)
    requires HeldFrom(parked, a, txs, delivered, k) && k < |txs| && txs[k] in delivered
    ensures Holding(parked, txs[k])
  {
    hide Holding;
  }

  lemma NoneHeld(parked: seq<Parked>, a: Address, txs: seq<Tx>, delivered: set<Tx>, j: nat)
    requires parked == [] && HeldFrom(parked, a, txs, delivered, j)
    ensures j < |txs| ==> txs[j] !in delivered
  {}

  lemma HeldMember(parked: seq<Parked>, t: Tx)
    requires Holding(parked, t)
    ensures exists q :: q in parked && q.tx == t
  {
    var i :| 0 <= i < |parked| && parked[i].tx == t;
    assert parked[i] in parked && parked[i].tx == t;
  }

  // ---------------------------------------------------------------- one delivery

  lemma HoldsPut(parked: seq<Parked>, at: real, tx: Tx, t: Tx)
    requires !Holding(parked, tx)
    ensures Holding(Put(parked, at, tx), t) <==> Holding(parked, t) || t == tx
    ensures Unique(parked) ==> Unique(Put(parked, at, tx))
  {
    var all := parked + [Parked(at, tx)];
    assert all[|parked|].tx == tx;
    if Holding(parked, t) {
      var i :| 0 <= i < |parked| && parked[i].tx == t;
      assert all[i].tx == t;
    }
    if Holding(all, t) {
      var i :| 0 <= i < |all| && all[i].tx == t;
      assert i < |parked| ==> parked[i].tx == t;
    }
  }

  /** While two of the series have not been delivered, the sender holds at most |txs| - 2. */
  lemma HeldCount(parked: seq<Parked>, a: Address, txs: seq<Tx>, delivered: set<Tx>, j: nat, m: nat)
    requires Unique(parked) && HeldFrom(parked, a, txs, delivered, j) && Distinct(txs)
    requires j < m < |txs| && txs[j] !in delivered && txs[m] !in delivered
    ensures CountOf(parked, a) + 2 <= |txs|
  {
    hide Holding;
    var held := HeldBy(parked, a);
    CountIsSize(parked, a);
    forall t | t in held
      ensures t in TxSet(txs) && t != txs[j] && t != txs[m]
    {
      HeldByMember(parked, a, t);
    }
    assert |held + {txs[j], txs[m]}| == |held| + 2;
    SubsetSize(held + {txs[j], txs[m]}, TxSet(txs));
    SetOfSize(txs);
  }

  function HeldBy(parked: seq<Parked>, a: Address): set<Tx> {
    set q | q in parked && q.tx.sender == a :: q.tx
  }

  lemma HeldByMember(parked: seq<Parked>, a: Address, t: Tx)
    requires t in HeldBy(parked, a)
    ensures Holding(parked, t) && t.sender == a
  {
    var q :| q in parked && q.tx == t;
    var i :| 0 <= i < |parked| && parked[i] == q;
  }

  lemma HeldByStep(parked: seq<Parked>, a: Address, t: Tx)
    requires parked != [] && Unique(parked)
    ensures
      var before, last := parked[..|parked| - 1], parked[|parked| - 1];
      && (t in HeldBy(parked, a) <==> t in HeldBy(before, a) || (last.tx.sender == a && t == last.tx))
      && !(t in HeldBy(before, a) && t == last.tx)
  {
    var before, last := parked[..|parked| - 1], parked[|parked| - 1];
    if t in HeldBy(parked, a) {
      var q :| q in parked && q.tx.sender == a && q.tx == t;
      var i :| 0 <= i < |parked| && parked[i] == q;
      assert i < |before| ==> before[i] == q && q in before;
    }
    if t in HeldBy(before, a) {
      var q :| q in before && q.tx.sender == a && q.tx == t;
      var i :| 0 <= i < |before| && before[i] == q;
      assert parked[i] == q && q in parked;
    }
    assert last in parked;
  }

  lemma {:induction false} CountIsSize(parked: seq<Parked>, a: Address)
    requires Unique(parked)
    ensures |HeldBy(parked, a)| == CountOf(parked, a)
  {
    hide HeldBy;
    if parked == [] {
      NoneHeldBy(a);
    } else {
      var before, last := parked[..|parked| - 1], parked[|parked| - 1];
      CountIsSize(before, a);
      forall t
        ensures t in HeldBy(parked, a) <==> t in HeldBy(before, a) || (last.tx.sender == a && t == last.tx)
        ensures !(t in HeldBy(before, a) && t == last.tx)
      {
        HeldByStep(parked, a, t);
      }
      assert HeldBy(parked, a) == HeldBy(before, a) + if last.tx.sender == a then {last.tx} else {};
    }
  }

  lemma NoneHeldBy(a: Address)
    ensures HeldBy([], a) == {}
  {}

  lemma {:induction false} SetOfSize(b: seq<Tx>)
    ensures |TxSet(b)| <= |b|
  {
    if b != [] {
      var n := |b| - 1;
      SetOfSize(b[..n]);
      assert TxSet(b) == TxSet(b[..n]) + {b[n]};
    }
  }

  /** Every delivery time so far is recent enough for nothing held to expire. */
  ghost predicate NotOlder(parked: seq<Parked>, from: real) {
    forall q :: q in parked ==> q.at >= from
  }

  /** One delivery of a transaction of the series: it is pending or held, and the next one in line has not
      been delivered. */
  lemma OnTxGood(p: Params, s: State, a: Address, txs: seq<Tx>, others: seq<Parked>, limits: Limits, r: Relay, delivered: set<Tx>,
                 j: nat, m: nat, now: int, at: real, from: real)
    returns (k: nat)
    requires ValidParams(p) && Inv(p, s) && s.store.rows != [] && Series(p, s.store, a, txs)
    requires Undisturbed(p, s.store, a, txs, others) && InWindow(p, txs, now) && InWindow(p, Txs(others), now)
    requires |txs| <= limits.futurePerSender + 1 && |others| + |txs| <= limits.futureMax + 1
    requires r.chain.store.rows != [] && Unique(r.parked) && Good(s, a, txs, others, r, delivered, j)
    requires j < |txs| ==> txs[j] !in delivered
    requires m < |txs| && txs[m] !in delivered && txs[m] !in r.seen
    requires from <= at <= from + limits.futureTtl && NotOlder(r.parked, from)
    ensures
      var n := OnTx(p, limits, r, txs[m], now, at);
      && k <= |txs| && Good(s, a, txs, others, n, delivered + {txs[m]}, k)
      && (k < |txs| ==> txs[k] !in delivered + {txs[m]}) && NotOlder(n.parked, from)
  {
    hide *;
    GoodParts(s, a, txs, others, r, delivered, j);
    OnTxCases(p, limits, r, txs[m], now, at);
    var t, more := txs[m], delivered + {txs[m]};
    SeriesDistinct(p, s.store, a, txs);
    SeriesAt(p, s.store, a, txs, m);
    BaseHolds(p, s, a, txs, j);
    InWindowAt(p, txs, now, m);
    DeliveredPrefix(s, a, txs, others, r, delivered, j, m);
    SubmitInSeries(p, s, a, txs, j, m, now);
    if m == j {
      var next := r.(chain := With(s, txs, j + 1), seen := SeenAdd(limits, r.seen, t));
      NextGood(s, a, txs, others, limits, r, next, delivered, j);
      WithRows(s, txs, j + 1);
      k := ReleaseGood(p, s, a, txs, others, limits, next, more, j + 1, now);
      ReleaseLeavesFuture(p, limits, next, now);
      RecentKept(r.parked, Release(p, limits, next, now).parked, from, at);
    } else {
      k := j;
      HeldCount(r.parked, a, txs, delivered, j, m);
      OthersCount(r.parked, a);
      NotKnown(p, s, a, txs, j, m);
      NotHeldYet(r.parked, a, txs, delivered, j, m);
      var noted := r.(seen := SeenAdd(limits, r.seen, t));
      RecentAge(r.parked, from, at, limits.futureTtl);
      ParkIs(p, limits, noted, t, at, a);
      ParkGood(s, a, txs, others, limits, r, delivered, j, m, at);
      RecentKept(r.parked, Put(r.parked, at, t), from, at);
    }
  }

  lemma OnTxCases(p: Params, limits: Limits, r: Relay, tx: Tx, now: int, at: real)
    requires r.chain.store.rows != [] && Unique(r.parked) && tx !in r.seen
    ensures
      var submitted, n := SubmitTransaction(p, r.chain, tx, now), OnTx(p, limits, r, tx, now, at);
      var noted := r.(seen := SeenAdd(limits, r.seen, tx));
      && submitted.0.store.rows != []
      && (submitted.1.None? ==> n == Release(p, limits, noted.(chain := submitted.0), now))
      && (submitted.1 == Some(BadNonce) ==> n == Park(p, limits, noted, tx, at).0)
  {
    hide SubmitTransaction, Release, Park, SeenAdd;
  }

  lemma DeliveredPrefix(s: State, a: Address, txs: seq<Tx>, others: seq<Parked>, r: Relay, delivered: set<Tx>, j: nat, m: nat)
    requires Good(s, a, txs, others, r, delivered, j) && m < |txs| && txs[m] !in delivered
    ensures m >= j && txs[m] !in r.seen && HeldFrom(r.parked, a, txs, delivered, j)
  {
    hide With, HeldFrom, Unique, OthersOf;
  }

  lemma RecentKept(parked: seq<Parked>, after: seq<Parked>, from: real, at: real)
    requires NotOlder(parked, from) && at >= from && forall q :: q in after ==> q in parked || q.at == at
    ensures NotOlder(after, from)
  {}

  lemma RecentAge(parked: seq<Parked>, from: real, at: real, ttl: real)
    requires NotOlder(parked, from) && at <= from + ttl
    ensures forall q :: q in parked ==> at - q.at <= ttl
  {}

  lemma InWindowAt(p: Params, txs: seq<Tx>, now: int, m: nat)
    requires InWindow(p, txs, now) && m < |txs|
    ensures Abs(txs[m].timestamp - now) <= p.mempoolTimestampWindow
  {}

  lemma WithRows(s: State, txs: seq<Tx>, j: nat)
    requires j <= |txs|
    ensures With(s, txs, j).store.rows == s.store.rows
  {}

  lemma NotHeldYet(parked: seq<Parked>, a: Address, txs: seq<Tx>, delivered: set<Tx>, j: nat, m: nat)
    requires HeldFrom(parked, a, txs, delivered, j) && m < |txs| && txs[m] !in delivered && txs[m].sender == a
    ensures !Holding(parked, txs[m])
  {
    hide Holding;
  }

  /** With room, an unexpired pool and a nonce that is ahead, parking appends. */
  lemma ParkIs(p: Params, limits: Limits, r: Relay, tx: Tx, at: real, a: Address)
    requires WellFormedTx(p, tx) && tx.sender == a && tx.nonce > NextNonce(r.chain.store, a)
    requires forall q :: q in r.parked ==> at - q.at <= limits.futureTtl
    requires CountOf(r.parked, a) < limits.futurePerSender && |r.parked| < limits.futureMax && !Holding(r.parked, tx)
    ensures Park(p, limits, r, tx, at).0 == r.(parked := Put(r.parked, at, tx))
  {
    hide NextNonce, Unexpired, Holding;
  }

  lemma NextGood(s: State, a: Address, txs: seq<Tx>, others: seq<Parked>, limits: Limits, r: Relay, next: Relay, delivered: set<Tx>,
                 j: nat)
    requires Good(s, a, txs, others, r, delivered, j) && j < |txs| && txs[j] !in delivered && Distinct(txs)
    requires next == r.(chain := With(s, txs, j + 1), seen := SeenAdd(limits, r.seen, txs[j]))
    ensures Good(s, a, txs, others, next, delivered + {txs[j]}, j + 1)
  {
    hide Holding, With, SeenAdd, OthersOf;
  }

  lemma ParkGood(s: State, a: Address, txs: seq<Tx>, others: seq<Parked>, limits: Limits, r: Relay, delivered: set<Tx>, j: nat, m: nat,
                 at: real)
    requires Good(s, a, txs, others, r, delivered, j) && Unique(r.parked) && j < m < |txs| && !Holding(r.parked, txs[m])
    requires txs[m].sender == a
    ensures
      var n := r.(seen := SeenAdd(limits, r.seen, txs[m]), parked := Put(r.parked, at, txs[m]));
      && Good(s, a, txs, others, n, delivered + {txs[m]}, j)
      && forall q :: q in n.parked ==> q in r.parked || q.at == at
  {
    hide Holding, With, SeenAdd, Unique, OthersOf, Put;
    PutIs(r.parked, at, txs[m]);
    OthersAppend(r.parked, Parked(at, txs[m]), a);
    forall t
      ensures Holding(Put(r.parked, at, txs[m]), t) <==> Holding(r.parked, t) || t == txs[m]
    {
      HoldsPut(r.parked, at, txs[m], t);
    }
    HoldsPut(r.parked, at, txs[m], txs[m]);
  }

  lemma PutIs(parked: seq<Parked>, at: real, tx: Tx)
    requires !Holding(parked, tx)
    ensures Put(parked, at, tx) == parked + [Parked(at, tx)]
  {}

  // ---------------------------------------------------------------- any order

  datatype Delivery = Delivery(tx: Tx, now: int, at: real)

  ghost function DeliverAll(p: Params, limits: Limits, r: Relay, deliveries: seq<Delivery>): (n: Relay)
    requires r.chain.store.rows != [] && Unique(r.parked) && |r.parked| <= limits.futureMax
    ensures n.chain.store.rows == r.chain.store.rows && Unique(n.parked) && |n.parked| <= limits.futureMax
  {
    if deliveries == [] then r
    else
      var before, d := DeliverAll(p, limits, r, deliveries[..|deliveries| - 1]), deliveries[|deliveries| - 1];
      OnTxKeeps(p, limits, before, d.tx, d.now, d.at);
      OnTx(p, limits, before, d.tx, d.now, d.at)
  }

  function TxsOf(deliveries: seq<Delivery>): (r: seq<Tx>)
    ensures |r| == |deliveries| && forall i :: 0 <= i < |r| ==> r[i] == deliveries[i].tx
  {
    seq(|deliveries|, i requires 0 <= i < |deliveries| => deliveries[i].tx)
  }

  /** Delivered while every transaction, held ones included, is within the admission window and before
      anything expires. */
  ghost predicate Prompt(p: Params, limits: Limits, txs: seq<Tx>, others: seq<Parked>, deliveries: seq<Delivery>, from: real) {
    && NotOlder(others, from)
    && forall i :: 0 <= i < |deliveries| ==>
         InWindow(p, txs, deliveries[i].now) && InWindow(p, Txs(others), deliveries[i].now)
         && from <= deliveries[i].at <= from + limits.futureTtl
  }

  lemma {:induction false} DeliverGood(p: Params, s: State, a: Address, txs: seq<Tx>, limits: Limits, r: Relay,
                                       deliveries: seq<Delivery>, from: real)
    returns (k: nat)
    requires ValidParams(p) && Inv(p, s) && s.store.rows != [] && Series(p, s.store, a, txs)
    requires Undisturbed(p, s.store, a, txs, r.parked) && Unique(r.parked)
    requires |txs| <= limits.futurePerSender + 1 && |r.parked| + |txs| <= limits.futureMax + 1 && |r.parked| <= limits.futureMax
    requires r.chain == s && forall t :: t in txs ==> t !in r.seen
    requires Distinct(TxsOf(deliveries)) && (forall t :: t in TxsOf(deliveries) ==> t in txs)
    requires Prompt(p, limits, txs, r.parked, deliveries, from)
    ensures
      var n, delivered := DeliverAll(p, limits, r, deliveries), TxSet(TxsOf(deliveries));
      && k <= |txs| && Good(s, a, txs, r.parked, n, delivered, k) && (k < |txs| ==> txs[k] !in delivered)
      && NotOlder(n.parked, from)
  {
    hide *;
    DeliverAllStep(p, limits, r, deliveries);
    PromptParts(p, limits, txs, r.parked, deliveries, from);
    if deliveries == [] {
      k := 0;
      NoTxs(deliveries);
      forall q | q in r.parked
        ensures q.tx.sender != a
      {
        UndisturbedAt(p, s.store, a, txs, r.parked, q);
      }
      StartGood(s, a, txs, r);
    } else {
      var m := |deliveries| - 1;
      var before, d := deliveries[..m], deliveries[m];
      TxsStep(deliveries);
      var j := DeliverGood(p, s, a, txs, limits, r, before, from);
      var i :| 0 <= i < |txs| && txs[i] == d.tx;
      var at := DeliverAll(p, limits, r, before);
      GoodParts(s, a, txs, r.parked, at, TxSet(TxsOf(before)), j);
      DeliveredPrefix(s, a, txs, r.parked, at, TxSet(TxsOf(before)), j, i);
      k := OnTxGood(p, s, a, txs, r.parked, limits, at, TxSet(TxsOf(before)), j, i, d.now, d.at, from);
    }
  }

  lemma DeliverAllStep(p: Params, limits: Limits, r: Relay, deliveries: seq<Delivery>)
    requires r.chain.store.rows != [] && Unique(r.parked) && |r.parked| <= limits.futureMax
    ensures deliveries == [] ==> DeliverAll(p, limits, r, deliveries) == r
    ensures deliveries != [] ==>
      var before, d := DeliverAll(p, limits, r, deliveries[..|deliveries| - 1]), deliveries[|deliveries| - 1];
      && before.chain.store.rows != [] && Unique(before.parked)
      && DeliverAll(p, limits, r, deliveries) == OnTx(p, limits, before, d.tx, d.now, d.at)
  {
    hide OnTx, Unique;
  }

  lemma NoTxs(deliveries: seq<Delivery>)
    requires deliveries == []
    ensures TxSet(TxsOf(deliveries)) == {}
  {}

  lemma TxsStep(deliveries: seq<Delivery>)
    requires deliveries != [] && Distinct(TxsOf(deliveries))
    ensures
      var before, tx := deliveries[..|deliveries| - 1], deliveries[|deliveries| - 1].tx;
      && TxsOf(deliveries) == TxsOf(before) + [tx] && Distinct(TxsOf(before))
      && TxSet(TxsOf(deliveries)) == TxSet(TxsOf(before)) + {tx} && tx !in TxSet(TxsOf(before))
      && tx in TxsOf(deliveries) && forall t :: t in TxsOf(before) ==> t in TxsOf(deliveries)
  {
    var before, tx := deliveries[..|deliveries| - 1], deliveries[|deliveries| - 1].tx;
    assert TxsOf(deliveries) == TxsOf(before) + [tx];
    assert TxsOf(before) == TxsOf(deliveries)[..|before|] && TxsOf(deliveries)[|before|] == tx;
  }

  lemma PromptParts(p: Params, limits: Limits, txs: seq<Tx>, others: seq<Parked>, deliveries: seq<Delivery>, from: real)
    requires Prompt(p, limits, txs, others, deliveries, from)
    ensures NotOlder(others, from)
    ensures deliveries != [] ==>
      var d := deliveries[|deliveries| - 1];
      && Prompt(p, limits, txs, others, deliveries[..|deliveries| - 1], from)
      && InWindow(p, txs, d.now) && InWindow(p, Txs(others), d.now) && from <= d.at <= from + limits.futureTtl
  {
    hide InWindow, NotOlder;
  }

  lemma {:induction false} AllOthers(parked: seq<Parked>, a: Address)
    requires forall q :: q in parked ==> q.tx.sender != a
    ensures OthersOf(parked, a) == parked
  {
    if parked != [] {
      AllOthers(parked[..|parked| - 1], a);
      assert parked[..|parked| - 1] + [parked[|parked| - 1]] == parked;
    }
  }

  lemma StartGood(s: State, a: Address, txs: seq<Tx>, r: Relay)
    requires r.chain == s && Unique(r.parked) && forall t :: t in txs ==> t !in r.seen
    requires forall q :: q in r.parked ==> q.tx.sender != a
    ensures Good(s, a, txs, r.parked, r, {}, 0)
  {
    AllOthers(r.parked, a);
    assert TxSet(txs[..0]) == {};
    assert With(s, txs, 0) == s;
    forall t | Holding(r.parked, t)
      ensures t.sender != a
    {
      HeldMember(r.parked, t);
    }
  }

  /** Delivery order does not matter: in whatever order the consecutive, jointly affordable transactions of
      one sender arrive - at most one more than may be held - all end up pending, and what is held afterwards
      is exactly what was held of other senders before, as long as all of that keeps waiting for its turn. */
  lemma OrderDoesNotMatter(p: Params, s: State, a: Address, txs: seq<Tx>, limits: Limits, r: Relay,
                           deliveries: seq<Delivery>, from: real)
    requires ValidParams(p) && Inv(p, s) && s.store.rows != [] && Series(p, s.store, a, txs)
    requires r.chain == s && Unique(r.parked) && |r.parked| <= limits.futureMax && forall t :: t in txs ==> t !in r.seen
    requires Undisturbed(p, s.store, a, txs, r.parked)
    requires |txs| <= limits.futurePerSender + 1 && |r.parked| + |txs| <= limits.futureMax + 1
    requires multiset(TxsOf(deliveries)) == multiset(txs)
    requires Prompt(p, limits, txs, r.parked, deliveries, from)
    ensures
      var n := DeliverAll(p, limits, r, deliveries);
      && n.parked == r.parked
      && n.chain == s.(store := s.store.(mempool := s.store.mempool + TxSet(txs)))
      && Queue(n.chain.store.mempool, a) == Queue(s.store.mempool, a) + txs
  {
    hide *;
    SeriesDistinct(p, s.store, a, txs);
    PermutedDistinct(TxsOf(deliveries), txs);
    var k := DeliverGood(p, s, a, txs, limits, r, deliveries, from);
    AllDone(s, a, txs, r.parked, DeliverAll(p, limits, r, deliveries), deliveries, k);
    BaseHolds(p, s, a, txs, k);
    BaseParts(p, s, a, txs, k);
    assert txs[..|txs|] == txs;
    WithAll(s, txs);
  }

  lemma WithAll(s: State, txs: seq<Tx>)
    ensures With(s, txs, |txs|) == s.(store := s.store.(mempool := s.store.mempool + TxSet(txs)))
  {
    assert txs[..|txs|] == txs;
  }

  lemma AllDone(s: State, a: Address, txs: seq<Tx>, others: seq<Parked>, n: Relay, deliveries: seq<Delivery>, k: nat)
    requires Good(s, a, txs, others, n, TxSet(TxsOf(deliveries)), k) && (k < |txs| ==> txs[k] !in TxSet(TxsOf(deliveries)))
    requires forall t :: t in txs ==> t in TxsOf(deliveries)
    ensures k == |txs| && n.parked == others && n.chain == With(s, txs, k)
  {
    hide With, HeldFrom, OthersOf, Unique;
    HeldNone(n.parked, a, txs, TxSet(TxsOf(deliveries)));
  }

  lemma HeldNone(parked: seq<Parked>, a: Address, txs: seq<Tx>, delivered: set<Tx>)
    requires HeldFrom(parked, a, txs, delivered, |txs|)
    ensures OthersOf(parked, a) == parked
  {
    forall q | q in parked
      ensures q.tx.sender != a
    {
      var i :| 0 <= i < |parked| && parked[i] == q;
      assert Holding(parked, q.tx);
    }
    AllOthers(parked, a);
  }

  lemma PermutedDistinct(a: seq<Tx>, b: seq<Tx>)
    requires multiset(a) == multiset(b) && Distinct(b)
    ensures Distinct(a) && forall t :: t in a <==> t in b
  {
    forall t
      ensures multiset(a)[t] <= 1
    {
      DistinctCounts(b, t);
    }
    CountsDistinct(a);
    forall t
      ensures t in a <==> t in b
    {
      assert t in a <==> t in multiset(a);
      assert t in b <==> t in multiset(b);
    }
  }
}
