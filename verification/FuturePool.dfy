/** Relayed transactions: those ahead of their sender's next nonce are held until the gap closes. */
module FuturePool {
  import opened Types
  import opened TextOrder
  import opened Ledger
  import opened Chain
  import opened Tables
  import opened Mempool
  import opened Node
  import opened Runs

  /** A held transaction and the monotonic time it was put aside. */
  datatype Parked = Parked(at: real, tx: Tx)

  datatype Limits = Limits(seenCache: nat, futureMax: nat, futurePerSender: nat, futureTtl: real)

  /** The chain behind the relay, the held transactions (oldest first) and the recently seen ones. */
  datatype Relay = Relay(chain: State, parked: seq<Parked>, seen: seq<Tx>)

  /** Add to the bounded cache, most recent last. */
  function SeenAdd(limits: Limits, seen: seq<Tx>, tx: Tx): (r: seq<Tx>)
    ensures forall t :: t in r ==> t in seen || t == tx
  {
    if tx in seen then Without(seen, tx) + [tx]
    else
      var all := seen + [tx];
      if |all| > limits.seenCache then all[1..] else all
  }

  ghost function NextNonce(st: Store, a: Address): int {
    Get(st.accounts, a).nonce + |Queue(st.mempool, a)| + 1
  }

  lemma NextNonceIs(st: Store, a: Address)
    ensures NextNonce(st, a) == Get(st.accounts, a).nonce + |Queue(st.mempool, a)| + 1
  {}

  function Unexpired(parked: seq<Parked>, at: real, ttl: real): (r: seq<Parked>)
    ensures (forall q :: q in parked ==> at - q.at <= ttl) ==> r == parked
  {
    if parked == [] then []
    else
      var before, last := Unexpired(parked[..|parked| - 1], at, ttl), parked[|parked| - 1];
      if at - last.at > ttl then before else before + [last]
  }

  function CountOf(parked: seq<Parked>, a: Address): (n: nat)
    ensures n <= |parked|
  {
    if parked == [] then 0
    else CountOf(parked[..|parked| - 1], a) + if parked[|parked| - 1].tx.sender == a then 1 else 0
  }

  predicate Holding(parked: seq<Parked>, tx: Tx) {
    exists i :: 0 <= i < |parked| && parked[i].tx == tx
  }

  /** A dictionary write: an existing entry keeps its place. */
  function Put(parked: seq<Parked>, at: real, tx: Tx): seq<Parked> {
    if Holding(parked, tx) then
      seq(|parked|, i requires 0 <= i < |parked| => if parked[i].tx == tx then Parked(at, tx) else parked[i])
    else parked + [Parked(at, tx)]
  }

  function Unpark(parked: seq<Parked>, tx: Tx): (r: seq<Parked>)
    ensures forall q :: q in r <==> q in parked && q.tx != tx
    ensures |r| <= |parked| && (Holding(parked, tx) ==> |r| < |parked|)
  {
    if parked == [] then []
    else
      var before, last := Unpark(parked[..|parked| - 1], tx), parked[|parked| - 1];
      assert Holding(parked, tx) ==> last.tx == tx || Holding(parked[..|parked| - 1], tx) by {
        if Holding(parked, tx) && last.tx != tx {
          var i :| 0 <= i < |parked| && parked[i].tx == tx;
          assert parked[..|parked| - 1][i].tx == tx;
        }
      }
      if last.tx == tx then before else before + [last]
  }

  /** Keep the newest entries. */
  function KeepNewest(parked: seq<Parked>, max: nat): seq<Parked> {
    if |parked| > max then parked[|parked| - max..] else parked
  }

  /** Keep an early transaction back; refused when it is not early, or when its sender has too many waiting. */
  ghost function Park(p: Params, limits: Limits, r: Relay, tx: Tx, at: real): (Relay, bool) {
    if !p.addressOk(tx.sender) || tx.nonce <= NextNonce(r.chain.store, tx.sender) then (r, false)
    else
      var kept := Unexpired(r.parked, at, limits.futureTtl);
      if CountOf(kept, tx.sender) >= limits.futurePerSender then (r.(parked := kept), false)
      else (r.(parked := KeepNewest(Put(kept, at, tx), limits.futureMax)), true)
  }

  // ---------------------------------------------------------------- releasing

  /** By sender, then by nonce. */
  predicate KeyBefore(a: Tx, b: Tx) {
    TextBefore(a.sender, b.sender) || (a.sender == b.sender && a.nonce < b.nonce)
  }

  function InsertByKey(sorted: seq<Tx>, tx: Tx): (r: seq<Tx>)
    ensures multiset(r) == multiset(sorted) + multiset{tx}
  {
    if sorted == [] || !KeyBefore(tx, sorted[|sorted| - 1]) then sorted + [tx]
    else
      assert sorted == sorted[..|sorted| - 1] + [sorted[|sorted| - 1]];
      InsertByKey(sorted[..|sorted| - 1], tx) + [sorted[|sorted| - 1]]
  }

  /** The held transactions in the order they are retried. */
  function RetryOrder(parked: seq<Parked>): (r: seq<Tx>)
    ensures |r| == |parked|
    ensures forall t :: t in r <==> Holding(parked, t)
  {
    if parked == [] then []
    else
      var before, last := RetryOrder(parked[..|parked| - 1]), parked[|parked| - 1].tx;
      var r := InsertByKey(before, last);
      RetryMembers(parked, before, r);
      r
  }

  lemma RetryMembers(parked: seq<Parked>, before: seq<Tx>, r: seq<Tx>)
    requires parked != [] && |before| == |parked| - 1
    requires forall t :: t in before <==> Holding(parked[..|parked| - 1], t)
    requires multiset(r) == multiset(before) + multiset{parked[|parked| - 1].tx}
    ensures |r| == |parked| && forall t :: t in r <==> Holding(parked, t)
  {
    assert |multiset(r)| == |r| && |multiset(before)| == |before|;
    forall t
      ensures t in r <==> Holding(parked, t)
    {
      assert t in r <==> t in multiset(r);
      assert t in before <==> t in multiset(before);
      if Holding(parked, t) {
        var i :| 0 <= i < |parked| && parked[i].tx == t;
        assert i < |parked| - 1 ==> parked[..|parked| - 1][i].tx == t;
      }
      if Holding(parked[..|parked| - 1], t) {
        var i :| 0 <= i < |parked| - 1 && parked[..|parked| - 1][i].tx == t;
        assert parked[i].tx == t;
      }
      assert parked[|parked| - 1].tx == t ==> Holding(parked, t);
    }
  }

  /** One retry: admitted, still waiting, or no longer admissible. */
  ghost function Retry(p: Params, limits: Limits, r: Relay, tx: Tx, now: int): (n: (Relay, bool))
    requires r.chain.store.rows != []
    ensures n.0.chain.store.rows == r.chain.store.rows && |n.0.parked| <= |r.parked|
    ensures n.1 && Holding(r.parked, tx) ==> |n.0.parked| < |r.parked|
    ensures forall q :: q in n.0.parked ==> q in r.parked
  {
    var submitted := SubmitTransaction(p, r.chain, tx, now);
    if submitted.1.None? then
      (Relay(submitted.0, Unpark(r.parked, tx), SeenAdd(limits, r.seen, tx)), true)
    else if submitted.1 == Some(BadNonce) && NextNonce(r.chain.store, tx.sender) < tx.nonce then (r, false)
    else (r.(parked := Unpark(r.parked, tx)), false)
  }

  ghost function RetryAll(p: Params, limits: Limits, r: Relay, order: seq<Tx>, now: int): (n: (Relay, bool))
    requires r.chain.store.rows != []
    ensures n.0.chain.store.rows == r.chain.store.rows && |n.0.parked| <= |r.parked|
    ensures forall q :: q in n.0.parked ==> q in r.parked
  {
    if order == [] then (r, false)
    else
      var before := RetryAll(p, limits, r, order[..|order| - 1], now);
      var last := Retry(p, limits, before.0, order[|order| - 1], now);
      (last.0, before.1 || last.1)
  }

  /** No two entries for one transaction. */
  predicate Unique(parked: seq<Parked>) {
    forall i, j :: 0 <= i < j < |parked| ==> parked[i].tx != parked[j].tx
  }

  lemma {:induction false} UnparkUnique(parked: seq<Parked>, tx: Tx)
    requires Unique(parked)
    ensures Unique(Unpark(parked, tx))
  {
    if parked != [] {
      var before, last := parked[..|parked| - 1], parked[|parked| - 1];
      UnparkUnique(before, tx);
      var kept := Unpark(before, tx);
      forall i | 0 <= i < |kept|
        ensures kept[i].tx != last.tx
      {
        assert kept[i] in before;
        var j :| 0 <= j < |before| && before[j] == kept[i];
      }
    }
  }

  /** The retry order lists exactly the held transactions. */
  lemma {:induction false} OrderPermutes(parked: seq<Parked>)
    ensures multiset(RetryOrder(parked)) == multiset(Txs(parked))
  {
    if parked != [] {
      var before, last := parked[..|parked| - 1], parked[|parked| - 1].tx;
      OrderPermutes(before);
      hide InsertByKey;
      assert Txs(parked) == Txs(before) + [last];
    }
  }

  /** Within a sender the retries go by nonce. */
  lemma OrderSorted(parked: seq<Parked>, i: nat, j: nat)
    requires i < j < |RetryOrder(parked)| && RetryOrder(parked)[i].sender == RetryOrder(parked)[j].sender
    ensures RetryOrder(parked)[i].nonce <= RetryOrder(parked)[j].nonce
  {
    RetriesOrdered(parked);
    hide RetryOrder;
    var a, b := RetryOrder(parked)[i], RetryOrder(parked)[j];
    assert !KeyBefore(b, a);
  }

  ghost predicate KeyOrdered(txs: seq<Tx>) {
    forall i, j :: 0 <= i < j < |txs| ==> !KeyBefore(txs[j], txs[i])
  }

  lemma {:induction false} RetriesOrdered(parked: seq<Parked>)
    ensures KeyOrdered(RetryOrder(parked))
  {
    if parked != [] {
      RetriesOrdered(parked[..|parked| - 1]);
      InsertOrdered(RetryOrder(parked[..|parked| - 1]), parked[|parked| - 1].tx);
    }
  }

  lemma KeyOrder(a: Tx, b: Tx, c: Tx)
    ensures !KeyBefore(b, a) && !KeyBefore(c, b) ==> !KeyBefore(c, a)
    ensures KeyBefore(a, b) ==> !KeyBefore(b, a)
  {
    hide TextBefore;
    TextTotal(a.sender, b.sender);
    TextTotal(b.sender, c.sender);
    TextTotal(a.sender, c.sender);
    if TextBefore(a.sender, b.sender) && TextBefore(b.sender, c.sender) {
      TextTransitive(a.sender, b.sender, c.sender);
    }
  }

  lemma {:induction false} InsertOrdered(txs: seq<Tx>, tx: Tx)
    requires KeyOrdered(txs)
    ensures KeyOrdered(InsertByKey(txs, tx))
  {
    hide KeyBefore;
    if txs != [] {
      var front, last := txs[..|txs| - 1], txs[|txs| - 1];
      if KeyBefore(tx, last) {
        InsertOrdered(front, tx);
        var inserted := InsertByKey(front, tx);
        forall i | 0 <= i < |inserted|
          ensures !KeyBefore(last, inserted[i])
        {
          assert inserted[i] in multiset(inserted);
          assert inserted[i] == tx || inserted[i] in front;
          KeyOrder(tx, last, last);
        }
      } else {
        forall i | 0 <= i < |front|
          ensures !KeyBefore(tx, front[i])
        {
          KeyOrder(front[i], last, tx);
        }
      }
    }
  }

  lemma OrderUnique(parked: seq<Parked>)
    requires Unique(parked)
    ensures Distinct(RetryOrder(parked))
  {
    hide RetryOrder;
    OrderPermutes(parked);
    assert Distinct(Txs(parked));
    forall t
      ensures multiset(RetryOrder(parked))[t] <= 1
    {
      DistinctCounts(Txs(parked), t);
    }
    CountsDistinct(RetryOrder(parked));
  }

  function Txs(parked: seq<Parked>): (r: seq<Tx>)
    ensures |r| == |parked| && forall i :: 0 <= i < |r| ==> r[i] == parked[i].tx
  {
    seq(|parked|, i requires 0 <= i < |parked| => parked[i].tx)
  }

  lemma {:induction false} DistinctCounts(s: seq<Tx>, t: Tx)
    requires Distinct(s)
    ensures multiset(s)[t] <= 1
  {
    if s != [] {
      DistinctCounts(s[..|s| - 1], t);
      assert s == s[..|s| - 1] + [s[|s| - 1]];
      if t == s[|s| - 1] {
        assert t !in s[..|s| - 1];
      }
    }
  }

  lemma {:induction false} CountsDistinct(s: seq<Tx>)
    requires forall t :: multiset(s)[t] <= 1
    ensures Distinct(s)
  {
    if s != [] {
      var n := |s| - 1;
      assert s == s[..n] + [s[n]];
      forall t
        ensures multiset(s[..n])[t] <= 1
      {
        assert multiset(s)[t] <= 1;
      }
      CountsDistinct(s[..n]);
      forall i | 0 <= i < n
        ensures s[i] != s[n]
      {
        assert s[..n][i] in multiset(s[..n]);
        assert multiset(s)[s[n]] <= 1;
      }
    }
  }

  /** A pass that admits something leaves fewer transactions held. */
  lemma {:induction false} PassShrinks(p: Params, limits: Limits, r: Relay, order: seq<Tx>, now: int)
    requires r.chain.store.rows != [] && Unique(r.parked) && Distinct(order)
    requires forall t :: t in order ==> Holding(r.parked, t)
    ensures
      var n := RetryAll(p, limits, r, order, now);
      && Unique(n.0.parked) && (n.1 ==> |n.0.parked| < |r.parked|)
      && (forall t :: Holding(r.parked, t) && t !in order ==> Holding(n.0.parked, t))
  {
    hide Retry, Holding, Unique;
    if order != [] {
      var m := |order| - 1;
      var before := RetryAll(p, limits, r, order[..m], now);
      PassShrinks(p, limits, r, order[..m], now);
      LastNew(order);
      RetryHolds(p, limits, before.0, order[m], now);
      forall t | Holding(r.parked, t) && t !in order
        ensures Holding(RetryAll(p, limits, r, order, now).0.parked, t)
      {
        assert t !in order[..m] && t != order[m];
      }
    }
  }

  lemma LastNew(order: seq<Tx>)
    requires Distinct(order) && order != []
    ensures Distinct(order[..|order| - 1]) && order[|order| - 1] in order && order[|order| - 1] !in order[..|order| - 1]
    ensures forall t :: t in order <==> t in order[..|order| - 1] || t == order[|order| - 1]
  {}

  /** A retry touches no other entry. */
  lemma RetryHolds(p: Params, limits: Limits, r: Relay, tx: Tx, now: int)
    requires r.chain.store.rows != [] && Unique(r.parked)
    ensures
      var n := Retry(p, limits, r, tx, now).0;
      Unique(n.parked) && forall t :: Holding(r.parked, t) && t != tx ==> Holding(n.parked, t)
  {
    hide SubmitTransaction, NextNonce, SeenAdd, Holding, Unique;
    UnparkUnique(r.parked, tx);
    forall t | Holding(r.parked, t) && t != tx
      ensures Holding(Unpark(r.parked, tx), t)
    {
      UnparkOthers(r.parked, tx, t);
    }
  }

  lemma UnparkOthers(parked: seq<Parked>, tx: Tx, t: Tx)
    requires Holding(parked, t) && t != tx
    ensures Holding(Unpark(parked, tx), t)
  {
    var i :| 0 <= i < |parked| && parked[i].tx == t;
    assert parked[i] in Unpark(parked, tx);
    var j :| 0 <= j < |Unpark(parked, tx)| && Unpark(parked, tx)[j] == parked[i];
  }

  /** Retry everything held, again and again while something is admitted. */
  ghost function Release(p: Params, limits: Limits, r: Relay, now: int): (n: Relay)
    requires r.chain.store.rows != [] && Unique(r.parked)
    ensures n.chain.store.rows == r.chain.store.rows
    decreases |r.parked|
  {
    if r.parked == [] then r
    else
      var order := RetryOrder(r.parked);
      OrderUnique(r.parked);
      PassShrinks(p, limits, r, order, now);
      var pass := RetryAll(p, limits, r, order, now);
      if pass.1 then Release(p, limits, pass.0, now) else pass.0
  }

  predicate Benign(code: Code) {
    code in {DuplicateTx, BadNonce, InsufficientFunds, MempoolFull, MempoolSenderLimit, BadTimestamp}
  }

  /** A transaction received from a peer. */
  ghost function OnTx(p: Params, limits: Limits, r: Relay, tx: Tx, now: int, at: real): (n: Relay)
    requires r.chain.store.rows != [] && Unique(r.parked)
    ensures n.chain.store.rows == r.chain.store.rows
  {
    if tx in r.seen then r
    else
      var submitted := SubmitTransaction(p, r.chain, tx, now);
      if submitted.1.None? then
        Release(p, limits, r.(chain := submitted.0, seen := SeenAdd(limits, r.seen, tx)), now)
      else
        var noted := if Benign(submitted.1.value) then r.(seen := SeenAdd(limits, r.seen, tx)) else r;
        if submitted.1.value == BadNonce then Park(p, limits, noted, tx, at).0 else noted
  }

  // ---------------------------------------------------------------- what release leaves

  lemma {:induction false} PassIdle(p: Params, limits: Limits, r: Relay, order: seq<Tx>, now: int)
    requires r.chain.store.rows != [] && !RetryAll(p, limits, r, order, now).1
    ensures
      var n := RetryAll(p, limits, r, order, now).0;
      && n.chain == r.chain && n.seen == r.seen
      && forall t :: t in order && Holding(n.parked, t) ==> t.nonce > NextNonce(r.chain.store, t.sender)
  {
    hide SubmitTransaction, NextNonce;
    if order != [] {
      var m := |order| - 1;
      var before := RetryAll(p, limits, r, order[..m], now);
      PassIdle(p, limits, r, order[..m], now);
      var n := RetryAll(p, limits, r, order, now).0;
      forall t | t in order && Holding(n.parked, t)
        ensures t.nonce > NextNonce(r.chain.store, t.sender)
      {
        var i :| 0 <= i < |n.parked| && n.parked[i].tx == t;
        assert n.parked[i] in before.0.parked;
        var j :| 0 <= j < |before.0.parked| && before.0.parked[j] == n.parked[i];
        assert Holding(before.0.parked, t);
        assert t == order[m] || t in order[..m];
      }
    }
  }

  /** Releasing terminates, and what is still held afterwards is still ahead of its sender's next nonce. */
  lemma {:induction false} ReleaseLeavesFuture(p: Params, limits: Limits, r: Relay, now: int)
    requires r.chain.store.rows != [] && Unique(r.parked)
    ensures
      var n := Release(p, limits, r, now);
      && (forall q :: q in n.parked ==> q in r.parked && q.tx.nonce > NextNonce(n.chain.store, q.tx.sender))
      && Unique(n.parked)
    decreases |r.parked|
  {
    hide RetryAll, NextNonce, RetryOrder;
    if r.parked != [] {
      var order := RetryOrder(r.parked);
      OrderUnique(r.parked);
      PassShrinks(p, limits, r, order, now);
      var pass := RetryAll(p, limits, r, order, now);
      if pass.1 {
        ReleaseLeavesFuture(p, limits, pass.0, now);
      } else {
        PassIdle(p, limits, r, order, now);
        forall q | q in pass.0.parked
          ensures q.tx.nonce > NextNonce(r.chain.store, q.tx.sender)
        {
          assert q in r.parked;
          var i :| 0 <= i < |r.parked| && r.parked[i] == q;
          assert Holding(r.parked, q.tx);
          var j :| 0 <= j < |pass.0.parked| && pass.0.parked[j] == q;
          assert Holding(pass.0.parked, q.tx);
        }
      }
    }
  }

  lemma {:induction false} UnexpiredUnique(parked: seq<Parked>, at: real, ttl: real)
    requires Unique(parked)
    ensures Unique(Unexpired(parked, at, ttl)) && forall q :: q in Unexpired(parked, at, ttl) ==> q in parked
  {
    if parked != [] {
      var before, last := parked[..|parked| - 1], parked[|parked| - 1];
      UnexpiredUnique(before, at, ttl);
      var kept := Unexpired(before, at, ttl);
      forall i | 0 <= i < |kept|
        ensures kept[i].tx != last.tx
      {
        assert kept[i] in before;
        var j :| 0 <= j < |before| && before[j] == kept[i];
      }
    }
  }

  /** What is held of one sender. */
  function HeldOf(parked: seq<Parked>, a: Address): set<Parked> {
    set q | q in parked && q.tx.sender == a
  }

  /** No sender holds more than its share. */
  ghost predicate SenderBounded(limits: Limits, parked: seq<Parked>) {
    forall a: Address :: |HeldOf(parked, a)| <= limits.futurePerSender
  }

  /** A dictionary by id, bounded as a whole and for every sender. */
  ghost predicate Bounded(limits: Limits, parked: seq<Parked>) {
    Unique(parked) && |parked| <= limits.futureMax && SenderBounded(limits, parked)
  }

  lemma {:induction false} CountIsHeld(parked: seq<Parked>, a: Address)
    requires Unique(parked)
    ensures CountOf(parked, a) == |HeldOf(parked, a)|
  {
    if parked == [] {
      assert HeldOf(parked, a) == {};
    } else {
      var before, last := parked[..|parked| - 1], parked[|parked| - 1];
      CountIsHeld(before, a);
      assert last !in before;
      assert forall q :: q in parked <==> q in before || q == last;
      assert HeldOf(parked, a) == if last.tx.sender == a then HeldOf(before, a) + {last} else HeldOf(before, a);
    }
  }

  lemma HeldSubset(limits: Limits, parked: seq<Parked>, after: seq<Parked>, a: Address)
    requires forall q :: q in after ==> q in parked
    ensures |HeldOf(after, a)| <= |HeldOf(parked, a)|
  {
    var few, many := HeldOf(after, a), HeldOf(parked, a);
    assert few <= many;
    assert many == few + (many - few);
  }

  /** Dropping entries keeps every bound. */
  lemma FewerBounded(limits: Limits, parked: seq<Parked>, after: seq<Parked>)
    requires Bounded(limits, parked) && Unique(after) && |after| <= limits.futureMax && forall q :: q in after ==> q in parked
    ensures Bounded(limits, after)
  {
    hide HeldOf, Unique;
    forall a: Address
      ensures |HeldOf(after, a)| <= limits.futurePerSender
    {
      HeldSubset(limits, parked, after, a);
    }
  }

  /** The dictionary write, as a set of entries. */
  lemma PutMembers(parked: seq<Parked>, at: real, tx: Tx)
    requires Unique(parked)
    ensures Unique(Put(parked, at, tx))
    ensures forall q :: q in Put(parked, at, tx) <==> (q in parked && q.tx != tx) || q == Parked(at, tx)
  {
    var put := Put(parked, at, tx);
    if Holding(parked, tx) {
      var k :| 0 <= k < |parked| && parked[k].tx == tx;
      assert put[k] == Parked(at, tx);
    }
    forall q
      ensures q in put <==> (q in parked && q.tx != tx) || q == Parked(at, tx)
    {
      if q in parked && q.tx != tx {
        var i :| 0 <= i < |parked| && parked[i] == q;
        assert put[i] == q;
      }
    }
  }

  lemma PutHeld(parked: seq<Parked>, at: real, tx: Tx, a: Address)
    requires Unique(parked)
    ensures |HeldOf(Put(parked, at, tx), a)| <= |HeldOf(parked, a)| + if tx.sender == a then 1 else 0
  {
    hide Put, Unique;
    PutMembers(parked, at, tx);
    var before, after := HeldOf(parked, a), HeldOf(Put(parked, at, tx), a);
    var added: set<Parked> := if tx.sender == a then {Parked(at, tx)} else {};
    var both := before + added;
    assert after <= both;
    assert both == after + (both - after);
    assert both == before + (added - before);
  }

  /** Parking within both bounds. */
  lemma ParkBounded(p: Params, limits: Limits, r: Relay, tx: Tx, at: real)
    requires Bounded(limits, r.parked)
    ensures Bounded(limits, Park(p, limits, r, tx, at).0.parked)
  {
    hide NextNonce, Unexpired, CountOf, Put, HeldOf, Unique;
    var kept := Unexpired(r.parked, at, limits.futureTtl);
    UnexpiredUnique(r.parked, at, limits.futureTtl);
    UnexpiredBound(r.parked, at, limits.futureTtl);
    FewerBounded(limits, r.parked, kept);
    CountIsHeld(kept, tx.sender);
    if CountOf(kept, tx.sender) < limits.futurePerSender {
      var put := Put(kept, at, tx);
      PutMembers(kept, at, tx);
      KeepNewestUnique(put, limits.futureMax);
      forall a: Address
        ensures |HeldOf(KeepNewest(put, limits.futureMax), a)| <= limits.futurePerSender
      {
        PutHeld(kept, at, tx, a);
        HeldSubset(limits, put, KeepNewest(put, limits.futureMax), a);
      }
    }
  }

  lemma KeepNewestUnique(parked: seq<Parked>, max: nat)
    requires Unique(parked)
    ensures Unique(KeepNewest(parked, max)) && |KeepNewest(parked, max)| == Min(|parked|, max)
    ensures forall q :: q in KeepNewest(parked, max) ==> q in parked
  {}

  /** Held entries of one sender that have not expired. */
  function LiveOf(parked: seq<Parked>, a: Address, at: real, ttl: real): set<Parked> {
    set q | q in parked && at - q.at <= ttl && q.tx.sender == a
  }

  lemma {:induction false} UnexpiredMembers(parked: seq<Parked>, at: real, ttl: real)
    ensures forall q :: q in Unexpired(parked, at, ttl) <==> q in parked && at - q.at <= ttl
    ensures Unexpired(parked, at, ttl) != [] ==> OldestLive(parked, Unexpired(parked, at, ttl)[0], at, ttl)
  {
    if parked != [] {
      var before, last := parked[..|parked| - 1], parked[|parked| - 1];
      UnexpiredMembers(before, at, ttl);
      assert forall q :: q in parked <==> q in before || q == last;
      if Unexpired(before, at, ttl) != [] {
        var i :| 0 <= i < |before| && before[i] == Unexpired(before, at, ttl)[0] && forall j :: 0 <= j < i ==> at - before[j].at > ttl;
        assert parked[i] == before[i] && forall j :: 0 <= j < i ==> parked[j] == before[j];
      } else {
        assert forall j :: 0 <= j < |before| ==> before[j] in before && parked[j] == before[j];
        assert parked[|before|] == last;
      }
    }
  }

  /** Everything put aside before it has expired. */
  ghost predicate OldestLive(parked: seq<Parked>, q: Parked, at: real, ttl: real) {
    exists i :: 0 <= i < |parked| && parked[i] == q && forall j :: 0 <= j < i ==> at - parked[j].at > ttl
  }

  lemma LiveCount(parked: seq<Parked>, a: Address, at: real, ttl: real)
    requires Unique(parked)
    ensures CountOf(Unexpired(parked, at, ttl), a) == |LiveOf(parked, a, at, ttl)|
  {
    hide Unexpired, CountOf, Unique;
    var kept := Unexpired(parked, at, ttl);
    UnexpiredUnique(parked, at, ttl);
    UnexpiredMembers(parked, at, ttl);
    CountIsHeld(kept, a);
    assert HeldOf(kept, a) == LiveOf(parked, a, at, ttl);
  }

  lemma PutNewest(kept: seq<Parked>, at: real, tx: Tx, max: nat)
    requires Unique(kept) && |kept| <= max && max >= 1
    ensures
      var held := KeepNewest(Put(kept, at, tx), max);
      && Parked(at, tx) in held && (forall q :: q in held ==> q == Parked(at, tx) || (q in kept && q.tx != tx))
      && forall q :: q in kept && q.tx != tx && q !in held ==> |kept| == max == |held| && q == kept[0]
  {
    hide Unique;
    PutMembers(kept, at, tx);
    var put := Put(kept, at, tx);
    if !Holding(kept, tx) && |kept| == max {
      var held := KeepNewest(put, max);
      assert forall i :: 1 <= i < |kept| ==> held[i - 1] == kept[i];
      assert held[max - 1] == Parked(at, tx);
    }
  }

  /** When a transaction is held: exactly if its sender's address is well formed, its nonce is ahead of the next one,
      and fewer than the limit of its sender are held and not expired. Then it is held with the new time; apart from it
      exactly the live entries stay, save that a full pool gives up the oldest of them. */
  lemma ParkExact(p: Params, limits: Limits, r: Relay, tx: Tx, at: real)
    requires Unique(r.parked) && |r.parked| <= limits.futureMax && limits.futureMax >= 1
    ensures
      var a, st, n := tx.sender, r.chain.store, Park(p, limits, r, tx, at);
      && n.0 == r.(parked := n.0.parked)
      && (n.1 <==> p.addressOk(a) && tx.nonce > Get(st.accounts, a).nonce + |Queue(st.mempool, a)| + 1
                   && |LiveOf(r.parked, a, at, limits.futureTtl)| < limits.futurePerSender)
      && (n.1 ==>
            && Parked(at, tx) in n.0.parked
            && (forall q :: q in n.0.parked && q.tx != tx ==> q in r.parked && at - q.at <= limits.futureTtl)
            && forall q :: q in r.parked && q.tx != tx && at - q.at <= limits.futureTtl && q !in n.0.parked ==>
                 |n.0.parked| == limits.futureMax && OldestLive(r.parked, q, at, limits.futureTtl))
  {
    hide Unexpired, CountOf, Put, Unique, Queue, LiveOf, OldestLive, KeepNewest;
    var kept := Unexpired(r.parked, at, limits.futureTtl);
    UnexpiredUnique(r.parked, at, limits.futureTtl);
    UnexpiredBound(r.parked, at, limits.futureTtl);
    UnexpiredMembers(r.parked, at, limits.futureTtl);
    LiveCount(r.parked, tx.sender, at, limits.futureTtl);
    PutNewest(kept, at, tx, limits.futureMax);
  }

  /** A pass over the held transactions keeps every bound, and shrinks the pool when it admits something. */
  lemma PassBounded(p: Params, limits: Limits, r: Relay, now: int)
    requires r.chain.store.rows != [] && Bounded(limits, r.parked)
    ensures
      var n := RetryAll(p, limits, r, RetryOrder(r.parked), now);
      Unique(r.parked) && Bounded(limits, n.0.parked) && (n.1 ==> |n.0.parked| < |r.parked|)
  {
    hide RetryAll, RetryOrder, HeldOf, Unique, Holding;
    OrderUnique(r.parked);
    OrderListsHeld(r.parked);
    PassShrinks(p, limits, r, RetryOrder(r.parked), now);
    FewerBounded(limits, r.parked, RetryAll(p, limits, r, RetryOrder(r.parked), now).0.parked);
  }

  lemma OrderListsHeld(parked: seq<Parked>)
    ensures forall t :: t in RetryOrder(parked) <==> Holding(parked, t)
  {}

  /** Releasing only takes entries out. */
  lemma ReleaseBounded(p: Params, limits: Limits, r: Relay, now: int)
    requires r.chain.store.rows != [] && Bounded(limits, r.parked)
    ensures Bounded(limits, Release(p, limits, r, now).parked)
  {
    hide Release, HeldOf, Unique;
    ReleaseLeavesFuture(p, limits, r, now);
    ReleaseBound(p, limits, r, now);
    FewerBounded(limits, r.parked, Release(p, limits, r, now).parked);
  }

  /** The holding pool stays a dictionary of bounded size, and no sender ever has more than its share of it. */
  lemma OnTxKeeps(p: Params, limits: Limits, r: Relay, tx: Tx, now: int, at: real)
    requires r.chain.store.rows != [] && Unique(r.parked) && |r.parked| <= limits.futureMax
    ensures
      var held := OnTx(p, limits, r, tx, now, at).parked;
      && Unique(held) && |held| <= limits.futureMax
      && (SenderBounded(limits, r.parked) ==> SenderBounded(limits, held))
  {
    hide SubmitTransaction, Park, Release, HeldOf, Unique;
    var submitted := SubmitTransaction(p, r.chain, tx, now);
    if submitted.1.None? {
      var next := r.(chain := submitted.0, seen := SeenAdd(limits, r.seen, tx));
      ReleaseLeavesFuture(p, limits, next, now);
      ReleaseBound(p, limits, next, now);
      if Bounded(limits, r.parked) {
        ReleaseBounded(p, limits, next, now);
      }
    } else {
      ParkSize(p, limits, r, tx, at);
      ParkSize(p, limits, r.(seen := SeenAdd(limits, r.seen, tx)), tx, at);
      if Bounded(limits, r.parked) {
        ParkBounded(p, limits, r, tx, at);
        ParkBounded(p, limits, r.(seen := SeenAdd(limits, r.seen, tx)), tx, at);
      }
    }
  }

  lemma ParkSize(p: Params, limits: Limits, r: Relay, tx: Tx, at: real)
    requires Unique(r.parked) && |r.parked| <= limits.futureMax
    ensures Unique(Park(p, limits, r, tx, at).0.parked) && |Park(p, limits, r, tx, at).0.parked| <= limits.futureMax
  {
    hide NextNonce, Unexpired, CountOf, Put, Unique;
    var kept := Unexpired(r.parked, at, limits.futureTtl);
    UnexpiredUnique(r.parked, at, limits.futureTtl);
    UnexpiredBound(r.parked, at, limits.futureTtl);
    PutMembers(kept, at, tx);
    KeepNewestUnique(Put(kept, at, tx), limits.futureMax);
  }

  lemma {:induction false} UnexpiredBound(parked: seq<Parked>, at: real, ttl: real)
    ensures |Unexpired(parked, at, ttl)| <= |parked|
  {
    if parked != [] {
      UnexpiredBound(parked[..|parked| - 1], at, ttl);
    }
  }

  lemma {:induction false} ReleaseBound(p: Params, limits: Limits, r: Relay, now: int)
    requires r.chain.store.rows != [] && Unique(r.parked)
    ensures |Release(p, limits, r, now).parked| <= |r.parked|
    decreases |r.parked|
  {
    hide RetryAll, RetryOrder;
    if r.parked != [] {
      var order := RetryOrder(r.parked);
      OrderUnique(r.parked);
      PassShrinks(p, limits, r, order, now);
      if RetryAll(p, limits, r, order, now).1 {
        ReleaseBound(p, limits, RetryAll(p, limits, r, order, now).0, now);
      }
    }
  }
}
