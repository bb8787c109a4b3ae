/** What a reorganization returns to the mempool. A sender whose disconnected transactions are still valid
    gets them all back when nothing else of it was pending, and loses everything when something was. */
module RestoreFacts {
  import opened Types
  import opened Ledger
  import opened Chain
  import opened Tables
  import opened TableFacts
  import opened Mempool
  import opened MempoolFacts
  import Template

  /** The transactions of one sender above a nonce, in the listed order. */
  function Outstanding(txs: seq<Tx>, a: Address, nonce: int): (r: seq<Tx>)
    ensures forall t :: t in r <==> t in txs && t.sender == a && t.nonce > nonce
  {
    if txs == [] then []
    else
      var before, last := Outstanding(txs[..|txs| - 1], a, nonce), txs[|txs| - 1];
      if last.sender == a && last.nonce > nonce then before + [last] else before
  }

  lemma OutstandingStep(txs: seq<Tx>, a: Address, nonce: int)
    ensures txs == [] ==> Outstanding(txs, a, nonce) == []
    ensures txs != [] ==>
      var before, last := Outstanding(txs[..|txs| - 1], a, nonce), txs[|txs| - 1];
      Outstanding(txs, a, nonce) == if last.sender == a && last.nonce > nonce then before + [last] else before
  {}

  /** What the sender has outstanding in the list continues its confirmed nonce without a gap, is not to be
      skipped, and comes before whatever else of it is pending. */
  ghost predicate Continues(st: Store, txs: seq<Tx>, skip: set<Tx>, a: Address) {
    var nonce := Get(st.accounts, a).nonce;
    var back := Outstanding(txs, a, nonce);
    && back != [] && (forall i :: 0 <= i < |back| ==> back[i].nonce == nonce + 1 + i)
    && (forall t :: t in back ==> t !in skip)
    && (forall t :: t in st.mempool && t.sender == a ==> t.nonce > nonce + |back|)
  }

  /** Its funds cover all of it and the caps leave room. */
  ghost predicate Affordable(p: Params, st: Store, txs: seq<Tx>, a: Address)
    requires st.rows != []
  {
    var back := Outstanding(txs, a, Get(st.accounts, a).nonce);
    && CostSum(back) <= Spendable(p, st, a)
    && |st.mempool| + |txs| <= p.mempoolMaxTxs && |back| <= p.mempoolMaxPerSender
  }

  lemma ContinuesParts(st: Store, txs: seq<Tx>, skip: set<Tx>, a: Address)
    ensures Continues(st, txs, skip, a) <==>
      var nonce := Get(st.accounts, a).nonce;
      var back := Outstanding(txs, a, nonce);
      && back != [] && (forall i :: 0 <= i < |back| ==> back[i].nonce == nonce + 1 + i)
      && (forall t :: t in back ==> t !in skip)
      && (forall t :: t in st.mempool && t.sender == a ==> t.nonce > nonce + |back|)
  {
    hide Outstanding, Get;
  }

  lemma AffordableParts(p: Params, st: Store, txs: seq<Tx>, a: Address)
    requires st.rows != [] && Affordable(p, st, txs, a)
    ensures
      var back := Outstanding(txs, a, Get(st.accounts, a).nonce);
      && CostSum(back) <= Spendable(p, st, a)
      && |st.mempool| + |txs| <= p.mempoolMaxTxs && |back| <= p.mempoolMaxPerSender
  {
    hide Outstanding, CostSum, Spendable, Get;
  }

  lemma {:induction false} PrefixOutstanding(txs: seq<Tx>, a: Address, nonce: int, n: nat)
    requires n <= |txs|
    ensures Outstanding(txs[..n], a, nonce) <= Outstanding(txs, a, nonce)
    decreases |txs|
  {
    if n < |txs| {
      assert txs[..|txs| - 1][..n] == txs[..n];
      PrefixOutstanding(txs[..|txs| - 1], a, nonce, n);
    } else {
      assert txs[..n] == txs;
    }
  }

  // ---------------------------------------------------------------- re-admission

  lemma {:induction false} ReadmitGrows(p: Params, st: Store, txs: seq<Tx>, skip: set<Tx>, now: int)
    requires st.rows != []
    ensures
      var after := Readmit(p, st, txs, skip, now).mempool;
      && st.mempool <= after && |after| <= |st.mempool| + |txs|
      && forall t :: t in after ==> t in st.mempool || t in txs
  {
    hide Readmit, Admit;
    ReadmitStep(p, st, txs, skip, now);
    if txs != [] {
      var n := |txs| - 1;
      ReadmitGrows(p, st, txs[..n], skip, now);
      assert txs[n] in txs && forall t :: t in txs[..n] ==> t in txs;
    }
  }

  lemma CostPrefix(a: seq<Tx>, b: seq<Tx>, t: Tx)
    requires PositiveCosts(b) && a + [t] <= b
    ensures CostSum(a) + t.Cost() <= CostSum(b)
  {
    assert b[..|a|] == a && b[|a|] == t;
    Template.QueuePrefixCost(b, |a|);
  }

  /** Admission depends on the sender's own queue alone once duplicates, caps and the window are out of the way. */
  lemma AdmitByQueue(p: Params, st: Store, tx: Tx, now: int)
    requires ValidParams(p) && st.rows != [] && WellFormedTx(p, tx)
    requires TxHash(tx) !in st.index && tx !in st.mempool && |st.mempool| < p.mempoolMaxTxs
    requires forall t :: t in st.mempool && t.sender == tx.sender ==> t.nonce != tx.nonce
    requires |Queue(st.mempool, tx.sender)| < p.mempoolMaxPerSender
    requires tx.Cost() + CostSum(Queue(st.mempool, tx.sender)) <= Spendable(p, st, tx.sender)
    ensures Admit(p, st, tx, now, false).Ok? <==>
            tx.nonce == Get(st.accounts, tx.sender).nonce + |Queue(st.mempool, tx.sender)| + 1
  {
    hide Queue, Immature, CostSum;
  }

  lemma PoolQueue(p: Params, pool: set<Tx>, tx: Tx, a: Address)
    requires PoolOk(p, pool) && PoolOk(p, pool + {tx})
    requires forall t :: t in Queue(pool, a) ==> t.nonce < tx.nonce
    ensures Queue(pool + {tx}, a) == if tx.sender == a && tx !in pool then Queue(pool, a) + [tx] else Queue(pool, a)
  {
    hide PoolOk, UniquePool, PendingOf, Queue;
    PoolIsUnique(p, pool);
    PoolIsUnique(p, pool + {tx});
    QueueListing(pool, a);
    PendingAfter(pool, tx, a);
    var q := Queue(pool, a);
    if tx.sender == a && tx !in pool {
      ListingAppend(q, PendingOf(pool, a), tx);
      QueueIs(pool + {tx}, a, q + [tx]);
    } else {
      assert tx in pool ==> pool + {tx} == pool;
      SameQueue(pool, pool + {tx}, a);
    }
  }

  lemma OtherQueue(pool: set<Tx>, tx: Tx, a: Address)
    requires tx.sender != a
    ensures Queue(pool + {tx}, a) == Queue(pool, a)
  {
    assert PendingOf(pool + {tx}, a) == PendingOf(pool, a);
  }

  /** With nothing pending, every outstanding transaction is admitted in turn. */
  lemma {:induction false} AllReturn(p: Params, st: Store, txs: seq<Tx>, skip: set<Tx>, now: int, a: Address, all: seq<Tx>)
    requires ValidParams(p) && ChainInv(p, st) && st.rows != [] && PoolOk(p, st.mempool)
    requires forall i :: 0 <= i < |txs| ==> WellFormedTx(p, txs[i])
    requires txs <= all && Continues(st, all, skip, a) && Affordable(p, st, all, a) && Queue(st.mempool, a) == []
    requires PositiveCosts(Outstanding(all, a, Get(st.accounts, a).nonce))
    ensures
      var after := Readmit(p, st, txs, skip, now);
      PoolOk(p, after.mempool) && Queue(after.mempool, a) == Outstanding(txs, a, Get(st.accounts, a).nonce)
  {
    hide *;
    var nonce := Get(st.accounts, a).nonce;
    ReadmitKeepsPool(p, st, txs, skip, now);
    ReadmitStep(p, st, txs, skip, now);
    OutstandingStep(txs, a, nonce);
    if txs != [] {
      var n := |txs| - 1;
      var before, tx := Readmit(p, st, txs[..n], skip, now), txs[n];
      AllReturn(p, st, txs[..n], skip, now, a, all);
      if tx.sender != a {
        OtherQueue(before.mempool, tx, a);
      } else if tx.nonce > nonce {
        NextNonce(st, txs, skip, a, all);
        NextReturns(p, st, txs, skip, now, a, all);
        AdmitParts(p, before, tx, now, false);
        AdmitKeepsPool(p, before, tx, now, false);
        PoolQueue(p, before.mempool, tx, a);
      } else if Admit(p, before, tx, now, false).Ok? {
        AdmitParts(p, before, tx, now, false);
        SpendableSame(p, st, before, a);
        assert false;
      }
    }
  }

  lemma ReadmitStep(p: Params, st: Store, txs: seq<Tx>, skip: set<Tx>, now: int)
    requires st.rows != []
    ensures txs == [] ==> Readmit(p, st, txs, skip, now) == st
    ensures txs != [] ==>
      var before, tx := Readmit(p, st, txs[..|txs| - 1], skip, now), txs[|txs| - 1];
      && before == st.(mempool := before.mempool) && before.rows != []
      && (tx in skip || Admit(p, before, tx, now, false).Refused? ==> Readmit(p, st, txs, skip, now) == before)
      && (tx !in skip && Admit(p, before, tx, now, false).Ok? ==>
            Readmit(p, st, txs, skip, now) == before.(mempool := before.mempool + {tx}))
  {
    hide Queue, Immature, CostSum, Abs;
  }

  /** The last listed transaction of the sender is the next one due. */
  lemma NextNonce(st: Store, txs: seq<Tx>, skip: set<Tx>, a: Address, all: seq<Tx>)
    requires Continues(st, all, skip, a) && txs != [] && txs <= all
    requires txs[|txs| - 1].sender == a && txs[|txs| - 1].nonce > Get(st.accounts, a).nonce
    ensures
      var nonce := Get(st.accounts, a).nonce;
      var before, back := Outstanding(txs[..|txs| - 1], a, nonce), Outstanding(all, a, nonce);
      && before + [txs[|txs| - 1]] <= back && txs[|txs| - 1] !in skip
      && (forall t :: t in before ==> t.nonce < txs[|txs| - 1].nonce)
      && txs[|txs| - 1].nonce == nonce + |before| + 1
  {
    hide Outstanding, Continues, Get;
    ContinuesParts(st, all, skip, a);
    assert all[..|txs|] == txs;
    var nonce := Get(st.accounts, a).nonce;
    PrefixOutstanding(all, a, nonce, |txs|);
    OutstandingStep(txs, a, nonce);
    var before, back := Outstanding(txs[..|txs| - 1], a, nonce), Outstanding(all, a, nonce);
    assert forall i :: 0 <= i < |before| ==> before[i] == back[i];
    assert back[|before|] == txs[|txs| - 1];
  }

  /** The next outstanding transaction meets every condition of admission. */
  lemma NextReturns(p: Params, st: Store, txs: seq<Tx>, skip: set<Tx>, now: int, a: Address, all: seq<Tx>)
    requires ValidParams(p) && ChainInv(p, st) && st.rows != [] && PoolOk(p, st.mempool)
    requires forall i :: 0 <= i < |txs| ==> WellFormedTx(p, txs[i])
    requires txs <= all && Continues(st, all, skip, a) && Affordable(p, st, all, a) && txs != []
    requires PositiveCosts(Outstanding(all, a, Get(st.accounts, a).nonce))
    requires txs[|txs| - 1].sender == a && txs[|txs| - 1].nonce > Get(st.accounts, a).nonce
    requires
      var before := Readmit(p, st, txs[..|txs| - 1], skip, now);
      PoolOk(p, before.mempool)
      && Queue(before.mempool, a) == Outstanding(txs[..|txs| - 1], a, Get(st.accounts, a).nonce)
    ensures Admit(p, Readmit(p, st, txs[..|txs| - 1], skip, now), txs[|txs| - 1], now, false).Ok?
  {
    hide *;
    var n, nonce := |txs| - 1, Get(st.accounts, a).nonce;
    var before, tx := Readmit(p, st, txs[..n], skip, now), txs[n];
    ReadmitStep(p, st, txs, skip, now);
    ReadmitGrows(p, st, txs[..n], skip, now);
    AffordableParts(p, st, all, a);
    NextNonce(st, txs, skip, a, all);
    CostPrefix(Outstanding(txs[..n], a, nonce), Outstanding(all, a, nonce), tx);
    PoolIsUnique(p, before.mempool);
    QueueMembers(before.mempool, a);
    NotConfirmed(p, st, tx);
    SpendableSame(p, st, before, a);
    AdmitByQueue(p, before, tx, now);
  }

  lemma QueueMembers(pool: set<Tx>, a: Address)
    requires UniquePool(pool)
    ensures forall t :: t in Queue(pool, a) <==> t in pool && t.sender == a
  {
    QueueListing(pool, a);
  }

  // ---------------------------------------------------------------- with something pending

  /** With something pending, the first returning transaction is never admitted. */
  lemma {:induction false} FirstStaysOut(p: Params, st: Store, txs: seq<Tx>, skip: set<Tx>, now: int, a: Address)
    requires ValidParams(p) && st.rows != [] && PoolOk(p, st.mempool)
    requires forall i :: 0 <= i < |txs| ==> WellFormedTx(p, txs[i])
    requires Queue(st.mempool, a) != []
    requires forall t :: t in st.mempool && t.sender == a ==> t.nonce != Get(st.accounts, a).nonce + 1
    ensures
      var after := Readmit(p, st, txs, skip, now);
      && PoolOk(p, after.mempool)
      && forall t :: t in after.mempool && t.sender == a ==> t.nonce != Get(st.accounts, a).nonce + 1
  {
    hide *;
    ReadmitKeepsPool(p, st, txs, skip, now);
    ReadmitStep(p, st, txs, skip, now);
    if txs != [] {
      var n := |txs| - 1;
      var before, tx := Readmit(p, st, txs[..n], skip, now), txs[n];
      FirstStaysOut(p, st, txs[..n], skip, now, a);
      if tx !in skip && Admit(p, before, tx, now, false).Ok? && tx.sender == a {
        AdmitParts(p, before, tx, now, false);
        ReadmitGrows(p, st, txs[..n], skip, now);
        PoolIsUnique(p, st.mempool);
        PoolIsUnique(p, before.mempool);
        QueueMembers(st.mempool, a);
        QueueMembers(before.mempool, a);
        assert Queue(st.mempool, a)[0] in Queue(st.mempool, a);
        assert Queue(st.mempool, a)[0] in Queue(before.mempool, a);
        SpendableSame(p, st, before, a);
      }
    }
  }

  lemma {:induction false} KeepNothing(q: seq<Tx>, nonce: int, spendable: int, broken: bool)
    requires broken || forall i :: 0 <= i < |q| ==> q[i].nonce != nonce + 1
    ensures Keep(q, nonce, spendable, broken) == []
  {
    if q != [] {
      assert forall i :: 0 <= i < |q[1..]| ==> q[1..][i] == q[i + 1];
      KeepNothing(q[1..], nonce, spendable, broken || q[0].nonce > nonce + 1 || q[0].Cost() > spendable);
    }
  }

  /** What a sender has pending after the restore step when its outstanding disconnected transactions
      continue its nonce: nothing at all if something else of it was pending, and otherwise all of them as
      soon as they are affordable. */
  lemma RestoreReturns(p: Params, st: Store, disconnected: seq<Block>, connected: seq<Block>, now: int, a: Address)
    requires ValidParams(p) && ChainInv(p, st) && st.rows != [] && PoolOk(p, st.mempool)
    requires forall i :: 0 <= i < |AllTxs(disconnected)| ==> WellFormedTx(p, AllTxs(disconnected)[i])
    requires
      var confirmed := TxSet(AllTxs(connected));
      Continues(st.(mempool := st.mempool - confirmed), AllTxs(disconnected), confirmed, a)
    ensures
      var confirmed := TxSet(AllTxs(connected));
      var cleared := st.(mempool := st.mempool - confirmed);
      var queue := Queue(Restore(p, st, disconnected, connected, now).mempool, a);
      && (Queue(cleared.mempool, a) != [] ==> queue == [])
      && (Queue(cleared.mempool, a) == [] && Affordable(p, cleared, AllTxs(disconnected), a) ==>
            queue == Outstanding(AllTxs(disconnected), a, Get(st.accounts, a).nonce))
  {
    hide *;
    var confirmed, txs := TxSet(AllTxs(connected)), AllTxs(disconnected);
    var cleared := st.(mempool := st.mempool - confirmed);
    ChainInvIgnoresPool(p, st, cleared.mempool);
    PoolSubset(p, st.mempool, cleared.mempool);
    ContinuesParts(cleared, txs, confirmed, a);
    var nonce := Get(cleared.accounts, a).nonce;
    var back := Outstanding(txs, a, nonce);
    BackCosts(p, txs, a, nonce);
    var readmitted := Readmit(p, cleared, txs, confirmed, now);
    RestoreIs(p, st, disconnected, connected, now);
    ReadmitKeepsPool(p, cleared, txs, confirmed, now);
    ReadmitSame(p, cleared, txs, confirmed, now);
    SpendableSame(p, cleared, readmitted, a);
    ChainInvIgnoresPool(p, cleared, readmitted.mempool);
    SpendableNonNegative(p, readmitted, a);
    PrunedQueue(p, readmitted, a);
    KeptIs(p, readmitted, a);
    if Queue(cleared.mempool, a) != [] {
      FirstStaysOut(p, cleared, txs, confirmed, now, a);
      PoolIsUnique(p, readmitted.mempool);
      QueueMembers(readmitted.mempool, a);
      KeepNothing(Queue(readmitted.mempool, a), nonce, Spendable(p, cleared, a), false);
    } else if Affordable(p, cleared, txs, a) {
      AffordableParts(p, cleared, txs, a);
      AllReturn(p, cleared, txs, confirmed, now, a, txs);
      QueueOkIs(back, nonce, Spendable(p, cleared, a));
      KeepAll(back, nonce, Spendable(p, cleared, a));
    }
  }

  lemma QueueOkIs(q: seq<Tx>, nonce: int, spendable: int)
    requires (forall i :: 0 <= i < |q| ==> q[i].nonce == nonce + 1 + i) && CostSum(q) <= spendable
    ensures QueueOk(q, nonce, spendable)
  {
    hide CostSum;
  }

  lemma RestoreIs(p: Params, st: Store, disconnected: seq<Block>, connected: seq<Block>, now: int)
    requires st.rows != []
    ensures
      var confirmed := TxSet(AllTxs(connected));
      var readmitted := Readmit(p, st.(mempool := st.mempool - confirmed), AllTxs(disconnected), confirmed, now);
      readmitted.rows != [] && Restore(p, st, disconnected, connected, now) == Prune(p, readmitted)
  {
    hide Prune, AllTxs, Admit;
  }

  lemma ReadmitSame(p: Params, st: Store, txs: seq<Tx>, skip: set<Tx>, now: int)
    requires st.rows != []
    ensures Readmit(p, st, txs, skip, now) == st.(mempool := Readmit(p, st, txs, skip, now).mempool)
    ensures Readmit(p, st, txs, skip, now).rows != []
  {
    hide Admit;
  }

  lemma BackCosts(p: Params, txs: seq<Tx>, a: Address, nonce: int)
    requires ValidParams(p) && forall i :: 0 <= i < |txs| ==> WellFormedTx(p, txs[i])
    ensures PositiveCosts(Outstanding(txs, a, nonce))
  {
    var back := Outstanding(txs, a, nonce);
    forall i | 0 <= i < |back|
      ensures back[i].Cost() > 0
    {
      assert back[i] in back && back[i] in txs;
    }
  }

  // ---------------------------------------------------------------- with nothing returning

  /** r is as much of q from the front as the funds allow. */
  ghost predicate AffordablePart(r: seq<Tx>, q: seq<Tx>, funds: int) {
    r <= q && CostSum(r) <= funds && (r == q || CostSum(r) + q[|r|].Cost() > funds)
  }

  /** Of a queue in sequence pruning keeps as much from the front as is affordable. */
  lemma {:induction false} KeepAffordable(q: seq<Tx>, nonce: int, funds: int)
    requires (forall i :: 0 <= i < |q| ==> q[i].nonce == nonce + 1 + i) && PositiveCosts(q) && funds >= 0
    ensures AffordablePart(Keep(q, nonce, funds, false), q, funds)
  {
    if q != [] {
      var t, rest := q[0], q[1..];
      assert q == [t] + rest;
      assert forall i :: 0 <= i < |rest| ==> rest[i] == q[i + 1];
      if t.Cost() > funds {
        KeepNothing(rest, nonce, funds, true);
        assert Keep(q, nonce, funds, false) == [];
      } else {
        KeepAffordable(rest, nonce + 1, funds - t.Cost());
        CostSumFront(t, Keep(rest, nonce + 1, funds - t.Cost(), false));
      }
    }
  }

  /** Transactions whose nonce has passed are dropped; one among them that costs more than the funds takes
      everything after it along. */
  lemma {:induction false} KeepPassed(passed: seq<Tx>, q: seq<Tx>, nonce: int, funds: int)
    requires forall i :: 0 <= i < |passed| ==> passed[i].nonce <= nonce
    ensures Keep(passed + q, nonce, funds, false)
         == if exists t :: t in passed && t.Cost() > funds then [] else Keep(q, nonce, funds, false)
  {
    if passed == [] {
      assert passed + q == q;
    } else {
      var t, rest := passed[0], passed[1..];
      assert passed == [t] + rest && passed + q == [t] + (rest + q);
      assert (passed + q)[0] == t && (passed + q)[1..] == rest + q;
      assert forall i :: 0 <= i < |rest| ==> rest[i] == passed[i + 1];
      assert forall u :: u in passed <==> u == t || u in rest;
      if t.Cost() > funds {
        KeepNothing(rest + q, nonce, funds, true);
      } else {
        KeepPassed(rest, q, nonce, funds);
      }
    }
  }

  /** A list without the given transactions. */
  function Except(q: seq<Tx>, skip: set<Tx>): (r: seq<Tx>)
    ensures forall t :: t in r <==> t in q && t !in skip
  {
    if q == [] then [] else if q[0] in skip then Except(q[1..], skip) else [q[0]] + Except(q[1..], skip)
  }

  ghost predicate Ascends(q: seq<Tx>) {
    forall i, j :: 0 <= i < j < |q| ==> q[i].nonce < q[j].nonce
  }

  lemma {:induction false} ExceptAscends(q: seq<Tx>, skip: set<Tx>)
    requires Ascends(q)
    ensures Ascends(Except(q, skip))
  {
    if q != [] {
      var rest := q[1..];
      assert forall i :: 0 <= i < |rest| ==> rest[i] == q[i + 1];
      ExceptAscends(rest, skip);
      if q[0] !in skip {
        var kept := Except(rest, skip);
        forall i | 0 <= i < |kept|
          ensures q[0].nonce < kept[i].nonce
        {
          assert kept[i] in kept && kept[i] in rest;
        }
        AscendsFront(q[0], kept);
      }
    }
  }

  lemma AscendsFront(t: Tx, q: seq<Tx>)
    requires Ascends(q) && forall i :: 0 <= i < |q| ==> t.nonce < q[i].nonce
    ensures Ascends([t] + q)
  {}

  lemma {:induction false} ExceptSplit(q: seq<Tx>, skip: set<Tx>, k: nat)
    requires k <= |q| && forall i :: k <= i < |q| ==> q[i] !in skip
    ensures Except(q, skip) == Except(q[..k], skip) + q[k..]
  {
    if k == 0 {
      assert q[..0] == [] && q[0..] == q;
      ExceptNone(q, skip);
    } else {
      var rest := q[1..];
      assert q[..k][1..] == rest[..k - 1] && q[k..] == rest[k - 1..] && q[..k][0] == q[0];
      ExceptSplit(rest, skip, k - 1);
    }
  }

  lemma {:induction false} ExceptNone(q: seq<Tx>, skip: set<Tx>)
    requires forall i :: 0 <= i < |q| ==> q[i] !in skip
    ensures Except(q, skip) == q
  {
    if q != [] {
      assert q == [q[0]] + q[1..];
      ExceptNone(q[1..], skip);
    }
  }

  /** Taking transactions out of the pool takes them out of the queue. */
  lemma ClearedQueue(p: Params, pool: set<Tx>, skip: set<Tx>, a: Address)
    requires PoolOk(p, pool)
    ensures Queue(pool - skip, a) == Except(Queue(pool, a), skip)
  {
    hide Queue, PoolOk, Except;
    PoolIsUnique(p, pool);
    PoolSubset(p, pool, pool - skip);
    PoolIsUnique(p, pool - skip);
    QueueListing(pool, a);
    ExceptAscends(Queue(pool, a), skip);
    QueueIs(pool - skip, a, Except(Queue(pool, a), skip));
  }

  /** A sender with nothing outstanding in the list gets nothing back. */
  lemma {:induction false} NoneReturns(p: Params, st: Store, txs: seq<Tx>, skip: set<Tx>, now: int, a: Address)
    requires ValidParams(p) && st.rows != [] && PoolOk(p, st.mempool)
    requires forall i :: 0 <= i < |txs| ==> WellFormedTx(p, txs[i])
    requires Outstanding(txs, a, Get(st.accounts, a).nonce) == []
    ensures
      var after := Readmit(p, st, txs, skip, now);
      PoolOk(p, after.mempool) && Queue(after.mempool, a) == Queue(st.mempool, a)
  {
    hide *;
    ReadmitKeepsPool(p, st, txs, skip, now);
    ReadmitStep(p, st, txs, skip, now);
    OutstandingStep(txs, a, Get(st.accounts, a).nonce);
    if txs != [] {
      var n := |txs| - 1;
      var before, tx := Readmit(p, st, txs[..n], skip, now), txs[n];
      NoneReturns(p, st, txs[..n], skip, now, a);
      if tx !in skip && Admit(p, before, tx, now, false).Ok? {
        AdmitParts(p, before, tx, now, false);
        SpendableSame(p, st, before, a);
        if tx.sender != a {
          OtherQueue(before.mempool, tx, a);
        }
      }
    }
  }

  /** What such a sender has pending after the restore step: its queue without what the new branch confirmed,
      pruned. */
  lemma RestoreKeeps(p: Params, st: Store, disconnected: seq<Block>, connected: seq<Block>, now: int, a: Address)
    requires ValidParams(p) && ChainInv(p, st) && st.rows != [] && PoolOk(p, st.mempool)
    requires forall i :: 0 <= i < |AllTxs(disconnected)| ==> WellFormedTx(p, AllTxs(disconnected)[i])
    requires Outstanding(AllTxs(disconnected), a, Get(st.accounts, a).nonce) == []
    ensures
      Queue(Restore(p, st, disconnected, connected, now).mempool, a)
        == Keep(Except(Queue(st.mempool, a), TxSet(AllTxs(connected))), Get(st.accounts, a).nonce, Spendable(p, st, a), false)
    ensures Spendable(p, st, a) >= 0
  {
    hide *;
    var confirmed, txs := TxSet(AllTxs(connected)), AllTxs(disconnected);
    var cleared := st.(mempool := st.mempool - confirmed);
    ChainInvIgnoresPool(p, st, cleared.mempool);
    PoolSubset(p, st.mempool, cleared.mempool);
    ClearedQueue(p, st.mempool, confirmed, a);
    NoneReturns(p, cleared, txs, confirmed, now, a);
    var readmitted := Readmit(p, cleared, txs, confirmed, now);
    RestoreIs(p, st, disconnected, connected, now);
    ReadmitSame(p, cleared, txs, confirmed, now);
    SpendableSame(p, cleared, readmitted, a);
    SpendableSame(p, st, cleared, a);
    ChainInvIgnoresPool(p, cleared, readmitted.mempool);
    SpendableNonNegative(p, readmitted, a);
    PrunedQueue(p, readmitted, a);
    KeptIs(p, readmitted, a);
  }
}
