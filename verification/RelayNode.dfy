/** The relay object: transactions received from peers, held while an earlier nonce is on its way. */
module RelayNode {
  import opened Types
  import opened Ledger
  import opened MempoolFacts
  import opened NodeFacts
  import opened Runs
  import opened FuturePool
  import opened Machine
  import F = FuturePool

  class TxRelay {
    const limits: Limits
    const chain: Blockchain
    var futureTxs: seq<Parked>
    var seenTx: seq<Tx>

    ghost function View(): Relay
      reads this, chain, chain.storage
    {
      Relay(chain.View(), futureTxs, seenTx)
    }

    /** The held transactions form a dictionary keyed by id, bounded as a whole and for every sender. */
    ghost predicate Valid()
      reads this, chain, chain.storage
    {
      && chain.Valid() && chain.View().store.rows != []
      && Unique(futureTxs) && |futureTxs| <= limits.futureMax && SenderBounded(limits, futureTxs)
    }

    constructor (limits: Limits, chain: Blockchain)
      requires chain.Valid()
      ensures Valid() && View() == Relay(chain.View(), [], []) && this.limits == limits && this.chain == chain
    {
      this.limits, this.chain := limits, chain;
      futureTxs, seenTx := [], [];
      new;
      ValidIs(chain);
      InvParts(chain.params, chain.View());
    }

    /** The next nonce of a sender: confirmed plus pending plus one. */
    method ComputeNextNonce(a: Address) returns (next: int)
      requires chain.Valid()
      ensures next == NextNonce(chain.View().store, a)
    {
      ValidIs(chain);
      hide *;
      StateParts(chain, chain.View());
      InvParts(chain.params, chain.View());
      MemPool(chain.params, chain.storage.View());
      ViewParts(chain.storage, chain.storage.View());
      PoolIsUnique(chain.params, chain.storage.mempool);
      var pending := chain.storage.MempoolForSender(a);
      NextNonceIs(chain.storage.View(), a);
      next := Get(chain.storage.accounts, a).nonce + |pending| + 1;
    }

    /** Keeps an early transaction back. */
    method ParkFutureTx(tx: Tx, at: real) returns (held: bool)
      requires Valid()
      modifies `futureTxs
      ensures (View(), held) == Park(chain.params, limits, old(View()), tx, at)
    {
      hide Unexpired, CountOf, Put, NextNonce, Blockchain.Valid, SenderBounded;
      if !chain.params.addressOk(tx.sender) {
        return false;
      }
      var expected := ComputeNextNonce(tx.sender);
      if tx.nonce <= expected {
        return false;
      }
      futureTxs := Unexpired(futureTxs, at, limits.futureTtl);
      if CountOf(futureTxs, tx.sender) >= limits.futurePerSender {
        return false;
      }
      futureTxs := Put(futureTxs, at, tx);
      ghost var all := futureTxs;
      while |futureTxs| > limits.futureMax
        invariant |futureTxs| <= |all| && futureTxs == all[|all| - |futureTxs|..]
        invariant |futureTxs| >= Min(|all|, limits.futureMax)
      {
        futureTxs := futureTxs[1..];
      }
      return true;
    }

    /** One pass over the held transactions in nonce order. */
    method RetryHeld(order: seq<Tx>, now: int) returns (progressed: bool)
      requires Valid()
      modifies `futureTxs, `seenTx, chain.storage
      ensures chain.Valid() && old(View()).chain.store.rows != []
      ensures (View(), progressed) == F.RetryAll(chain.params, limits, old(View()), order, now)
    {
      hide Blockchain.Valid, Blockchain.View, SenderBounded, Retry, NextNonce, R.SubmitTransaction, SeenAdd, Unpark, Unique;
      ghost var r := View();
      progressed := false;
      assert order[..0] == [];
      for i := 0 to |order|
        invariant chain.Valid() && View().chain.store.rows != []
        invariant (View(), progressed) == F.RetryAll(chain.params, limits, r, order[..i], now)
      {
        assert order[..i + 1][..i] == order[..i];
        ghost var before := View();
        RetryUnfold(chain.params, limits, before, order[i], now);
        var tx := order[i];
        var refusal := chain.SubmitTransaction(tx, now);
        if refusal.None? {
          futureTxs := Unpark(futureTxs, tx);
          seenTx := SeenAdd(limits, seenTx, tx);
          progressed := true;
        } else {
          var next := ComputeNextNonce(tx.sender);
          if refusal != Some(BadNonce) || next >= tx.nonce {
            futureTxs := Unpark(futureTxs, tx);
          }
        }
      }
      assert order[..|order|] == order;
    }

    /** Passes over the held transactions until one of them changes nothing. */
    method ReleaseFutureTxs(now: int)
      requires Valid()
      modifies `futureTxs, `seenTx, chain.storage
      ensures Valid() && old(View()).chain.store.rows != [] && Unique(old(View()).parked)
      ensures View() == F.Release(chain.params, limits, old(View()), now)
    {
      hide Blockchain.Valid, Blockchain.View, F.RetryAll, RetryOrder, Unique, SenderBounded;
      ghost var r := View();
      var progressed := true;
      while progressed && futureTxs != []
        invariant Valid()
        invariant progressed ==> F.Release(chain.params, limits, View(), now) == F.Release(chain.params, limits, r, now)
        invariant !progressed ==> View() == F.Release(chain.params, limits, r, now)
        decreases |futureTxs|, progressed
      {
        ghost var before := View();
        PassBounded(chain.params, limits, before, now);
        progressed := RetryHeld(RetryOrder(futureTxs), now);
      }
    }

    /** A transaction received from a peer. */
    method OnTx(tx: Tx, now: int, at: real)
      requires Valid()
      modifies `futureTxs, `seenTx, chain.storage
      ensures Valid() && old(View()).chain.store.rows != [] && Unique(old(View()).parked)
      ensures View() == F.OnTx(chain.params, limits, old(View()), tx, now, at)
    {
      hide Blockchain.Valid, Blockchain.View, F.Release, F.Park, SeenAdd, Unique, SenderBounded;
      OnTxKeeps(chain.params, limits, View(), tx, now, at);
      if tx in seenTx {
        return;
      }
      var refusal := chain.SubmitTransaction(tx, now);
      if refusal.None? {
        seenTx := SeenAdd(limits, seenTx, tx);
        ReleaseFutureTxs(now);
        return;
      }
      if Benign(refusal.value) {
        seenTx := SeenAdd(limits, seenTx, tx);
      }
      if refusal.value == BadNonce {
        var held := ParkFutureTx(tx, at);
      }
    }
  }

  lemma RetryUnfold(p: Params, limits: Limits, r: Relay, tx: Tx, now: int)
    requires r.chain.store.rows != []
    ensures
      var submitted := R.SubmitTransaction(p, r.chain, tx, now);
      Retry(p, limits, r, tx, now) ==
        if submitted.1.None? then (Relay(submitted.0, Unpark(r.parked, tx), SeenAdd(limits, r.seen, tx)), true)
        else if submitted.1 == Some(BadNonce) && NextNonce(r.chain.store, tx.sender) < tx.nonce then (r, false)
        else (r.(parked := Unpark(r.parked, tx)), false)
  {
    hide R.SubmitTransaction, NextNonce;
  }
}
