/** The block template: a greedy, fee-ordered, multi-pass selection from the mempool, its completeness, and
    that the node accepts what it proposed. */
module Template {
  import opened Types
  import opened Ledger
  import opened Chain
  import opened ChainFacts
  import opened Tables
  import opened TableFacts
  import opened Mempool
  import opened MempoolFacts
  import opened Context
  import opened Priority

  // ---------------------------------------------------------------- what a selection is

  /** The transactions of one sender, in the order listed. */
  function FromSender(txs: seq<Tx>, a: Address): (r: seq<Tx>)
    ensures forall t :: t in r <==> t in txs && t.sender == a
  {
    if txs == [] then []
    else
      var before, last := FromSender(txs[..|txs| - 1], a), txs[|txs| - 1];
      if last.sender == a then before + [last] else before
  }

  lemma {:induction false} FromSenderCount(txs: seq<Tx>, a: Address)
    ensures |FromSender(txs, a)| == SentIn(txs, a)
  {
    if txs != [] {
      FromSenderCount(txs[..|txs| - 1], a);
    }
  }

  /** Every sender is served in nonce order, from the front of its queue. */
  ghost predicate PerSender(pool: set<Tx>, txs: seq<Tx>) {
    forall a: Address :: FromSender(txs, a) <= Queue(pool, a)
  }

  /** Distinct pending transactions that can be applied in this order on the current state. */
  ghost predicate Selection(p: Params, st: Store, txs: seq<Tx>)
    requires st.rows != []
  {
    && Distinct(txs) && (forall t :: t in txs ==> t in st.mempool)
    && CheckTxs(st.accounts, NextImmature(p, st), txs, {}).None?
    && PerSender(st.mempool, txs)
  }

  lemma SelectionParts(p: Params, st: Store, txs: seq<Tx>)
    requires st.rows != []
    ensures Selection(p, st, txs) <==>
      && Distinct(txs) && (forall t :: t in txs ==> t in st.mempool)
      && CheckTxs(st.accounts, NextImmature(p, st), txs, {}).None?
      && PerSender(st.mempool, txs)
  {
    hide Distinct, CheckTxs, PerSender, NextImmature;
  }

  // ---------------------------------------------------------------- sums over a queue

  lemma {:induction false} CostSumSplit(a: seq<Tx>, b: seq<Tx>)
    ensures CostSum(a + b) == CostSum(a) + CostSum(b)
  {
    if b == [] {
      assert a + b == a;
    } else {
      assert (a + b)[..|a + b| - 1] == a + b[..|b| - 1];
      CostSumSplit(a, b[..|b| - 1]);
    }
  }

  /** A sender's balance falls by at most what it spent itself. */
  lemma {:induction false} SpentBound(m: Accounts, txs: seq<Tx>, a: Address)
    requires forall i :: 0 <= i < |txs| ==> txs[i].amount >= 0
    ensures Get(Transfers(m, txs), a).balance >= Get(m, a).balance - CostSum(FromSender(txs, a))
  {
    if txs != [] {
      var before, last := txs[..|txs| - 1], txs[|txs| - 1];
      SpentBound(m, before, a);
      var sent := FromSender(before, a);
      assert (sent + [last])[..|sent|] == sent;
      TransferReads(Transfers(m, before), last, a);
    }
  }

  lemma TransferReads(m: Accounts, tx: Tx, a: Address)
    requires tx.amount >= 0
    ensures Get(Transfer(m, tx), a).balance >= Get(m, a).balance - (if tx.sender == a then tx.Cost() else 0)
  {}

  lemma QueuePrefixCost(q: seq<Tx>, k: nat)
    requires k < |q| && PositiveCosts(q)
    ensures CostSum(q[..k]) + q[k].Cost() <= CostSum(q)
  {
    hide CostSum;
    assert q[..k] + q[k..] == q && [q[k]] + q[k + 1..] == q[k..];
    CostSumSplit(q[..k], q[k..]);
    CostSumFront(q[k], q[k + 1..]);
    var rest := q[k + 1..];
    forall i | 0 <= i < |rest|
      ensures rest[i].Cost() > 0
    {
      assert rest[i] == q[k + 1 + i];
    }
    CostSumNonNegative(rest);
  }

  // ---------------------------------------------------------------- progress

  lemma PoolAmounts(p: Params, st: Store, txs: seq<Tx>)
    requires st.rows != [] && MemInv(p, st) && forall t :: t in txs ==> t in st.mempool
    ensures forall i :: 0 <= i < |txs| ==> WellFormedTx(p, txs[i]) && txs[i].amount >= 0
  {
    hide CostSum, Immature, Queue;
    MemInvAt(p, st, GENESIS_MINER);
  }

  /** Where the next transaction of a sender stands: the account after the selection has exactly the nonce
      and at least the funds its queue position needs. */
  lemma SenderState(p: Params, st: Store, txs: seq<Tx>, a: Address)
    requires ValidParams(p) && st.rows != [] && MemInv(p, st) && Selection(p, st, txs)
    ensures
      var k, q, m := |FromSender(txs, a)|, Queue(st.mempool, a), Transfers(st.accounts, txs);
      && k <= |q| && FromSender(txs, a) == q[..k]
      && (forall t :: t in q <==> t in st.mempool && t.sender == a)
      && (forall i :: 0 <= i < |q| ==> q[i].nonce == Get(st.accounts, a).nonce + 1 + i)
      && Get(m, a).nonce == Get(st.accounts, a).nonce + k
      && Get(m, a).balance >= Get(st.accounts, a).balance - CostSum(q[..k])
      && CostSum(q) <= Get(st.accounts, a).balance - AmountOf(NextImmature(p, st), a)
      && PositiveCosts(q)
  {
    hide WellFormedTx, NextImmature, CostSum, CheckTxs;
    SelectionParts(p, st, txs);
    MemInvAt(p, st, a);
    QueueListing(st.mempool, a);
    QueueCosts(p, st.mempool, a);
    FromSenderCount(txs, a);
    NonceCounts(st.accounts, NextImmature(p, st), txs, {}, a);
    PoolAmounts(p, st, txs);
    SpentBound(st.accounts, txs, a);
    assert FromSender(txs, a) <= Queue(st.mempool, a);
  }

  /** As long as something is left, some remaining transaction can be applied now. */
  lemma SomeApplicable(p: Params, st: Store, txs: seq<Tx>, t: Tx) returns (u: Tx)
    requires ValidParams(p) && st.rows != [] && MemInv(p, st) && Selection(p, st, txs)
    requires t in st.mempool && t !in txs
    ensures u in st.mempool && u !in txs && CheckTx(Transfers(st.accounts, txs), NextImmature(p, st), u).None?
  {
    hide Selection, MemInv, NextImmature, CostSum, Queue, Transfers;
    var a := t.sender;
    SenderState(p, st, txs, a);
    var k, q := |FromSender(txs, a)|, Queue(st.mempool, a);
    assert t in q && t !in q[..k];
    QueuePrefixCost(q, k);
    u := q[k];
    assert forall i :: 0 <= i < k ==> q[i].nonce < u.nonce;
    assert u !in q[..k];
  }

  /** Applying an applicable remaining transaction extends the selection. */
  lemma SelectStep(p: Params, st: Store, txs: seq<Tx>, tx: Tx)
    requires ValidParams(p) && st.rows != [] && MemInv(p, st) && Selection(p, st, txs)
    requires tx in st.mempool && tx !in txs
    requires CheckTx(Transfers(st.accounts, txs), NextImmature(p, st), tx).None?
    ensures Selection(p, st, txs + [tx])
  {
    hide MemInv, NextImmature, CostSum, Queue, Transfers, Selection;
    var all := txs + [tx];
    assert all[..|txs|] == txs;
    SelectionParts(p, st, txs);
    forall a: Address
      ensures FromSender(all, a) <= Queue(st.mempool, a)
    {
      SenderState(p, st, txs, a);
      if a == tx.sender {
        var k, q := |FromSender(txs, a)|, Queue(st.mempool, a);
        assert tx in q;
        var i :| 0 <= i < |q| && q[i] == tx;
        assert i == k;
      }
    }
    SelectionParts(p, st, all);
  }

  // ---------------------------------------------------------------- the selection loop

  /** The mempool by descending fee, then by timestamp. Which of two equals comes first is left open. */
  ghost predicate ByPriority(listing: seq<Tx>, pool: set<Tx>) {
    && (forall t :: t in listing <==> t in pool) && Distinct(listing)
    && forall i, j :: 0 <= i < j < |listing| ==>
         listing[i].fee > listing[j].fee
         || (listing[i].fee == listing[j].fee && listing[i].timestamp <= listing[j].timestamp)
  }

  /** Taken in the order of rounds and of a listing by fee. */
  ghost predicate ByFees(pool: set<Tx>, txs: seq<Tx>) {
    exists listing :: ByPriority(listing, pool) && Prioritized(listing, pool, txs)
  }

  /** A sender's first pending transaction is left out of a selection only in favour of higher fees, or equal fees
      and no later timestamps. */
  lemma HigherFeesFirst(pool: set<Tx>, txs: seq<Tx>, t: Tx, u: Tx)
    requires ByFees(pool, txs) && t in pool && t !in txs && u in txs && u in pool
    requires Queue(pool, t.sender) != [] && Queue(pool, t.sender)[0] == t
    ensures u.fee > t.fee || (u.fee == t.fee && u.timestamp <= t.timestamp)
  {
    hide Queue, Prioritized, PlaceOf;
    var listing :| ByPriority(listing, pool) && Prioritized(listing, pool, txs);
    assert t in listing && u in listing;
    if PlaceOf(listing, t) < PlaceOf(listing, u) {
      FrontFirst(listing, pool, txs, t, u);
    }
  }

  /** When no sender has more than one transaction pending, exactly the first of the listing by fee are selected, in
      that order: whatever is left out pays no more than anything selected. */
  lemma SinglesByFee(pool: set<Tx>, txs: seq<Tx>) returns (listing: seq<Tx>)
    requires ByFees(pool, txs) && (forall t :: t in txs ==> t in pool) && |txs| <= |pool|
    requires forall t :: t in pool ==> Queue(pool, t.sender) == [t]
    ensures ByPriority(listing, pool) && |txs| <= |listing| && txs == listing[..|txs|]
  {
    hide Queue, Prioritized;
    listing :| ByPriority(listing, pool) && Prioritized(listing, pool, txs);
    ListingSize(listing, pool);
    SinglesInOrder(listing, pool, txs);
  }

  lemma {:induction false} ListingSize(listing: seq<Tx>, pool: set<Tx>)
    requires (forall t :: t in listing <==> t in pool) && Distinct(listing)
    ensures |listing| == |pool|
  {
    if listing == [] {
      assert pool == {};
    } else {
      var n := |listing| - 1;
      assert listing[n] !in listing[..n];
      ListingSize(listing[..n], pool - {listing[n]});
    }
  }

  /** The transactions not selected yet: exactly once each in the part still to look at. */
  ghost predicate Left(listing: seq<Tx>, selected: seq<Tx>, left: seq<Tx>) {
    && (forall t :: t in left <==> t in listing && t !in selected) && Distinct(left)
    && |left| + |selected| == |listing|
  }

  /** None of these can be applied after the selection. */
  ghost predicate NoneApplies(p: Params, st: Store, selected: seq<Tx>, txs: seq<Tx>)
    requires st.rows != []
  {
    forall t :: t in txs ==> CheckTx(Transfers(st.accounts, selected), NextImmature(p, st), t).Some?
  }

  lemma LeftTake(listing: seq<Tx>, selected: seq<Tx>, deferred: seq<Tx>, remaining: seq<Tx>, i: nat)
    requires i < |remaining| && Left(listing, selected, deferred + remaining[i..])
    ensures remaining[i] in listing && remaining[i] !in selected
    ensures Left(listing, selected + [remaining[i]], deferred + remaining[i + 1..])
    ensures deferred + [remaining[i]] + remaining[i + 1..] == deferred + remaining[i..]
  {
    var all, rest := deferred + remaining[i..], deferred + remaining[i + 1..];
    assert all[|deferred|] == remaining[i];
    assert remaining[i..] == [remaining[i]] + remaining[i + 1..];
    assert forall j :: 0 <= j < |deferred| ==> rest[j] == all[j];
    assert forall j :: |deferred| <= j < |rest| ==> rest[j] == all[j + 1];
    assert forall j :: 0 <= j < |all| && j != |deferred| ==> all[j] == rest[if j < |deferred| then j else j - 1];
    assert remaining[i] in all;
    forall t
      ensures t in rest <==> t in listing && t !in selected + [remaining[i]]
    {
      if t in rest {
        var j :| 0 <= j < |rest| && rest[j] == t;
      }
      if t in all && t != remaining[i] {
        var j :| 0 <= j < |all| && all[j] == t;
        assert rest[if j < |deferred| then j else j - 1] == t;
      }
    }
  }

  lemma QueueSelected(p: Params, st: Store, listing: seq<Tx>, selected: seq<Tx>, a: Address, q: seq<Tx>, m: nat)
    requires ValidParams(p) && st.rows != [] && MemInv(p, st) && Selection(p, st, selected)
    requires q == Queue(st.mempool, a) && m == |FromSender(selected, a)| && forall t :: t in listing <==> t in st.mempool
    ensures m <= |q| && Distinct(q) && (forall t :: t in q ==> t in listing)
    ensures forall i :: 0 <= i < |q| ==> (q[i] in selected <==> i < m)
    ensures forall i :: 0 <= i < |q| ==> Round(listing, st.mempool, q[i]) == RoundAt(listing, q, i)
  {
    hide MemInv, Selection, NextImmature, CostSum, Queue, Transfers, Round, RoundAt;
    SenderState(p, st, selected, a);
    forall i | 0 <= i < |q|
      ensures q[i] in selected <==> i < m
    {
      if q[i] in selected {
        assert q[i] in FromSender(selected, a);
        var j :| 0 <= j < m && q[..m][j] == q[i];
      }
      if i < m {
        assert q[..m][i] in FromSender(selected, a);
      }
    }
    forall i | 0 <= i < |q|
      ensures Round(listing, st.mempool, q[i]) == RoundAt(listing, q, i)
    {
      assert q[i] in q;
      RoundIs(listing, st.mempool, q, i);
    }
  }

  /** The transaction looked at can be applied exactly when it belongs to this round. */
  lemma AppliesInTurn(p: Params, st: Store, listing: seq<Tx>, round: nat, selected: seq<Tx>, rest: seq<Tx>)
    requires ValidParams(p) && st.rows != [] && MemInv(p, st) && Selection(p, st, selected)
    requires (forall t :: t in listing <==> t in st.mempool) && rest != [] && Listed(listing, rest) && rest[0] !in selected
    requires Progressed(listing, st.mempool, round, selected, rest)
    ensures CheckTx(Transfers(st.accounts, selected), NextImmature(p, st), rest[0]).None?
       <==> Round(listing, st.mempool, rest[0]) == round
  {
    hide MemInv, Selection, NextImmature, CostSum, Queue, Transfers, Round, RoundAt, Progressed, PlaceOf;
    var tx, a := rest[0], rest[0].sender;
    SenderState(p, st, selected, a);
    var q, m := Queue(st.mempool, a), |FromSender(selected, a)|;
    QueueSelected(p, st, listing, selected, a, q, m);
    assert tx in rest && tx in q;
    var k :| 0 <= k < |q| && q[k] == tx;
    TurnComes(listing, st.mempool, round, selected, rest, q, k, m);
    QueuePrefixCost(q, k);
  }

  /** What one pass does with the transaction it looks at. */
  lemma PassStep(p: Params, st: Store, listing: seq<Tx>, round: nat, selected: seq<Tx>, deferred: seq<Tx>, rest: seq<Tx>)
    requires ValidParams(p) && st.rows != [] && MemInv(p, st) && Selection(p, st, selected)
    requires (forall t :: t in listing <==> t in st.mempool) && rest != [] && rest[0] !in selected
    requires Listed(listing, deferred + rest) && Progressed(listing, st.mempool, round, selected, rest)
    ensures
      if CheckTx(Transfers(st.accounts, selected), NextImmature(p, st), rest[0]).None?
      then Progressed(listing, st.mempool, round, selected + [rest[0]], rest[1..]) && Listed(listing, deferred + rest[1..])
      else Progressed(listing, st.mempool, round, selected, rest[1..])
  {
    hide MemInv, Selection, NextImmature, CheckTx, Transfers, Round, Progressed, Listed;
    ListedParts(listing, deferred, rest);
    AppliesInTurn(p, st, listing, round, selected, rest);
    if Round(listing, st.mempool, rest[0]) == round {
      ProgressTake(listing, st.mempool, round, selected, rest);
    } else {
      ProgressSkip(listing, st.mempool, round, selected, rest);
    }
  }

  lemma ListedParts(listing: seq<Tx>, deferred: seq<Tx>, rest: seq<Tx>)
    requires Listed(listing, deferred + rest) && rest != []
    ensures Listed(listing, rest) && Listed(listing, deferred + rest[1..])
  {
    hide PlaceOf;
    var all, without := deferred + rest, deferred + rest[1..];
    assert forall i :: 0 <= i < |rest| ==> rest[i] == all[|deferred| + i];
    assert forall i :: 0 <= i < |without| ==> without[i] == all[if i < |deferred| then i else i + 1];
  }

  /** One pass over the remaining transactions; what could not be applied is deferred to the next. */
  method Pass(p: Params, st: Store, ctx: TxContext, chosen: seq<Tx>, remaining: seq<Tx>, ghost listing: seq<Tx>, ghost round: nat)
    returns (selected: seq<Tx>, deferred: seq<Tx>, progress: bool)
    requires ValidParams(p) && st.rows != [] && MemInv(p, st) && Selection(p, st, chosen)
    requires (forall t :: t in listing <==> t in st.mempool) && Left(listing, chosen, remaining)
    requires Progressed(listing, st.mempool, round, chosen, remaining) && Listed(listing, remaining)
    requires |chosen| < p.maxRegularTxs
    requires ctx.Valid() && ctx.immature == NextImmature(p, st)
    requires Agree(ctx.View(), Transfers(st.accounts, chosen)) && ctx.fees == FeeSum(chosen)
    modifies ctx
    ensures ctx.Valid() && Agree(ctx.View(), Transfers(st.accounts, selected)) && ctx.fees == FeeSum(selected)
    ensures Selection(p, st, selected) && |selected| <= p.maxRegularTxs && |chosen| <= |selected| <= |listing|
    ensures |selected| < p.maxRegularTxs ==>
      && Left(listing, selected, deferred) && Listed(listing, deferred)
      && Progressed(listing, st.mempool, round + 1, selected, deferred)
    ensures Prioritized(listing, st.mempool, selected)
    ensures !progress ==> selected == chosen && NoneApplies(p, st, selected, deferred) && |selected| < p.maxRegularTxs
    ensures progress ==> |selected| > |chosen|
  {
    hide Selection, Left, MemInv, CheckTx, Transfers, FeeSum, NextImmature, Progressed, Listed, Prioritized;
    selected, deferred, progress := chosen, [], false;
    assert [] + remaining[0..] == remaining;
    LeftSize(listing, chosen, remaining);
    var i := 0;
    while i < |remaining|
      invariant 0 <= i <= |remaining|
      invariant ctx.Valid() && Agree(ctx.View(), Transfers(st.accounts, selected)) && ctx.fees == FeeSum(selected)
      invariant Selection(p, st, selected) && |selected| <= p.maxRegularTxs && |chosen| <= |selected| <= |listing|
      invariant Left(listing, selected, deferred + remaining[i..]) && Listed(listing, deferred + remaining[i..])
      invariant Progressed(listing, st.mempool, round, selected, remaining[i..])
      invariant !progress ==> selected == chosen && NoneApplies(p, st, selected, deferred)
      invariant progress ==> |selected| > |chosen|
    {
      if |selected| >= p.maxRegularTxs {
        ProgressPriority(listing, st.mempool, round, selected, remaining[i..]);
        return;
      }
      var tx := remaining[i];
      LeftTake(listing, selected, deferred, remaining, i);
      assert remaining[i..][1..] == remaining[i + 1..];
      PassStep(p, st, listing, round, selected, deferred, remaining[i..]);
      ghost var view := ctx.View();
      CheckAgrees(view, Transfers(st.accounts, selected), ctx.immature, tx);
      var refusal := ctx.Apply(tx);
      if refusal.Some? {
        deferred := deferred + [tx];
        AgreeChain(ctx.View(), view, Transfers(st.accounts, selected));
      } else {
        SelectStep(p, st, selected, tx);
        TransferAgrees(view, Transfers(st.accounts, selected), tx);
        TransfersAppend(st.accounts, selected, tx);
        selected := selected + [tx];
        LeftSize(listing, selected, deferred + remaining[i + 1..]);
        progress := true;
      }
      i := i + 1;
    }
    assert remaining[i..] == [] && deferred + remaining[i..] == deferred;
    ProgressPriority(listing, st.mempool, round, selected, []);
    LeftMembers(listing, selected, deferred);
    ProgressRound(listing, st.mempool, round, selected, deferred);
  }

  lemma LeftMembers(listing: seq<Tx>, selected: seq<Tx>, left: seq<Tx>)
    requires Left(listing, selected, left)
    ensures forall t :: t in left <==> t in listing && t !in selected
  {
    hide Distinct;
  }

  lemma LeftSize(listing: seq<Tx>, selected: seq<Tx>, left: seq<Tx>)
    requires Left(listing, selected, left)
    ensures |left| + |selected| == |listing|
  {
    hide Distinct;
  }

  lemma TransfersAppend(m: Accounts, txs: seq<Tx>, tx: Tx)
    ensures Transfers(m, txs + [tx]) == Transfer(Transfers(m, txs), tx) && FeeSum(txs + [tx]) == FeeSum(txs) + tx.fee
  {
    assert (txs + [tx])[..|txs|] == txs;
  }

  lemma CheckAgrees(m: Accounts, n: Accounts, immature: map<Address, int>, tx: Tx)
    requires Agree(m, n)
    ensures CheckTx(m, immature, tx) == CheckTx(n, immature, tx)
  {
    ReadAgrees(m, n, tx.sender);
  }

  lemma AgreeChain(m: Accounts, n: Accounts, k: Accounts)
    requires Agree(m, n) && Agree(n, k)
    ensures Agree(m, k)
  {
    AgreeTransitive(m, n, k);
  }

  /** The whole selection: it terminates, leaves nothing out that the count limit allows, and what the limit leaves
      out comes after everything selected in the order of rounds and of the listing. */
  method SelectTxs(p: Params, st: Store, ctx: TxContext, listing: seq<Tx>) returns (selected: seq<Tx>)
    requires ValidParams(p) && st.rows != [] && MemInv(p, st) && ByPriority(listing, st.mempool)
    requires ctx.Valid() && ctx.immature == NextImmature(p, st) && ctx.View() == st.accounts && ctx.fees == 0
    modifies ctx
    ensures Selection(p, st, selected) && |selected| == Min(|st.mempool|, p.maxRegularTxs)
    ensures Prioritized(listing, st.mempool, selected) && ByFees(st.mempool, selected)
    ensures ctx.fees == FeeSum(selected)
  {
    hide MemInv, NextImmature, Round, PlaceOf;
    selected := [];
    var remaining, progress := listing, true;
    ghost var round := 0;
    ListedAll(listing);
    ProgressStart(listing, st.mempool);
    ProgressPriority(listing, st.mempool, 0, [], listing);
    ListingSize(listing, st.mempool);
    SelectionNone(p, st);
    CapPositive(p);
    hide Selection, Left, NoneApplies, Progressed, Listed, Prioritized;
    LeftAll(listing);
    while progress && remaining != [] && |selected| < p.maxRegularTxs
      invariant ctx.Valid() && Agree(ctx.View(), Transfers(st.accounts, selected)) && ctx.fees == FeeSum(selected)
      invariant Selection(p, st, selected) && |selected| <= p.maxRegularTxs && |selected| <= |listing|
      invariant |selected| < p.maxRegularTxs ==>
        && Left(listing, selected, remaining) && Listed(listing, remaining)
        && Progressed(listing, st.mempool, round, selected, remaining)
      invariant Prioritized(listing, st.mempool, selected)
      invariant !progress ==> NoneApplies(p, st, selected, remaining) && |selected| < p.maxRegularTxs
      decreases |listing| - |selected|, progress
    {
      selected, remaining, progress := Pass(p, st, ctx, selected, remaining, listing, round);
      round := round + 1;
    }
    if |selected| < p.maxRegularTxs {
      LeftSize(listing, selected, remaining);
      if remaining != [] {
        LeftFirst(listing, selected, remaining);
        var u := SomeApplicable(p, st, selected, remaining[0]);
        LeftHas(listing, selected, remaining, u);
        NoneAppliesAt(p, st, selected, remaining, u);
        assert false;
      }
    }
    ByFeesIs(listing, st.mempool, selected);
  }

  lemma ByFeesIs(listing: seq<Tx>, pool: set<Tx>, txs: seq<Tx>)
    requires ByPriority(listing, pool) && Prioritized(listing, pool, txs)
    ensures ByFees(pool, txs)
  {
    hide Prioritized;
  }

  lemma NoneAppliesAt(p: Params, st: Store, selected: seq<Tx>, txs: seq<Tx>, u: Tx)
    requires st.rows != [] && NoneApplies(p, st, selected, txs) && u in txs
    ensures CheckTx(Transfers(st.accounts, selected), NextImmature(p, st), u).Some?
  {}

  lemma CapPositive(p: Params)
    requires ValidParams(p)
    ensures p.maxRegularTxs >= 0
  {}

  lemma SelectionNone(p: Params, st: Store)
    requires st.rows != []
    ensures Selection(p, st, [])
  {}

  lemma LeftAll(listing: seq<Tx>)
    requires Distinct(listing)
    ensures Left(listing, [], listing)
  {}

  lemma LeftFirst(listing: seq<Tx>, selected: seq<Tx>, left: seq<Tx>)
    requires Left(listing, selected, left) && left != []
    ensures left[0] in listing && left[0] !in selected
  {
    hide Distinct;
    assert left[0] in left;
  }

  lemma LeftHas(listing: seq<Tx>, selected: seq<Tx>, left: seq<Tx>, u: Tx)
    requires Left(listing, selected, left) && u in listing && u !in selected
    ensures u in left
  {
    hide Distinct;
  }
}
