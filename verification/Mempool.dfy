/** Pending transactions: admission, pruning and restoring after a reorganization. */
module Mempool {
  import opened Types
  import opened Ledger
  import opened Chain
  import opened Tables

  function PendingOf(pool: set<Tx>, a: Address): set<Tx> {
    set t | t in pool && t.sender == a
  }

  lemma LeastNonce(s: set<Tx>)
    requires s != {}
    ensures exists t :: t in s && forall u :: u in s ==> t.nonce <= u.nonce
  {
    var t :| t in s;
    var rest := s - {t};
    assert forall u :: u in s ==> u == t || u in rest;
    if rest == {} {
      assert t in s && forall u :: u in s ==> t.nonce <= u.nonce;
    } else {
      LeastNonce(rest);
      var m :| m in rest && forall u :: u in rest ==> m.nonce <= u.nonce;
      var least := if t.nonce < m.nonce then t else m;
      assert least in s && forall u :: u in s ==> least.nonce <= u.nonce;
    }
  }

  ghost function ByNonce(s: set<Tx>): seq<Tx> {
    if s == {} then []
    else
      LeastNonce(s);
      var t :| t in s && forall u :: u in s ==> t.nonce <= u.nonce;
      [t] + ByNonce(s - {t})
  }

  /** A sender's pending transactions in nonce order. */
  ghost function Queue(pool: set<Tx>, a: Address): seq<Tx> { ByNonce(PendingOf(pool, a)) }

  function NextImmature(p: Params, st: Store): map<Address, int>
    requires st.rows != []
  {
    Immature(p, st.rows, TipHeight(st) + 1)
  }

  function Abs(x: int): int { if x < 0 then -x else x }

  /** Admission of one transaction. */
  ghost function Admit(p: Params, st: Store, tx: Tx, now: int, checkWindow: bool): Result<Store>
    requires st.rows != []
  {
    if checkWindow && Abs(tx.timestamp - now) > p.mempoolTimestampWindow then Refused(BadTimestamp)
    else if TxHash(tx) in st.index || tx in st.mempool then Refused(DuplicateTx)
    else if |st.mempool| >= p.mempoolMaxTxs then Refused(MempoolFull)
    else if !p.addressOk(tx.sender) then Refused(BadStructure)
    else
      var pending := Queue(st.mempool, tx.sender);
      var account := Get(st.accounts, tx.sender);
      if |pending| >= p.mempoolMaxPerSender then Refused(MempoolSenderLimit)
      else if tx.nonce != account.nonce + |pending| + 1 then Refused(BadNonce)
      else if tx.Cost() > account.balance - AmountOf(NextImmature(p, st), tx.sender) - CostSum(pending) then
        Refused(InsufficientFunds)
      else if exists t :: t in st.mempool && t.sender == tx.sender && t.nonce == tx.nonce then Refused(DuplicateTx)
      else Ok(st.(mempool := st.mempool + {tx}))
  }

  /** The transactions of one sender's queue that survive pruning. Once a gap or an unaffordable
      transaction is met nothing after it survives. */
  function Keep(q: seq<Tx>, nonce: int, spendable: int, broken: bool): seq<Tx> {
    if q == [] then []
    else
      var t := q[0];
      if broken || t.nonce != nonce + 1 || t.Cost() > spendable then
        Keep(q[1..], nonce, spendable, broken || t.nonce > nonce + 1 || t.Cost() > spendable)
      else [t] + Keep(q[1..], nonce + 1, spendable - t.Cost(), false)
  }

  ghost function KeptOf(p: Params, st: Store, a: Address): seq<Tx>
    requires st.rows != []
  {
    var account := Get(st.accounts, a);
    Keep(Queue(st.mempool, a), account.nonce, account.balance - AmountOf(NextImmature(p, st), a), false)
  }

  ghost function Prune(p: Params, st: Store): Store
    requires st.rows != []
  {
    st.(mempool := set t | t in st.mempool && t in KeptOf(p, st, t.sender))
  }

  /** Re-admission in order, skipping what the new branch confirmed and whatever no longer fits. */
  ghost function Readmit(p: Params, st: Store, txs: seq<Tx>, skip: set<Tx>, now: int): (r: Store)
    requires st.rows != []
    ensures r == st.(mempool := r.mempool)
  {
    if txs == [] then st
    else
      var before, tx := Readmit(p, st, txs[..|txs| - 1], skip, now), txs[|txs| - 1];
      if tx in skip then before
      else
        var admitted := Admit(p, before, tx, now, false);
        if admitted.Ok? then admitted.value else before
  }

  function AllTxs(blocks: seq<Block>): seq<Tx> {
    if blocks == [] then [] else AllTxs(blocks[..|blocks| - 1]) + blocks[|blocks| - 1].txs
  }

  function TxSet(txs: seq<Tx>): set<Tx> { set t | t in txs }

  /** The pool after a switch. Re-admission counts queue positions in the pool as it stands, so whether a
      disconnected transaction comes back depends on what its sender still has pending; pruning comes last. */
  ghost function Restore(p: Params, st: Store, disconnected: seq<Block>, connected: seq<Block>, now: int): Store
    requires st.rows != []
  {
    var confirmed := TxSet(AllTxs(connected));
    Prune(p, Readmit(p, st.(mempool := st.mempool - confirmed), AllTxs(disconnected), confirmed, now))
  }
}
