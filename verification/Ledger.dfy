/** Balances and nonces, and what one block's transactions do to them. */
module Ledger {
  import opened Types

  datatype Account = Account(balance: int, nonce: int)

  /** Rows of the accounts table; an absent row reads as (0, 0). */
  type Accounts = map<Address, Account>

  function Get(m: Accounts, a: Address): Account {
    if a in m then m[a] else Account(0, 0)
  }

  /** The same balances and nonces for every reader. */
  ghost predicate Agree(m: Accounts, n: Accounts) {
    forall a: Address :: Get(m, a) == Get(n, a)
  }

  function AmountOf(m: map<Address, int>, a: Address): int {
    if a in m then m[a] else 0
  }

  // ---------------------------------------------------------------- transfers

  function Debit(m: Accounts, tx: Tx): Accounts {
    m[tx.sender := Account(Get(m, tx.sender).balance - tx.Cost(), tx.nonce)]
  }

  function Pay(m: Accounts, to: Address, amount: int): Accounts {
    m[to := Account(Get(m, to).balance + amount, Get(m, to).nonce)]
  }

  /** Effect of a transaction that passed its checks. */
  function Transfer(m: Accounts, tx: Tx): Accounts {
    Pay(Debit(m, tx), tx.recipient, tx.amount)
  }

  function Transfers(m: Accounts, txs: seq<Tx>): Accounts {
    if txs == [] then m else Transfer(Transfers(m, txs[..|txs| - 1]), txs[|txs| - 1])
  }

  function FeeSum(txs: seq<Tx>): int {
    if txs == [] then 0 else FeeSum(txs[..|txs| - 1]) + txs[|txs| - 1].fee
  }

  function CostSum(txs: seq<Tx>): int {
    if txs == [] then 0 else CostSum(txs[..|txs| - 1]) + txs[|txs| - 1].Cost()
  }

  /** Nonce first, then funds net of immature coinbase. */
  function CheckTx(m: Accounts, immature: map<Address, int>, tx: Tx): Option<Code> {
    if tx.nonce != Get(m, tx.sender).nonce + 1 then Some(BadNonce)
    else if tx.Cost() > Get(m, tx.sender).balance - AmountOf(immature, tx.sender) then Some(InsufficientFunds)
    else None
  }

  /** First refusal met when the transactions are applied in order; `confirmed` are ids already on the chain. */
  function CheckTxs(m: Accounts, immature: map<Address, int>, txs: seq<Tx>, confirmed: set<Hash>): Option<Code> {
    if txs == [] then None
    else
      var before := txs[..|txs| - 1];
      var tx := txs[|txs| - 1];
      var earlier := CheckTxs(m, immature, before, confirmed);
      if earlier.Some? then earlier
      else if TxHash(tx) in confirmed then Some(DuplicateTx)
      else CheckTx(Transfers(m, before), immature, tx)
  }

  lemma {:induction false} CheckTxsPrefix(m: Accounts, immature: map<Address, int>, txs: seq<Tx>, confirmed: set<Hash>, i: nat)
    requires i < |txs| && CheckTxs(m, immature, txs, confirmed).None?
    ensures CheckTxs(m, immature, txs[..i], confirmed).None?
    ensures TxHash(txs[i]) !in confirmed
    ensures CheckTx(Transfers(m, txs[..i]), immature, txs[i]).None?
    decreases |txs|
  {
    if i < |txs| - 1 {
      CheckTxsPrefix(m, immature, txs[..|txs| - 1], confirmed, i);
      assert txs[..|txs| - 1][..i] == txs[..i];
    }
  }

  lemma {:induction false} CheckTxsStops(m: Accounts, immature: map<Address, int>, txs: seq<Tx>, confirmed: set<Hash>, i: nat)
    requires i <= |txs| && CheckTxs(m, immature, txs[..i], confirmed).Some?
    ensures CheckTxs(m, immature, txs, confirmed) == CheckTxs(m, immature, txs[..i], confirmed)
    decreases |txs|
  {
    if i < |txs| {
      assert txs[..|txs| - 1][..i] == txs[..i];
      CheckTxsStops(m, immature, txs[..|txs| - 1], confirmed, i);
    } else {
      assert txs[..i] == txs;
    }
  }

  // ---------------------------------------------------------------- only what is read matters

  lemma TransferAgrees(m: Accounts, n: Accounts, tx: Tx)
    requires Agree(m, n)
    ensures Agree(Transfer(m, tx), Transfer(n, tx))
  {
    assert Get(m, tx.sender) == Get(n, tx.sender);
    forall a: Address
      ensures Get(Debit(m, tx), a) == Get(Debit(n, tx), a)
    {
      assert Get(m, a) == Get(n, a);
    }
    PayAgrees(Debit(m, tx), Debit(n, tx), tx.recipient, tx.amount);
  }

  lemma PayAgrees(m: Accounts, n: Accounts, to: Address, amount: int)
    requires Agree(m, n)
    ensures Agree(Pay(m, to, amount), Pay(n, to, amount))
  {
    assert Get(m, to) == Get(n, to);
    forall a: Address
      ensures Get(Pay(m, to, amount), a) == Get(Pay(n, to, amount), a)
    {
      assert Get(m, a) == Get(n, a);
    }
  }

  lemma {:induction false} TransfersAgree(m: Accounts, n: Accounts, txs: seq<Tx>)
    requires Agree(m, n)
    ensures Agree(Transfers(m, txs), Transfers(n, txs))
  {
    if txs != [] {
      TransfersAgree(m, n, txs[..|txs| - 1]);
      TransferAgrees(Transfers(m, txs[..|txs| - 1]), Transfers(n, txs[..|txs| - 1]), txs[|txs| - 1]);
    }
  }

  lemma {:induction false} CheckTxsAgree(m: Accounts, n: Accounts, immature: map<Address, int>, txs: seq<Tx>, confirmed: set<Hash>)
    requires Agree(m, n)
    ensures CheckTxs(m, immature, txs, confirmed) == CheckTxs(n, immature, txs, confirmed)
  {
    if txs != [] {
      CheckTxsAgree(m, n, immature, txs[..|txs| - 1], confirmed);
      TransfersAgree(m, n, txs[..|txs| - 1]);
      assert Get(Transfers(m, txs[..|txs| - 1]), txs[|txs| - 1].sender)
          == Get(Transfers(n, txs[..|txs| - 1]), txs[|txs| - 1].sender);
    }
  }

  // ---------------------------------------------------------------- undo

  function TouchedBy(txs: seq<Tx>): set<Address> {
    if txs == [] then {}
    else TouchedBy(txs[..|txs| - 1]) + {txs[|txs| - 1].sender, txs[|txs| - 1].recipient}
  }

  function Touched(txs: seq<Tx>, miner: Address): set<Address> { TouchedBy(txs) + {miner} }

  /** The pre-block rows of every account the block touches. */
  function UndoOf(m: Accounts, touched: set<Address>): Accounts {
    map a | a in touched :: Get(m, a)
  }

  lemma {:induction false} TransfersTouch(m: Accounts, txs: seq<Tx>, a: Address)
    requires a !in TouchedBy(txs)
    ensures Get(Transfers(m, txs), a) == Get(m, a)
  {
    if txs != [] {
      TransfersTouch(m, txs[..|txs| - 1], a);
    }
  }

  /** Writing the undo rows back restores every account. */
  lemma UndoRestores(m: Accounts, txs: seq<Tx>, miner: Address, amount: int)
    ensures Agree(Pay(Transfers(m, txs), miner, amount) + UndoOf(m, Touched(txs, miner)), m)
  {
    var after := Pay(Transfers(m, txs), miner, amount);
    forall a: Address
      ensures Get(after + UndoOf(m, Touched(txs, miner)), a) == Get(m, a)
    {
      if a !in Touched(txs, miner) {
        TransfersTouch(m, txs, a);
      }
    }
  }

  lemma UndoAgrees(m: Accounts, n: Accounts, touched: set<Address>)
    requires Agree(m, n)
    ensures UndoOf(m, touched) == UndoOf(n, touched)
  {}

  // ---------------------------------------------------------------- sums

  ghost function Total(m: Accounts): int {
    if m == map[] then 0
    else
      var a :| a in m;
      m[a].balance + Total(m - {a})
  }

  lemma {:induction false} TotalPick(m: Accounts, a: Address)
    requires a in m
    ensures Total(m) == m[a].balance + Total(m - {a})
    decreases |m|
  {
    var b :| b in m && Total(m) == m[b].balance + Total(m - {b});
    if a != b {
      TotalPick(m - {b}, a);
      TotalPick(m - {a}, b);
      assert m - {b} - {a} == m - {a} - {b};
    }
  }

  /** Writing one row moves the total by the change of that row. */
  lemma TotalWrite(m: Accounts, a: Address, row: Account)
    ensures Total(m[a := row]) == Total(m) - Get(m, a).balance + row.balance
  {
    var n := m[a := row];
    TotalPick(n, a);
    assert n - {a} == m - {a};
    if a in m {
      TotalPick(m, a);
    } else {
      assert m - {a} == m;
    }
  }

  lemma DropRow(m: Accounts, a: Address)
    ensures Total(m) == Get(m, a).balance + Total(m - {a})
    ensures a in m ==> |m - {a}| < |m|
    ensures a !in m ==> m - {a} == m
  {
    if a in m {
      TotalPick(m, a);
      assert (m - {a}).Keys == m.Keys - {a};
      assert |m| == |m.Keys| && |m - {a}| == |(m - {a}).Keys|;
    } else {
      assert m - {a} == m;
    }
  }

  lemma DropAgrees(m: Accounts, n: Accounts, a: Address)
    requires Agree(m, n)
    ensures Agree(m - {a}, n - {a})
  {
    forall b: Address
      ensures Get(m - {a}, b) == Get(n - {a}, b)
    {
      assert Get(m, b) == Get(n, b);
    }
  }

  lemma {:induction false} TotalAgrees(m: Accounts, n: Accounts)
    requires Agree(m, n)
    ensures Total(m) == Total(n)
    decreases |m| + |n|
  {
    if m != map[] || n != map[] {
      var a: Address :| a in m || a in n;
      DropRow(m, a);
      DropRow(n, a);
      DropAgrees(m, n, a);
      assert Get(m, a) == Get(n, a);
      TotalAgrees(m - {a}, n - {a});
    }
  }

  /** Inside a block, balances plus collected fees are constant. */
  lemma {:induction false} TransfersConserve(m: Accounts, txs: seq<Tx>)
    ensures Total(Transfers(m, txs)) + FeeSum(txs) == Total(m)
  {
    if txs != [] {
      var before, tx := Transfers(m, txs[..|txs| - 1]), txs[|txs| - 1];
      TransfersConserve(m, txs[..|txs| - 1]);
      TotalWrite(before, tx.sender, Get(Debit(before, tx), tx.sender));
      var debited := Debit(before, tx);
      TotalWrite(debited, tx.recipient, Get(Pay(debited, tx.recipient, tx.amount), tx.recipient));
    }
  }

  lemma PayTotal(m: Accounts, to: Address, amount: int)
    ensures Total(Pay(m, to, amount)) == Total(m) + amount
  {
    TotalWrite(m, to, Get(Pay(m, to, amount), to));
  }

  /** No balance exceeds the total when none is negative. */
  lemma {:induction false} BalanceAtMostTotal(m: Accounts, a: Address)
    requires forall b :: b in m ==> m[b].balance >= 0
    ensures 0 <= Get(m, a).balance <= Total(m)
    decreases |m|
  {
    if a in m {
      TotalPick(m, a);
      TotalNonNegative(m - {a});
    } else {
      TotalNonNegative(m);
    }
  }

  lemma {:induction false} TotalNonNegative(m: Accounts)
    requires forall b :: b in m ==> m[b].balance >= 0
    ensures Total(m) >= 0
    decreases |m|
  {
    if m != map[] {
      var a :| a in m;
      TotalPick(m, a);
      TotalNonNegative(m - {a});
    }
  }
}
