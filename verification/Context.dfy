/** Scratch state used while applying transactions at one height. */
module Context {
  import opened Types
  import opened Ledger

  /** Accounts are read through to the table once and then kept in an overlay, with their old rows. The
      table itself is not written while a context is in use. */
  class TxContext {
    const table: Accounts
    const immature: map<Address, int>
    var overlay: Accounts
    var undo: Accounts
    var fees: int

    constructor (table: Accounts, immature: map<Address, int>)
      ensures this.table == table && this.immature == immature
      ensures Valid() && overlay == map[] && undo == map[] && fees == 0 && View() == table
    {
      this.table, this.immature := table, immature;
      overlay, undo, fees := map[], map[], 0;
    }

    /** The undo rows are the table's rows for exactly the accounts in the overlay. */
    ghost predicate Valid()
      reads `overlay, `undo
    {
      undo == UndoOf(table, overlay.Keys)
    }

    /** The accounts as the next transaction sees them. */
    ghost function View(): Accounts
      reads `overlay
    {
      table + overlay
    }

    /** Bring an account into the overlay; nobody reads anything different afterwards. */
    method Acct(a: Address) returns (row: Account)
      requires Valid()
      modifies this
      ensures Valid() && row == Get(old(View()), a) && fees == old(fees)
      ensures overlay == old(overlay)[a := row] && View() == old(View())[a := row]
    {
      if a !in overlay {
        undo := undo[a := Get(table, a)];
        overlay := overlay[a := Get(table, a)];
      }
      row := overlay[a];
      assert overlay == old(overlay)[a := row];
      OverlayWrite(table, old(overlay), a, row);
    }

    method Write(a: Address, row: Account)
      requires Valid() && a in overlay
      modifies this
      ensures Valid() && fees == old(fees) && overlay == old(overlay)[a := row] && View() == old(View())[a := row]
    {
      OverlayWrite(table, overlay, a, row);
      overlay := overlay[a := row];
      assert overlay.Keys == old(overlay).Keys;
    }

    /** Validate and apply one transaction, refusing before anything changes for a reader. */
    method Apply(tx: Tx) returns (refusal: Option<Code>)
      requires Valid()
      modifies this
      ensures Valid() && refusal == CheckTx(old(View()), immature, tx)
      ensures refusal.Some? ==> Agree(View(), old(View())) && fees == old(fees)
      ensures refusal.None? ==> View() == Transfer(old(View()), tx) && fees == old(fees) + tx.fee
      ensures refusal.None? ==> overlay.Keys == old(overlay.Keys) + {tx.sender, tx.recipient}
    {
      hide Valid, View;
      var sender := Acct(tx.sender);
      ReadsSame(old(View()), tx.sender);
      if tx.nonce != sender.nonce + 1 {
        return Some(BadNonce);
      }
      var spendable := sender.balance - AmountOf(immature, tx.sender);
      var cost := tx.amount + tx.fee;
      if cost > spendable {
        return Some(InsufficientFunds);
      }
      var touched := Acct(tx.recipient);
      Write(tx.sender, Account(sender.balance - cost, tx.nonce));
      var recipient := overlay[tx.recipient];
      TransferWrites(old(View()), tx);
      Write(tx.recipient, Account(recipient.balance + tx.amount, recipient.nonce));
      fees := fees + tx.fee;
      return None;
    }

    /** Credit the miner. */
    method Credit(a: Address, amount: int)
      requires Valid()
      modifies this
      ensures Valid() && View() == Pay(old(View()), a, amount) && fees == old(fees)
      ensures overlay.Keys == old(overlay.Keys) + {a}
    {
      hide Valid, View;
      var row := Acct(a);
      Write(a, Account(row.balance + amount, row.nonce));
    }
  }

  lemma OverlayWrite(table: Accounts, overlay: Accounts, a: Address, row: Account)
    ensures table + overlay[a := row] == (table + overlay)[a := row]
  {}

  /** Writing back what was read changes nothing for a reader. */
  lemma ReadsSame(m: Accounts, a: Address)
    ensures Agree(m[a := Get(m, a)], m)
  {}

  /** Both rows brought in and then written are the transfer. */
  lemma TransferWrites(m: Accounts, tx: Tx)
    ensures
      var s, r := tx.sender, tx.recipient;
      var read := m[s := Get(m, s)];
      var both := read[r := Get(read, r)];
      var debited := both[s := Account(Get(m, s).balance - tx.Cost(), tx.nonce)];
      debited[r := Account(debited[r].balance + tx.amount, debited[r].nonce)] == Transfer(m, tx)
  {}

  /** Apply transactions in order until one is refused, checking ids against the confirmed ones. */
  method ApplyAll(ctx: TxContext, txs: seq<Tx>, confirmed: set<Hash>) returns (refusal: Option<Code>)
    requires ctx.Valid()
    modifies ctx
    ensures ctx.Valid() && refusal == CheckTxs(old(ctx.View()), ctx.immature, txs, confirmed)
    ensures refusal.None? ==> ctx.View() == Transfers(old(ctx.View()), txs)
    ensures refusal.None? ==> ctx.fees == old(ctx.fees) + FeeSum(txs)
    ensures refusal.None? ==> ctx.overlay.Keys == old(ctx.overlay.Keys) + TouchedBy(txs)
  {
    hide CheckTx, Transfer;
    ghost var start := ctx.View();
    assert txs[..0] == [];
    for i := 0 to |txs|
      invariant ctx.Valid() && ctx.View() == Transfers(start, txs[..i])
      invariant ctx.fees == old(ctx.fees) + FeeSum(txs[..i])
      invariant ctx.overlay.Keys == old(ctx.overlay.Keys) + TouchedBy(txs[..i])
      invariant CheckTxs(start, ctx.immature, txs[..i], confirmed).None?
    {
      assert txs[..i + 1][..i] == txs[..i];
      if TxHash(txs[i]) in confirmed {
        CheckTxsStops(start, ctx.immature, txs, confirmed, i + 1);
        return Some(DuplicateTx);
      }
      refusal := ctx.Apply(txs[i]);
      if refusal.Some? {
        CheckTxsStops(start, ctx.immature, txs, confirmed, i + 1);
        return refusal;
      }
    }
    assert txs[..|txs|] == txs;
    return None;
  }
}
