/** What a passed audit guarantees about a database of unknown origin: the statement of every account follows from the
    stored blocks, and no rule of the chain is broken except those the audit does not look at. */
module AuditFacts {
  import opened Types
  import opened Ledger
  import opened Headers
  import opened Chain
  import opened ChainFacts
  import opened Flows
  import opened Tables
  import opened Integrity

  /** The stored rows with the genesis of the profile at the bottom, whose entries the audit never reads. */
  function OnGenesis(p: Params, rows: seq<Row>): (r: seq<Row>)
    requires rows != []
    ensures |r| == |rows| && r[0] == GenesisRow(p) && forall i :: 1 <= i < |r| ==> r[i] == rows[i]
  {
    [GenesisRow(p)] + rows[1..]
  }

  ghost predicate SameBlocks(a: seq<Row>, b: seq<Row>) {
    |a| == |b| && forall i :: 0 <= i < |a| ==> a[i].block == b[i].block
  }

  lemma {:induction false} SameFlow(a: seq<Row>, b: seq<Row>, who: Address)
    requires SameBlocks(a, b)
    ensures Income(a, who) == Income(b, who) && Outlay(a, who) == Outlay(b, who) && Sent(a, who) == Sent(b, who)
  {
    if a != [] {
      SameFlow(a[..|a| - 1], b[..|b| - 1], who);
    }
  }

  // ---------------------------------------------------------------- one block

  lemma {:induction false} AuditedNonces(m: Accounts, txs: seq<Tx>, a: Address)
    requires TxsAudited(m, txs)
    ensures Get(Transfers(m, txs), a).nonce == Get(m, a).nonce + SentIn(txs, a)
  {
    if txs != [] {
      var n := |txs| - 1;
      AuditedStep(m, txs, n);
      assert txs[..n + 1] == txs;
      AuditedNonces(m, txs[..n], a);
      assert TxAudited(Transfers(m, txs[..n]), txs[n]);
    }
  }

  lemma {:induction false} AuditedBalances(p: Params, m: Accounts, txs: seq<Tx>)
    requires TxsAudited(m, txs) && Solvent(m) && forall i :: 0 <= i < |txs| ==> WellFormedTx(p, txs[i])
    ensures Solvent(Transfers(m, txs))
  {
    if txs != [] {
      var n := |txs| - 1;
      AuditedStep(m, txs, n);
      assert txs[..n + 1] == txs;
      AuditedBalances(p, m, txs[..n]);
      assert TxAudited(Transfers(m, txs[..n]), txs[n]) && WellFormedTx(p, txs[n]);
      forall a: Address
        ensures Get(Transfer(Transfers(m, txs[..n]), txs[n]), a).balance >= 0
      {
        assert Get(Transfers(m, txs[..n]), a).balance >= 0;
      }
    }
  }

  lemma RowParts(p: Params, st: Store, k: nat)
    requires ValidParams(p) && 1 <= k < |st.rows| && RowAudited(p, st, k)
    ensures
      var prev, r, before := st.rows[k - 1].block, st.rows[k], Rebuild(p, st.rows[..k]);
      && ExpectedDifficulty(p, st, prev) == Some(r.block.difficulty) && WellFormedBlock(p, r.block)
      && r.block.previous == prev.hash && r.block.height == prev.height + 1
      && r.totalWork == before[k - 1].totalWork + r.block.difficulty
      && TxsAudited(Replay(p, before), r.block.txs)
      && CoinbaseOk(p, r.block, SubsidyFor(p, Minted(p, before)), FeeSum(r.block.txs))
  {
    hide WellFormedBlock, TxsAudited, CoinbaseOk, Rebuild, ExpectedDifficulty, Replay, Minted;
  }

  lemma BlockParts(p: Params, b: Block)
    requires WellFormedBlock(p, b)
    ensures b.hash == b.HeaderDigest() && b.height >= 1 && forall i :: 0 <= i < |b.txs| ==> WellFormedTx(p, b.txs[i])
  {
    hide WellFormedTx;
  }

  // ---------------------------------------------------------------- the whole chain

  /** Every account is the statement its blocks give. */
  ghost predicate Stated(p: Params, chain: seq<Row>) {
    forall a: Address ::
      Get(Replay(p, chain), a)
        == Account(Allocated(p.genesisAllocations, a) + Income(chain, a) - Outlay(chain, a), Sent(chain, a))
  }

  ghost predicate Solvent(m: Accounts) {
    forall a: Address :: Get(m, a).balance >= 0
  }

  /** What the audit has established once the first k rows passed. */
  ghost predicate Established(p: Params, st: Store, k: nat)
    requires 1 <= k <= |st.rows|
  {
    var chain := Rebuild(p, st.rows[..k]);
    && SameBlocks(chain, OnGenesis(p, st.rows)[..k])
    && Stated(p, chain) && Solvent(Replay(p, chain))
    && Minted(p, chain) == Min(p.maxSupply, AllocationSum(p.genesisAllocations) + (k - 1) * p.blockReward)
    && chain[k - 1].totalWork == Work(p, st.rows[k - 1].block.hash)
    && st.rows[k - 1].block.height == k - 1
  }

  lemma EstablishedParts(p: Params, st: Store, k: nat)
    requires 1 <= k <= |st.rows|
    ensures Established(p, st, k) <==>
      var chain := Rebuild(p, st.rows[..k]);
      && SameBlocks(chain, OnGenesis(p, st.rows)[..k])
      && Stated(p, chain) && Solvent(Replay(p, chain))
      && Minted(p, chain) == Min(p.maxSupply, AllocationSum(p.genesisAllocations) + (k - 1) * p.blockReward)
      && chain[k - 1].totalWork == Work(p, st.rows[k - 1].block.hash)
      && st.rows[k - 1].block.height == k - 1
  {
    hide SameBlocks, Stated, Solvent, Replay, Minted, Rebuild, Work, OnGenesis;
  }

  lemma GenesisEstablished(p: Params, st: Store)
    requires ValidParams(p) && st.rows != [] && st.rows[0].block.height == 0 && st.rows[0].block.hash == GenesisHash(p)
    ensures Established(p, st, 1)
  {
    hide *;
    var chain := Rebuild(p, st.rows[..1]);
    RebuildGenesis(p, st.rows);
    ProfileGenesis(p);
    AllocationsFit(p);
    GenesisWorkless(p);
    assert chain == [GenesisRow(p)];
    forall a: Address
      ensures Get(Replay(p, chain), a)
           == Account(Allocated(p.genesisAllocations, a) + Income(chain, a) - Outlay(chain, a), Sent(chain, a))
    {
      ProfileFlow(p, a);
      GenesisAlone(p, a);
    }
    StatedBuild(p, chain);
    SolventBuild(Replay(p, chain));
    GenesisSame(p, st.rows);
    EstablishedParts(p, st, 1);
  }

  lemma GenesisSame(p: Params, rows: seq<Row>)
    requires rows != []
    ensures SameBlocks([GenesisRow(p)], OnGenesis(p, rows)[..1])
  {}

  lemma AllocationsFit(p: Params)
    requires ValidParams(p)
    ensures AllocationSum(p.genesisAllocations)
         == Min(p.maxSupply, AllocationSum(p.genesisAllocations) + (1 - 1) * p.blockReward)
  {}

  lemma StatedBuild(p: Params, chain: seq<Row>)
    requires
      forall a: Address ::
        Get(Replay(p, chain), a)
          == Account(Allocated(p.genesisAllocations, a) + Income(chain, a) - Outlay(chain, a), Sent(chain, a))
    ensures Stated(p, chain)
  {}

  lemma StatedAt(p: Params, chain: seq<Row>, a: Address)
    requires Stated(p, chain)
    ensures Get(Replay(p, chain), a)
         == Account(Allocated(p.genesisAllocations, a) + Income(chain, a) - Outlay(chain, a), Sent(chain, a))
  {
    hide Replay, Allocated, Income, Outlay, Sent;
  }

  lemma SolventBuild(m: Accounts)
    requires forall a: Address :: Get(m, a).balance >= 0
    ensures Solvent(m)
  {}

  lemma SolventAt(m: Accounts, a: Address)
    requires Solvent(m)
    ensures Get(m, a).balance >= 0
  {}

  lemma GenesisWorkless(p: Params)
    ensures Work(p, GenesisHash(p)) == 0
  {}

  lemma GenesisAlone(p: Params, a: Address)
    ensures Income([GenesisRow(p)], a) == 0 && Outlay([GenesisRow(p)], a) == 0 && Sent([GenesisRow(p)], a) == 0
  {
    assert [GenesisRow(p)][..0] == [];
  }

  lemma AppendFlow(rows: seq<Row>, r: Row, a: Address)
    ensures
      var b := r.block;
      && Income(rows + [r], a) == Income(rows, a) + Received(b.txs, a)
           + (if b.coinbase.Some? && b.coinbase.value.recipient == a then b.coinbase.value.amount else 0)
      && Outlay(rows + [r], a) == Outlay(rows, a) + Spent(b.txs, a)
      && Sent(rows + [r], a) == Sent(rows, a) + SentIn(b.txs, a)
  {
    assert (rows + [r])[..|rows|] == rows;
  }

  lemma AppendSame(p: Params, st: Store, k: nat, before: seq<Row>, r: Row)
    requires 1 <= k < |st.rows| && SameBlocks(before, OnGenesis(p, st.rows)[..k]) && r.block == st.rows[k].block
    ensures SameBlocks(before + [r], OnGenesis(p, st.rows)[..k + 1])
  {}

  lemma SubsidyClosed(p: Params, minted: int, k: nat)
    requires ValidParams(p) && k >= 1
    requires minted == Min(p.maxSupply, AllocationSum(p.genesisAllocations) + (k - 1) * p.blockReward)
    ensures minted + SubsidyFor(p, minted) == Min(p.maxSupply, AllocationSum(p.genesisAllocations) + k * p.blockReward)
  {
    assert k * p.blockReward == (k - 1) * p.blockReward + p.blockReward;
  }

  lemma WorkStep(p: Params, b: Block)
    requires b.hash == b.HeaderDigest() && b.height >= 1
    ensures Work(p, b.hash) == Work(p, b.previous) + b.difficulty
  {}

  lemma PaidBalance(m: Accounts, to: Address, amount: int)
    requires amount >= 0 && Solvent(m)
    ensures Solvent(Pay(m, to, amount))
  {
    forall a: Address
      ensures Get(Pay(m, to, amount), a).balance >= 0
    {
      assert Get(m, a).balance >= 0;
    }
  }

  lemma CoinbaseIs(p: Params, b: Block, subsidy: int, fees: int)
    requires CoinbaseOk(p, b, subsidy, fees)
    ensures b.coinbase.Some? && b.coinbase.value.amount == subsidy + fees >= 0
  {}

  lemma RowOfParts(p: Params, rows: seq<Row>, b: Block)
    requires rows != [] && b.coinbase.Some?
    ensures RowOf(p, rows, b).block == b && RowOf(p, rows, b).totalWork == rows[|rows| - 1].totalWork + b.difficulty
  {}

  lemma RowEstablishes(p: Params, st: Store, k: nat)
    requires ValidParams(p) && 1 <= k < |st.rows| && Established(p, st, k) && RowAudited(p, st, k)
    ensures Established(p, st, k + 1) && st.rows[k].totalWork == Work(p, st.rows[k].block.hash)
  {
    hide *;
    EstablishedParts(p, st, k);
    RowParts(p, st, k);
    var before, b := Rebuild(p, st.rows[..k]), st.rows[k].block;
    var m, minted, fees := Replay(p, before), Minted(p, before), FeeSum(b.txs);
    CoinbaseIs(p, b, SubsidyFor(p, minted), fees);
    RebuildStep(p, st.rows, k);
    var r := RowOf(p, before, b);
    var chain, to, amount := before + [r], b.coinbase.value.recipient, SubsidyFor(p, minted) + fees;
    RowOfParts(p, before, b);
    BlockParts(p, b);
    WorkStep(p, b);
    SubsidyClosed(p, minted, k);
    AuditedBalances(p, m, b.txs);
    PaidBalance(Transfers(m, b.txs), to, amount);
    AppendSame(p, st, k, before, r);
    forall a: Address
      ensures Get(Replay(p, chain), a)
           == Account(Allocated(p.genesisAllocations, a) + Income(chain, a) - Outlay(chain, a), Sent(chain, a))
    {
      StatedAt(p, before, a);
      AuditedNonces(m, b.txs, a);
      TransfersFlow(m, b.txs, a);
      PayReads(Transfers(m, b.txs), to, amount, a);
      AppendFlow(before, r, a);
    }
    StatedBuild(p, chain);
    EstablishedParts(p, st, k + 1);
  }

  lemma {:induction false} AuditEstablishes(p: Params, st: Store, k: nat)
    requires ValidParams(p) && 1 <= k <= |st.rows| && st.rows[0].block.height == 0 && Audited(p, st)
    ensures Established(p, st, k)
    ensures k > 1 ==> st.rows[k - 1].totalWork == Work(p, st.rows[k - 1].block.hash) && RowAudited(p, st, k - 1)
    decreases k
  {
    hide Established, RowAudited, Settled, Work;
    if k == 1 {
      GenesisEstablished(p, st);
    } else {
      AuditEstablishes(p, st, k - 1);
      RowEstablishes(p, st, k - 1);
    }
  }

  /** Row k is numbered, linked, well formed, and has the required difficulty and the summed work of its ancestry. */
  ghost predicate RowSound(p: Params, st: Store, k: nat)
    requires ValidParams(p) && 1 <= k < |st.rows|
  {
    var prev, r := st.rows[k - 1].block, st.rows[k];
    && r.block.height == k && r.block.previous == prev.hash && WellFormedBlock(p, r.block)
    && ExpectedDifficulty(p, st, prev) == Some(r.block.difficulty) && r.totalWork == Work(p, r.block.hash)
  }

  /** A database whose audit is clean: its rows are numbered and linked from genesis, every block is well formed with the
      required difficulty and the summed work of its ancestry, the minted supply is what that many blocks mint, no
      balance is negative, and the account of every address is exactly the statement its blocks give - unless they never
      mention the address. */
  lemma AuditGuarantees(p: Params, st: Store, a: Address)
    requires ValidParams(p) && st.rows != [] && st.rows[0].block.height == 0 && Audited(p, st)
    ensures
      var chain := OnGenesis(p, st.rows);
      var statement := Account(Allocated(p.genesisAllocations, a) + Income(chain, a) - Outlay(chain, a), Sent(chain, a));
      && statement.balance >= 0 && (Get(st.accounts, a) == statement || statement == Account(0, 0))
      && st.minted == Min(p.maxSupply, AllocationSum(p.genesisAllocations) + (|st.rows| - 1) * p.blockReward)
      && st.rows[0].block.hash == GenesisHash(p)
      && forall k :: 1 <= k < |st.rows| ==> RowSound(p, st, k)
  {
    hide *;
    var rows, n := st.rows, |st.rows|;
    AuditedParts(p, st);
    AuditEstablishes(p, st, n);
    EstablishedParts(p, st, n);
    SettledIs(p, st);
    assert rows[..n] == rows && OnGenesis(p, rows)[..n] == OnGenesis(p, rows);
    var m := Replay(p, Rebuild(p, rows));
    SameFlow(Rebuild(p, rows), OnGenesis(p, rows), a);
    ReadRow(m, a);
    StatedAt(p, Rebuild(p, rows), a);
    SolventAt(m, a);
    forall k | 1 <= k < n
      ensures RowSound(p, st, k)
    {
      AuditEstablishes(p, st, k + 1);
      EstablishedParts(p, st, k + 1);
      RowParts(p, st, k);
      RowSoundBuild(p, st, k);
    }
  }

  lemma RowSoundBuild(p: Params, st: Store, k: nat)
    requires ValidParams(p) && 1 <= k < |st.rows|
    requires
      var prev, r := st.rows[k - 1].block, st.rows[k];
      && r.block.height == k && r.block.previous == prev.hash && WellFormedBlock(p, r.block)
      && ExpectedDifficulty(p, st, prev) == Some(r.block.difficulty) && r.totalWork == Work(p, r.block.hash)
    ensures RowSound(p, st, k)
  {
    hide WellFormedBlock, ExpectedDifficulty, Work;
  }

  lemma AuditedParts(p: Params, st: Store)
    requires ValidParams(p) && st.rows != [] && Audited(p, st)
    ensures st.rows[0].block.hash == GenesisHash(p) && Settled(p, st)
  {
    hide RowAudited, Settled;
  }

  lemma ReadRow(m: Accounts, a: Address)
    ensures Get(m, a) == if a in m then m[a] else Account(0, 0)
  {}
}
