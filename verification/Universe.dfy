/** A universe of blocks, each valid on its own branch: what a node that is given only these blocks holds. */
module Universe {
  import opened Types
  import opened Merkle
  import opened MedianTime
  import opened Ledger
  import opened Headers
  import opened Chain
  import opened Tables
  import opened TableFacts
  import opened MempoolFacts
  import opened Connecting
  import opened Branches
  import opened Node
  import opened NodeFacts

  type Blocks = map<Hash, Block>

  /** The chain of rows from genesis to h through blocks of U. */
  function RowsOf(p: Params, U: Blocks, h: Hash): (rows: seq<Row>)
    ensures rows != []
    decreases h
  {
    if !h.HeaderHash? || h !in U || U[h].coinbase.None? || h == GenesisHash(p) then [GenesisRow(p)]
    else
      var before := RowsOf(p, U, h.previous);
      before + [RowOf(p, before, U[h])]
  }

  /** The block filed under h is valid on top of its own ancestry, which is in U as well. */
  ghost predicate ValidHome(p: Params, U: Blocks, h: Hash)
    requires ValidParams(p) && h in U
  {
    && h.HeaderHash? && h != GenesisHash(p) && U[h].hash == h
    && (h.previous == GenesisHash(p) || h.previous in U)
    && Extends(p, RowsOf(p, U, h.previous), U[h])
  }

  /** An ancestor-closed set of blocks, each valid on its own branch. */
  ghost predicate ValidUniverse(p: Params, U: Blocks)
    requires ValidParams(p)
  {
    forall h :: h in U ==> ValidHome(p, U, h)
  }

  /** No block is so far behind another branch that the depth limit could refuse it. */
  ghost predicate Shallow(p: Params, U: Blocks) {
    forall a, b :: a in U && b in U && a.HeaderHash? && b.HeaderHash? && !AncestorOrSelf(b, a) ==>
      a.height < b.height + p.maxReorgDepth
  }

  /** A clock reading `now` does not place the block too far in the future. */
  predicate OnTime(p: Params, b: Block, now: int) { b.timestamp <= now + p.maxFutureSeconds }

  /** Two blocks with one digest, both valid on the same ancestry, are the same block: the header fixes the
      Merkle root, the root fixes the ids, and the ids fix transactions and coinbase. */
  lemma DigestFixesBlock(p: Params, rows: seq<Row>, a: Block, b: Block)
    requires ValidParams(p) && rows != [] && Extends(p, rows, a) && Extends(p, rows, b) && a.hash == b.hash
    ensures a == b
  {
    hide CheckTxs, Mtp, FeeSum, SubsidyFor, Replay, Immature, WellFormedTx;
    var x, y := a.coinbase.value, b.coinbase.value;
    MerkleInjective([x.txid] + TxIds(a.txs), [y.txid] + TxIds(b.txs));
    assert ([x.txid] + TxIds(a.txs))[0] == x.txid && ([y.txid] + TxIds(b.txs))[0] == y.txid;
    assert ([x.txid] + TxIds(a.txs))[1..] == TxIds(a.txs) && ([y.txid] + TxIds(b.txs))[1..] == TxIds(b.txs);
    forall i | 0 <= i < |a.txs|
      ensures a.txs[i] == b.txs[i]
    {
      assert TxIds(a.txs)[i] == TxIds(b.txs)[i];
    }
  }

  // ---------------------------------------------------------------- facts about the universe

  lemma HomeParts(p: Params, U: Blocks, h: Hash)
    requires ValidParams(p) && ValidUniverse(p, U) && h in U
    ensures h.HeaderHash? && h != GenesisHash(p) && U[h].hash == h && U[h].hash == U[h].HeaderDigest()
    ensures h.previous == GenesisHash(p) || h.previous in U
    ensures Extends(p, RowsOf(p, U, h.previous), U[h]) && WellFormedBlock(p, U[h])
    ensures U[h].previous == h.previous && U[h].height == h.height && h.height >= 1
    ensures U[h].difficulty == Expected(p, h.previous) && StateRules(p, RowsOf(p, U, h.previous), U[h])
    ensures RowsOf(p, U, h) == RowsOf(p, U, h.previous) + [RowOf(p, RowsOf(p, U, h.previous), U[h])]
    ensures U[h].coinbase.Some?
  {
    hide StateRules, RowOf;
    assert ValidHome(p, U, h);
  }

  lemma {:induction false} RowsOfValid(p: Params, U: Blocks, h: Hash)
    requires ValidParams(p) && ValidUniverse(p, U) && (h == GenesisHash(p) || h in U)
    ensures
      var rows := RowsOf(p, U, h);
      ValidRows(p, rows) && rows[|rows| - 1].block.hash == h
    decreases h
  {
    hide *;
    if h != GenesisHash(p) {
      HomeParts(p, U, h);
      RowsOfValid(p, U, h.previous);
      AppendRow(p, RowsOf(p, U, h.previous), U[h]);
    } else {
      RowsOfGenesis(p, U);
      GenesisValid(p);
    }
  }

  lemma GenesisValid(p: Params)
    requires ValidParams(p)
    ensures ValidRows(p, [GenesisRow(p)])
  {}

  lemma HomeLinked(p: Params, U: Blocks, h: Hash)
    requires ValidParams(p) && ValidUniverse(p, U) && h in U
    ensures Linked(p, h) && Work(p, h) > 0
  {
    hide ValidRows, ValidUniverse, Linked, Work;
    RowsOfValid(p, U, h);
    HomeParts(p, U, h);
    var rows := RowsOf(p, U, h);
    RowsLinked(p, rows, |rows| - 1);
    WorkGrows(p, h);
    LinkedParent(p, h);
    WorkGrows(p, h.previous);
  }

  lemma LinkedParent(p: Params, h: Hash)
    requires ValidParams(p) && Linked(p, h) && h != GenesisHash(p)
    ensures h.HeaderHash? && Linked(p, h.previous)
  {}

  // ---------------------------------------------------------------- growing a universe

  lemma {:induction false} RowsOfGrown(p: Params, U: Blocks, b: Block, h: Hash)
    requires ValidParams(p) && ValidUniverse(p, U) && b.hash !in U && b.hash != GenesisHash(p)
    requires h == GenesisHash(p) || h in U
    ensures RowsOf(p, U[b.hash := b], h) == RowsOf(p, U, h)
    decreases h
  {
    hide *;
    RowsOfGenesis(p, U);
    RowsOfGenesis(p, U[b.hash := b]);
    if h != GenesisHash(p) {
      HomeParts(p, U, h);
      RowsOfGrown(p, U, b, h.previous);
      RowsOfStep(p, U[b.hash := b], h);
    }
  }

  lemma RowsOfStep(p: Params, U: Blocks, h: Hash)
    requires h.HeaderHash? && h in U && U[h].coinbase.Some? && h != GenesisHash(p)
    ensures RowsOf(p, U, h) == RowsOf(p, U, h.previous) + [RowOf(p, RowsOf(p, U, h.previous), U[h])]
  {
    hide RowOf;
  }

  /** Adding a block that is valid on a branch of a valid universe gives a valid universe. */
  lemma UniverseGrows(p: Params, U: Blocks, b: Block)
    requires ValidParams(p) && ValidUniverse(p, U) && b.hash !in U
    requires b.previous == GenesisHash(p) || b.previous in U
    requires Extends(p, RowsOf(p, U, b.previous), b)
    ensures ValidUniverse(p, U[b.hash := b])
  {
    hide *;
    var W := U[b.hash := b];
    NewHome(p, RowsOf(p, U, b.previous), b);
    RowsOfGrown(p, U, b, b.previous);
    forall h | h in W
      ensures ValidHome(p, W, h)
    {
      if h == b.hash {
        HomeBuild(p, W, h);
      } else {
        HomeParts(p, U, h);
        RowsOfGrown(p, U, b, h.previous);
        HomeBuild(p, W, h);
      }
    }
    UniverseBuild(p, W);
  }

  lemma UniverseBuild(p: Params, U: Blocks)
    requires ValidParams(p) && forall h :: h in U ==> ValidHome(p, U, h)
    ensures ValidUniverse(p, U)
  {
    hide ValidHome;
  }

  lemma NewHome(p: Params, rows: seq<Row>, b: Block)
    requires ValidParams(p) && rows != [] && Extends(p, rows, b)
    ensures b.hash.HeaderHash? && b.hash != GenesisHash(p) && b.hash.previous == b.previous
  {
    hide StateRules;
  }

  lemma HomeBuild(p: Params, U: Blocks, h: Hash)
    requires ValidParams(p) && h in U && h.HeaderHash? && h != GenesisHash(p) && U[h].hash == h
    requires (h.previous == GenesisHash(p) || h.previous in U) && Extends(p, RowsOf(p, U, h.previous), U[h])
    ensures ValidHome(p, U, h)
  {
    hide Extends, RowsOf;
  }

  // ---------------------------------------------------------------- what a node holds

  predicate Holds(U: Blocks, b: Block) { b.hash in U && U[b.hash] == b }

  /** The rows above genesis are blocks of U. */
  ghost predicate MainIn(U: Blocks, rows: seq<Row>) {
    forall k :: 1 <= k < |rows| ==> Holds(U, rows[k].block)
  }

  predicate Stored(rows: seq<Row>, side: map<Hash, SideRow>, h: Hash) {
    FindRow(rows, h).Some? || h in side
  }

  /** A side row is a block of U judged valid, off the best chain, with its parent stored and no more work
      than the given bound. */
  predicate SideHome(U: Blocks, rows: seq<Row>, side: map<Hash, SideRow>, h: Hash, bound: int)
    requires h in side
  {
    && h in U && side[h].block == U[h] && side[h].valid && h.HeaderHash?
    && FindRow(rows, h).None? && Stored(rows, side, h.previous) && side[h].totalWork <= bound
  }

  ghost predicate SideIn(U: Blocks, rows: seq<Row>, side: map<Hash, SideRow>, bound: int) {
    forall h :: h in side ==> SideHome(U, rows, side, h, bound)
  }

  /** What a node that was only given blocks of U, and refused none, holds in its tables. */
  ghost predicate Regime(p: Params, U: Blocks, st: Store)
    requires ValidParams(p)
  {
    StoreInv(p, st) && st.rows != [] && MainIn(U, st.rows) && SideIn(U, st.rows, st.side, TipWork(st))
  }

  lemma MainPrefix(U: Blocks, rows: seq<Row>, k: nat)
    requires MainIn(U, rows) && k <= |rows|
    ensures MainIn(U, rows[..k])
  {
    hide Holds;
  }

  /** A valid chain of blocks of U is the chain of its tip. */
  lemma {:induction false} RowsDetermined(p: Params, U: Blocks, rows: seq<Row>)
    requires ValidParams(p) && ValidUniverse(p, U) && ValidRows(p, rows) && MainIn(U, rows)
    ensures rows == RowsOf(p, U, rows[|rows| - 1].block.hash)
  {
    hide *;
    var n := |rows| - 1;
    ValidGenesis(p, rows);
    if n > 0 {
      ValidAt(p, rows, n);
      MainPrefix(U, rows, n);
      RowsDetermined(p, U, rows[..n]);
      InUniverse(U, rows, n);
      HomeParts(p, U, rows[n].block.hash);
      RowsLinked(p, rows, n);
      assert rows == rows[..n] + [rows[n]];
    } else {
      RowsOfGenesis(p, U);
    }
  }

  lemma RowsOfGenesis(p: Params, U: Blocks)
    ensures RowsOf(p, U, GenesisHash(p)) == [GenesisRow(p)] && GenesisRow(p).block.hash == GenesisHash(p)
  {}

  lemma InUniverse(U: Blocks, rows: seq<Row>, k: nat)
    requires MainIn(U, rows) && 1 <= k < |rows|
    ensures rows[k].block.hash in U && U[rows[k].block.hash] == rows[k].block
  {
    assert Holds(U, rows[k].block);
  }

  /** Everything above x on the way down from a row is a row. */
  lemma {:induction false} AncestorIsRow(p: Params, rows: seq<Row>, k: nat, x: Hash)
    requires ValidParams(p) && ValidRows(p, rows) && k < |rows|
    requires x.HeaderHash? && AncestorOrSelf(x, rows[k].block.hash)
    ensures FindRow(rows, x).Some?
    decreases k
  {
    hide ValidRows, WellFormedBlock, Linked, Work;
    RowsLinked(p, rows, k);
    if x != rows[k].block.hash {
      if k > 0 {
        AncestorIsRow(p, rows, k - 1, x);
      } else {
        ValidGenesis(p, rows);
      }
    }
  }

  /** A block of U that is off the best chain is high enough for every depth limit. */
  lemma NotTooDeep(p: Params, U: Blocks, rows: seq<Row>, x: Hash)
    requires ValidParams(p) && ValidUniverse(p, U) && Shallow(p, U) && ValidRows(p, rows) && MainIn(U, rows)
    requires x in U && FindRow(rows, x).None?
    ensures x.HeaderHash? && x.height >= 1 && |rows| - 1 < x.height + p.maxReorgDepth
  {
    hide ValidRows, ValidUniverse, RowsOf, WellFormedBlock, Linked, Work;
    HomeParts(p, U, x);
    var n := |rows| - 1;
    if n > 0 {
      InUniverse(U, rows, n);
      RowsLinked(p, rows, n);
      HomeParts(p, U, rows[n].block.hash);
      if AncestorOrSelf(x, rows[n].block.hash) {
        AncestorIsRow(p, rows, n, x);
      }
    }
  }

  lemma KeysFit(U: Blocks, keys: set<Hash>)
    requires forall h :: h in keys ==> h in U
    ensures |keys| <= |U|
  {
    assert keys <= U.Keys;
    SubsetSize(keys, U.Keys);
    assert |U| == |U.Keys|;
  }

  // ---------------------------------------------------------------- connecting never fails

  /** A block of U connects on its own ancestry. */
  lemma HomeConnects(p: Params, U: Blocks, st: Store, b: Block, now: int, totalWork: int)
    requires ValidParams(p) && ValidUniverse(p, U) && OnTime(p, b, now)
    requires ChainInv(p, st) && st.rows != [] && MainIn(U, st.rows) && Holds(U, b) && b.previous == TipHash(st)
    ensures Connect(p, st, b, now, totalWork).Ok?
  {
    hide *;
    ChainInvParts(p, st);
    HoldsParts(U, b);
    HomeParts(p, U, b.hash);
    RowsDetermined(p, U, st.rows);
    TipParts(st);
    TipWorkIsWork(p, st);
    HomeLinked(p, U, b.hash);
    HeightStep(p, b.hash);
    OnTimeIs(p, b, now);
    ConnectExact(p, st, b, now, totalWork);
  }

  lemma HoldsParts(U: Blocks, b: Block)
    requires Holds(U, b)
    ensures b.hash in U && U[b.hash] == b
  {}

  lemma HeightStep(p: Params, h: Hash)
    requires ValidParams(p) && Linked(p, h) && h != GenesisHash(p)
    ensures h.HeaderHash? && h.height == Height(h.previous) + 1
  {}

  lemma OnTimeIs(p: Params, b: Block, now: int)
    ensures OnTime(p, b, now) <==> b.timestamp <= now + p.maxFutureSeconds
  {}

  /** A stored branch of blocks of U, each of them on time, connects to its end. */
  lemma {:induction false} BranchConnects(p: Params, U: Blocks, st: Store, path: seq<Block>, totals: seq<int>, now: int)
    requires ValidParams(p) && ValidUniverse(p, U)
    requires ChainInv(p, st) && SideInv(p, st) && st.rows != [] && MainIn(U, st.rows)
    requires |path| == |totals| && PathOk(p, path, totals, TipHash(st))
    requires forall i :: 0 <= i < |path| ==> Holds(U, path[i]) && OnTime(p, path[i], now)
    ensures ConnectPath(p, st, path, totals, now).Connected?
    ensures MainIn(U, ConnectPath(p, st, path, totals, now).store.rows)
    decreases |path|
  {
    hide *;
    if path == [] {
      ConnectPathNone(p, st, path, totals, now);
    } else {
      var n := |path| - 1;
      ConnectPathStep(p, st, path, totals, now);
      PathPrefix(p, path, totals, TipHash(st), n);
      BranchConnects(p, U, st, path[..n], totals[..n], now);
      ConnectPathFacts(p, st, path[..n], totals[..n], now);
      var before := ConnectPath(p, st, path[..n], totals[..n], now).store;
      PathAt(p, path, totals, TipHash(st), n);
      assert n > 0 ==> path[..n][n - 1] == path[n - 1];
      HomeConnects(p, U, before, path[n], now, totals[n]);
      ConnectPathFacts(p, st, path, totals, now);
      PathConnectedIs(st, path, ConnectPath(p, st, path, totals, now).store);
      MainAppend(U, st.rows, path, ConnectPath(p, st, path, totals, now).store.rows);
    }
  }

  lemma MainAppend(U: Blocks, rows: seq<Row>, path: seq<Block>, after: seq<Row>)
    requires rows != [] && MainIn(U, rows) && forall i :: 0 <= i < |path| ==> Holds(U, path[i])
    requires |after| == |rows| + |path| && after[..|rows|] == rows
    requires forall i :: 0 <= i < |path| ==> after[|rows| + i].block == path[i]
    ensures MainIn(U, after)
  {
    hide Holds;
    forall k | 1 <= k < |after|
      ensures Holds(U, after[k].block)
    {
      if k < |rows| {
        assert after[k] == after[..|rows|][k];
      } else {
        assert after[|rows| + (k - |rows|)].block == path[k - |rows|];
      }
    }
  }
}
