/** Walking a stored branch, rolling back to its fork and connecting it. */
module Branches {
  import opened Types
  import opened Ledger
  import opened Headers
  import opened Chain
  import opened Tables
  import opened TableFacts
  import opened HeaderWalk
  import opened SideFacts
  import opened Connecting

  // ---------------------------------------------------------------- the walk

  /** Side blocks from just above `start` up to the requested one, oldest first, with their stored work. */
  datatype Walk = Walk(path: seq<Block>, totals: seq<int>, start: Hash) | Tainted

  ghost function SideWalk(p: Params, st: Store, h: Hash): Walk
    requires ValidParams(p) && SideInv(p, st)
    decreases h
  {
    if h !in st.side then Walk([], [], h)
    else if !st.side[h].valid then Tainted
    else
      assert SideRowOk(p, h, st.side[h]);
      var below := SideWalk(p, st, st.side[h].block.previous);
      if below.Tainted? then Tainted
      else Walk(below.path + [st.side[h].block], below.totals + [st.side[h].totalWork], below.start)
  }

  ghost predicate PathLink(p: Params, path: seq<Block>, totals: seq<int>, start: Hash, i: nat)
    requires ValidParams(p) && |path| == |totals| && i < |path|
  {
    && WellFormedBlock(p, path[i]) && Linked(p, path[i].hash) && path[i].hash != GenesisHash(p)
    && totals[i] == Work(p, path[i].hash)
    && path[i].previous == (if i == 0 then start else path[i - 1].hash)
  }

  /** Consecutive linked blocks on top of `start`, with their exact work. */
  ghost predicate PathOk(p: Params, path: seq<Block>, totals: seq<int>, start: Hash)
    requires ValidParams(p)
  {
    && |path| == |totals|
    && forall i :: 0 <= i < |path| ==> PathLink(p, path, totals, start, i)
  }

  lemma {:induction false} SideWalkFacts(p: Params, st: Store, h: Hash)
    requires ValidParams(p) && SideInv(p, st) && SideWalk(p, st, h).Walk?
    ensures
      var w := SideWalk(p, st, h);
      && PathOk(p, w.path, w.totals, w.start) && w.start !in st.side
      && (h in st.side <==> w.path != []) && (w.path == [] ==> w.start == h)
      && (w.path != [] ==> w.path[|w.path| - 1].hash == h)
      && (forall i :: 0 <= i < |w.path| ==>
            w.path[i].hash in st.side && st.side[w.path[i].hash].block == w.path[i] && st.side[w.path[i].hash].valid)
    decreases h
  {
    hide WellFormedBlock, Linked, Work;
    if h in st.side {
      SideRowFacts(p, h, st.side[h]);
      SideWalkFacts(p, st, st.side[h].block.previous);
      var w, below := SideWalk(p, st, h), SideWalk(p, st, st.side[h].block.previous);
      forall i | 0 <= i < |w.path|
        ensures PathLink(p, w.path, w.totals, w.start, i)
      {
        if i < |below.path| {
          assert PathLink(p, below.path, below.totals, below.start, i);
        }
      }
    }
  }

  lemma SideRowFacts(p: Params, h: Hash, r: SideRow)
    requires ValidParams(p) && SideRowOk(p, h, r)
    ensures h.HeaderHash? && r.block.previous == h.previous && r.block.hash == h && h != GenesisHash(p)
    ensures WellFormedBlock(p, r.block) && Linked(p, h) && r.totalWork == Work(p, h)
    ensures r.block.height == h.height && r.block.height == Height(h.previous) + 1
    ensures r.block.difficulty == h.difficulty == Expected(p, h.previous) && Linked(p, h.previous)
    ensures Work(p, h) == Work(p, h.previous) + h.difficulty
  {}

  // ---------------------------------------------------------------- rolling back

  /** Disconnect tips until the row at `height` is the tip. */
  ghost function DisconnectTo(p: Params, st: Store, height: nat): (r: Store)
    requires ValidParams(p) && ChainInv(p, st) && height < |st.rows|
    decreases |st.rows|
  {
    if height == |st.rows| - 1 then st
    else
      DisconnectKeepsInv(p, st);
      DisconnectTo(p, DisconnectTip(st), height)
  }

  /** The tip row, kept as a side row, satisfies the side invariant. */
  lemma TipBecomesSide(p: Params, st: Store)
    requires ValidParams(p) && ChainInv(p, st) && |st.rows| > 1
    ensures SideRowOk(p, TipHash(st), SideRow(TipRow(st).block, TipWork(st), true, 0))
    ensures TipHash(st) == st.rows[|st.rows| - 1].block.hash
  {
    hide WellFormedBlock, ValidRows, Linked, Work;
    RowsLinked(p, st.rows, |st.rows| - 1);
    LinkedHeights(p, TipHash(st));
  }

  lemma DisconnectKeepsSide(p: Params, st: Store)
    requires ValidParams(p) && ChainInv(p, st) && SideInv(p, st) && |st.rows| > 1
    requires TipHeight(st) in st.undos
    ensures SideInv(p, DisconnectTip(st))
  {
    hide *;
    ChainInvParts(p, st);
    TipParts(st);
    TipBecomesSide(p, st);
    DisconnectParts(st);
    SideAddKeeps(p, st, TipRow(st).block, TipWork(st), 0);
    SideAddParts(st, TipRow(st).block, TipWork(st), 0);
    SideInvParts(p, SideAdd(st, TipRow(st).block, TipWork(st), 0));
    SideInvParts(p, DisconnectTip(st));
  }

  lemma SideAddParts(st: Store, b: Block, totalWork: int, received: int)
    ensures
      var after := SideAdd(st, b, totalWork, received);
      && (b.hash in st.side ==> after == st)
      && (b.hash !in st.side ==>
            after == st.(side := st.side[b.hash := SideRow(b, totalWork, true, received)],
                         sideOrder := st.sideOrder + [b.hash]))
  {}

  /** Rolling back restores the tables of the fork and only adds the rolled-back blocks as side rows. */
  lemma {:induction false} DisconnectToFacts(p: Params, st: Store, height: nat)
    requires ValidParams(p) && ChainInv(p, st) && SideInv(p, st) && height < |st.rows|
    ensures
      var base := DisconnectTo(p, st, height);
      && ChainInv(p, base) && SideInv(p, base) && base.rows == st.rows[..height + 1]
      && base.mempool == st.mempool
      && (forall h :: h in st.side ==> h in base.side && base.side[h] == st.side[h])
      && (forall h :: h in base.side && h !in st.side ==>
            exists i :: height < i < |st.rows| && st.rows[i].block.hash == h
              && base.side[h] == SideRow(st.rows[i].block, st.rows[i].totalWork, true, 0))
      && (forall i :: height < i < |st.rows| ==> st.rows[i].block.hash in base.side)
    decreases |st.rows|
  {
    hide *;
    ChainInvParts(p, st);
    DisconnectToStep(p, st, height);
    if height == |st.rows| - 1 {
      assert st.rows[..height + 1] == st.rows;
    } else {
      DisconnectKeepsInv(p, st);
      DisconnectKeepsSide(p, st);
      DisconnectParts(st);
      TipParts(st);
      var next := DisconnectTip(st);
      DisconnectToFacts(p, next, height);
      assert next.rows[..height + 1] == st.rows[..height + 1];
      assert forall i :: 0 <= i < |next.rows| ==> next.rows[i] == st.rows[i];
    }
  }

  lemma DisconnectToStep(p: Params, st: Store, height: nat)
    requires ValidParams(p) && ChainInv(p, st) && height < |st.rows|
    ensures height == |st.rows| - 1 ==> DisconnectTo(p, st, height) == st
    ensures height < |st.rows| - 1 ==>
      && TipHeight(st) in st.undos && ChainInv(p, DisconnectTip(st)) && |DisconnectTip(st).rows| == |st.rows| - 1
      && DisconnectTo(p, st, height) == DisconnectTo(p, DisconnectTip(st), height)
  {
    hide ChainInv, DisconnectTip;
    if height < |st.rows| - 1 {
      DisconnectKeepsInv(p, st);
    }
  }

  // ---------------------------------------------------------------- connecting a branch

  datatype PathResult = Connected(store: Store) | FailedAt(index: nat, code: Code)

  /** Connect blocks in order, removing each from the side table, until one is refused. */
  function ConnectPath(p: Params, st: Store, path: seq<Block>, totals: seq<int>, now: int): (r: PathResult)
    requires ValidParams(p) && st.rows != [] && |path| == |totals|
    ensures r.Connected? ==> r.store.rows != []
    ensures r.FailedAt? ==> r.index < |path|
  {
    if path == [] then Connected(st)
    else
      var n := |path| - 1;
      var before := ConnectPath(p, st, path[..n], totals[..n], now);
      if before.FailedAt? then before
      else
        var next := Connect(p, before.store, path[n], now, totals[n]);
        if next.Refused? then FailedAt(n, next.code)
        else
          ConnectParts(p, before.store, path[n], now, totals[n]);
          Connected(SideRemove(next.value, path[n].hash))
  }

  lemma ConnectPathStep(p: Params, st: Store, path: seq<Block>, totals: seq<int>, now: int)
    requires ValidParams(p) && st.rows != [] && |path| == |totals| > 0
    ensures
      var n := |path| - 1;
      var r, before := ConnectPath(p, st, path, totals, now), ConnectPath(p, st, path[..n], totals[..n], now);
      && (before.FailedAt? ==> r == before)
      && (before.Connected? ==>
            var next := Connect(p, before.store, path[n], now, totals[n]);
            && (next.Refused? ==> r == FailedAt(n, next.code))
            && (next.Ok? ==> r == Connected(SideRemove(next.value, path[n].hash))))
  {
    hide Connect, SideRemove;
  }

  lemma SideRemoveParts(st: Store, h: Hash)
    ensures
      var after := SideRemove(st, h);
      && after == st.(side := st.side - {h}, sideOrder := after.sideOrder)
  {
    hide Without;
  }

  lemma SideRemoveKeepsChain(p: Params, st: Store, h: Hash)
    requires ValidParams(p) && ChainInv(p, st)
    ensures ChainInv(p, SideRemove(st, h))
  {
    hide ValidRows, Agree, Without;
  }

  lemma PathPrefix(p: Params, path: seq<Block>, totals: seq<int>, start: Hash, n: nat)
    requires ValidParams(p) && PathOk(p, path, totals, start) && n <= |path|
    ensures PathOk(p, path[..n], totals[..n], start)
  {
    hide WellFormedBlock, Linked, Work;
    forall i | 0 <= i < n
      ensures PathLink(p, path[..n], totals[..n], start, i)
    {
      assert PathLink(p, path, totals, start, i);
    }
  }

  lemma PathLengths(p: Params, path: seq<Block>, totals: seq<int>, start: Hash)
    requires ValidParams(p) && PathOk(p, path, totals, start)
    ensures |path| == |totals|
  {}

  lemma PathAt(p: Params, path: seq<Block>, totals: seq<int>, start: Hash, i: nat)
    requires ValidParams(p) && PathOk(p, path, totals, start) && i < |path|
    ensures WellFormedBlock(p, path[i]) && Linked(p, path[i].hash) && path[i].hash != GenesisHash(p)
    ensures totals[i] == Work(p, path[i].hash) && path[i].hash == path[i].HeaderDigest()
    ensures path[i].previous == (if i == 0 then start else path[i - 1].hash)
    ensures path[i].difficulty == Expected(p, path[i].previous)
    ensures totals[i] == Work(p, path[i].previous) + path[i].difficulty
    ensures path[i].height == Height(path[i].previous) + 1 && Linked(p, path[i].previous)
  {
    assert PathLink(p, path, totals, start, i);
  }

  /** `after` is `st` with the path connected on top and removed from the side table. */
  ghost predicate PathConnected(st: Store, path: seq<Block>, after: Store) {
    && after.mempool == st.mempool
    && |after.rows| == |st.rows| + |path| && after.rows[..|st.rows|] == st.rows
    && (forall i :: 0 <= i < |path| ==> after.rows[|st.rows| + i].block == path[i])
    && (forall h :: h in after.side <==> h in st.side && forall i :: 0 <= i < |path| ==> path[i].hash != h)
    && (forall h :: h in after.side ==> after.side[h] == st.side[h])
  }

  lemma PathConnectedStep(st: Store, path: seq<Block>, before: Store, after: Store)
    requires path != []
    requires PathConnected(st, path[..|path| - 1], before)
    requires |after.rows| == |before.rows| + 1 && after.rows[..|before.rows|] == before.rows
    requires after.rows[|before.rows|].block == path[|path| - 1]
    requires after.side == before.side - {path[|path| - 1].hash} && after.mempool == before.mempool
    ensures PathConnected(st, path, after)
  {
    var n := |path| - 1;
    forall i | 0 <= i < |before.rows|
      ensures after.rows[i] == before.rows[i]
    {
      assert after.rows[..|before.rows|][i] == before.rows[i];
    }
    assert after.rows[..|st.rows|] == before.rows[..|st.rows|];
    forall i | 0 <= i < |path|
      ensures after.rows[|st.rows| + i].block == path[i]
    {
      if i < n {
        assert after.rows[|st.rows| + i] == before.rows[|st.rows| + i] && path[..n][i] == path[i];
      }
    }
    forall h
      ensures h in after.side <==> h in st.side && forall i :: 0 <= i < |path| ==> path[i].hash != h
    {
      if h in st.side && forall i :: 0 <= i < |path| ==> path[i].hash != h {
        assert forall i :: 0 <= i < n ==> path[..n][i] == path[i];
      }
      if h in after.side {
        forall i | 0 <= i < |path|
          ensures path[i].hash != h
        {
          assert i < n ==> path[..n][i] == path[i];
        }
      }
    }
  }

  lemma ConnectPathNone(p: Params, st: Store, path: seq<Block>, totals: seq<int>, now: int)
    requires ValidParams(p) && st.rows != [] && |path| == |totals| == 0
    ensures ConnectPath(p, st, path, totals, now) == Connected(st)
  {}

  lemma NoneConnected(st: Store)
    ensures PathConnected(st, [], st)
  {
    assert st.rows[..|st.rows|] == st.rows;
  }

  /** A connected branch leaves a valid chain ending in its last block: difficulties need no re-check. */
  lemma {:induction false} ConnectPathFacts(p: Params, st: Store, path: seq<Block>, totals: seq<int>, now: int)
    requires ValidParams(p) && ChainInv(p, st) && SideInv(p, st)
    requires PathOk(p, path, totals, TipHash(st))
    requires ConnectPath(p, st, path, totals, now).Connected?
    ensures
      var after := ConnectPath(p, st, path, totals, now).store;
      && ChainInv(p, after) && SideInv(p, after) && PathConnected(st, path, after)
      && TipHash(after) == (if path == [] then TipHash(st) else path[|path| - 1].hash)
    decreases |path|
  {
    hide *;
    ChainInvParts(p, st);
    PathLengths(p, path, totals, TipHash(st));
    if path == [] {
      ConnectPathNone(p, st, path, totals, now);
      NoneConnected(st);
    } else {
      ConnectPathStep(p, st, path, totals, now);
      var n := |path| - 1;
      PathPrefix(p, path, totals, TipHash(st), n);
      ConnectPathFacts(p, st, path[..n], totals[..n], now);
      var before := ConnectPath(p, st, path[..n], totals[..n], now).store;
      PathAt(p, path, totals, TipHash(st), n);
      assert n > 0 ==> path[..n][n - 1] == path[n - 1];
      ConnectOnTip(p, before, path[n], totals[n], now);
      var next := Connect(p, before, path[n], now, totals[n]).value;
      SideRemoveKeepsChain(p, next, path[n].hash);
      SideInvSame(p, before, next);
      SideRemoveKeeps(p, next, path[n].hash);
      SideRemoveParts(next, path[n].hash);
      var after := SideRemove(next, path[n].hash);
      assert after.rows[..|before.rows|] == before.rows;
      PathConnectedStep(st, path, before, after);
      TipParts(after);
      TipParts(next);
    }
  }

  lemma SideInvSame(p: Params, a: Store, b: Store)
    requires ValidParams(p) && SideInv(p, a) && a.side == b.side && a.sideOrder == b.sideOrder
    ensures SideInv(p, b)
  {
    SideInvParts(p, a);
    SideInvParts(p, b);
  }

  /** Connecting a linked block on its parent keeps every table equal to its replay. */
  lemma ConnectOnTip(p: Params, st: Store, b: Block, totalWork: int, now: int)
    requires ValidParams(p) && ChainInv(p, st)
    requires WellFormedBlock(p, b) && Linked(p, b.hash) && b.hash != GenesisHash(p) && b.previous == TipHash(st)
    requires b.hash == b.HeaderDigest()
    requires totalWork == Work(p, b.hash) && Connect(p, st, b, now, totalWork).Ok?
    ensures
      var after := Connect(p, st, b, now, totalWork).value;
      && ChainInv(p, after) && Extends(p, st.rows, b) && after.rows == st.rows + [RowOf(p, st.rows, b)]
      && RowOf(p, st.rows, b).block == b
      && after.side == st.side && after.sideOrder == st.sideOrder && after.mempool == st.mempool
      && TipHash(after) == b.hash
  {
    hide *;
    ChainInvParts(p, st);
    TipParts(st);
    RowsLinked(p, st.rows, |st.rows| - 1);
    ChildFacts(p, b);
    ConnectKeepsInv(p, st, b, now, totalWork);
    ConnectParts(p, st, b, now, totalWork);
    RowOfIs(p, st.rows, b);
  }

  lemma ChildFacts(p: Params, b: Block)
    requires ValidParams(p) && Linked(p, b.hash) && b.hash != GenesisHash(p) && b.hash == b.HeaderDigest()
    ensures b.difficulty == Expected(p, b.previous) && b.height == Height(b.previous) + 1
    ensures Work(p, b.hash) == Work(p, b.previous) + b.difficulty && Linked(p, b.previous)
  {}

  // ---------------------------------------------------------------- undo inverts connect

  /** Connecting any number of blocks and disconnecting as many restores accounts, supply, both indexes,
      undo rows and tip, and leaves each of those blocks behind as a side row with its work. */
  lemma UndoInvertsConnect(p: Params, st: Store, path: seq<Block>, totals: seq<int>, now: int)
    requires ValidParams(p) && ChainInv(p, st) && SideInv(p, st) && st.rows != []
    requires |path| == |totals| && PathOk(p, path, totals, TipHash(st))
    requires ConnectPath(p, st, path, totals, now).Connected?
    ensures
      var after := ConnectPath(p, st, path, totals, now).store;
      && ChainInv(p, after) && |after.rows| == |st.rows| + |path|
      && var back := DisconnectTo(p, after, |st.rows| - 1);
      && Agree(back.accounts, st.accounts) && back.minted == st.minted
      && back.index == st.index && back.addresses == st.addresses && back.undos == st.undos
      && back.rows == st.rows && back.mempool == st.mempool
      && (forall i :: 0 <= i < |path| ==>
            path[i].hash in back.side && back.side[path[i].hash] == SideRow(path[i], totals[i], true, 0))
      && (forall h :: h in back.side <==> h in st.side || exists i :: 0 <= i < |path| && path[i].hash == h)
      && (forall h :: h in st.side && (forall i :: 0 <= i < |path| ==> path[i].hash != h) ==>
            back.side[h] == st.side[h])
  {
    hide *;
    ConnectPathFacts(p, st, path, totals, now);
    var after := ConnectPath(p, st, path, totals, now).store;
    PathConnectedIs(st, path, after);
    DisconnectToFacts(p, after, |st.rows| - 1);
    var back := DisconnectTo(p, after, |st.rows| - 1);
    SameRowsSameTables(p, back, st);
    ChainInvParts(p, after);
    forall i | 0 <= i < |path|
      ensures path[i].hash in back.side && back.side[path[i].hash] == SideRow(path[i], totals[i], true, 0)
    {
      BackToSide(p, st, path, totals, after, back, i);
    }
    forall h | h in back.side && h !in st.side
      ensures exists i :: 0 <= i < |path| && path[i].hash == h
    {
      var j :| |st.rows| - 1 < j < |after.rows| && after.rows[j].block.hash == h;
      assert path[j - |st.rows|].hash == after.rows[|st.rows| + (j - |st.rows|)].block.hash;
    }
  }

  /** Block i of the branch is a side row again. */
  lemma BackToSide(p: Params, st: Store, path: seq<Block>, totals: seq<int>, after: Store, back: Store, i: nat)
    requires ValidParams(p) && st.rows != [] && PathOk(p, path, totals, TipHash(st)) && i < |path| == |totals|
    requires ValidRows(p, after.rows) && |after.rows| == |st.rows| + |path| && after.rows[|st.rows| + i].block == path[i]
    requires path[i].hash in back.side && path[i].hash !in after.side
    requires forall h :: h in back.side && h !in after.side ==>
      exists j :: |st.rows| - 1 < j < |after.rows| && after.rows[j].block.hash == h
        && back.side[h] == SideRow(after.rows[j].block, after.rows[j].totalWork, true, 0)
    ensures back.side[path[i].hash] == SideRow(path[i], totals[i], true, 0)
  {
    hide *;
    var j :| |st.rows| - 1 < j < |after.rows| && after.rows[j].block.hash == path[i].hash
             && back.side[path[i].hash] == SideRow(after.rows[j].block, after.rows[j].totalWork, true, 0);
    HashesDistinct(p, after.rows, j, |st.rows| + i);
    RowsLinked(p, after.rows, j);
    PathAt(p, path, totals, TipHash(st), i);
  }

  lemma PathConnectedIs(st: Store, path: seq<Block>, after: Store)
    requires PathConnected(st, path, after)
    ensures after.mempool == st.mempool
    ensures |after.rows| == |st.rows| + |path| && after.rows[..|st.rows|] == st.rows
    ensures forall i :: 0 <= i < |path| ==> after.rows[|st.rows| + i].block == path[i]
    ensures forall h :: h in after.side <==> h in st.side && forall i :: 0 <= i < |path| ==> path[i].hash != h
    ensures forall h :: h in after.side ==> after.side[h] == st.side[h]
  {}
}
