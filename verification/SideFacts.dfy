/** Side-block operations keep every stored side row well formed, linked and correctly weighted. */
module SideFacts {
  import opened Types
  import opened Chain
  import opened Tables
  import opened TableFacts

  lemma {:induction false} WithoutFacts(s: seq<Hash>, x: Hash)
    requires forall i, j :: 0 <= i < j < |s| ==> s[i] != s[j]
    ensures
      var r := Without(s, x);
      && (forall i, j :: 0 <= i < j < |r| ==> r[i] != r[j])
      && |r| == |s| - (if x in s then 1 else 0)
  {
    if s != [] {
      assert forall i :: 0 <= i < |s[1..]| ==> s[1..][i] == s[i + 1];
      WithoutFacts(s[1..], x);
      assert s[0] !in s[1..];
    }
  }

  lemma {:induction false} FilterOrderFacts(s: seq<Hash>, keep: set<Hash>)
    requires forall i, j :: 0 <= i < j < |s| ==> s[i] != s[j]
    ensures
      var r := FilterOrder(s, keep);
      && (forall i, j :: 0 <= i < j < |r| ==> r[i] != r[j])
      && ((forall x :: x in s ==> x in keep) ==> r == s)
  {
    if s != [] {
      assert forall i :: 0 <= i < |s[1..]| ==> s[1..][i] == s[i + 1];
      FilterOrderFacts(s[1..], keep);
    }
  }

  /** The order lists each stored hash once. */
  ghost predicate Ordered(order: seq<Hash>, side: map<Hash, SideRow>) {
    && (forall x :: x in order <==> x in side)
    && (forall i, j :: 0 <= i < j < |order| ==> order[i] != order[j])
  }

  ghost predicate RowsOk(p: Params, side: map<Hash, SideRow>)
    requires ValidParams(p)
  {
    forall h :: h in side ==> SideRowOk(p, h, side[h])
  }

  lemma SideInvParts(p: Params, st: Store)
    requires ValidParams(p)
    ensures SideInv(p, st) <==> RowsOk(p, st.side) && Ordered(st.sideOrder, st.side)
  {
    hide SideRowOk;
  }

  lemma SideAddKeeps(p: Params, st: Store, b: Block, totalWork: int, received: int)
    requires ValidParams(p) && SideInv(p, st)
    requires SideRowOk(p, b.hash, SideRow(b, totalWork, true, received))
    ensures SideInv(p, SideAdd(st, b, totalWork, received))
  {
    hide SideRowOk;
  }

  lemma SideRemoveKeeps(p: Params, st: Store, h: Hash)
    requires ValidParams(p) && SideInv(p, st)
    ensures SideInv(p, SideRemove(st, h))
  {
    hide SideRowOk;
    WithoutFacts(st.sideOrder, h);
  }

  lemma MarkedRowOk(p: Params, h: Hash, r: SideRow)
    requires ValidParams(p) && SideRowOk(p, h, r)
    ensures SideRowOk(p, h, r.(valid := false))
  {
    hide WellFormedBlock;
  }

  lemma SideMarkKeeps(p: Params, st: Store, hashes: set<Hash>)
    requires ValidParams(p) && SideInv(p, st)
    ensures SideInv(p, SideMarkInvalid(st, hashes))
  {
    hide SideRowOk;
    var after := SideMarkInvalid(st, hashes);
    forall h | h in after.side
      ensures SideRowOk(p, h, after.side[h])
    {
      MarkedRowOk(p, h, st.side[h]);
    }
  }

  lemma {:induction false} EvictFacts(order: seq<Hash>, side: map<Hash, SideRow>, count: nat)
    requires Ordered(order, side)
    ensures
      var r := EvictOldest(order, side, count);
      && Ordered(r.1, r.0) && (forall h :: h in r.0 ==> h in side && r.0[h] == side[h])
    decreases count
  {
    hide Oldest, Without, Ordered;
    OrderedParts(order, side);
    if count != 0 && order != [] {
      var h := Oldest(order, side);
      OrderedWithout(order, side, h);
      OrderedParts(Without(order, h), side - {h});
      EvictFacts(Without(order, h), side - {h}, count - 1);
    }
  }

  lemma OrderedParts(order: seq<Hash>, side: map<Hash, SideRow>)
    requires Ordered(order, side)
    ensures forall x :: x in order <==> x in side
  {}

  lemma OrderedWithout(order: seq<Hash>, side: map<Hash, SideRow>, h: Hash)
    requires Ordered(order, side)
    ensures Ordered(Without(order, h), side - {h})
  {
    WithoutFacts(order, h);
  }

  lemma SidePruneParts(st: Store, minHeight: int, maxCount: int)
    requires Ordered(st.sideOrder, st.side)
    ensures
      var after := SidePrune(st, minHeight, maxCount);
      && after == st.(side := after.side, sideOrder := after.sideOrder)
      && Ordered(after.sideOrder, after.side)
      && (forall h :: h in after.side ==> h in st.side && after.side[h] == st.side[h])
  {
    hide EvictOldest, FilterOrder;
    var kept := map h | h in st.side && st.side[h].block.height >= minHeight :: st.side[h];
    var order := FilterOrder(st.sideOrder, kept.Keys);
    FilterOrderFacts(st.sideOrder, kept.Keys);
    EvictFacts(order, kept, if |kept| > maxCount then |kept| - maxCount else 0);
  }

  /** No row that was kept is older than one that was dropped. */
  ghost predicate OldestGone(left: map<Hash, SideRow>, side: map<Hash, SideRow>) {
    forall k, e :: k in left && e in side && e !in left ==> k in side && !Older(side[k], side[e])
  }

  lemma GoneStep(left: map<Hash, SideRow>, side: map<Hash, SideRow>, h: Hash)
    requires h in side && OldestGone(left, side - {h}) && (forall k :: k in left ==> k in side - {h})
    requires forall x :: x in side ==> !Older(side[x], side[h])
    ensures OldestGone(left, side)
  {
    hide Older;
  }

  lemma EvictStep(order: seq<Hash>, side: map<Hash, SideRow>, count: nat)
    requires Ordered(order, side)
    ensures count == 0 || order == [] ==> EvictOldest(order, side, count) == (side, order)
    ensures count != 0 && order != [] ==>
      (forall x :: x in order ==> x in side)
      && var h := Oldest(order, side);
      && h in side && (forall x :: x in side ==> !Older(side[x], side[h]))
      && Ordered(Without(order, h), side - {h}) && (forall x :: x in Without(order, h) ==> x in side - {h})
      && EvictOldest(order, side, count) == EvictOldest(Without(order, h), side - {h}, count - 1)
  {
    hide Oldest, Without, Ordered, Older;
    OrderedParts(order, side);
    if count != 0 && order != [] {
      OrderedWithout(order, side, Oldest(order, side));
      OrderedParts(Without(order, Oldest(order, side)), side - {Oldest(order, side)});
    }
  }

  /** Eviction removes exactly the requested number, and never a row newer than one it keeps. */
  lemma {:induction false} EvictsTheOldest(order: seq<Hash>, side: map<Hash, SideRow>, count: nat)
    requires Ordered(order, side)
    ensures
      var left := EvictOldest(order, side, count).0;
      |left| == (if count >= |side| then 0 else |side| - count) && OldestGone(left, side)
    decreases count
  {
    hide *;
    OrderedParts(order, side);
    EvictStep(order, side, count);
    EvictFacts(order, side, count);
    NothingGone(side);
    if count != 0 && order != [] {
      var h := Oldest(order, side);
      EvictsTheOldest(Without(order, h), side - {h}, count - 1);
      EvictFacts(Without(order, h), side - {h}, count - 1);
      GoneStep(EvictOldest(order, side, count).0, side, h);
      SizeWithout(side, h);
    } else if order == [] {
      assert side == map[];
    }
  }

  lemma NothingGone(side: map<Hash, SideRow>)
    ensures OldestGone(side, side)
  {}

  lemma SizeWithout(side: map<Hash, SideRow>, h: Hash)
    requires h in side
    ensures |side - {h}| == |side| - 1
  {
    assert (side - {h}).Keys == side.Keys - {h};
    assert |side| == |side.Keys| && |side - {h}| == |(side - {h}).Keys|;
  }

  /** Rows of sufficient height. */
  function HighRows(side: map<Hash, SideRow>, minHeight: int): map<Hash, SideRow> {
    map h | h in side && side[h].block.height >= minHeight :: side[h]
  }

  lemma PruneIs(st: Store, minHeight: int, maxCount: nat)
    requires Ordered(st.sideOrder, st.side)
    ensures
      var high := HighRows(st.side, minHeight);
      var order := FilterOrder(st.sideOrder, high.Keys);
      && Ordered(order, high) && (forall x :: x in order ==> x in high)
      && SidePrune(st, minHeight, maxCount).side
           == EvictOldest(order, high, if |high| > maxCount then |high| - maxCount else 0).0
  {
    hide EvictOldest, FilterOrder;
    FilterOrderFacts(st.sideOrder, HighRows(st.side, minHeight).Keys);
  }

  /** What pruning keeps: only high enough rows, as many of them as the count allows, and none that is
      older than a high enough row it dropped. */
  lemma SidePruneExact(p: Params, st: Store, minHeight: int, maxCount: nat)
    requires ValidParams(p) && SideInv(p, st)
    ensures
      var left, high := SidePrune(st, minHeight, maxCount).side, HighRows(st.side, minHeight);
      && (forall h :: h in left ==> h in high && left[h] == high[h])
      && |left| == (if |high| <= maxCount then |high| else maxCount) && OldestGone(left, high)
  {
    hide *;
    SideInvParts(p, st);
    PruneIs(st, minHeight, maxCount);
    var high := HighRows(st.side, minHeight);
    var order := FilterOrder(st.sideOrder, high.Keys);
    EvictsTheOldest(order, high, if |high| > maxCount then |high| - maxCount else 0);
    EvictFacts(order, high, if |high| > maxCount then |high| - maxCount else 0);
  }

  lemma PruneNothing(st: Store, minHeight: int, maxCount: int)
    requires Ordered(st.sideOrder, st.side)
    requires (forall h :: h in st.side ==> st.side[h].block.height >= minHeight) && |st.side| <= maxCount
    ensures SidePrune(st, minHeight, maxCount) == st
  {
    hide FilterOrder;
    var kept := map h | h in st.side && st.side[h].block.height >= minHeight :: st.side[h];
    assert kept == st.side;
    FilterOrderFacts(st.sideOrder, kept.Keys);
  }

  /** Pruning only forgets rows; it forgets none when all are high enough and few enough. */
  lemma SidePruneFacts(p: Params, st: Store, minHeight: int, maxCount: int)
    requires ValidParams(p) && SideInv(p, st)
    ensures
      var after := SidePrune(st, minHeight, maxCount);
      && SideInv(p, after) && after == st.(side := after.side, sideOrder := after.sideOrder)
      && (forall h :: h in after.side ==> h in st.side && after.side[h] == st.side[h])
      && ((forall h :: h in st.side ==> st.side[h].block.height >= minHeight) && |st.side| <= maxCount ==>
            after == st)
  {
    hide SideRowOk, SidePrune;
    SideInvParts(p, st);
    SidePruneParts(st, minHeight, maxCount);
    SideInvParts(p, SidePrune(st, minHeight, maxCount));
    if (forall h :: h in st.side ==> st.side[h].block.height >= minHeight) && |st.side| <= maxCount {
      PruneNothing(st, minHeight, maxCount);
    }
  }
}
