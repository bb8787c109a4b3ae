/** Block locators: a few hashes of the best chain from which a peer finds where two chains part. */
module Locator {
  import opened Types
  import opened Order
  import opened Headers
  import opened Chain
  import opened Tables

  const CAP: nat := 32

  /** How far below the tip the n-th locator entry lies: ten consecutive, then doubling gaps. */
  function Offset(n: nat): nat {
    if n <= 9 then n else 7 + Pow2(n - 8)
  }

  lemma OffsetStep(n: nat)
    ensures Offset(n + 1) == Offset(n) + (if n < 9 then 1 else Pow2(n - 8))
    ensures Offset(n + 1) > Offset(n)
  {
    assert Pow2(0) == 1 && Pow2(1) == 2 && Pow2(2) == 4;
  }

  lemma {:induction false} OffsetGrows(m: nat, n: nat)
    requires m < n
    ensures Offset(m) < Offset(n)
  {
    OffsetStep(n - 1);
    if m < n - 1 {
      OffsetGrows(m, n - 1);
    }
  }

  lemma Pow2Four(n: nat)
    ensures Pow2(n + 4) == 16 * Pow2(n)
  {
    assert Pow2(n + 2) == 4 * Pow2(n) && Pow2(n + 4) == 4 * Pow2(n + 2);
  }

  lemma LastOffset()
    ensures Offset(CAP - 1) == 0x80_0000 + 7
  {
    assert Pow2(3) == 8;
    Pow2Four(3);
    Pow2Four(7);
    Pow2Four(11);
    Pow2Four(15);
    Pow2Four(19);
  }

  /** The first entry at or beyond a distance below the tip, searching from entry n. */
  function Reach(distance: nat, n: nat): (r: nat)
    requires n == 0 || Offset(n - 1) < distance
    ensures r >= n && Offset(r) >= distance && (r == 0 || Offset(r - 1) < distance)
    decreases if Offset(n) < distance then distance - Offset(n) else 0
  {
    if Offset(n) >= distance then n
    else
      OffsetStep(n);
      Reach(distance, n + 1)
  }

  lemma ReachUnique(distance: nat, n: nat)
    requires Offset(n) >= distance && (n == 0 || Offset(n - 1) < distance)
    ensures n == Reach(distance, 0)
  {
    var r := Reach(distance, 0);
    if n < r && r - 1 > n {
      OffsetGrows(n, r - 1);
    }
    if r < n && n - 1 > r {
      OffsetGrows(r, n - 1);
    }
  }

  /** All heights before the cut: every entry above genesis, then genesis. */
  function Heights(tip: nat): (r: seq<nat>)
    ensures |r| == Reach(tip, 0) + 1 && r[|r| - 1] == 0
    ensures forall n :: 0 <= n < Reach(tip, 0) ==> r[n] == tip - Offset(n) && r[n] > 0
  {
    var k := Reach(tip, 0);
    BelowReach(tip);
    seq(k + 1, n requires 0 <= n <= k => if n < k then tip - Offset(n) else 0)
  }

  lemma BelowReach(tip: nat)
    ensures forall n :: 0 <= n < Reach(tip, 0) ==> Offset(n) < tip
  {
    var k := Reach(tip, 0);
    forall n | 0 <= n < k
      ensures Offset(n) < tip
    {
      if n < k - 1 {
        OffsetGrows(n, k - 1);
      }
    }
  }

  /** What is sent: the first 32 of them. */
  function LocatorOf(tip: nat): (r: seq<nat>)
    ensures |r| <= CAP
  {
    if |Heights(tip)| <= CAP then Heights(tip) else Heights(tip)[..CAP]
  }

  lemma DoubleStep(n: nat)
    ensures n >= 9 ==> Pow2(n - 8) == 2 * Pow2(n - 9)
  {}

  method LocatorHeights(tip: nat) returns (heights: seq<nat>)
    ensures heights == LocatorOf(tip)
  {
    assert Offset(0) == 0 && Pow2(0) == 1;
    hide Offset, Pow2, Reach;
    var step, h: int := 1, tip;
    heights := [];
    while h > 0
      invariant h == tip - Offset(|heights|)
      invariant step == if |heights| <= 9 then 1 else Pow2(|heights| - 9)
      invariant forall n :: 0 <= n < |heights| ==> heights[n] == tip - Offset(n) && heights[n] > 0
      decreases h
    {
      OffsetStep(|heights|);
      DoubleStep(|heights|);
      heights := heights + [h];
      if |heights| >= 10 {
        step := step * 2;
      }
      h := h - step;
    }
    assert |heights| > 0 ==> heights[|heights| - 1] == tip - Offset(|heights| - 1);
    ReachUnique(tip, |heights|);
    heights := heights + [0];
    assert heights == Heights(tip);
    if |heights| > CAP {
      heights := heights[..CAP];
    }
  }

  /** Heights fall strictly from the tip, number at most 32, and reach genesis exactly up to height
      2^23 + 7: above that the cut removes genesis. */
  lemma LocatorShape(tip: nat)
    ensures
      var hs := LocatorOf(tip);
      && 1 <= |hs| <= CAP && hs[0] == tip
      && (forall i, j :: 0 <= i < j < |hs| ==> hs[i] > hs[j])
      && (0 in hs <==> tip <= 0x80_0000 + 7)
      && (0 in hs <==> hs[|hs| - 1] == 0)
  {
    var hs, k := LocatorOf(tip), Reach(tip, 0);
    forall i, j | 0 <= i < j < |hs|
      ensures hs[i] > hs[j]
    {
      OffsetGrows(i, j);
    }
    LastOffset();
    if k <= CAP - 1 {
      if k < CAP - 1 {
        OffsetGrows(k, CAP - 1);
      }
      assert hs[|hs| - 1] == 0;
    } else {
      BelowReach(tip);
      assert Offset(CAP - 1) < tip;
      assert forall i :: 0 <= i < |hs| ==> hs[i] > 0;
    }
  }

  // ---------------------------------------------------------------- the reply

  function LocatorHashes(rows: seq<Row>): (r: seq<Hash>)
    requires rows != []
  {
    var hs := LocatorOf(|rows| - 1);
    LocatorInside(|rows| - 1);
    seq(|hs|, n requires 0 <= n < |hs| => rows[hs[n]].block.hash)
  }

  lemma LocatorInside(tip: nat)
    ensures forall n :: 0 <= n < |LocatorOf(tip)| ==> LocatorOf(tip)[n] <= tip
  {
    LocatorShape(tip);
  }

  /** Height of the first listed hash on the chain, genesis if there is none. */
  function StartOf(rows: seq<Row>, locator: seq<Hash>): nat {
    if locator == [] then 0
    else if FindRow(rows, locator[0]).Some? then FindRow(rows, locator[0]).value
    else StartOf(rows, locator[1..])
  }

  lemma {:induction false} StartOfFirst(rows: seq<Row>, locator: seq<Hash>, n: nat)
    requires n <= |locator| && forall i :: 0 <= i < n ==> FindRow(rows, locator[i]).None?
    ensures n < |locator| && FindRow(rows, locator[n]).Some? ==> StartOf(rows, locator) == FindRow(rows, locator[n]).value
    ensures n == |locator| ==> StartOf(rows, locator) == 0
  {
    if n > 0 {
      assert forall i :: 0 <= i < n - 1 ==> locator[1..][i] == locator[i + 1];
      StartOfFirst(rows, locator[1..], n - 1);
    }
  }

  /** The reply to a locator: a run of the own chain from the first hash both sides share. */
  method BlocksAfterLocator(rows: seq<Row>, locator: seq<Hash>, count: nat) returns (blocks: seq<Block>)
    requires rows != [] && forall k :: 0 <= k < |rows| ==> rows[k].block.height == k
    ensures |blocks| == Min(count, |rows| - 1 - StartOf(rows, locator))
    ensures forall i :: 0 <= i < |blocks| ==> blocks[i] == rows[StartOf(rows, locator) + 1 + i].block
  {
    var start := 0;
    var n := 0;
    while n < |locator|
      invariant 0 <= n <= |locator| && forall i :: 0 <= i < n ==> FindRow(rows, locator[i]).None?
      invariant start == 0
    {
      var found := FindRow(rows, locator[n]);
      if found.Some? {
        start := rows[found.value].block.height;
        break;
      }
      n := n + 1;
    }
    StartOfFirst(rows, locator, n);
    var last := Min(|rows|, start + 1 + count);
    blocks := seq(last - start - 1, i requires 0 <= i < last - start - 1 => rows[start + 1 + i].block);
  }

  /** The two chains carry the same block at `fork` and never again above it. */
  ghost predicate PartAt(ours: seq<Row>, theirs: seq<Row>, fork: nat) {
    && fork < |ours| && fork < |theirs| && ours[fork].block.hash == theirs[fork].block.hash
    && forall k :: fork < k < |ours| && k < |theirs| ==> ours[k].block.hash != theirs[k].block.hash
  }

  lemma {:induction false} SharedBelow(p: Params, ours: seq<Row>, theirs: seq<Row>, fork: nat, k: nat)
    requires ValidParams(p) && ValidRows(p, ours) && ValidRows(p, theirs)
    requires k <= fork < |ours| && fork < |theirs| && ours[fork].block.hash == theirs[fork].block.hash
    ensures ours[k].block.hash == theirs[k].block.hash
    decreases fork
  {
    hide ValidRows, WellFormedBlock, Linked, Work;
    if k < fork {
      RowsLinked(p, ours, fork);
      RowsLinked(p, theirs, fork);
      SharedBelow(p, ours, theirs, fork - 1, k);
    }
  }

  /** A hash of the requester is found by the responder exactly when it is at or below the fork. */
  lemma FoundIffShared(p: Params, ours: seq<Row>, theirs: seq<Row>, fork: nat, k: nat)
    requires ValidParams(p) && ValidRows(p, ours) && ValidRows(p, theirs) && PartAt(ours, theirs, fork)
    requires k < |ours|
    ensures FindRow(theirs, ours[k].block.hash) == if k <= fork then Some(k) else None
  {
    hide ValidRows, WellFormedBlock, Linked, Work;
    var found := FindRow(theirs, ours[k].block.hash);
    RowsLinked(p, ours, k);
    if found.Some? {
      RowsLinked(p, theirs, found.value);
      assert found.value == k;
    }
    if k <= fork {
      SharedBelow(p, ours, theirs, fork, k);
    }
  }

  /** The responder starts at the first locator height at or below the fork, or at genesis without one. */
  lemma StartIs(p: Params, ours: seq<Row>, theirs: seq<Row>, fork: nat)
    requires ValidParams(p) && ValidRows(p, ours) && ValidRows(p, theirs) && PartAt(ours, theirs, fork)
    ensures
      var hs, n := LocatorOf(|ours| - 1), Reach(|ours| - 1 - fork, 0);
      var start := StartOf(theirs, LocatorHashes(ours));
      && (n < |hs| ==> hs[n] <= fork && start == hs[n]) && (n >= |hs| ==> start == 0 && |hs| == CAP)
  {
    hide ValidRows, FindRow, StartOf, PartAt, Offset, Pow2, LocatorOf, Reach;
    var tip := |ours| - 1;
    var d := PartDepth(ours, theirs, fork);
    var hs, hashes, n := LocatorOf(tip), LocatorHashes(ours), Reach(d, 0);
    LocatorInside(tip);
    EntryAbove(tip, d);
    var m := if n < |hs| then n else |hs|;
    forall i | 0 <= i < m
      ensures FindRow(theirs, hashes[i]).None?
    {
      FoundIffShared(p, ours, theirs, fork, hs[i]);
    }
    StartOfFirst(theirs, hashes, m);
    if n < |hs| {
      FoundIffShared(p, ours, theirs, fork, hs[n]);
    }
  }

  /** Entries before the one for distance d lie above the fork, that one does not. */
  lemma EntryAbove(tip: nat, d: nat)
    requires d <= tip
    ensures
      var hs, n := LocatorOf(tip), Reach(d, 0);
      && (forall i :: 0 <= i < n && i < |hs| ==> hs[i] > tip - d) && (n < |hs| ==> hs[n] <= tip - d)
      && (n >= |hs| ==> |hs| == CAP)
  {
    hide Offset, Pow2;
    BelowReach(d);
    ReachOrder(d, tip);
  }

  lemma PartDepth(ours: seq<Row>, theirs: seq<Row>, fork: nat) returns (d: nat)
    requires PartAt(ours, theirs, fork)
    ensures d == |ours| - 1 - fork && fork < |ours|
  {
    d := |ours| - 1 - fork;
  }

  /** Distances near the fork are exact; further away an entry overshoots by less than the distance less 7. */
  lemma Overshoot(d: nat)
    ensures d <= 9 ==> Reach(d, 0) == d && Offset(d) == d
    ensures 10 <= d ==> Offset(Reach(d, 0)) - d < d - 7
  {
    SmallReach(d);
    if d >= 10 {
      OffsetStep(Reach(d, 0) - 1);
    }
  }

  /** Where the responder starts, for chains that part d blocks below the requester's tip: always at a
      shared block, so the first block served has its parent on the requester's chain; exactly at the fork
      when d <= 9; otherwise fewer than d - 7 shared blocks above the start are sent again, as long as
      d <= 2^23 + 7. Beyond that the cut leaves no usable entry and the reply starts from genesis. */
  lemma ReplyStart(p: Params, ours: seq<Row>, theirs: seq<Row>, fork: nat)
    requires ValidParams(p) && ValidRows(p, ours) && ValidRows(p, theirs) && PartAt(ours, theirs, fork)
    ensures
      var d, start := |ours| - 1 - fork, StartOf(theirs, LocatorHashes(ours));
      && start <= fork && ours[start].block.hash == theirs[start].block.hash
      && (d <= 9 ==> start == fork)
      && (10 <= d <= 0x80_0000 + 7 ==> fork - start < d - 7)
      && (d > 0x80_0000 + 7 ==> start == 0)
  {
    hide *;
    StartIs(p, ours, theirs, fork);
    SharedIs(ours, theirs, fork);
    SharedBelow(p, ours, theirs, fork, StartOf(theirs, LocatorHashes(ours)));
    EntryFor(|ours| - 1, |ours| - 1 - fork);
  }

  /** The locator entry meant for a fork d blocks below the tip, if the cut left one. */
  lemma EntryFor(tip: nat, d: nat)
    requires d <= tip
    ensures
      var hs, n := LocatorOf(tip), Reach(d, 0);
      && (n < |hs| ==>
            && (d <= 9 ==> hs[n] == tip - d) && (d >= 10 ==> tip - d - hs[n] < d - 7)
            && (d > 0x80_0000 + 7 ==> hs[n] == 0))
      && (n >= |hs| && |hs| == CAP ==> d > 0x80_0000 + 7)
  {
    hide Offset, Pow2;
    var hs, n := LocatorOf(tip), Reach(d, 0);
    Overshoot(d);
    LastOffset();
    SmallReach(d);
    ReachOrder(d, tip);
    BelowReach(d);
    if n >= |hs| && |hs| == CAP {
      assert Offset(CAP - 1) < d;
    }
  }

  lemma SharedIs(ours: seq<Row>, theirs: seq<Row>, fork: nat)
    requires PartAt(ours, theirs, fork)
    ensures fork < |ours| && fork < |theirs| && ours[fork].block.hash == theirs[fork].block.hash
  {}

  lemma ReachOrder(d: nat, tip: nat)
    requires d <= tip
    ensures Reach(d, 0) <= Reach(tip, 0)
  {
    var a, b := Reach(d, 0), Reach(tip, 0);
    if b < a {
      if b < a - 1 {
        OffsetGrows(b, a - 1);
      }
    }
  }

  lemma SmallReach(d: nat)
    ensures d <= 9 ==> Reach(d, 0) == d
    ensures d >= 10 ==> Reach(d, 0) >= 10
    ensures d > Offset(CAP - 1) ==> Reach(d, 0) >= CAP
  {
    if d <= 9 {
      ReachUnique(d, d);
    } else {
      var r := Reach(d, 0);
      if r < CAP - 1 {
        OffsetGrows(r, CAP - 1);
      }
    }
  }
}
