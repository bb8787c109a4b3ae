/** Adopting orphans once their parent is stored; the queue terminates because digests form a forest. */
module Adoption {
  import opened Types
  import opened Headers
  import opened Chain
  import opened Tables
  import opened TableFacts
  import opened Node
  import opened NodeFacts

  // ---------------------------------------------------------------- the forest of digests

  function Depth(h: Hash): nat {
    if h.HeaderHash? then 1 + Depth(h.previous) else 0
  }

  lemma {:induction false} AncestorDepth(a: Hash, h: Hash)
    requires AncestorOrSelf(a, h)
    ensures Depth(a) <= Depth(h)
  {
    if a != h {
      AncestorDepth(a, h.previous);
    }
  }

  /** Two children of one parent share no descendant. */
  lemma {:induction false} SiblingsApart(x: Hash, c: Hash, d: Hash)
    requires c.HeaderHash? && d.HeaderHash? && c.previous == d.previous
    requires AncestorOrSelf(c, x) && AncestorOrSelf(d, x)
    ensures c == d
  {
    if c != d {
      if x == c {
        AncestorDepth(d, c.previous);
      } else if x == d {
        AncestorDepth(c, d.previous);
      } else {
        SiblingsApart(x.previous, c, d);
      }
    }
  }

  /** Hashes of U with h strictly above them. */
  ghost function Below(U: set<Hash>, h: Hash): set<Hash> {
    set x | x in U && x.HeaderHash? && AncestorOrSelf(h, x.previous)
  }

  ghost function Weight(U: set<Hash>, queue: seq<Hash>): nat {
    if queue == [] then 0 else Weight(U, queue[..|queue| - 1]) + 1 + |Below(U, queue[|queue| - 1])|
  }

  lemma {:induction false} WeightSplit(U: set<Hash>, a: seq<Hash>, b: seq<Hash>)
    ensures Weight(U, a + b) == Weight(U, a) + Weight(U, b)
  {
    if b == [] {
      assert a + b == a;
    } else {
      assert (a + b)[..|a + b| - 1] == a + b[..|b| - 1];
      WeightSplit(U, a, b[..|b| - 1]);
    }
  }

  ghost predicate DistinctChildren(U: set<Hash>, ph: Hash, cs: seq<Hash>) {
    && (forall i :: 0 <= i < |cs| ==> cs[i] in U && cs[i].HeaderHash? && cs[i].previous == ph)
    && (forall i, j :: 0 <= i < j < |cs| ==> cs[i] != cs[j])
  }

  ghost function Covered(U: set<Hash>, cs: seq<Hash>): set<Hash> {
    set x | x in U && exists i :: 0 <= i < |cs| && AncestorOrSelf(cs[i], x)
  }

  /** x lies in the last child's subtree or in an earlier one's, never in both. */
  lemma CoveredStep(U: set<Hash>, ph: Hash, cs: seq<Hash>, x: Hash)
    requires DistinctChildren(U, ph, cs) && cs != [] && x in U
    ensures
      var n := |cs| - 1;
      var inLast := x == cs[n] || x in Below(U, cs[n]);
      && (inLast <==> AncestorOrSelf(cs[n], x))
      && (x in Covered(U, cs) <==> x in Covered(U, cs[..n]) || inLast)
      && !(x in Covered(U, cs[..n]) && inLast)
  {
    var n := |cs| - 1;
    var before := cs[..n];
    assert AncestorOrSelf(cs[n], x) <==> x == cs[n] || x in Below(U, cs[n]);
    assert forall i :: 0 <= i < n ==> before[i] == cs[i];
    if x in Covered(U, before) {
      var i :| 0 <= i < n && AncestorOrSelf(before[i], x);
      assert AncestorOrSelf(cs[i], x);
      if AncestorOrSelf(cs[n], x) {
        SiblingsApart(x, cs[n], cs[i]);
      }
    }
  }

  lemma DisjointSum<T>(a: set<T>, b: set<T>)
    requires a !! b
    ensures |a + b| == |a| + |b|
  {}

  /** The subtrees of distinct children fit side by side below their parent. */
  lemma {:induction false} ChildrenWeight(U: set<Hash>, ph: Hash, cs: seq<Hash>)
    requires DistinctChildren(U, ph, cs)
    ensures Weight(U, cs) == |Covered(U, cs)| && Covered(U, cs) <= Below(U, ph)
  {
    if cs == [] {
      assert Covered(U, cs) == {};
    } else {
      hide Below, Covered, AncestorOrSelf;
      var n := |cs| - 1;
      var c, before := cs[n], cs[..n];
      ChildrenWeight(U, ph, before);
      forall x | x in U
        ensures x in Covered(U, cs) <==> x in Covered(U, before) || x in {c} + Below(U, c)
        ensures !(x in Covered(U, before) && x in {c} + Below(U, c))
        ensures x in Below(U, c) || x == c ==> x in Below(U, ph)
      {
        CoveredStep(U, ph, cs, x);
        ChildBelow(U, ph, c, x);
      }
      SubsetsOf(U, c);
      CoveredSubset(U, cs);
      CoveredSubset(U, before);
      assert Covered(U, cs) == Covered(U, before) + ({c} + Below(U, c));
      DisjointSum(Covered(U, before), {c} + Below(U, c));
      DisjointSum({c}, Below(U, c));
    }
  }

  lemma SubsetsOf(U: set<Hash>, c: Hash)
    requires c.HeaderHash?
    ensures Below(U, c) <= U && c !in Below(U, c)
  {
    if AncestorOrSelf(c, c.previous) {
      AncestorDepth(c, c.previous);
    }
  }

  lemma CoveredSubset(U: set<Hash>, cs: seq<Hash>)
    ensures Covered(U, cs) <= U
  {}

  lemma ChildBelow(U: set<Hash>, ph: Hash, c: Hash, x: Hash)
    requires c in U && c.HeaderHash? && c.previous == ph && x in U
    ensures x in Below(U, c) || x == c ==> x in Below(U, ph)
  {
    assert AncestorOrSelf(ph, c.previous);
    if x in Below(U, c) {
      ParentAbove(ph, c, x.previous);
    }
  }

  lemma ParentAbove(ph: Hash, c: Hash, x: Hash)
    requires c.HeaderHash? && c.previous == ph && AncestorOrSelf(c, x)
    ensures AncestorOrSelf(ph, x)
  {
    assert AncestorOrSelf(ph, c);
    AncestorTransitive(ph, c, x);
  }

  // ---------------------------------------------------------------- adoption

  ghost predicate OrphansOk(p: Params, orphans: seq<Block>) {
    && (forall i :: 0 <= i < |orphans| ==> WellFormedBlock(p, orphans[i]))
    && (forall i, j :: 0 <= i < j < |orphans| ==> orphans[i].hash != orphans[j].hash)
    && |orphans| <= p.maxOrphans
  }

  ghost predicate Inv(p: Params, s: State)
    requires ValidParams(p)
  {
    StoreInv(p, s.store) && OrphansOk(p, s.orphans)
  }

  lemma InvStore(p: Params, s: State)
    requires ValidParams(p) && Inv(p, s)
    ensures StoreInv(p, s.store)
  {
    hide StoreInv;
  }

  lemma {:induction false} DropKeeps(p: Params, orphans: seq<Block>, h: Hash)
    requires OrphansOk(p, orphans)
    ensures OrphansOk(p, DropOrphan(orphans, h)) && |DropOrphan(orphans, h)| <= |orphans|
  {
    hide WellFormedBlock;
    if orphans != [] {
      var rest := orphans[1..];
      assert forall i :: 0 <= i < |rest| ==> rest[i] == orphans[i + 1];
      DropKeeps(p, rest, h);
      var kept := DropOrphan(rest, h);
      forall j | 0 <= j < |kept|
        ensures kept[j].hash != orphans[0].hash
      {
        assert kept[j] in kept;
        assert kept[j] in rest;
        var i :| 0 <= i < |rest| && rest[i] == kept[j];
      }
      if orphans[0].hash != h {
        PrependOk(p, orphans[0], kept);
      }
    }
  }

  lemma PrependOk(p: Params, b: Block, kept: seq<Block>)
    requires OrphansOk(p, kept) && WellFormedBlock(p, b) && |kept| + 1 <= p.maxOrphans
    requires forall j :: 0 <= j < |kept| ==> kept[j].hash != b.hash
    ensures OrphansOk(p, [b] + kept)
  {
    hide WellFormedBlock;
    var all := [b] + kept;
    assert forall i :: 1 <= i < |all| ==> all[i] == kept[i - 1];
  }

  lemma AddKeeps(p: Params, orphans: seq<Block>, b: Block)
    requires ValidParams(p) && OrphansOk(p, orphans) && WellFormedBlock(p, b) && !InOrphans(orphans, b.hash)
    ensures OrphansOk(p, AddOrphan(p, orphans, b))
    ensures forall x :: x in AddOrphan(p, orphans, b) ==> x in orphans || x == b
  {
    hide WellFormedBlock;
    var all := orphans + [b];
    assert forall i :: 0 <= i < |orphans| ==> all[i] == orphans[i];
    forall i, j | 0 <= i < j < |all|
      ensures all[i].hash != all[j].hash
    {}
  }

  /** A processed block keeps the whole invariant; the orphan pool gains at most that block. */
  lemma ProcessKeepsInv(p: Params, s: State, b: Block, now: int)
    requires ValidParams(p) && Inv(p, s)
    ensures
      var r := Process(p, s, b, now);
      && Inv(p, r.0) && (forall x :: x in r.0.orphans ==> x in s.orphans || x == b)
      && s.store.rows != [] && r.0.store.rows != [] && TipWork(r.0.store) >= TipWork(s.store)
  {
    hide StoreInv, OrphansOk, Process, WellFormedBlock, TipWork;
    StoreInvParts(p, s.store);
    ProcessKeeps(p, s, b, now);
    if Process(p, s, b, now).0.orphans != s.orphans {
      AddKeeps(p, s.orphans, b);
    }
  }

  function Popped(s: State, h: Hash): State { s.(orphans := DropOrphan(s.orphans, h)) }

  lemma PoppedKeeps(p: Params, s: State, h: Hash)
    requires ValidParams(p) && Inv(p, s)
    ensures Inv(p, Popped(s, h)) && Popped(s, h).store == s.store
    ensures ChainInv(p, s.store) && SideInv(p, s.store)
    ensures forall b :: b in Popped(s, h).orphans <==> b in s.orphans && b.hash != h
  {
    hide ChainInv, SideInv, TableFacts.SideInv, OrphansOk;
    DropKeeps(p, s.orphans, h);
  }

  datatype Adopted = Adopted(state: State, hashes: seq<Hash>, failed: bool)

  /** Process the given orphans in order, collecting those that were not refused. */
  ghost function AdoptChildren(p: Params, s: State, children: seq<Block>, now: int): (r: Adopted)
    requires ValidParams(p) && Inv(p, s)
    ensures Inv(p, r.state)
  {
    if children == [] then Adopted(s, [], false)
    else
      var before := AdoptChildren(p, s, children[..|children| - 1], now);
      if before.failed then before
      else
        var child := children[|children| - 1];
        PoppedKeeps(p, before.state, child.hash);
        var r := Process(p, Popped(before.state, child.hash), child, now);
        ProcessKeepsInv(p, Popped(before.state, child.hash), child, now);
        if r.1 == Rejected(Incomplete) then Adopted(r.0, before.hashes, true)
        else if r.1.Rejected? then Adopted(r.0, before.hashes, false)
        else Adopted(r.0, before.hashes + [child.hash], false)
  }

  function BlockHashes(blocks: seq<Block>): (r: seq<Hash>)
    ensures |r| == |blocks| && forall i :: 0 <= i < |r| ==> r[i] == blocks[i].hash
  {
    seq(|blocks|, i requires 0 <= i < |blocks| => blocks[i].hash)
  }

  ghost predicate DistinctSeq(s: seq<Hash>) {
    forall i, j :: 0 <= i < j < |s| ==> s[i] != s[j]
  }

  lemma {:induction false} AdoptChildrenFacts(p: Params, s: State, children: seq<Block>, now: int)
    requires ValidParams(p) && Inv(p, s)
    requires forall i :: 0 <= i < |children| ==> children[i] in s.orphans
    requires DistinctSeq(BlockHashes(children))
    ensures
      var r := AdoptChildren(p, s, children, now);
      && (forall b :: b in r.state.orphans ==> b in s.orphans)
      && DistinctSeq(r.hashes) && (forall h :: h in r.hashes ==> h in BlockHashes(children))
      && s.store.rows != [] && r.state.store.rows != [] && TipWork(r.state.store) >= TipWork(s.store)
  {
    hide *;
    InvRows(p, s);
    AdoptChildrenStep(p, s, children, now);
    if children == [] {
      NoneDistinct();
    } else {
      var n := |children| - 1;
      var before, child := AdoptChildren(p, s, children[..n], now), children[n];
      assert BlockHashes(children[..n]) == BlockHashes(children)[..n];
      DistinctPrefix(BlockHashes(children), n);
      AdoptChildrenFacts(p, s, children[..n], now);
      NewHash(before.hashes, BlockHashes(children), n);
      if !before.failed {
        PoppedKeeps(p, before.state, child.hash);
        ProcessKeepsInv(p, Popped(before.state, child.hash), child, now);
      }
    }
  }

  lemma NoneDistinct()
    ensures DistinctSeq([])
  {}

  lemma DistinctPrefix(s: seq<Hash>, n: nat)
    requires DistinctSeq(s) && n < |s|
    ensures DistinctSeq(s[..n]) && s[n] !in s[..n]
  {}

  lemma InvRows(p: Params, s: State)
    requires ValidParams(p) && Inv(p, s)
    ensures s.store.rows != [] && ChainInv(p, s.store) && SideInv(p, s.store)
  {
    hide ChainInv, SideInv, OrphansOk, StoreInv;
    StoreInvParts(p, s.store);
  }

  /** Hashes kept so far come from earlier positions, so the next one is new. */
  lemma NewHash(kept: seq<Hash>, all: seq<Hash>, n: nat)
    requires n < |all| && DistinctSeq(all) && DistinctSeq(kept) && forall h :: h in kept ==> h in all[..n]
    ensures DistinctSeq(kept + [all[n]]) && forall h :: h in kept + [all[n]] ==> h in all
    ensures forall h :: h in kept ==> h in all
  {
    forall i | 0 <= i < |kept|
      ensures kept[i] != all[n] && kept[i] in all
    {
      assert kept[i] in all[..n];
      var j :| 0 <= j < n && all[..n][j] == kept[i];
      assert all[j] == kept[i];
    }
  }

  ghost predicate Known(U: set<Hash>, orphans: seq<Block>) {
    forall b :: b in orphans ==> b.hash in U
  }

  ghost predicate DistinctOrphans(orphans: seq<Block>) {
    forall i, j :: 0 <= i < j < |orphans| ==> orphans[i].hash != orphans[j].hash
  }

  lemma OrphansParts(p: Params, orphans: seq<Block>)
    requires OrphansOk(p, orphans)
    ensures DistinctOrphans(orphans)
    ensures forall b :: b in orphans ==> WellFormedBlock(p, b)
  {
    hide WellFormedBlock;
  }

  lemma {:induction false} ChildrenDistinct(orphans: seq<Block>, ph: Hash)
    requires DistinctOrphans(orphans)
    ensures DistinctOrphans(ChildrenOf(orphans, ph))
  {
    if orphans != [] {
      var rest := orphans[1..];
      assert forall i :: 0 <= i < |rest| ==> rest[i] == orphans[i + 1];
      ChildrenDistinct(rest, ph);
      var kept := ChildrenOf(rest, ph);
      forall j | 0 <= j < |kept|
        ensures kept[j].hash != orphans[0].hash
      {
        assert kept[j] in kept && kept[j] in rest;
        var i :| 0 <= i < |rest| && rest[i] == kept[j];
      }
      var all := [orphans[0]] + kept;
      assert forall j :: 1 <= j < |all| ==> all[j] == kept[j - 1];
    }
  }

  lemma ChildrenStep(orphans: seq<Block>, ph: Hash)
    requires orphans != []
    ensures
      var rest := ChildrenOf(orphans[1..], ph);
      ChildrenOf(orphans, ph) == if orphans[0].previous == ph then [orphans[0]] + rest else rest
  {}

  /** Of two orphans waiting for one parent, the one that arrived earlier is processed earlier. */
  lemma {:induction false} ChildrenInOrder(orphans: seq<Block>, ph: Hash, i: nat, j: nat) returns (a: nat, b: nat)
    requires i < j < |orphans| && orphans[i].previous == ph && orphans[j].previous == ph
    ensures
      var children := ChildrenOf(orphans, ph);
      a < b < |children| && children[a] == orphans[i] && children[b] == orphans[j]
  {
    hide ChildrenOf;
    var rest := orphans[1..];
    ChildrenStep(orphans, ph);
    if i > 0 {
      a, b := ChildrenInOrder(rest, ph, i - 1, j - 1);
      if orphans[0].previous == ph {
        a, b := a + 1, b + 1;
      }
    } else {
      assert rest[j - 1] in ChildrenOf(rest, ph);
      var k :| 0 <= k < |ChildrenOf(rest, ph)| && ChildrenOf(rest, ph)[k] == rest[j - 1];
      a, b := 0, k + 1;
    }
  }

  lemma DigestShape(p: Params, b: Block)
    requires WellFormedBlock(p, b)
    ensures b.hash.HeaderHash? && b.hash.previous == b.previous
  {}

  lemma ChildrenFacts(p: Params, orphans: seq<Block>, ph: Hash)
    requires OrphansOk(p, orphans)
    ensures DistinctSeq(BlockHashes(ChildrenOf(orphans, ph)))
    ensures forall b :: b in ChildrenOf(orphans, ph) ==> b.hash.HeaderHash? && b.hash.previous == ph
  {
    hide WellFormedBlock, OrphansOk, ChildrenOf;
    OrphansParts(p, orphans);
    ChildrenDistinct(orphans, ph);
    forall b | b in ChildrenOf(orphans, ph)
      ensures b.hash.HeaderHash? && b.hash.previous == ph
    {
      DigestShape(p, b);
    }
  }

  /** The adoption queue gets lighter: one hash leaves, at most its own subtrees enter. */
  lemma QueueShrinks(p: Params, s: State, U: set<Hash>, queue: seq<Hash>, now: int)
    requires ValidParams(p) && Inv(p, s) && queue != [] && Known(U, s.orphans)
    ensures
      var n := |queue| - 1;
      var r := AdoptChildren(p, s, ChildrenOf(s.orphans, queue[n]), now);
      && Weight(U, queue[..n] + r.hashes) < Weight(U, queue) && Known(U, r.state.orphans)
      && s.store.rows != [] && r.state.store.rows != [] && TipWork(r.state.store) >= TipWork(s.store)
  {
    hide AdoptChildren, OrphansOk, StoreInv, TipWork;
    var n := |queue| - 1;
    var children := ChildrenOf(s.orphans, queue[n]);
    ChildrenFacts(p, s.orphans, queue[n]);
    AdoptChildrenFacts(p, s, children, now);
    var r := AdoptChildren(p, s, children, now);
    forall i | 0 <= i < |r.hashes|
      ensures r.hashes[i] in U && r.hashes[i].HeaderHash? && r.hashes[i].previous == queue[n]
    {
      assert r.hashes[i] in r.hashes;
      assert r.hashes[i] in BlockHashes(children);
      var j :| 0 <= j < |children| && BlockHashes(children)[j] == r.hashes[i];
      assert children[j] in s.orphans;
    }
    ChildrenWeight(U, queue[n], r.hashes);
    CoveredSize(U, queue[n], r.hashes);
    WeightSplit(U, queue[..n], r.hashes);
  }

  lemma CoveredSize(U: set<Hash>, ph: Hash, cs: seq<Hash>)
    requires Covered(U, cs) <= Below(U, ph)
    ensures |Covered(U, cs)| <= |Below(U, ph)|
  {
    assert Below(U, ph) == Covered(U, cs) + (Below(U, ph) - Covered(U, cs));
  }

  /** Depth-first adoption: the last queued hash first. Stops early only on missing ancestry. */
  ghost function Adopt(p: Params, s: State, U: set<Hash>, queue: seq<Hash>, now: int): (State, bool)
    requires ValidParams(p) && Inv(p, s) && Known(U, s.orphans)
    decreases Weight(U, queue)
  {
    if queue == [] then (s, false)
    else
      var n := |queue| - 1;
      var r := AdoptChildren(p, s, ChildrenOf(s.orphans, queue[n]), now);
      QueueShrinks(p, s, U, queue, now);
      if r.failed then (r.state, true) else Adopt(p, r.state, U, queue[..n] + r.hashes, now)
  }

  ghost function OrphanHashes(orphans: seq<Block>): set<Hash> { set b | b in orphans :: b.hash }

  lemma {:induction false} AdoptKeeps(p: Params, s: State, U: set<Hash>, queue: seq<Hash>, now: int)
    requires ValidParams(p) && Inv(p, s) && Known(U, s.orphans)
    ensures
      var r := Adopt(p, s, U, queue, now);
      && Inv(p, r.0) && s.store.rows != [] && r.0.store.rows != [] && TipWork(r.0.store) >= TipWork(s.store)
    decreases Weight(U, queue)
  {
    hide AdoptChildren, OrphansOk, ChainInv, SideInv, MempoolFacts.MemInv, TipWork;
    StoreInvParts(p, s.store);
    if queue != [] {
      var n := |queue| - 1;
      var r := AdoptChildren(p, s, ChildrenOf(s.orphans, queue[n]), now);
      QueueShrinks(p, s, U, queue, now);
      if !r.failed {
        AdoptKeeps(p, r.state, U, queue[..n] + r.hashes, now);
      }
    }
  }

  lemma AdoptChildrenStep(p: Params, s: State, children: seq<Block>, now: int)
    requires ValidParams(p) && Inv(p, s)
    ensures children == [] ==> AdoptChildren(p, s, children, now) == Adopted(s, [], false)
    ensures children != [] ==>
      var n := |children| - 1;
      var before, r := AdoptChildren(p, s, children[..n], now), AdoptChildren(p, s, children, now);
      var popped := Popped(before.state, children[n].hash);
      && (before.failed ==> r == before)
      && (!before.failed ==>
            && Inv(p, popped) && ChainInv(p, popped.store) && SideInv(p, popped.store)
            && var done := Process(p, popped, children[n], now);
            && (done.1.Done? ==> r == Adopted(done.0, before.hashes + [children[n].hash], false))
            && (done.1.Rejected? ==> r == Adopted(done.0, before.hashes, done.1.code == Incomplete)))
  {
    hide Inv, Process, Popped, ChainInv, SideInv;
    if children != [] && !AdoptChildren(p, s, children[..|children| - 1], now).failed {
      PoppedKeeps(p, AdoptChildren(p, s, children[..|children| - 1], now).state, children[|children| - 1].hash);
    }
  }

  lemma AdoptStep(p: Params, s: State, U: set<Hash>, queue: seq<Hash>, now: int)
    requires ValidParams(p) && Inv(p, s) && Known(U, s.orphans)
    ensures queue == [] ==> Adopt(p, s, U, queue, now) == (s, false)
    ensures queue != [] ==>
      var n := |queue| - 1;
      var r := AdoptChildren(p, s, ChildrenOf(s.orphans, queue[n]), now);
      && (r.failed ==> Adopt(p, s, U, queue, now) == (r.state, true))
      && (!r.failed ==>
        && Inv(p, r.state) && Known(U, r.state.orphans) && Weight(U, queue[..n] + r.hashes) < Weight(U, queue)
        && Adopt(p, s, U, queue, now) == Adopt(p, r.state, U, queue[..n] + r.hashes, now))
  {
    hide Inv, AdoptChildren, Weight, Known;
    if queue != [] {
      QueueShrinks(p, s, U, queue, now);
    }
  }

  /** Adoption goes depth first: whatever waits for the parents queued later, their adopted descendants included, is
      settled before the parents queued earlier are looked at. */
  lemma {:induction false} AdoptDepthFirst(p: Params, s: State, U: set<Hash>, earlier: seq<Hash>, later: seq<Hash>, now: int)
    requires ValidParams(p) && Inv(p, s) && Known(U, s.orphans)
    ensures Inv(p, Adopt(p, s, U, later, now).0) && Known(U, Adopt(p, s, U, later, now).0.orphans)
    ensures
      var r := Adopt(p, s, U, later, now);
      Adopt(p, s, U, earlier + later, now) == if r.1 then r else Adopt(p, r.0, U, earlier, now)
    decreases Weight(U, later)
  {
    hide *;
    AdoptStep(p, s, U, later, now);
    AdoptKeeps(p, s, U, later, now);
    if later == [] {
      assert earlier + later == earlier;
    } else {
      var n, all := |later| - 1, earlier + later;
      assert all[..|all| - 1] == earlier + later[..n] && all[|all| - 1] == later[n];
      AdoptStep(p, s, U, all, now);
      AdoptFailed(p, s, U, later, now);
      var r := AdoptChildren(p, s, ChildrenOf(s.orphans, later[n]), now);
      if !r.failed {
        assert earlier + later[..n] + r.hashes == earlier + (later[..n] + r.hashes);
        AdoptDepthFirst(p, r.state, U, earlier, later[..n] + r.hashes, now);
      }
    }
  }

  lemma AdoptFailed(p: Params, s: State, U: set<Hash>, queue: seq<Hash>, now: int)
    requires ValidParams(p) && Inv(p, s) && Known(U, s.orphans) && queue != []
    ensures Known(U, AdoptChildren(p, s, ChildrenOf(s.orphans, queue[|queue| - 1]), now).state.orphans)
  {
    hide *;
    QueueShrinks(p, s, U, queue, now);
  }

  /** The entry point for blocks: one call of `Process`, and an adoption round whenever it kept the block. */
  ghost function ProcessBlock(p: Params, s: State, b: Block, now: int): (State, Outcome)
    requires ValidParams(p) && Inv(p, s)
  {
    ProcessKeepsInv(p, s, b, now);
    StoreInvParts(p, s.store);
    var r := Process(p, s, b, now);
    if r.1.Done? && (r.1.status == Extended || r.1.status == Reorganized || r.1.status == Side) then
      var adopted := Adopt(p, r.0, OrphanHashes(r.0.orphans), [r.1.hash], now);
      (adopted.0, if adopted.1 then Rejected(Incomplete) else r.1)
    else r
  }

  /** Whatever block arrives, every invariant survives and the work of the tip never falls. */
  lemma ProcessBlockKeeps(p: Params, s: State, b: Block, now: int)
    requires ValidParams(p) && Inv(p, s)
    ensures
      var r := ProcessBlock(p, s, b, now);
      && Inv(p, r.0) && s.store.rows != [] && r.0.store.rows != [] && TipWork(r.0.store) >= TipWork(s.store)
  {
    hide Process, Adopt, OrphansOk, StoreInv, TipWork;
    ProcessKeepsInv(p, s, b, now);
    StoreInvParts(p, s.store);
    var r := Process(p, s, b, now);
    if r.1.Done? && (r.1.status == Extended || r.1.status == Reorganized || r.1.status == Side) {
      AdoptKeeps(p, r.0, OrphanHashes(r.0.orphans), [r.1.hash], now);
    }
  }
}
