/** The Merkle commitment over transaction ids. */
module Merkle {
  import opened Types

  function Leaves(txids: seq<Hash>): (r: seq<Hash>)
    ensures |r| == |txids|
  {
    seq(|txids|, i requires 0 <= i < |txids| => Leaf(txids[i]))
  }

  /** One level up: neighbours are hashed together and an odd last digest is promoted unchanged. */
  function PairUp(level: seq<Hash>): (r: seq<Hash>)
    ensures |r| == (|level| + 1) / 2
  {
    if |level| <= 1 then level
    else [Node(level[0], level[1])] + PairUp(level[2..])
  }

  function Collapse(level: seq<Hash>): Hash
    requires level != []
    decreases |level|
  {
    if |level| == 1 then level[0] else Collapse(PairUp(level))
  }

  function MerkleRoot(txids: seq<Hash>): Hash {
    if txids == [] then ZeroHash else Collapse(Leaves(txids))
  }

  lemma {:induction false} PairUpSplit(level: seq<Hash>, i: nat)
    requires i <= |level| && i % 2 == 0
    ensures PairUp(level) == PairUp(level[..i]) + PairUp(level[i..])
  {
    if i == 0 {
      assert level[..0] == [] && level[0..] == level;
    } else {
      var rest := level[2..];
      PairUpSplit(rest, i - 2);
      assert rest[..i - 2] == level[..i][2..] && rest[i - 2..] == level[i..];
    }
  }

  method NextLevel(level: seq<Hash>) returns (next: seq<Hash>)
    ensures next == PairUp(level)
  {
    next := [];
    var i := 0;
    while i < |level| - 1
      invariant i % 2 == 0 && 0 <= i <= |level|
      invariant next == PairUp(level[..i])
    {
      PairUpSplit(level[..i + 2], i);
      assert level[..i + 2][..i] == level[..i];
      assert level[..i + 2][i..] == [level[i], level[i + 1]];
      next := next + [Node(level[i], level[i + 1])];
      i := i + 2;
    }
    PairUpSplit(level, i);
    if |level| % 2 == 1 {
      assert level[i..] == [level[|level| - 1]];
      next := next + [level[|level| - 1]];
    }
  }

  method ComputeMerkleRoot(txids: seq<Hash>) returns (root: Hash)
    ensures root == MerkleRoot(txids)
  {
    if txids == [] {
      return ZeroHash;
    }
    var level := Leaves(txids);
    while |level| > 1
      invariant level != [] && Collapse(level) == MerkleRoot(txids)
      decreases |level|
    {
      level := NextLevel(level);
    }
    root := level[0];
  }

  /** The transaction ids at the leaves of a digest, left to right. */
  function Fringe(h: Hash): seq<Hash> {
    match h
    case Leaf(txid) => [txid]
    case Node(left, right) => Fringe(left) + Fringe(right)
    case _ => []
  }

  function Fringes(level: seq<Hash>): seq<Hash> {
    if level == [] then [] else Fringe(level[0]) + Fringes(level[1..])
  }

  lemma {:induction false} PairUpKeepsFringes(level: seq<Hash>)
    ensures Fringes(PairUp(level)) == Fringes(level)
  {
    if |level| > 1 {
      PairUpKeepsFringes(level[2..]);
      assert PairUp(level)[1..] == PairUp(level[2..]);
      assert level[1..][1..] == level[2..];
    }
  }

  lemma {:induction false} CollapseKeepsFringes(level: seq<Hash>)
    requires level != []
    ensures Fringe(Collapse(level)) == Fringes(level)
    decreases |level|
  {
    if |level| == 1 {
      assert level[1..] == [];
    } else {
      PairUpKeepsFringes(level);
      CollapseKeepsFringes(PairUp(level));
    }
  }

  lemma {:induction false} LeavesFringes(txids: seq<Hash>)
    ensures Fringes(Leaves(txids)) == txids
  {
    if txids != [] {
      assert Leaves(txids)[1..] == Leaves(txids[1..]);
      LeavesFringes(txids[1..]);
    }
  }

  /** Flattening the root gives the id list back in order. */
  lemma RootDeterminesIds(txids: seq<Hash>)
    requires txids != []
    ensures Fringe(MerkleRoot(txids)) == txids
  {
    CollapseKeepsFringes(Leaves(txids));
    LeavesFringes(txids);
  }

  /** Lists of any lengths with equal roots are equal (the empty list only matches itself). */
  lemma MerkleInjective(a: seq<Hash>, b: seq<Hash>)
    requires MerkleRoot(a) == MerkleRoot(b)
    ensures a == b
  {
    if a != [] { RootDeterminesIds(a); }
    if b != [] { RootDeterminesIds(b); }
  }
}
