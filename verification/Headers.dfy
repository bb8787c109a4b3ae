/** A header digest determines its whole ancestry; everything that depends on headers alone is a
    function of the digest. */
module Headers {
  import opened Types
  import opened Difficulty
  import TextOrder

  /** The sorted listing is committed to. */
  function AllocationRoot(p: Params): Hash {
    if p.genesisAllocations == [] then ZeroHash else Allocations(TextOrder.SortEntries(p.genesisAllocations))
  }

  function GenesisHash(p: Params): Hash {
    HeaderHash(0, ZeroHash, AllocationRoot(p), p.genesisTimestamp, 0, 0)
  }

  /** Two profiles that differ in their allocations only have the same genesis exactly when they allocate the
      same amounts to the same addresses, in whatever order they list them. */
  lemma GenesisFixesAllocations(p: Params, entries: seq<(Address, int)>)
    ensures
      var q := p.(genesisAllocations := entries);
      GenesisHash(p) == GenesisHash(q) <==> multiset(p.genesisAllocations) == multiset(entries)
  {
    hide TextOrder.SortEntries;
    var a, b := p.genesisAllocations, entries;
    TextOrder.SortSorts(a);
    TextOrder.SortSorts(b);
    TextOrder.SortCounts(a);
    TextOrder.SortCounts(b);
    assert |multiset(a)| == |a| && |multiset(b)| == |b|;
    if multiset(a) == multiset(b) {
      TextOrder.SortedUnique(TextOrder.SortEntries(a), TextOrder.SortEntries(b));
    }
  }

  function Height(h: Hash): int {
    if h.HeaderHash? then h.height else -1
  }

  lemma HeightIs(b: Block)
    requires b.hash == b.HeaderDigest()
    ensures b.height == Height(b.hash)
  {}

  /** Walking the parent pointers to the start of the chain, oldest first. */
  function Line(h: Hash): seq<Entry> {
    if h.HeaderHash? then Line(h.previous) + [Entry(h.timestamp, h.difficulty)] else []
  }

  /** The required difficulty one block above `parent`, as a function of the digest alone. */
  function Expected(p: Params, parent: Hash): int
    requires ValidParams(p)
  {
    if !p.dynamicDifficulty || Height(parent) == 0 then p.difficulty else NextDifficulty(p, Line(parent))
  }

  /** Heights step by one from genesis and every difficulty is the required one. */
  ghost predicate Linked(p: Params, h: Hash)
    requires ValidParams(p)
  {
    h == GenesisHash(p) ||
    (h.HeaderHash? && Linked(p, h.previous) && h.height == Height(h.previous) + 1
     && h.difficulty == Expected(p, h.previous))
  }

  /** Cumulative work: the sum of the declared difficulties above genesis. */
  function Work(p: Params, h: Hash): int {
    if h == GenesisHash(p) || !h.HeaderHash? then 0 else Work(p, h.previous) + h.difficulty
  }

  ghost predicate AncestorOrSelf(a: Hash, h: Hash) {
    a == h || (h.HeaderHash? && AncestorOrSelf(a, h.previous))
  }

  lemma {:induction false} LinkedHeights(p: Params, h: Hash)
    requires ValidParams(p) && Linked(p, h)
    ensures h.HeaderHash? && h.height >= 0 && |Line(h)| == h.height + 1
    ensures h.height == 0 <==> h == GenesisHash(p)
  {
    if h != GenesisHash(p) {
      LinkedHeights(p, h.previous);
    } else {
      assert Line(ZeroHash) == [];
    }
  }

  /** Along every linked chain: each difficulty above genesis is in range, and differs from its
      parent's by at most a factor two. */
  lemma {:induction false} LinkedDifficulties(p: Params, h: Hash)
    requires ValidParams(p) && Linked(p, h) && h != GenesisHash(p)
    ensures InRange(p, h.difficulty)
    ensures h.previous != GenesisHash(p) ==>
      h.previous.HeaderHash? && h.previous.difficulty / 2 <= h.difficulty <= 2 * h.previous.difficulty
    ensures h.height <= TS_FILTER ==> h.difficulty == p.difficulty
  {
    hide Filtered;
    LinkedHeights(p, h);
    LinkedHeights(p, h.previous);
    if p.dynamicDifficulty && h.height > 1 {
      NextInRange(p, Line(h.previous));
      assert Line(h.previous)[|Line(h.previous)| - 1].difficulty == h.previous.difficulty;
    }
    if h.previous != GenesisHash(p) {
      LinkedDifficulties(p, h.previous);
    }
  }

  lemma {:induction false} WorkGrows(p: Params, h: Hash)
    requires ValidParams(p) && Linked(p, h)
    ensures Work(p, h) >= 0
    ensures h != GenesisHash(p) ==> Work(p, h) > Work(p, h.previous)
  {
    if h != GenesisHash(p) {
      LinkedDifficulties(p, h);
      WorkGrows(p, h.previous);
    }
  }

  lemma {:induction false} AncestorTransitive(a: Hash, b: Hash, c: Hash)
    requires AncestorOrSelf(a, b) && AncestorOrSelf(b, c)
    ensures AncestorOrSelf(a, c)
  {
    if b != c {
      AncestorTransitive(a, b, c.previous);
    }
  }

  /** Retargeting sees only the last lwmaWindow + 5 headers of the ancestry. */
  lemma ExpectedFromRecent(p: Params, parent: Hash, headers: seq<Entry>)
    requires ValidParams(p) && Linked(p, parent)
    requires |headers| <= |Line(parent)| && headers == Line(parent)[|Line(parent)| - |headers|..]
    requires |headers| >= Min(parent.height + 1, Need(p))
    ensures NextDifficulty(p, headers) == NextDifficulty(p, Line(parent))
  {
    LinkedHeights(p, parent);
    NextDifficultyLocal(p, Line(parent), |Line(parent)| - |headers|);
  }
}
