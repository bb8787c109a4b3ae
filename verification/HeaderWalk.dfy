/** The stored header walk is the naive walk over the whole ancestry, and the windowed difficulty is the
    difficulty of the whole history. */
module HeaderWalk {
  import opened Types
  import opened Difficulty
  import opened Headers
  import opened Chain
  import opened Tables
  import opened TableFacts

  /** The ancestry of h is stored: through side rows down to the best chain. */
  ghost predicate Anchored(st: Store, h: Hash) {
    FindRow(st.rows, h).Some? || (h in st.side && h.HeaderHash? && Anchored(st, h.previous))
  }

  lemma {:induction false} LineOfRows(p: Params, rows: seq<Row>, i: nat, k: nat)
    requires ValidParams(p) && ValidRows(p, rows) && k <= i < |rows|
    ensures |Line(rows[i].block.hash)| == i + 1
    ensures Line(rows[i].block.hash)[k] == Entry(rows[k].block.timestamp, rows[k].block.difficulty)
    decreases i
  {
    hide ValidRows, WellFormedBlock;
    RowsLinked(p, rows, i);
    LinkedHeights(p, rows[i].block.hash);
    if k < i {
      LineOfRows(p, rows, i - 1, k);
    }
  }

  /** What is read back is a suffix of the naive walk, newest first. */
  lemma {:induction false} HeaderChainIsWalk(p: Params, st: Store, h: Hash, count: nat, k: nat)
    requires ValidParams(p) && ValidRows(p, st.rows) && SideInv(p, st) && Linked(p, h)
    requires k < |HeaderChain(st, h, count)|
    ensures |HeaderChain(st, h, count)| <= |Line(h)|
    ensures HeaderChain(st, h, count)[k] == Line(h)[|Line(h)| - 1 - k]
    decreases count
  {
    hide ValidRows, WellFormedBlock, FindRow, Linked, SideRowOk, Line;
    LinkedHeights(p, h);
    var i := FindRow(st.rows, h);
    if i.Some? {
      LineOfRows(p, st.rows, i.value, i.value - k);
    } else {
      assert h in st.side && SideRowOk(p, h, st.side[h]);
      var b := st.side[h].block;
      SideEntry(p, h, st.side[h]);
      var rest := HeaderChain(st, b.previous, count - 1);
      if rest != [] {
        HeaderChainIsWalk(p, st, b.previous, count - 1, if k == 0 then 0 else k - 1);
      }
    }
  }

  lemma SideEntry(p: Params, h: Hash, r: SideRow)
    requires ValidParams(p) && SideRowOk(p, h, r)
    ensures h.HeaderHash? && r.block.previous == h.previous && Linked(p, h.previous)
    ensures r.block.height == h.height
    ensures Line(h) == Line(h.previous) + [Entry(r.block.timestamp, r.block.difficulty)]
  {}

  lemma {:induction false} AnchoredChainIsFull(p: Params, st: Store, h: Hash, count: nat)
    requires ValidParams(p) && ValidRows(p, st.rows) && SideInv(p, st) && Linked(p, h) && Anchored(st, h)
    ensures |HeaderChain(st, h, count)| == Min(count, |Line(h)|)
    decreases count
  {
    hide ValidRows, WellFormedBlock;
    if count > 0 {
      LinkedHeights(p, h);
      var i := FindRow(st.rows, h);
      if i.Some? {
        LineOfRows(p, st.rows, i.value, i.value);
      } else {
        assert SideRowOk(p, h, st.side[h]);
        SideEntry(p, h, st.side[h]);
        AnchoredChainIsFull(p, st, h.previous, count - 1);
      }
    }
  }

  /** Oldest first, the stored walk is the end of the naive walk. */
  lemma StoredWalkIsSuffix(p: Params, st: Store, h: Hash, count: nat)
    requires ValidParams(p) && ValidRows(p, st.rows) && SideInv(p, st) && Linked(p, h)
    ensures
      var headers := HeaderChain(st, h, count);
      |headers| <= |Line(h)| && Reversed(headers) == Line(h)[|Line(h)| - |headers|..]
  {
    hide *;
    var headers := HeaderChain(st, h, count);
    if headers != [] {
      HeaderChainIsWalk(p, st, h, count, 0);
      forall j | 0 <= j < |headers|
        ensures Reversed(headers)[j] == Line(h)[|Line(h)| - |headers|..][j]
      {
        HeaderChainIsWalk(p, st, h, count, |headers| - 1 - j);
      }
    }
  }

  /** Whatever difficulty the node computes is the one the whole ancestry requires, and with stored
      ancestry it always computes one. */
  lemma ExpectedDifficultyExact(p: Params, st: Store, parent: Block)
    requires ValidParams(p) && ValidRows(p, st.rows) && SideInv(p, st)
    requires Linked(p, parent.hash) && parent.height == Height(parent.hash)
    ensures
      var d := ExpectedDifficulty(p, st, parent);
      && (d.Some? ==> d.value == Expected(p, parent.hash))
      && (Anchored(st, parent.hash) ==> d.Some?)
  {
    hide *;
    NeedIsPositive(p);
    ExpectedIs(p, parent.hash);
    ExpectedDifficultyIs(p, st, parent);
    if |HeaderChain(st, parent.hash, Need(p))| >= Min(parent.height + 1, Need(p)) {
      StoredDifficulty(p, st, parent);
    }
    if Anchored(st, parent.hash) {
      AnchoredIsEnough(p, st, parent);
    }
  }

  /** A long enough stored walk retargets like the whole ancestry. */
  lemma StoredDifficulty(p: Params, st: Store, parent: Block)
    requires ValidParams(p) && ValidRows(p, st.rows) && SideInv(p, st)
    requires Linked(p, parent.hash) && parent.height == Height(parent.hash)
    requires |HeaderChain(st, parent.hash, Need(p))| >= Min(parent.height + 1, Need(p))
    ensures NextDifficulty(p, Reversed(HeaderChain(st, parent.hash, Need(p)))) == NextDifficulty(p, Line(parent.hash))
  {
    hide *;
    NeedIsPositive(p);
    LinkedHeights(p, parent.hash);
    HeightOf(parent.hash);
    StoredWalkIsSuffix(p, st, parent.hash, Need(p));
    ExpectedFromRecent(p, parent.hash, Reversed(HeaderChain(st, parent.hash, Need(p))));
  }

  /** With stored ancestry the walk is long enough. */
  lemma AnchoredIsEnough(p: Params, st: Store, parent: Block)
    requires ValidParams(p) && ValidRows(p, st.rows) && SideInv(p, st)
    requires Linked(p, parent.hash) && parent.height == Height(parent.hash) && Anchored(st, parent.hash)
    ensures |HeaderChain(st, parent.hash, Need(p))| >= Min(parent.height + 1, Need(p))
  {
    hide *;
    LinkedHeights(p, parent.hash);
    HeightOf(parent.hash);
    NeedIsPositive(p);
    AnchoredChainIsFull(p, st, parent.hash, Need(p));
    MinIs(parent.height + 1, Need(p));
    MinIs(Need(p), |Line(parent.hash)|);
  }

  lemma NeedIsPositive(p: Params)
    requires ValidParams(p)
    ensures Need(p) >= 1
  {}

  lemma MinIs(a: int, b: int)
    ensures Min(a, b) == (if a <= b then a else b)
  {}

  lemma HeightOf(h: Hash)
    requires h.HeaderHash?
    ensures Height(h) == h.height
  {}

  lemma ExpectedIs(p: Params, h: Hash)
    requires ValidParams(p)
    ensures Expected(p, h) == (if !p.dynamicDifficulty || Height(h) == 0 then p.difficulty else NextDifficulty(p, Line(h)))
  {
    hide NextDifficulty, Line;
  }

  lemma ExpectedDifficultyIs(p: Params, st: Store, parent: Block)
    requires ValidParams(p)
    ensures
      var headers := HeaderChain(st, parent.hash, Need(p));
      ExpectedDifficulty(p, st, parent) ==
        (if !p.dynamicDifficulty || parent.height == 0 then Some(p.difficulty)
         else if |headers| < Min(parent.height + 1, Need(p)) then None
         else Some(NextDifficulty(p, Reversed(headers))))
  {
    hide NextDifficulty, HeaderChain, Reversed;
  }
}
