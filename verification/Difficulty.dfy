/** Retargeting: a linearly weighted moving average of median-filtered solve times, integers only. */
module Difficulty {
  import opened Types
  import opened Order

  const TS_FILTER: nat := 5

  /** Timestamp and declared difficulty of one block. */
  datatype Entry = Entry(timestamp: int, difficulty: int)

  function Stamps(history: seq<Entry>): (r: seq<int>)
    ensures |r| == |history| && forall i :: 0 <= i < |r| ==> r[i] == history[i].timestamp
  {
    seq(|history|, i requires 0 <= i < |history| => history[i].timestamp)
  }

  /** One smoothed reading: the middle of the sorted five latest stamps, fewer near the start of the chain. */
  function Filtered(stamps: seq<int>, i: nat): int
    requires i < |stamps|
  {
    var segment := stamps[if i + 1 >= TS_FILTER then i + 1 - TS_FILTER else 0..i + 1];
    Sort(segment)[|segment| / 2]
  }

  /** The filtered timestamp at every index. */
  function Readings(history: seq<Entry>): (f: seq<int>)
    ensures |f| == |history| && forall i :: 0 <= i < |f| ==> f[i] == Filtered(Stamps(history), i)
  {
    seq(|history|, i requires 0 <= i < |history| => Filtered(Stamps(history), i))
  }

  /** Strictly increasing version of the readings, j steps after index base. */
  function Effective(f: seq<int>, base: nat, j: nat): int
    requires base + j < |f|
  {
    if j == 0 then f[base] else Max(f[base + j], Effective(f, base, j - 1) + 1)
  }

  function SolveTime(spacing: int, f: seq<int>, base: nat, j: nat): int
    requires 1 <= j && base + j < |f|
  {
    Min(6 * spacing, Effective(f, base, j) - Effective(f, base, j - 1))
  }

  /** Sum of k * (k-th solve time) for k = 1..j. */
  function Weighted(spacing: int, f: seq<int>, base: nat, j: nat): int
    requires base + j < |f|
  {
    if j == 0 then 0
    else Weighted(spacing, f, base, j - 1) + j * SolveTime(spacing, f, base, j)
  }

  /** Sum of the difficulties declared by the j blocks after index base. */
  function Summed(history: seq<Entry>, base: nat, j: nat): int
    requires base + j < |history|
  {
    if j == 0 then 0 else Summed(history, base, j - 1) + history[base + j].difficulty
  }

  /** The moving average before any limit is applied. */
  function Raw(spacing: int, summed: int, w: int, weighted: int): int
    requires weighted > 0
  {
    (summed * (w + 1) * spacing) / (2 * weighted)
  }

  function Clamp(p: Params, parent: int, raw: int): int {
    var next := Max(Min(raw, 2 * parent), parent / 2);
    Max(1, Min(MAX_DIFFICULTY, Max(p.minDifficulty, next)))
  }

  function Window(p: Params, count: int): int { Min(p.lwmaWindow, count - TS_FILTER) }

  /** The retargeting rule: what the next block on top of `history` has to declare. */
  function NextDifficulty(p: Params, history: seq<Entry>): int
    requires ValidParams(p)
  {
    var w := Window(p, |history|);
    if w < 1 then p.difficulty
    else
      var base := |history| - w - 1;
      WeightedPositive(p.targetSpacing, Readings(history), base, w);
      Clamp(p, history[|history| - 1].difficulty,
            Raw(p.targetSpacing, Summed(history, base, w), w, Weighted(p.targetSpacing, Readings(history), base, w)))
  }

  /** The loop over the window: one pass accumulates both sums. */
  method Accumulate(target: int, history: seq<Entry>, window: nat) returns (weighted: int, total: int)
    requires window < |history|
    ensures weighted == Weighted(target, Readings(history), |history| - window - 1, window)
    ensures total == Summed(history, |history| - window - 1, window)
  {
    hide Filtered;
    var base := |history| - window - 1;
    var f := Readings(history);
    weighted, total := 0, 0;
    var prev := f[base];
    for j := 1 to window + 1
      invariant prev == Effective(f, base, j - 1)
      invariant weighted == Weighted(target, f, base, j - 1)
      invariant total == Summed(history, base, j - 1)
    {
      var stamp := f[base + j];
      var effective := if stamp > prev then stamp else prev + 1;
      var solve := Min(6 * target, effective - prev);
      assert effective == Effective(f, base, j);
      assert solve == SolveTime(target, f, base, j);
      prev := effective;
      weighted := weighted + j * solve;
      total := total + history[base + j].difficulty;
    }
  }

  method ComputeNextDifficulty(p: Params, history: seq<Entry>) returns (next: int)
    requires ValidParams(p)
    ensures next == NextDifficulty(p, history)
  {
    hide Filtered;
    var count := |history|;
    var window := Min(p.lwmaWindow, count - TS_FILTER);
    if window < 1 {
      return p.difficulty;
    }
    var weighted, total := Accumulate(p.targetSpacing, history, window);
    WeightedPositive(p.targetSpacing, Readings(history), count - window - 1, window);
    var raw := (total * (window + 1) * p.targetSpacing) / (2 * weighted);
    assert raw == Raw(p.targetSpacing, total, window, weighted);
    var parent := history[count - 1].difficulty;
    next := Min(raw, 2 * parent);
    next := Max(next, parent / 2);
    next := Max(1, Min(MAX_DIFFICULTY, Max(p.minDifficulty, next)));
  }

  // ---------------------------------------------------------------- bounds

  lemma MulMonotone(a: int, b: int, c: int)
    requires a <= b && 0 <= c
    ensures a * c <= b * c
  {}

  lemma EffectiveIncreases(f: seq<int>, base: nat, j: nat)
    requires 1 <= j && base + j < |f|
    ensures Effective(f, base, j) >= Effective(f, base, j - 1) + 1
  {}

  /** The weighted sum over j solve times lies in [j(j+1)/2, 3T*j(j+1)]. */
  lemma {:induction false} WeightedBounds(spacing: int, f: seq<int>, base: nat, j: nat)
    requires spacing >= 1 && base + j < |f|
    ensures j * (j + 1) <= 2 * Weighted(spacing, f, base, j) <= 6 * spacing * (j * (j + 1))
  {
    if j > 0 {
      WeightedBounds(spacing, f, base, j - 1);
      EffectiveIncreases(f, base, j);
      WeightedStep(spacing, j, SolveTime(spacing, f, base, j), Weighted(spacing, f, base, j - 1));
    }
  }

  lemma SpreadLeft(c: int, a: int, b: int)
    ensures c * (a + b) == c * a + c * b
  {}

  lemma WeightedStep(spacing: int, j: int, solve: int, before: int)
    requires j >= 1 && 1 <= solve <= 6 * spacing
    requires (j - 1) * j <= 2 * before <= 6 * spacing * ((j - 1) * j)
    ensures j * (j + 1) <= 2 * (before + j * solve) <= 6 * spacing * (j * (j + 1))
  {
    MulMonotone(1, solve, j);
    MulMonotone(solve, 6 * spacing, j);
    assert j * (j + 1) == (j - 1) * j + 2 * j;
    SpreadLeft(6 * spacing, (j - 1) * j, 2 * j);
    assert 6 * spacing * (2 * j) == 2 * (6 * spacing * j);
  }

  /** No division by zero. */
  lemma WeightedPositive(spacing: int, f: seq<int>, base: nat, j: nat)
    requires spacing >= 1 && j >= 1 && base + j < |f|
    ensures Weighted(spacing, f, base, j) > 0
  {
    WeightedBounds(spacing, f, base, j);
    MulMonotone(1, j, j + 1);
  }

  lemma FloorAtLeast(n: int, d: int, q: int)
    requires d > 0 && q * d <= n
    ensures q <= n / d
  {
    if n / d < q {
      MulMonotone(n / d + 1, q, d);
    }
  }

  lemma FloorBelow(n: int, d: int, q: int)
    requires d > 0 && n < q * d
    ensures n / d < q
  {
    var r := n / d;
    FloorBound(n, d);
    if r >= q {
      MulMonotone(q, r, d);
    }
  }

  lemma FloorBound(n: int, d: int)
    requires d > 0
    ensures (n / d) * d <= n
  {}

  /** The unclamped value lies between the summed difficulties over 6w and over w/T. */
  lemma RawBounds(spacing: int, summed: int, w: int, weighted: int)
    requires summed >= 0 && w >= 1 && spacing >= 1 && weighted > 0
    requires w * (w + 1) <= 2 * weighted <= 6 * spacing * (w * (w + 1))
    ensures summed / (6 * w) <= Raw(spacing, summed, w, weighted) <= (summed * spacing) / w
  {
    RawLower(spacing, summed, w, weighted);
    RawUpper(spacing, summed, w, weighted);
  }

  lemma RawLower(spacing: int, summed: int, w: int, weighted: int)
    requires summed >= 0 && w >= 1 && spacing >= 1 && weighted > 0
    requires 2 * weighted <= 6 * spacing * (w * (w + 1))
    ensures summed / (6 * w) <= Raw(spacing, summed, w, weighted)
  {
    var low, k := summed / (6 * w), spacing * (w + 1);
    FloorBound(summed, 6 * w);
    FloorAtLeast(summed, 6 * w, 0);
    MulMonotone(1, spacing, w + 1);
    Regroup(spacing, w);
    LowerCore(low, 6 * w, k, 2 * weighted, summed);
    Numerator(spacing, summed, w);
    RawIs(spacing, summed, w, weighted);
    FloorAtLeast(summed * k, 2 * weighted, low);
  }

  lemma RawIs(spacing: int, summed: int, w: int, weighted: int)
    requires weighted > 0
    ensures Raw(spacing, summed, w, weighted) == (summed * (w + 1) * spacing) / (2 * weighted)
  {}

  lemma Regroup(spacing: int, w: int)
    ensures 6 * spacing * (w * (w + 1)) == (6 * w) * (spacing * (w + 1))
  {}

  lemma Numerator(spacing: int, summed: int, w: int)
    ensures summed * (w + 1) * spacing == summed * (spacing * (w + 1))
    ensures summed * (w + 1) * spacing == (summed * spacing) * (w + 1)
  {}

  lemma Reassociate(a: int, b: int, c: int)
    ensures (a * b) * c == (c * a) * b
  {}

  lemma LowerCore(low: int, a: int, k: int, d: int, summed: int)
    requires low >= 0 && k >= 0 && d <= a * k && low * a <= summed
    ensures low * d <= summed * k
  {
    MulMonotone(d, a * k, low);
    Reassociate(a, k, low);
    MulMonotone(low * a, summed, k);
  }

  lemma UpperCore(raw: int, w: int, v: int, d: int, t: int)
    requires raw >= 0 && v >= 1 && w * v <= d && raw * d <= t * v
    ensures raw * w <= t
  {
    MulMonotone(w * v, d, raw);
    Reassociate(w, v, raw);
    if raw * w > t {
      MulMonotone(t + 1, raw * w, v);
    }
  }

  lemma RawUpper(spacing: int, summed: int, w: int, weighted: int)
    requires summed >= 0 && w >= 1 && spacing >= 1 && weighted > 0
    requires w * (w + 1) <= 2 * weighted
    ensures Raw(spacing, summed, w, weighted) <= (summed * spacing) / w
  {
    var t, raw := summed * spacing, Raw(spacing, summed, w, weighted);
    MulMonotone(0, summed, spacing);
    MulMonotone(0, t, w + 1);
    Numerator(spacing, summed, w);
    RawIs(spacing, summed, w, weighted);
    FloorBound(t * (w + 1), 2 * weighted);
    FloorAtLeast(t * (w + 1), 2 * weighted, 0);
    UpperCore(raw, w, w + 1, 2 * weighted, t);
    FloorAtLeast(t, w, raw);
  }

  lemma {:induction false} SummedNonNegative(history: seq<Entry>, base: nat, j: nat)
    requires base + j < |history|
    requires forall i :: 0 <= i < |history| ==> history[i].difficulty >= 0
    ensures Summed(history, base, j) >= 0
  {
    if j > 0 {
      SummedNonNegative(history, base, j - 1);
    }
  }

  lemma AverageBounds(spacing: int, f: seq<int>, base: nat, w: nat, summed: int)
    requires spacing >= 1 && w >= 1 && base + w < |f| && summed >= 0
    ensures
      var weighted := Weighted(spacing, f, base, w);
      && w * (w + 1) <= 2 * weighted <= 6 * spacing * (w * (w + 1)) && weighted > 0
      && summed / (6 * w) <= Raw(spacing, summed, w, weighted) <= (summed * spacing) / w
  {
    hide Raw, Weighted;
    WeightedBounds(spacing, f, base, w);
    WeightedPositive(spacing, f, base, w);
    RawBounds(spacing, summed, w, Weighted(spacing, f, base, w));
  }

  /** Both bounds for any history: the divisor never vanishes, and the average lies between the summed
      difficulties over 6w (every block at the cap) and over w/T (every block one second apart). */
  lemma RetargetBounds(p: Params, history: seq<Entry>, w: nat, summed: int, weighted: int)
    requires ValidParams(p) && |history| > TS_FILTER && w == Window(p, |history|)
    requires forall i :: 0 <= i < |history| ==> history[i].difficulty >= 0
    requires summed == Summed(history, |history| - w - 1, w)
    requires weighted == Weighted(p.targetSpacing, Readings(history), |history| - w - 1, w)
    ensures w * (w + 1) <= 2 * weighted <= 6 * p.targetSpacing * (w * (w + 1)) && weighted > 0
    ensures summed / (6 * w) <= Raw(p.targetSpacing, summed, w, weighted) <= (summed * p.targetSpacing) / w
  {
    hide Filtered, Raw, Weighted, Summed;
    SummedNonNegative(history, |history| - w - 1, w);
    AverageBounds(p.targetSpacing, Readings(history), |history| - w - 1, w, summed);
  }

  predicate InRange(p: Params, difficulty: int) {
    p.minDifficulty <= difficulty <= MAX_DIFFICULTY
  }

  /** One retarget keeps the difficulty in range and within a factor two of its parent, and before the
      limits the average obeys its two bounds. */
  lemma NextInRange(p: Params, history: seq<Entry>)
    requires ValidParams(p)
    ensures InRange(p, NextDifficulty(p, history))
    ensures |history| > TS_FILTER && InRange(p, history[|history| - 1].difficulty) ==>
      var parent := history[|history| - 1].difficulty;
      parent / 2 <= NextDifficulty(p, history) <= 2 * parent
  {}

  // ---------------------------------------------------------------- locality

  lemma FilteredLocal(stamps: seq<int>, off: nat, i: nat)
    requires off + TS_FILTER - 1 <= i < |stamps|
    ensures Filtered(stamps, i) == Filtered(stamps[off..], i - off)
  {
    assert stamps[i + 1 - TS_FILTER..i + 1] == stamps[off..][i - off + 1 - TS_FILTER..i - off + 1];
  }

  lemma {:induction false} AverageLocal(spacing: int, f: seq<int>, g: seq<int>, off: nat, base: nat, j: nat)
    requires off <= base && base + j < |f| && |g| == |f| - off
    requires forall i :: base <= i < |f| ==> g[i - off] == f[i]
    ensures Effective(f, base, j) == Effective(g, base - off, j)
    ensures Weighted(spacing, f, base, j) == Weighted(spacing, g, base - off, j)
  {
    if j > 0 {
      AverageLocal(spacing, f, g, off, base, j - 1);
    }
  }

  lemma {:induction false} SummedLocal(history: seq<Entry>, off: nat, base: nat, j: nat)
    requires off <= base && base + j < |history|
    ensures Summed(history, base, j) == Summed(history[off..], base - off, j)
  {
    if j > 0 {
      SummedLocal(history, off, base, j - 1);
    }
  }

  lemma ReadingsLocal(history: seq<Entry>, off: nat, i: nat)
    requires off + TS_FILTER - 1 <= i < |history|
    ensures Readings(history[off..])[i - off] == Readings(history)[i]
  {
    assert Stamps(history)[off..] == Stamps(history[off..]);
    FilteredLocal(Stamps(history), off, i);
  }

  function Need(p: Params): int { p.lwmaWindow + TS_FILTER }

  /** Only the last lwmaWindow + 5 blocks matter. */
  lemma NextDifficultyLocal(p: Params, history: seq<Entry>, off: nat)
    requires ValidParams(p) && off <= |history|
    requires off == 0 || |history| - off >= Need(p)
    ensures NextDifficulty(p, history[off..]) == NextDifficulty(p, history)
  {
    hide Filtered, Raw, Weighted, Summed, Effective, Clamp, Readings;
    var recent := history[off..];
    if off == 0 {
      assert recent == history;
    } else {
      var w := p.lwmaWindow;
      var base := |history| - w - 1;
      assert recent[|recent| - 1] == history[|history| - 1];
      forall i | base <= i < |history|
        ensures Readings(recent)[i - off] == Readings(history)[i]
      {
        ReadingsLocal(history, off, i);
      }
      AverageLocal(p.targetSpacing, Readings(history), Readings(recent), off, base, w);
      SummedLocal(history, off, base, w);
    }
  }

  // ---------------------------------------------------------------- shift invariance

  function ShiftTimes(history: seq<Entry>, d: int): (r: seq<Entry>)
    ensures |r| == |history|
    ensures forall i :: 0 <= i < |r| ==> r[i] == Entry(history[i].timestamp + d, history[i].difficulty)
  {
    seq(|history|, i requires 0 <= i < |history| => Entry(history[i].timestamp + d, history[i].difficulty))
  }

  lemma FilteredShift(stamps: seq<int>, d: int, i: nat)
    requires i < |stamps|
    ensures Filtered(Shift(stamps, d), i) == Filtered(stamps, i) + d
  {
    var lo := if i + 1 >= TS_FILTER then i + 1 - TS_FILTER else 0;
    assert Shift(stamps, d)[lo..i + 1] == Shift(stamps[lo..i + 1], d);
    SortShift(stamps[lo..i + 1], d);
  }

  lemma ReadingsShift(history: seq<Entry>, d: int)
    ensures Readings(ShiftTimes(history, d)) == Shift(Readings(history), d)
  {
    assert Stamps(ShiftTimes(history, d)) == Shift(Stamps(history), d);
    forall i | 0 <= i < |history|
      ensures Readings(ShiftTimes(history, d))[i] == Readings(history)[i] + d
    {
      FilteredShift(Stamps(history), d, i);
    }
  }

  lemma {:induction false} AverageShift(spacing: int, f: seq<int>, d: int, base: nat, j: nat)
    requires base + j < |f|
    ensures Effective(Shift(f, d), base, j) == Effective(f, base, j) + d
    ensures Weighted(spacing, Shift(f, d), base, j) == Weighted(spacing, f, base, j)
  {
    if j > 0 {
      AverageShift(spacing, f, d, base, j - 1);
    }
  }

  lemma {:induction false} SummedShift(history: seq<Entry>, d: int, base: nat, j: nat)
    requires base + j < |history|
    ensures Summed(ShiftTimes(history, d), base, j) == Summed(history, base, j)
  {
    if j > 0 {
      SummedShift(history, d, base, j - 1);
    }
  }

  /** Only differences of timestamps count. */
  lemma NextDifficultyShift(p: Params, history: seq<Entry>, d: int)
    requires ValidParams(p)
    ensures NextDifficulty(p, ShiftTimes(history, d)) == NextDifficulty(p, history)
  {
    hide Filtered, Weighted, Summed, Effective, Raw, Clamp;
    var w := Window(p, |history|);
    if w >= 1 {
      ReadingsShift(history, d);
      AverageShift(p.targetSpacing, Readings(history), d, |history| - w - 1, w);
      SummedShift(history, d, |history| - w - 1, w);
    }
  }

  // ---------------------------------------------------------------- steady state

  ghost predicate Steady(p: Params, history: seq<Entry>, difficulty: int) {
    forall i :: 0 <= i < |history| ==>
      history[i].difficulty == difficulty && history[i].timestamp == history[0].timestamp + i * p.targetSpacing
  }

  lemma ReadingSteady(p: Params, history: seq<Entry>, difficulty: int, i: nat)
    requires ValidParams(p) && Steady(p, history, difficulty)
    requires TS_FILTER - 1 <= i < |history|
    ensures Readings(history)[i] == history[0].timestamp + (i - 2) * p.targetSpacing
  {
    var segment := Stamps(history)[i + 1 - TS_FILTER..i + 1];
    forall a, b | 0 <= a < b < |segment|
      ensures segment[a] <= segment[b]
    {
      MulMonotone(i + 1 - TS_FILTER + a, i + 1 - TS_FILTER + b, p.targetSpacing);
    }
    SortOfAscending(segment);
    assert segment[2] == history[i - 2].timestamp;
  }

  lemma {:induction false} AverageSteady(spacing: int, f: seq<int>, start: int, base: nat, j: nat)
    requires spacing >= 1 && base + j < |f|
    requires forall i :: base <= i < |f| ==> f[i] == start + i * spacing
    ensures Effective(f, base, j) == start + (base + j) * spacing
    ensures 2 * Weighted(spacing, f, base, j) == j * (j + 1) * spacing
  {
    if j > 0 {
      AverageSteady(spacing, f, start, base, j - 1);
      NextMultiple(base + j, spacing);
      assert SolveTime(spacing, f, base, j) == spacing;
      NextTriangle(j, spacing);
    }
  }

  lemma NextMultiple(n: int, spacing: int)
    ensures n * spacing == (n - 1) * spacing + spacing
  {}

  lemma NextTriangle(j: int, spacing: int)
    ensures j * (j + 1) * spacing == (j - 1) * j * spacing + 2 * (j * spacing)
  {
    assert j * (j + 1) == (j - 1) * j + 2 * j;
    Spread((j - 1) * j, 2 * j, spacing);
    Spread(j, j, spacing);
  }

  lemma Spread(a: int, b: int, c: int)
    ensures (a + b) * c == a * c + b * c
  {}

  lemma {:induction false} SummedSteady(p: Params, history: seq<Entry>, difficulty: int, base: nat, j: nat)
    requires Steady(p, history, difficulty) && base + j < |history|
    ensures Summed(history, base, j) == j * difficulty
  {
    if j > 0 {
      SummedSteady(p, history, difficulty, base, j - 1);
      assert j * difficulty == (j - 1) * difficulty + difficulty;
    }
  }

  lemma RawSteady(spacing: int, difficulty: int, w: int, weighted: int)
    requires spacing >= 1 && w >= 1 && weighted > 0
    requires 2 * weighted == w * (w + 1) * spacing
    ensures Raw(spacing, w * difficulty, w, weighted) == difficulty
  {
    assert (w * difficulty) * (w + 1) * spacing == difficulty * (w * (w + 1) * spacing);
    ExactDivision(difficulty, 2 * weighted);
  }

  lemma ExactDivision(q: int, d: int)
    requires d > 0
    ensures (q * d) / d == q
  {
    FloorAtLeast(q * d, d, q);
    FloorBelow(q * d, d, q + 1);
  }

  lemma Distribute(i: int, t: int)
    ensures (i - 2) * t == i * t - 2 * t
  {}

  /** Blocks exactly one spacing apart at a constant difficulty require exactly that difficulty. */
  lemma SteadyStateIsFixed(p: Params, history: seq<Entry>, difficulty: int)
    requires ValidParams(p) && Steady(p, history, difficulty) && InRange(p, difficulty)
    requires |history| > TS_FILTER
    ensures NextDifficulty(p, history) == difficulty
  {
    hide Filtered, Weighted, Summed, Effective, Raw;
    var w := Window(p, |history|);
    var base := |history| - w - 1;
    var f, t := Readings(history), p.targetSpacing;
    var start := history[0].timestamp - 2 * t;
    forall i | base <= i < |f|
      ensures f[i] == start + i * t
    {
      ReadingSteady(p, history, difficulty, i);
      Distribute(i, t);
    }
    AverageSteady(t, f, start, base, w);
    SummedSteady(p, history, difficulty, base, w);
    WeightedPositive(t, f, base, w);
    RawSteady(t, difficulty, w, Weighted(t, f, base, w));
  }
}
