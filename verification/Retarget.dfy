/** What the retargeting rule computes: each reading is a median, the smoothed times are the least increasing ones,
    the result is the nearest admissible value, and one false timestamp moves it little. */
module Retarget {
  import opened Types
  import opened Order
  import opened MedianTime
  import opened Difficulty

  // ---------------------------------------------------------------- readings are medians

  /** The first index the reading at i looks at: i and up to four before it. */
  function From(i: nat): nat { if i < 4 then 0 else i - 4 }

  function AtLeast(s: seq<int>, low: nat, high: nat, m: int): (r: set<nat>)
    requires low <= high <= |s|
    ensures forall j :: j in r <==> low <= j < high && s[j] >= m
  {
    set j: nat | low <= j < high && s[j] >= m
  }

  function AtMost(s: seq<int>, low: nat, high: nat, m: int): (r: set<nat>)
    requires low <= high <= |s|
    ensures forall j :: j in r <==> low <= j < high && s[j] <= m
  {
    set j: nat | low <= j < high && s[j] <= m
  }

  lemma {:induction false} CountAsSet(s: seq<int>, low: nat, high: nat, m: int)
    requires low <= high <= |s|
    ensures |AtLeast(s, low, high, m)| == CountAtLeast(s[low..high], m)
    decreases high - low
  {
    if low == high {
      assert AtLeast(s, low, high, m) == {};
    } else {
      CountAsSet(s, low + 1, high, m);
      assert s[low..high][1..] == s[low + 1..high];
      var rest := AtLeast(s, low + 1, high, m);
      assert AtLeast(s, low, high, m) == if s[low] >= m then rest + {low} else rest;
    }
  }

  lemma {:induction false} Complement(s: seq<int>, low: nat, high: nat, m: int)
    requires low <= high <= |s|
    ensures |AtMost(s, low, high, m)| == high - low - |AtLeast(s, low, high, m + 1)|
    decreases high - low
  {
    if low == high {
      assert AtMost(s, low, high, m) == {} == AtLeast(s, low, high, m + 1);
    } else {
      Complement(s, low + 1, high, m);
      var few, many := AtMost(s, low + 1, high, m), AtLeast(s, low + 1, high, m + 1);
      if s[low] <= m {
        assert AtMost(s, low, high, m) == few + {low} && AtLeast(s, low, high, m + 1) == many;
      } else {
        assert AtMost(s, low, high, m) == few && AtLeast(s, low, high, m + 1) == many + {low};
      }
    }
  }

  lemma ReadingIs(history: seq<Entry>, i: nat)
    requires i < |history|
    ensures
      var segment := Stamps(history)[From(i)..i + 1];
      |segment| == i + 1 - From(i) && Readings(history)[i] == Sort(segment)[|segment| / 2]
  {
    hide Sort;
  }

  /** A reading is the (upper) median of the up to five latest timestamps: it is one of them, at least half of them
      reach it, and more than half do not exceed it. */
  lemma ReadingIsMedian(history: seq<Entry>, i: nat)
    requires i < |history|
    ensures
      var v, n, s := Readings(history)[i], i + 1 - From(i), Stamps(history);
      && n == Min(i + 1, 5)
      && (exists j :: From(i) <= j <= i && history[j].timestamp == v)
      && |AtLeast(s, From(i), i + 1, v)| >= n - n / 2
      && |AtMost(s, From(i), i + 1, v)| >= n / 2 + 1
  {
    hide Sort, Readings, AtLeast, AtMost, HasRank;
    ReadingIs(history, i);
    var s, low := Stamps(history), From(i);
    var segment := s[low..i + 1];
    SortedRank(segment, |segment| / 2);
    RankedBetween(s, low, i + 1, Readings(history)[i]);
  }

  /** Rank within a part of a sequence, counted with sets of indices. */
  lemma RankedBetween(s: seq<int>, low: nat, high: nat, v: int)
    requires low < high <= |s| && HasRank(s[low..high], v, (high - low) / 2)
    ensures
      var n := high - low;
      && (exists j :: low <= j < high && s[j] == v)
      && |AtLeast(s, low, high, v)| >= n - n / 2 && |AtMost(s, low, high, v)| >= n / 2 + 1
  {
    hide CountAtLeast, AtLeast, AtMost;
    CountAsSet(s, low, high, v);
    CountAsSet(s, low, high, v + 1);
    Complement(s, low, high, v);
    var k :| 0 <= k < high - low && s[low..high][k] == v;
    assert s[low + k] == v;
  }

  lemma {:induction false} CountAbove(s: seq<int>, low: nat, high: nat, m: int, some: set<nat>)
    requires low <= high <= |s| && forall j :: j in some ==> low <= j < high && s[j] >= m
    ensures CountAtLeast(s[low..high], m) >= |some|
  {
    CountAsSet(s, low, high, m);
    SubsetSize(some, AtLeast(s, low, high, m));
  }

  lemma SubsetSize(a: set<nat>, b: set<nat>)
    requires a <= b
    ensures |a| <= |b|
  {
    assert b == a + (b - a);
  }

  function Dropped(all: set<nat>, x: nat): (r: set<nat>)
    ensures forall j :: j in r <==> j in all && j != x
    ensures |r| >= |all| - 1
  {
    all - {x}
  }

  lemma FourAbove(s: seq<int>, i: nat, x: nat, m: int)
    requires 4 <= i < |s| && forall j :: i - 3 <= j <= i && j != x ==> s[j] >= m
    ensures CountAtLeast(s[i - 4..i + 1], m) >= 3
  {
    var all: set<nat> := {i - 3, i - 2, i - 1, i};
    assert |all| == 4;
    CountAbove(s, i - 4, i + 1, m, Dropped(all, x));
  }

  lemma FourBelow(s: seq<int>, i: nat, x: nat, m: int)
    requires 4 <= i < |s| && forall j :: i - 4 <= j < i && j != x ==> s[j] <= m
    ensures CountAtLeast(s[i - 4..i + 1], m + 1) <= 2
  {
    CountAsSet(s, i - 4, i + 1, m + 1);
    Complement(s, i - 4, i + 1, m);
    var all: set<nat> := {i - 4, i - 3, i - 2, i - 1};
    assert |all| == 4;
    SubsetSize(Dropped(all, x), AtMost(s, i - 4, i + 1, m));
  }

  /** The honest history, with the timestamp at index x replaced. */
  function Falsified(history: seq<Entry>, x: nat, stamp: int): (r: seq<Entry>)
    requires x < |history|
    ensures |r| == |history|
    ensures forall i :: 0 <= i < |r| ==> r[i].difficulty == history[i].difficulty
    ensures forall i :: 0 <= i < |r| ==> r[i].timestamp == if i == x then stamp else history[i].timestamp
  {
    history[x := history[x].(timestamp := stamp)]
  }

  predicate Ordered(history: seq<Entry>) {
    forall i, j :: 0 <= i <= j < |history| ==> history[i].timestamp <= history[j].timestamp
  }

  /** Of blocks stamped in order the reading is the timestamp two blocks back. */
  lemma ReadingOrdered(history: seq<Entry>, i: nat)
    requires Ordered(history) && 4 <= i < |history|
    ensures Readings(history)[i] == history[i - 2].timestamp
  {
    ReadingIs(history, i);
    var segment := Stamps(history)[i - 4..i + 1];
    assert forall a :: 0 <= a < 5 ==> segment[a] == history[i - 4 + a].timestamp;
    SortOfAscending(segment);
  }

  /** One timestamp may be anything: every reading stays between the honest ones of the blocks before and after. */
  lemma ReadingRobust(history: seq<Entry>, x: nat, stamp: int, i: nat)
    requires Ordered(history) && x < |history| && 4 <= i < |history|
    ensures history[i - 3].timestamp <= Readings(Falsified(history, x, stamp))[i] <= history[i - 1].timestamp
  {
    hide Readings, Sort, CountAtLeast;
    var after := Falsified(history, x, stamp);
    var s, low, high := Stamps(after), history[i - 3].timestamp, history[i - 1].timestamp;
    ReadingIs(after, i);
    FourAbove(s, i, x, low);
    FourBelow(s, i, x, high);
    RankByCount(s[i - 4..i + 1], 2, low);
    RankByCount(s[i - 4..i + 1], 2, high + 1);
  }

  // ---------------------------------------------------------------- smoothed times

  /** The smoothed times never lie before the readings, increase strictly, and are the least that do both. */
  lemma {:induction false} EffectiveLeast(f: seq<int>, base: nat, j: nat, g: seq<int>)
    requires base + j < |f|
    ensures Effective(f, base, j) >= f[base + j]
    ensures j > 0 ==> Effective(f, base, j) > Effective(f, base, j - 1)
    ensures j < |g| && (forall k :: 0 <= k <= j ==> g[k] >= f[base + k]) && (forall k :: 1 <= k <= j ==> g[k - 1] < g[k])
            ==> Effective(f, base, j) <= g[j]
  {
    if j > 0 {
      EffectiveLeast(f, base, j - 1, g);
    }
  }

  // ---------------------------------------------------------------- the limits

  /** Of the values within a factor two of the parent's and within the range of difficulties, the rule takes the one
      nearest to the average. */
  lemma NearestInLimits(p: Params, parent: int, raw: int)
    requires ValidParams(p) && InRange(p, parent)
    ensures
      var low, high, next := Max(p.minDifficulty, parent / 2), Min(MAX_DIFFICULTY, 2 * parent), Clamp(p, parent, raw);
      && low <= next <= high && low <= parent <= high
      && (low <= raw <= high ==> next == raw) && (raw < low ==> next == low) && (raw > high ==> next == high)
  {}

  // ---------------------------------------------------------------- blocks stamped in order

  /** Blocks stamped in strictly increasing order. */
  predicate Increasing(history: seq<Entry>) {
    forall i :: 1 <= i < |history| ==> history[i - 1].timestamp < history[i].timestamp
  }

  lemma {:induction false} IncreasingFar(history: seq<Entry>, i: nat, j: nat)
    requires Increasing(history) && i <= j < |history|
    ensures history[i].timestamp <= history[j].timestamp
    decreases j
  {
    if i < j {
      IncreasingFar(history, i, j - 1);
    }
  }

  lemma IncreasingOrdered(history: seq<Entry>)
    requires Increasing(history)
    ensures Ordered(history)
  {
    forall i, j | 0 <= i <= j < |history|
      ensures history[i].timestamp <= history[j].timestamp
    {
      IncreasingFar(history, i, j);
    }
  }

  /** 1 * first gap + 2 * second gap + ... of the timestamps after index from, each gap at most six spacings. */
  function WeightedGaps(spacing: int, history: seq<Entry>, from: nat, count: nat): int
    requires from + count < |history|
  {
    if count == 0 then 0
    else
      WeightedGaps(spacing, history, from, count - 1)
      + count * Min(6 * spacing, history[from + count].timestamp - history[from + count - 1].timestamp)
  }

  /** The difficulties declared by the last count blocks. */
  function LastDifficulties(history: seq<Entry>, count: nat): int
    requires count <= |history|
  {
    if count == 0 then 0 else history[|history| - count].difficulty + LastDifficulties(history, count - 1)
  }

  lemma {:induction false} SummedFront(history: seq<Entry>, base: nat, j: nat)
    requires 1 <= j && base + j < |history|
    ensures Summed(history, base, j) == history[base + 1].difficulty + Summed(history, base + 1, j - 1)
  {
    if j > 1 {
      SummedFront(history, base, j - 1);
    }
  }

  lemma {:induction false} SummedIsLast(history: seq<Entry>, count: nat)
    requires count < |history|
    ensures Summed(history, |history| - count - 1, count) == LastDifficulties(history, count)
  {
    if count > 0 {
      SummedFront(history, |history| - count - 1, count);
      SummedIsLast(history, count - 1);
    }
  }

  lemma {:induction false} WeightedOrdered(spacing: int, history: seq<Entry>, f: seq<int>, base: nat, j: nat)
    requires Increasing(history) && base >= 4 && base + j < |history| == |f|
    requires forall i :: 4 <= i < |f| ==> f[i] == history[i - 2].timestamp
    ensures Effective(f, base, j) == history[base + j - 2].timestamp
    ensures Weighted(spacing, f, base, j) == WeightedGaps(spacing, history, base - 2, j)
  {
    if j > 0 {
      WeightedOrdered(spacing, history, f, base, j - 1);
      assert history[base + j - 3].timestamp < history[base + j - 2].timestamp;
      assert f[base + j] == history[base + j - 2].timestamp;
      assert SolveTime(spacing, f, base, j)
          == Min(6 * spacing, history[base - 2 + j].timestamp - history[base - 2 + j - 1].timestamp);
    }
  }

  /** The rule on a history stamped in order, read off the headers: over the last w blocks, at most lwmaWindow and
      leaving out the first five, the average is the summed difficulties times (w + 1) * spacing over twice the weighted
      gaps, which lag two blocks behind; then the limits. */
  lemma OrderedDifficulty(p: Params, history: seq<Entry>, w: nat, gaps: int)
    requires ValidParams(p) && |history| > 5 && Increasing(history)
    requires w == Min(p.lwmaWindow, |history| - 5)
    requires gaps == WeightedGaps(p.targetSpacing, history, |history| - w - 3, w)
    ensures gaps > 0
    ensures NextDifficulty(p, history)
         == Clamp(p, history[|history| - 1].difficulty,
                  (LastDifficulties(history, w) * (w + 1) * p.targetSpacing) / (2 * gaps))
  {
    hide Readings, Clamp, Weighted, WeightedGaps, Summed, LastDifficulties, Raw, NextDifficulty;
    var f := Readings(history);
    var base := |history| - w - 1;
    IncreasingOrdered(history);
    forall i | 4 <= i < |f|
      ensures f[i] == history[i - 2].timestamp
    {
      ReadingOrdered(history, i);
    }
    WeightedOrdered(p.targetSpacing, history, f, base, w);
    SummedIsLast(history, w);
    NextIs(p, history, w);
    RawIs(p.targetSpacing, LastDifficulties(history, w), w, gaps);
  }

  // ---------------------------------------------------------------- constant rate

  ghost predicate EveryGap(history: seq<Entry>, gap: int, difficulty: int) {
    forall i :: 0 <= i < |history| ==>
      history[i].difficulty == difficulty && (i > 0 ==> history[i].timestamp == history[i - 1].timestamp + gap)
  }

  lemma {:induction false} GapsAtRate(spacing: int, history: seq<Entry>, gap: int, difficulty: int, from: nat, count: nat)
    requires EveryGap(history, gap, difficulty) && from + count < |history| && gap <= 6 * spacing
    ensures 2 * WeightedGaps(spacing, history, from, count) == count * (count + 1) * gap
  {
    if count > 0 {
      GapsAtRate(spacing, history, gap, difficulty, from, count - 1);
      NextTriangle(count, gap);
    }
  }

  lemma {:induction false} DifficultiesAtRate(history: seq<Entry>, gap: int, difficulty: int, count: nat)
    requires EveryGap(history, gap, difficulty) && count <= |history|
    ensures LastDifficulties(history, count) == count * difficulty
  {
    if count > 0 {
      DifficultiesAtRate(history, gap, difficulty, count - 1);
      Spread(1, count - 1, difficulty);
    }
  }

  lemma Cancel(a: int, d: int, t: int, w: int, s: int)
    requires a == w * (w + 1) && a > 0 && s > 0
    ensures ((w * d) * (w + 1) * t) / (a * s) == (d * t) / s
  {
    assert (w * d) * (w + 1) * t == a * (d * t) by {
      Reorder(w, d, t);
    }
    Quotient(a, d * t, s);
  }

  lemma Reorder(w: int, d: int, t: int)
    ensures (w * d) * (w + 1) * t == (w * (w + 1)) * (d * t)
  {
    assert (w * d) * (w + 1) == (w * (w + 1)) * d;
  }

  lemma Quotient(a: int, n: int, s: int)
    requires a > 0 && s > 0
    ensures a * s > 0 && (a * n) / (a * s) == n / s
  {
    var q := n / s;
    FloorBound(n, s);
    MulMonotone(1, s, a);
    assert q * (a * s) == a * (q * s);
    MulMonotone(q * s, n, a);
    FloorAtLeast(a * n, a * s, q);
    assert n < (q + 1) * s;
    assert (q + 1) * (a * s) == a * ((q + 1) * s);
    MulMonotone(n + 1, (q + 1) * s, a);
    FloorBelow(a * n, a * s, q + 1);
  }

  /** Blocks that come at a constant rate, whatever it is: the average is the difficulty scaled by spacing over gap,
      rounded down, so twice as fast means twice the difficulty; gaps count as six spacings at most. */
  lemma RateScales(p: Params, history: seq<Entry>, gap: int, difficulty: int)
    requires ValidParams(p) && |history| > 5 && EveryGap(history, gap, difficulty) && 1 <= gap <= 6 * p.targetSpacing
    ensures NextDifficulty(p, history) == Clamp(p, difficulty, (difficulty * p.targetSpacing) / gap)
  {
    hide Clamp, WeightedGaps, LastDifficulties, NextDifficulty;
    var w := Min(p.lwmaWindow, |history| - 5);
    OrderedDifficulty(p, history, w, WeightedGaps(p.targetSpacing, history, |history| - w - 3, w));
    GapsAtRate(p.targetSpacing, history, gap, difficulty, |history| - w - 3, w);
    DifficultiesAtRate(history, gap, difficulty, w);
    MulMonotone(1, w, w + 1);
    Cancel(w * (w + 1), difficulty, p.targetSpacing, w, gap);
  }

  // ---------------------------------------------------------------- one false timestamp

  lemma {:induction false} StampAtRate(history: seq<Entry>, gap: int, difficulty: int, i: nat)
    requires EveryGap(history, gap, difficulty) && i < |history|
    ensures history[i].timestamp == history[0].timestamp + i * gap
  {
    if i > 0 {
      StampAtRate(history, gap, difficulty, i - 1);
      Spread(i - 1, 1, gap);
    }
  }

  predicate Near(spacing: int, f: seq<int>, start: int, base: nat, k: nat)
    requires base + k < |f|
  {
    start + (k - 1) * spacing <= f[base + k] <= start + (k + 1) * spacing
  }

  /** Readings within one spacing of start + j * spacing give smoothed times within one spacing as well. */
  lemma {:induction false} EffectiveNear(spacing: int, f: seq<int>, start: int, base: nat, j: nat)
    requires spacing >= 1 && base + j < |f|
    requires forall k :: 0 <= k <= j ==> Near(spacing, f, start, base, k)
    ensures start + (j - 1) * spacing <= Effective(f, base, j) <= start + (j + 1) * spacing
  {
    assert Near(spacing, f, start, base, j);
    if j > 0 {
      EffectiveNear(spacing, f, start, base, j - 1);
      Spread(j, 1, spacing);
    }
  }

  /** The weighted sum follows from the last smoothed time, up to 2 * j spacings. */
  lemma {:induction false} WeightedNear(spacing: int, f: seq<int>, start: int, base: nat, j: nat)
    requires spacing >= 1 && base + j < |f|
    requires forall k :: 0 <= k <= j ==> Near(spacing, f, start, base, k)
    ensures
      var last, middle := 2 * (j * (Effective(f, base, j) - start)), spacing * (j * (j - 1));
      last - middle - 2 * (spacing * j) <= 2 * Weighted(spacing, f, base, j) <= last - middle + 2 * (spacing * j)
  {
    if j > 0 {
      WeightedNear(spacing, f, start, base, j - 1);
      EffectiveNear(spacing, f, start, base, j - 1);
      EffectiveNear(spacing, f, start, base, j);
      Spread(j - 2, 3, spacing);
      Spread(j - 2, 2, spacing);
      var before, after := Effective(f, base, j - 1) - start, Effective(f, base, j) - start;
      assert SolveTime(spacing, f, base, j) == after - before;
      NearStep(spacing, j, before, after, Weighted(spacing, f, base, j - 1));
    }
  }

  lemma NearStep(t: int, j: nat, before: int, after: int, sum: int)
    requires j >= 1 && (j - 2) * t <= before <= j * t
    requires
      var last, middle := 2 * ((j - 1) * before), t * ((j - 1) * (j - 2));
      last - middle - 2 * (t * (j - 1)) <= 2 * sum <= last - middle + 2 * (t * (j - 1))
    ensures
      var last, middle := 2 * (j * after), t * (j * (j - 1));
      last - middle - 2 * (t * j) <= 2 * (sum + j * (after - before)) <= last - middle + 2 * (t * j)
  {
    assert j * (after - before) == j * after - j * before;
    assert (j - 1) * before == j * before - before;
    assert (j - 1) * (j - 2) == j * (j - 1) - 2 * (j - 1);
    SpreadLeft(t, j * (j - 1), -2 * (j - 1));
    SpreadLeft(t, j, -1);
    SpreadLeft(t, -2 * j, 2);
    assert (j - 2) * t == t * j - 2 * t;
  }

  lemma WeightedBetween(spacing: int, f: seq<int>, start: int, base: nat, w: nat)
    requires spacing >= 1 && w >= 1 && base + w < |f|
    requires forall k :: 0 <= k <= w ==> Near(spacing, f, start, base, k)
    ensures (w * spacing) * (w - 3) <= 2 * Weighted(spacing, f, base, w) <= (w * spacing) * (w + 5)
  {
    hide Weighted, Effective;
    WeightedNear(spacing, f, start, base, w);
    EffectiveNear(spacing, f, start, base, w);
    var last := Effective(f, base, w) - start;
    MulMonotone((w - 1) * spacing, last, w);
    MulMonotone(last, (w + 1) * spacing, w);
    BetweenCore(spacing, w, w * last);
  }

  lemma BetweenCore(t: int, w: nat, x: int)
    requires ((w - 1) * t) * w <= x <= ((w + 1) * t) * w
    ensures (w * t) * (w - 3) <= 2 * x - t * (w * (w - 1)) - 2 * (t * w)
    ensures 2 * x - t * (w * (w - 1)) + 2 * (t * w) <= (w * t) * (w + 5)
  {
    var u := w * t;
    assert t * (w * (w - 1)) == u * (w - 1) && t * w == u;
    assert ((w - 1) * t) * w == u * (w - 1) && ((w + 1) * t) * w == u * (w + 1);
    SpreadLeft(u, w, -1);
    SpreadLeft(u, w, 1);
    SpreadLeft(u, w, -3);
    SpreadLeft(u, w, 5);
  }

  lemma AverageBetween(spacing: int, difficulty: int, w: nat, weighted: int)
    requires spacing >= 1 && difficulty >= 0 && w > 3 && weighted > 0
    requires (w * spacing) * (w - 3) <= 2 * weighted <= (w * spacing) * (w + 5)
    ensures
      var raw := Raw(spacing, w * difficulty, w, weighted);
      && (difficulty * (w + 1)) / (w + 5) <= raw && raw * (w - 3) <= difficulty * (w + 1)
  {
    hide Raw;
    var u, n, d := w * spacing, difficulty * (w + 1), 2 * weighted;
    MulMonotone(1, spacing, w);
    Regrouped(w, difficulty, spacing);
    RawIs(spacing, w * difficulty, w, weighted);
    LowSide(u, n, d, w + 5);
    HighSide(u, n, d, w - 3);
  }

  lemma Regrouped(w: int, d: int, t: int)
    ensures (w * d) * (w + 1) * t == (w * t) * (d * (w + 1))
  {
    var n := d * (w + 1);
    assert (w * d) * (w + 1) == w * n;
    assert (w * n) * t == (w * t) * n;
  }

  lemma LowSide(u: int, n: int, d: int, k: int)
    requires u > 0 && n >= 0 && 0 < d <= u * k && k > 0
    ensures n / k <= (u * n) / d
  {
    var q := n / k;
    FloorBound(n, k);
    FloorAtLeast(n, k, 0);
    MulMonotone(d, u * k, q);
    Reassociate(q, k, u);
    assert (u * k) * q == u * (q * k);
    MulMonotone(q * k, n, u);
    FloorAtLeast(u * n, d, q);
  }

  lemma HighSide(u: int, n: int, d: int, k: int)
    requires u > 0 && n >= 0 && u * k <= d && d > 0 && k > 0
    ensures ((u * n) / d) * k <= n
  {
    var q := (u * n) / d;
    MulMonotone(0, n, u);
    FloorBound(u * n, d);
    FloorAtLeast(u * n, d, 0);
    MulMonotone(u * k, d, q);
    assert (u * k) * q == u * (q * k);
    if q * k > n {
      MulMonotone(n + 1, q * k, u);
    }
  }

  lemma {:induction false} FalsifiedSum(history: seq<Entry>, x: nat, stamp: int, base: nat, j: nat)
    requires x < |history| && base + j < |history|
    ensures Summed(Falsified(history, x, stamp), base, j) == Summed(history, base, j)
  {
    if j > 0 {
      FalsifiedSum(history, x, stamp, base, j - 1);
    }
  }

  lemma FalsifiedReadings(history: seq<Entry>, gap: int, difficulty: int, x: nat, stamp: int, base: nat, k: nat)
    requires EveryGap(history, gap, difficulty) && gap >= 1 && x < |history| && 4 <= base && base + k < |history|
    ensures
      var start := history[0].timestamp + (base - 2) * gap;
      start + (k - 1) * gap <= Readings(Falsified(history, x, stamp))[base + k] <= start + (k + 1) * gap
  {
    hide Readings;
    IncreasingOrdered(history);
    ReadingRobust(history, x, stamp, base + k);
    StampAtRate(history, gap, difficulty, base + k - 3);
    StampAtRate(history, gap, difficulty, base + k - 1);
    Spread(base - 2, k - 1, gap);
    Spread(base - 2, k + 1, gap);
  }

  /** A false timestamp, whatever it says and whichever block carries it, moves the difficulty of a network on schedule
      by little: over a window of w > 3 blocks, at most down to (w + 1) / (w + 5) and up to (w + 1) / (w - 3) of it. */
  lemma FalseStampMovesLittle(p: Params, history: seq<Entry>, difficulty: int, x: nat, stamp: int, w: nat)
    requires ValidParams(p) && |history| > 5 && InRange(p, difficulty) && x < |history|
    requires EveryGap(history, p.targetSpacing, difficulty) && w == Min(p.lwmaWindow, |history| - 5) && w > 3
    ensures
      var next := NextDifficulty(p, Falsified(history, x, stamp));
      (difficulty * (w + 1)) / (w + 5) <= next && next * (w - 3) <= difficulty * (w + 1)
  {
    hide Readings, Weighted, Summed, Raw, Clamp, LastDifficulties, NextDifficulty;
    var t, base, after := p.targetSpacing, |history| - w - 1, Falsified(history, x, stamp);
    var f, start := Readings(after), history[0].timestamp + (base - 2) * t;
    forall k: nat | k <= w
      ensures Near(t, f, start, base, k)
    {
      FalsifiedReadings(history, t, difficulty, x, stamp, base, k);
    }
    WeightedBetween(t, f, start, base, w);
    WeightedPositive(t, f, base, w);
    FalsifiedSum(history, x, stamp, base, w);
    SummedIsLast(history, w);
    DifficultiesAtRate(history, t, difficulty, w);
    var raw := Raw(t, w * difficulty, w, Weighted(t, f, base, w));
    AverageBetween(t, difficulty, w, Weighted(t, f, base, w));
    NearestInLimits(p, difficulty, raw);
    NextIs(p, after, w);
    BothSides(difficulty, w, raw, Clamp(p, difficulty, raw));
  }

  lemma NextIs(p: Params, history: seq<Entry>, w: nat)
    requires ValidParams(p) && |history| > 5 && w == Min(p.lwmaWindow, |history| - 5)
    ensures
      var base, t := |history| - w - 1, p.targetSpacing;
      && Weighted(t, Readings(history), base, w) > 0
      && NextDifficulty(p, history)
         == Clamp(p, history[|history| - 1].difficulty,
                  Raw(t, Summed(history, base, w), w, Weighted(t, Readings(history), base, w)))
  {
    hide Readings, Weighted, Summed, Raw, Clamp;
    WeightedPositive(p.targetSpacing, Readings(history), |history| - w - 1, w);
  }

  lemma BothSides(d: int, w: nat, raw: int, next: int)
    requires d >= 0 && w > 3 && (next <= raw || next <= d) && (next >= raw || next >= d)
    requires (d * (w + 1)) / (w + 5) <= raw && raw * (w - 3) <= d * (w + 1)
    ensures (d * (w + 1)) / (w + 5) <= next && next * (w - 3) <= d * (w + 1)
  {
    MulMonotone(w - 3, w + 1, d);
    MulMonotone(w + 1, w + 5, d);
    FloorBelow(d * (w + 1), w + 5, d + 1) by {
      Spread(d, 1, w + 5);
    }
    if next <= raw {
      MulMonotone(next, raw, w - 3);
    } else {
      MulMonotone(next, d, w - 3);
    }
  }
}
