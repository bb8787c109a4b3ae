/** With an even window the median can fall: along the chains a node can receive it never falls for exactly
    the odd windows and those too long for any chain to outgrow. */
module MedianEven {
  import opened Types
  import opened Order
  import opened MedianTime

  ghost predicate Keeps(stamps: seq<int>, window: nat, i: nat, j: nat)
    requires window >= 1
  {
    1 <= i <= j <= |stamps| ==> Mtp(stamps[..i], window) <= Mtp(stamps[..j], window)
  }

  /** Heights and timestamps stay in the range a block may carry. */
  predicate Receivable(stamps: seq<int>) {
    |stamps| <= INT_MAX + 1 && forall i :: 0 <= i < |stamps| ==> 0 <= stamps[i] <= INT_MAX
  }

  /** Along no accepted chain does the median ever fall. */
  ghost predicate NeverFalls(window: nat)
    requires window >= 1
  {
    forall stamps: seq<int>, i: nat, j: nat ::
      Receivable(stamps) && Accepted(stamps, window) ==> Keeps(stamps, window, i, j)
  }

  // ---------------------------------------------------------------- a family of chains for even windows

  /** Low stamps from b upwards, each value but the first twice. */
  function Lows(b: int, n: nat): (s: seq<int>)
    ensures |s| == n && forall i :: 0 <= i < n ==> s[i] == b + (i + 1) / 2
  {
    seq(n, i requires 0 <= i < n => b + (i + 1) / 2)
  }

  function Highs(h: int, n: nat): (s: seq<int>)
    ensures |s| == n && forall i :: 0 <= i < n ==> s[i] == h
  {
    seq(n, i requires 0 <= i < n => h)
  }

  function First(k: nat): int { k / 2 + 8 }

  function High(k: nat): int { 2 * (k / 2) + 14 }

  /** The last and greatest of k low stamps. */
  function Last(k: nat): int { First(k) + k / 2 }

  /** Genesis, one early high stamp, k low ones and k - 1 high ones; then, as the early high stamp leaves the
      window, one in between. */
  function FallingStamps(k: nat): (s: seq<int>)
    requires k >= 1
    ensures |s| == 2 * k + 2
  {
    [0, High(k)] + Lows(First(k), k) + Highs(High(k), k - 1) + [Last(k) + 4]
  }

  // ---------------------------------------------------------------- medians by counting

  /** Too few elements reach m for the median to. */
  lemma MedianBelow(s: seq<int>, m: int)
    requires s != [] && CountAtLeast(s, m) <= |s| / 2 && (|s| % 2 == 0 ==> CountAtLeast(s, m) < |s| / 2)
    ensures MedianTimePast(s) < m
  {
    RankByCount(s, |s| / 2, m);
    if |s| % 2 == 0 {
      RankByCount(s, |s| / 2 - 1, m);
    }
  }

  /** The median of an even window lies at or below the mean of bounds on its two middle elements. */
  lemma MedianAtMost(s: seq<int>, low: int, high: int)
    requires |s| % 2 == 0 && |s| > 0
    requires CountAtLeast(s, low + 1) <= |s| / 2 && CountAtLeast(s, high + 1) < |s| / 2
    ensures MedianTimePast(s) <= (low + high) / 2
  {
    RankByCount(s, |s| / 2 - 1, low + 1);
    RankByCount(s, |s| / 2, high + 1);
  }

  lemma MedianReaches(s: seq<int>, low: int, high: int)
    requires |s| % 2 == 0 && |s| > 0
    requires CountAtLeast(s, low) >= |s| / 2 + 1 && CountAtLeast(s, high) >= |s| / 2
    ensures MedianTimePast(s) >= (low + high) / 2
  {
    RankByCount(s, |s| / 2 - 1, low);
    RankByCount(s, |s| / 2, high);
  }

  lemma RecentAll(s: seq<int>, window: nat)
    requires |s| <= window
    ensures Recent(s, window) == s
  {}

  lemma CountOne(x: int, m: int)
    ensures CountAtLeast([x], m) == if x >= m then 1 else 0
  {}

  /** Of n low stamps, those that reach m when m is their last value or one above. */
  lemma LowCount(b: int, n: nat, m: int)
    ensures b + n / 2 < m ==> CountAtLeast(Lows(b, n), m) == 0
    ensures n >= 1 && b + n / 2 >= m ==> CountAtLeast(Lows(b, n), m) >= 1
    ensures n >= 2 && n % 2 == 0 && m == b + n / 2 ==> CountAtLeast(Lows(b, n), m) == 1
  {
    hide CountAtLeast;
    var s := Lows(b, n);
    if b + n / 2 < m {
      NoneAtLeast(s, m);
    } else if n >= 1 {
      assert s == s[..n - 1] + [s[n - 1]];
      CountSplit(s[..n - 1], [s[n - 1]], m);
      CountOne(s[n - 1], m);
      if n % 2 == 0 && m == b + n / 2 {
        NoneAtLeast(s[..n - 1], m);
      }
    }
  }

  lemma HighCount(h: int, n: nat, m: int)
    ensures CountAtLeast(Highs(h, n), m) == if h >= m then n else 0
  {
    if h >= m {
      AllAtLeast(Highs(h, n), m);
    } else {
      NoneAtLeast(Highs(h, n), m);
    }
  }

  /** Counting in the chain part by part. */
  lemma PartCount(h: int, b: int, n: nat, c: nat, m: int)
    requires m > 0
    ensures CountAtLeast([0, h] + Lows(b, n) + Highs(h, c), m)
         == (if h >= m then 1 + c else 0) + CountAtLeast(Lows(b, n), m)
  {
    hide CountAtLeast;
    CountSplit([0, h] + Lows(b, n), Highs(h, c), m);
    CountSplit([0, h], Lows(b, n), m);
    assert [0, h] == [0] + [h];
    CountSplit([0], [h], m);
    CountOne(0, m);
    CountOne(h, m);
    HighCount(h, c, m);
  }

  // ---------------------------------------------------------------- every stamp is accepted

  lemma PrefixIs(k: nat, i: nat)
    requires k >= 1 && 2 <= i <= 2 * k + 1
    ensures FallingStamps(k)[..i] == [0, High(k)] + Lows(First(k), if i <= k + 2 then i - 2 else k)
                                     + Highs(High(k), if i <= k + 2 then 0 else i - k - 2)
    ensures FallingStamps(k)[i] == if i < k + 2 then First(k) + (i - 1) / 2
                                   else if i < 2 * k + 1 then High(k) else Last(k) + 4
  {
    hide First, High, Last;
  }

  /** The first stamp after the early high one exceeds the mean of genesis and that one. */
  lemma SecondAccepted(k: nat)
    requires k >= 1
    ensures FallingStamps(k)[2] > Mtp(FallingStamps(k)[..2], 2 * k)
  {
    hide CountAtLeast, MedianTimePast, FallingStamps;
    PrefixIs(k, 2);
    var s := FallingStamps(k)[..2];
    RecentAll(s, 2 * k);
    PartCount(High(k), First(k), 0, 0, 1);
    PartCount(High(k), First(k), 0, 0, High(k) + 1);
    LowCount(First(k), 0, 1);
    LowCount(First(k), 0, High(k) + 1);
    NoneAtLeast(Lows(First(k), 0), 1);
    NoneAtLeast(Lows(First(k), 0), High(k) + 1);
    MedianAtMost(s, 0, High(k));
  }

  /** A low stamp after n others: one other element reaches it, or two when the value repeats. */
  lemma LowAccepted(k: nat, n: nat)
    requires 1 <= n < k
    ensures FallingStamps(k)[n + 2] > Mtp(FallingStamps(k)[..n + 2], 2 * k)
  {
    hide CountAtLeast, MedianTimePast, FallingStamps;
    PrefixIs(k, n + 2);
    var s, b, h := FallingStamps(k)[..n + 2], First(k), High(k);
    RecentAll(s, 2 * k);
    var m := b + (n + 1) / 2;
    assert m <= h;
    if n % 2 == 1 {
      PartCount(h, b, n, 0, m);
      LowCount(b, n, m);
      MedianBelow(s, m);
    } else {
      PartCount(h, b, n, 0, m);
      PartCount(h, b, n, 0, m + 1);
      LowCount(b, n, m);
      LowCount(b, n, m + 1);
      MedianAtMost(s, m - 1, m);
    }
  }

  /** A high stamp meets fewer high ones than half the prefix. */
  lemma HighAccepted(k: nat, i: nat)
    requires k + 2 <= i <= 2 * k
    ensures FallingStamps(k)[i] > Mtp(FallingStamps(k)[..i], 2 * k)
  {
    hide CountAtLeast, MedianTimePast, FallingStamps;
    PrefixIs(k, i);
    var s, b, h := FallingStamps(k)[..i], First(k), High(k);
    RecentAll(s, 2 * k);
    PartCount(h, b, k, i - k - 2, h);
    LowCount(b, k, h);
    MedianBelow(s, h);
  }

  lemma EarlyAccepted(k: nat)
    requires k >= 1
    ensures FallingStamps(k)[1] > Mtp(FallingStamps(k)[..1], 2 * k)
  {
    hide CountAtLeast, MedianTimePast;
    var s := FallingStamps(k)[..1];
    assert s == [0];
    RecentAll(s, 2 * k);
    CountOne(0, High(k));
    MedianBelow(s, High(k));
  }

  // ---------------------------------------------------------------- the fall

  /** The window before the fall: k low stamps and k high ones. */
  lemma WindowBefore(k: nat)
    requires k >= 1
    ensures Mtp(FallingStamps(k)[..2 * k + 1], 2 * k) == Last(k) + 3
  {
    hide CountAtLeast, MedianTimePast, FallingStamps;
    PrefixIs(k, 2 * k + 1);
    var all, b, h := FallingStamps(k)[..2 * k + 1], First(k), High(k);
    var w := all[1..];
    assert all == [0] + w;
    assert Recent(all, 2 * k) == w;
    WindowCounts(k, all, w, Last(k));
    WindowCounts(k, all, w, Last(k) + 1);
    WindowCounts(k, all, w, h);
    WindowCounts(k, all, w, h + 1);
    LowCount(b, k, Last(k));
    LowCount(b, k, Last(k) + 1);
    LowCount(b, k, h);
    LowCount(b, k, h + 1);
    MedianAtMost(w, Last(k), h);
    MedianReaches(w, Last(k), h);
  }

  lemma WindowCounts(k: nat, all: seq<int>, w: seq<int>, m: int)
    requires k >= 1 && m > 0 && all == [0] + w
    requires all == [0, High(k)] + Lows(First(k), k) + Highs(High(k), k - 1)
    ensures CountAtLeast(w, m) == (if High(k) >= m then k else 0) + CountAtLeast(Lows(First(k), k), m)
  {
    hide CountAtLeast, High, First;
    PartCount(High(k), First(k), k, k - 1, m);
    CountSplit([0], w, m);
    CountOne(0, m);
  }

  /** The window after it: a high stamp gave way to one in between. */
  lemma WindowAfter(k: nat)
    requires k >= 1
    ensures Mtp(FallingStamps(k), 2 * k) <= Last(k) + 2
  {
    hide CountAtLeast, MedianTimePast;
    var s, b, h, t := FallingStamps(k), First(k), High(k), Last(k) + 4;
    var w := Lows(b, k) + Highs(h, k - 1) + [t];
    assert Recent(s, 2 * k) == w;
    forall m | m == Last(k) + 1 || m == t + 1
      ensures CountAtLeast(w, m) == k - 1 + if t >= m then 1 else 0
    {
      CountSplit(Lows(b, k) + Highs(h, k - 1), [t], m);
      CountSplit(Lows(b, k), Highs(h, k - 1), m);
      CountOne(t, m);
      LowCount(b, k, m);
      HighCount(h, k - 1, m);
    }
    MedianAtMost(w, Last(k), t);
  }

  lemma StampAccepted(k: nat, i: nat)
    requires k >= 1 && 1 <= i < 2 * k + 2
    ensures FallingStamps(k)[i] > Mtp(FallingStamps(k)[..i], 2 * k)
  {
    hide *;
    if i == 1 {
      EarlyAccepted(k);
    } else if i == 2 {
      SecondAccepted(k);
    } else if i < k + 2 {
      LowAccepted(k, i - 2);
    } else if i <= 2 * k {
      HighAccepted(k, i);
    } else {
      PrefixIs(k, 2 * k + 1);
      WindowBefore(k);
    }
  }

  lemma StampBounds(k: nat)
    requires k >= 1
    ensures forall i :: 0 <= i < |FallingStamps(k)| ==> 0 <= FallingStamps(k)[i] <= k + 14
  {
    hide FallingStamps;
    forall i | 0 <= i < 2 * k + 2
      ensures 0 <= FallingStamps(k)[i] <= k + 14
    {
      if i >= 2 {
        PrefixIs(k, i);
      } else {
        FirstStamps(k);
      }
    }
  }

  lemma FirstStamps(k: nat)
    requires k >= 1
    ensures FallingStamps(k)[0] == 0 && FallingStamps(k)[1] == High(k)
  {}

  /** For every even window there is an accepted chain of modest stamps, no longer than it takes for the window
      to leave two blocks behind, along which the median falls. */
  lemma EvenWindowFalls(k: nat)
    requires k >= 1
    ensures Accepted(FallingStamps(k), 2 * k) && !Keeps(FallingStamps(k), 2 * k, 2 * k + 1, 2 * k + 2)
    ensures forall i :: 0 <= i < |FallingStamps(k)| ==> 0 <= FallingStamps(k)[i] <= k + 14
  {
    hide FallingStamps, Mtp;
    var s := FallingStamps(k);
    assert s[..2 * k + 2] == s;
    StampBounds(k);
    WindowBefore(k);
    WindowAfter(k);
    forall i | 1 <= i < |s|
      ensures LaterThanMedian(s, 2 * k, i)
    {
      StampAccepted(k, i);
    }
  }

  // ---------------------------------------------------------------- windows that never fall

  /** While the window has left at most genesis behind, the median rises whatever the parity. */
  lemma {:induction false} GrowingKeeps(stamps: seq<int>, window: nat, i: nat, j: nat)
    requires window >= 1 && Accepted(stamps, window) && 1 <= i <= j <= |stamps| && j <= window
    ensures Mtp(stamps[..i], window) <= Mtp(stamps[..j], window)
    decreases j - i
  {
    hide Mtp, Accepted;
    if i < j {
      GrowingKeeps(stamps, window, i, j - 1);
      StepRises(stamps, window, j - 1);
    }
  }

  lemma StepRises(stamps: seq<int>, window: nat, k: nat)
    requires window >= 1 && Accepted(stamps, window) && 1 <= k < |stamps| && k < window
    ensures Mtp(stamps[..k], window) <= Mtp(stamps[..k + 1], window)
  {
    hide Mtp;
    assert LaterThanMedian(stamps, window, k);
    assert stamps[..k] + [stamps[k]] == stamps[..k + 1];
    MedianStep(stamps[..k], stamps[k], window);
  }

  lemma MtpOfOne(x: int, window: nat)
    requires window >= 1
    ensures Mtp([x], window) == x
  {}

  /** Genesis is the earliest of the first blocks. */
  lemma GenesisLeast(stamps: seq<int>, window: nat, i: nat)
    requires window >= 1 && Accepted(stamps, window) && i < |stamps| && i <= window
    ensures stamps[0] <= stamps[i]
  {
    if i > 0 {
      hide Mtp;
      assert stamps[..1] == [stamps[0]];
      MtpOfOne(stamps[0], window);
      GrowingKeeps(stamps, window, 1, i);
      assert LaterThanMedian(stamps, window, i);
    }
  }

  /** Leaving genesis behind does not lower the median. */
  lemma LeavingGenesis(stamps: seq<int>, window: nat)
    requires window >= 1 && Accepted(stamps, window) && |stamps| == window + 1
    ensures Mtp(stamps[..window], window) <= Mtp(stamps, window)
  {
    var s, m := stamps[..window], Mtp(stamps[..window], window);
    var w := stamps[1..];
    assert Recent(s, window) == s && Recent(stamps, window) == w;
    assert LaterThanMedian(stamps, window, window);
    assert stamps == s + [stamps[window]] && stamps == [stamps[0]] + w;
    CountSplit(s, [stamps[window]], m);
    CountSplit([stamps[0]], w, m);
    MedianRank(s);
    if stamps[0] >= m {
      forall i | 0 <= i < |w|
        ensures w[i] >= m
      {
        GenesisLeast(stamps, window, i + 1);
      }
      AllAtLeast(w, m);
    }
    MedianAtLeast(w, m);
  }

  lemma AcceptedPrefix(stamps: seq<int>, window: nat, n: nat)
    requires window >= 1 && Accepted(stamps, window) && n <= |stamps|
    ensures Accepted(stamps[..n], window)
  {
    forall i | 1 <= i < n
      ensures LaterThanMedian(stamps[..n], window, i)
    {
      assert LaterThanMedian(stamps, window, i);
      assert stamps[..n][..i] == stamps[..i];
    }
  }

  /** In a chain at most one block longer than the window the median never falls. */
  lemma ShortKeeps(stamps: seq<int>, window: nat, i: nat, j: nat)
    requires window >= 1 && Accepted(stamps, window) && |stamps| <= window + 1
    ensures Keeps(stamps, window, i, j)
  {
    hide Mtp, Accepted;
    if 1 <= i <= j <= |stamps| {
      if j <= window {
        GrowingKeeps(stamps, window, i, j);
      } else {
        assert stamps[..j] == stamps;
        if i < j {
          GrowingKeeps(stamps, window, i, window);
          LeavingGenesis(stamps, window);
        }
      }
    }
  }

  lemma OddKeeps(stamps: seq<int>, window: nat, i: nat, j: nat)
    requires window % 2 == 1 && Accepted(stamps, window)
    ensures Keeps(stamps, window, i, j)
  {
    if 1 <= i <= j <= |stamps| {
      MedianMonotone(stamps, window, i, j);
    }
  }

  lemma FallingReceivable(k: nat)
    requires 1 <= k && 2 * k <= INT_MAX
    ensures Receivable(FallingStamps(k))
  {
    hide Accepted, Keeps, FallingStamps;
    EvenWindowFalls(k);
  }

  /** Along the chains a node can receive the median never falls exactly when the window is odd, or longer
      than any height. */
  lemma NeverFallsIffOdd(window: nat)
    requires window >= 1
    ensures NeverFalls(window) <==> window % 2 == 1 || window > INT_MAX
  {
    hide Accepted, Keeps;
    if window % 2 == 1 || window > INT_MAX {
      forall stamps: seq<int>, i: nat, j: nat | Receivable(stamps) && Accepted(stamps, window)
        ensures Keeps(stamps, window, i, j)
      {
        if window % 2 == 1 {
          OddKeeps(stamps, window, i, j);
        } else {
          ShortKeeps(stamps, window, i, j);
        }
      }
    } else {
      FallingReceivable(window / 2);
      EvenWindowFalls(window / 2);
    }
  }
}
