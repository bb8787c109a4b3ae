/** Median-time-past: the lower bound on a block's timestamp. */
module MedianTime {
  import opened Order

  /** Median of the given timestamps; for an even count the floor of the mean of the two middle ones. */
  function MedianTimePast(stamps: seq<int>): int
    requires stamps != []
  {
    var s := Sort(stamps);
    var n := |s|;
    if n % 2 == 1 then s[n / 2] else (s[n / 2 - 1] + s[n / 2]) / 2
  }

  /** The last n entries, or all of them when there are fewer. */
  function Recent<T>(s: seq<T>, n: nat): (r: seq<T>)
    ensures |r| == if |s| <= n then |s| else n
  {
    if |s| <= n then s else s[|s| - n..]
  }

  /** Median-time-past seen by the child of the last block of a chain with these timestamps. */
  function Mtp(stamps: seq<int>, window: nat): int
    requires stamps != [] && window >= 1
  {
    MedianTimePast(Recent(stamps, window))
  }

  predicate LaterThanMedian(stamps: seq<int>, window: nat, i: nat)
    requires window >= 1 && 1 <= i < |stamps|
  {
    stamps[i] > Mtp(stamps[..i], window)
  }

  /** Every block but the first is stamped later than the median it saw. */
  ghost predicate Accepted(stamps: seq<int>, window: nat)
    requires window >= 1
  {
    forall i {:trigger LaterThanMedian(stamps, window, i)} :: 1 <= i < |stamps| ==>
      LaterThanMedian(stamps, window, i)
  }

  /** v is what stands at position k once s is sorted. */
  predicate HasRank(s: seq<int>, v: int, k: nat) {
    v in s && CountAtLeast(s, v) >= |s| - k && CountAtLeast(s, v + 1) < |s| - k
  }

  lemma SortedRank(s: seq<int>, k: nat)
    requires k < |s|
    ensures HasRank(s, Sort(s)[k], k)
  {
    hide Sort, CountAtLeast;
    RankByCount(s, k, Sort(s)[k]);
    RankByCount(s, k, Sort(s)[k] + 1);
    SortFacts(s, 0);
    assert Sort(s)[k] in Sort(s);
  }

  /** The median is the mean, rounded down, of the two middle elements, which are the same one for an odd count. */
  lemma MedianIsMiddle(s: seq<int>) returns (low: int, high: int)
    requires s != []
    ensures HasRank(s, low, (|s| - 1) / 2) && HasRank(s, high, |s| / 2)
    ensures MedianTimePast(s) == (low + high) / 2
  {
    low, high := Sort(s)[(|s| - 1) / 2], Sort(s)[|s| / 2];
    hide HasRank;
    SortedRank(s, (|s| - 1) / 2);
    SortedRank(s, |s| / 2);
  }

  /** Enough elements at or above the median, whatever the parity. */
  lemma MedianRank(s: seq<int>)
    requires s != []
    ensures CountAtLeast(s, MedianTimePast(s)) >= |s| - |s| / 2
  {
    var m, n := MedianTimePast(s), |s|;
    SortFacts(s, m);
    RankByCount(s, n / 2, m);
  }

  /** A number is at most the median as soon as enough elements reach it. */
  lemma MedianAtLeast(s: seq<int>, m: int)
    requires s != []
    requires CountAtLeast(s, m) >= if |s| % 2 == 1 then |s| - |s| / 2 else |s| - |s| / 2 + 1
    ensures MedianTimePast(s) >= m
  {
    var n := |s|;
    RankByCount(s, n / 2, m);
    if n % 2 == 0 {
      RankByCount(s, n / 2 - 1, m);
    }
  }

  /** Accepting a block never lowers the median: while the window is still filling up, and ever after
      when the full window has odd size. */
  lemma MedianStep(stamps: seq<int>, t: int, window: nat)
    requires stamps != [] && window >= 1
    requires window % 2 == 1 || |stamps| < window
    requires t > Mtp(stamps, window)
    ensures Mtp(stamps + [t], window) >= Mtp(stamps, window)
  {
    var s, m := Recent(stamps, window), Mtp(stamps, window);
    MedianRank(s);
    CountSplit(s, [t], m);
    assert CountAtLeast([t], m) == 1;
    var s' := Recent(stamps + [t], window);
    if |stamps| < window {
      assert s' == s + [t];
    } else {
      assert s + [t] == [s[0]] + s';
      CountSplit([s[0]], s', m);
    }
    MedianAtLeast(s', m);
  }

  lemma AcceptedStep(stamps: seq<int>, window: nat, k: nat)
    requires window % 2 == 1 && Accepted(stamps, window)
    requires 1 <= k < |stamps|
    ensures Mtp(stamps[..k], window) <= Mtp(stamps[..k + 1], window)
  {
    assert LaterThanMedian(stamps, window, k);
    assert stamps[..k] + [stamps[k]] == stamps[..k + 1];
    MedianStep(stamps[..k], stamps[k], window);
  }

  lemma {:induction false} MedianMonotone(stamps: seq<int>, window: nat, i: nat, j: nat)
    requires window % 2 == 1 && Accepted(stamps, window)
    requires 1 <= i <= j <= |stamps|
    ensures Mtp(stamps[..i], window) <= Mtp(stamps[..j], window)
    decreases j - i
  {
    hide Mtp, Accepted;
    if i < j {
      MedianMonotone(stamps, window, i, j - 1);
      AcceptedStep(stamps, window, j - 1);
    }
  }

  /** An accepted timestamp exceeds the median seen by every ancestor, not only its own. */
  lemma ExceedsEveryAncestorMedian(stamps: seq<int>, window: nat, i: nat, j: nat)
    requires window % 2 == 1 && Accepted(stamps, window)
    requires 1 <= i <= j < |stamps|
    ensures stamps[j] > Mtp(stamps[..i], window)
  {
    assert LaterThanMedian(stamps, window, j);
    MedianMonotone(stamps, window, i, j);
  }

  function Newest(stamps: seq<int>): (r: seq<int>)
    ensures |r| == |stamps|
  {
    if stamps == [] then [] else [stamps[|stamps| - 1]] + Newest(stamps[..|stamps| - 1])
  }

  lemma {:induction false} NewestCounts(stamps: seq<int>, m: int)
    ensures CountAtLeast(Newest(stamps), m) == CountAtLeast(stamps, m)
  {
    if stamps != [] {
      var before, last := stamps[..|stamps| - 1], [stamps[|stamps| - 1]];
      NewestCounts(before, m);
      CountSplit(last, Newest(before), m);
      CountSplit(before, last, m);
      assert stamps == before + last;
    }
  }

  /** The timestamps are read newest first; their median does not depend on the order. */
  lemma MedianIgnoresOrder(stamps: seq<int>)
    requires stamps != []
    ensures MedianTimePast(Newest(stamps)) == MedianTimePast(stamps)
  {
    var a, b := Sort(stamps), Sort(Newest(stamps));
    forall k | 0 <= k < |stamps|
      ensures a[k] == b[k]
    {
      NewestCounts(stamps, a[k]);
      NewestCounts(stamps, b[k]);
      RankByCount(stamps, k, a[k]);
      RankByCount(stamps, k, b[k]);
      RankByCount(Newest(stamps), k, a[k]);
      RankByCount(Newest(stamps), k, b[k]);
    }
  }
}
