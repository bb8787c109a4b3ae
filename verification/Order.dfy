/** Sorting integers and counting how many reach a threshold: the two views of an order statistic. */
module Order {

  function Pow2(n: nat): (r: nat)
    ensures r >= 1
  {
    if n == 0 then 1 else 2 * Pow2(n - 1)
  }

  function Insert(x: int, s: seq<int>): (r: seq<int>)
    ensures |r| == |s| + 1
  {
    if s == [] then [x]
    else if x <= s[0] then [x] + s
    else [s[0]] + Insert(x, s[1..])
  }

  function Sort(s: seq<int>): (r: seq<int>)
    ensures |r| == |s|
  {
    if s == [] then [] else Insert(s[0], Sort(s[1..]))
  }

  predicate Ascending(s: seq<int>) {
    forall i, j :: 0 <= i < j < |s| ==> s[i] <= s[j]
  }

  /** How many elements are at least m. */
  function CountAtLeast(s: seq<int>, m: int): (n: nat)
    ensures n <= |s|
  {
    if s == [] then 0 else (if s[0] >= m then 1 else 0) + CountAtLeast(s[1..], m)
  }

  lemma {:induction false} CountSplit(a: seq<int>, b: seq<int>, m: int)
    ensures CountAtLeast(a + b, m) == CountAtLeast(a, m) + CountAtLeast(b, m)
  {
    if a == [] {
      assert a + b == b;
    } else {
      assert (a + b)[1..] == a[1..] + b;
      CountSplit(a[1..], b, m);
    }
  }

  lemma {:induction false} InsertFacts(x: int, s: seq<int>, m: int)
    requires Ascending(s)
    ensures Ascending(Insert(x, s))
    ensures CountAtLeast(Insert(x, s), m) == CountAtLeast([x], m) + CountAtLeast(s, m)
    ensures forall y :: y in Insert(x, s) <==> y == x || y in s
  {
    if s == [] {
    } else if x <= s[0] {
      CountSplit([x], s, m);
    } else {
      InsertFacts(x, s[1..], m);
      assert s == [s[0]] + s[1..];
    }
  }

  lemma {:induction false} SortFacts(s: seq<int>, m: int)
    ensures Ascending(Sort(s))
    ensures CountAtLeast(Sort(s), m) == CountAtLeast(s, m)
    ensures forall y :: y in Sort(s) <==> y in s
  {
    if s != [] {
      SortFacts(s[1..], m);
      InsertFacts(s[0], Sort(s[1..]), m);
      assert s == [s[0]] + s[1..];
    }
  }

  /** The k-th smallest element reaches m exactly when at most k elements fall below m. */
  lemma RankByCount(s: seq<int>, k: nat, m: int)
    requires k < |s|
    ensures Sort(s)[k] >= m <==> CountAtLeast(s, m) >= |s| - k
  {
    SortFacts(s, m);
    AscendingCount(Sort(s), k, m);
  }

  lemma {:induction false} AscendingCount(s: seq<int>, k: nat, m: int)
    requires Ascending(s) && k < |s|
    ensures s[k] >= m <==> CountAtLeast(s, m) >= |s| - k
  {
    assert s == s[..k] + s[k..];
    CountSplit(s[..k], s[k..], m);
    if s[k] >= m {
      AllAtLeast(s[k..], m);
    } else {
      NoneAtLeast(s[..k + 1], m);
      assert s == s[..k + 1] + s[k + 1..];
      CountSplit(s[..k + 1], s[k + 1..], m);
    }
  }

  lemma {:induction false} AllAtLeast(s: seq<int>, m: int)
    requires forall i :: 0 <= i < |s| ==> s[i] >= m
    ensures CountAtLeast(s, m) == |s|
  {
    if s != [] { AllAtLeast(s[1..], m); }
  }

  lemma {:induction false} NoneAtLeast(s: seq<int>, m: int)
    requires forall i :: 0 <= i < |s| ==> s[i] < m
    ensures CountAtLeast(s, m) == 0
  {
    if s != [] { NoneAtLeast(s[1..], m); }
  }

  function Shift(s: seq<int>, d: int): (r: seq<int>)
    ensures |r| == |s| && forall i :: 0 <= i < |s| ==> r[i] == s[i] + d
  {
    seq(|s|, i requires 0 <= i < |s| => s[i] + d)
  }

  lemma ShiftCons(x: int, s: seq<int>, d: int)
    ensures Shift([x] + s, d) == [x + d] + Shift(s, d)
    ensures Shift([x] + s, d)[0] == x + d && Shift([x] + s, d)[1..] == Shift(s, d)
  {}

  lemma {:induction false} InsertShift(x: int, s: seq<int>, d: int)
    ensures Insert(x + d, Shift(s, d)) == Shift(Insert(x, s), d)
  {
    hide Shift;
    if s == [] {
      ShiftCons(x, [], d);
    } else {
      assert s == [s[0]] + s[1..];
      ShiftCons(s[0], s[1..], d);
      if x <= s[0] {
        ShiftCons(x, s, d);
      } else {
        InsertShift(x, s[1..], d);
        ShiftCons(s[0], Insert(x, s[1..]), d);
      }
    }
  }

  lemma {:induction false} SortShift(s: seq<int>, d: int)
    ensures Sort(Shift(s, d)) == Shift(Sort(s), d)
  {
    if s != [] {
      SortShift(s[1..], d);
      assert Shift(s, d)[1..] == Shift(s[1..], d);
      InsertShift(s[0], Sort(s[1..]), d);
    }
  }

  lemma {:induction false} SortOfAscending(s: seq<int>)
    requires Ascending(s)
    ensures Sort(s) == s
  {
    if s != [] {
      SortOfAscending(s[1..]);
      assert s == [s[0]] + s[1..];
    }
  }
}
