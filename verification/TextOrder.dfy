/** Lexicographic order on text, and listings of named amounts sorted by it. */
module TextOrder {

  predicate TextBefore(a: string, b: string) {
    b != [] && (a == [] || a[0] < b[0] || (a[0] == b[0] && TextBefore(a[1..], b[1..])))
  }

  /** Of two texts exactly one of three holds: before, equal, after. */
  lemma {:induction false} TextTotal(a: string, b: string)
    ensures TextBefore(a, b) || a == b || TextBefore(b, a)
    ensures !(TextBefore(a, b) && TextBefore(b, a)) && !(a == b && TextBefore(a, b))
  {
    if a != [] && b != [] {
      TextTotal(a[1..], b[1..]);
      assert a == [a[0]] + a[1..] && b == [b[0]] + b[1..];
    }
  }

  /** The order compares the first characters that differ; a text comes before its extensions. */
  lemma {:induction false} TextBeforeIs(a: string, b: string)
    ensures TextBefore(a, b) <==> exists k :: 0 <= k <= |a| && k < |b| && a[..k] == b[..k] && (k == |a| || a[k] < b[k])
  {
    if a != [] && b != [] && a[0] == b[0] {
      TextBeforeIs(a[1..], b[1..]);
      if TextBefore(a, b) {
        var k :| 0 <= k <= |a[1..]| && k < |b[1..]| && a[1..][..k] == b[1..][..k] && (k == |a[1..]| || a[1..][k] < b[1..][k]);
        assert a[..k + 1] == [a[0]] + a[1..][..k] && b[..k + 1] == [b[0]] + b[1..][..k];
      }
      if k :| 0 <= k <= |a| && k < |b| && a[..k] == b[..k] && (k == |a| || a[k] < b[k]) {
        assert k > 0;
        assert a[1..][..k - 1] == a[..k][1..] && b[1..][..k - 1] == b[..k][1..];
      }
    } else if TextBefore(a, b) {
      assert a[..0] == b[..0];
    } else if k :| 0 <= k <= |a| && k < |b| && a[..k] == b[..k] && (k == |a| || a[k] < b[k]) {
      assert false;
    }
  }

  lemma {:induction false} TextTransitive(a: string, b: string, c: string)
    requires TextBefore(a, b) && TextBefore(b, c)
    ensures TextBefore(a, c)
  {
    if a != [] && a[0] == b[0] && b[0] == c[0] {
      TextTransitive(a[1..], b[1..], c[1..]);
    }
  }

  // ---------------------------------------------------------------- sorted listings

  predicate EntryAtMost(a: (string, int), b: (string, int)) {
    TextBefore(a.0, b.0) || (a.0 == b.0 && a.1 <= b.1)
  }

  predicate SortedEntries(entries: seq<(string, int)>) {
    forall i, j :: 0 <= i < j < |entries| ==> EntryAtMost(entries[i], entries[j])
  }

  function InsertEntry(x: (string, int), sorted: seq<(string, int)>): seq<(string, int)> {
    if sorted == [] || EntryAtMost(x, sorted[0]) then [x] + sorted
    else [sorted[0]] + InsertEntry(x, sorted[1..])
  }

  function SortEntries(entries: seq<(string, int)>): seq<(string, int)> {
    if entries == [] then [] else InsertEntry(entries[0], SortEntries(entries[1..]))
  }

  lemma {:induction false} InsertCounts(x: (string, int), sorted: seq<(string, int)>)
    ensures multiset(InsertEntry(x, sorted)) == multiset{x} + multiset(sorted)
  {
    if sorted != [] {
      assert sorted == [sorted[0]] + sorted[1..];
      InsertCounts(x, sorted[1..]);
    }
  }

  lemma {:induction false} SortCounts(entries: seq<(string, int)>)
    ensures multiset(SortEntries(entries)) == multiset(entries)
  {
    if entries != [] {
      assert entries == [entries[0]] + entries[1..];
      SortCounts(entries[1..]);
      InsertCounts(entries[0], SortEntries(entries[1..]));
    }
  }

  lemma EntryOrder(a: (string, int), b: (string, int), c: (string, int))
    ensures EntryAtMost(a, b) || EntryAtMost(b, a)
    ensures EntryAtMost(a, b) && EntryAtMost(b, a) ==> a == b
    ensures EntryAtMost(a, b) && EntryAtMost(b, c) ==> EntryAtMost(a, c)
  {
    TextTotal(a.0, b.0);
    if TextBefore(a.0, b.0) && TextBefore(b.0, c.0) {
      TextTransitive(a.0, b.0, c.0);
    }
  }

  lemma {:induction false} InsertSorted(x: (string, int), sorted: seq<(string, int)>)
    requires SortedEntries(sorted)
    ensures SortedEntries(InsertEntry(x, sorted))
  {
    hide TextBefore, EntryAtMost;
    if sorted != [] {
      var first, rest := sorted[0], sorted[1..];
      if EntryAtMost(x, first) {
        forall j | 0 <= j < |sorted|
          ensures EntryAtMost(x, sorted[j])
        {
          EntryOrder(x, first, sorted[j]);
        }
      } else {
        EntryOrder(x, first, first);
        InsertSorted(x, rest);
        InsertCounts(x, rest);
        var inserted := InsertEntry(x, rest);
        forall j | 0 <= j < |inserted|
          ensures EntryAtMost(first, inserted[j])
        {
          assert inserted[j] in multiset(inserted);
          assert inserted[j] == x || inserted[j] in rest;
        }
      }
    }
  }

  lemma {:induction false} SortSorts(entries: seq<(string, int)>)
    ensures SortedEntries(SortEntries(entries))
  {
    if entries != [] {
      SortSorts(entries[1..]);
      InsertSorted(entries[0], SortEntries(entries[1..]));
    }
  }

  lemma HeadsEqual(a: seq<(string, int)>, b: seq<(string, int)>)
    requires SortedEntries(a) && SortedEntries(b) && a != [] && b != [] && a[0] in b && b[0] in a
    ensures a[0] == b[0]
  {
    hide TextBefore, EntryAtMost;
    var i :| 0 <= i < |b| && b[i] == a[0];
    var j :| 0 <= j < |a| && a[j] == b[0];
    EntryOrder(a[0], b[0], a[0]);
    EntryOrder(a[0], a[0], a[0]);
  }

  lemma TailCounts(a: seq<(string, int)>)
    requires a != []
    ensures multiset(a[1..]) == multiset(a) - multiset{a[0]}
    ensures SortedEntries(a) ==> SortedEntries(a[1..])
  {
    hide EntryAtMost;
    assert a == [a[0]] + a[1..];
  }

  lemma {:induction false} SortedUnique(a: seq<(string, int)>, b: seq<(string, int)>)
    requires SortedEntries(a) && SortedEntries(b) && multiset(a) == multiset(b)
    ensures a == b
  {
    hide *;
    assert |multiset(a)| == |a| && |multiset(b)| == |b|;
    if a != [] {
      assert a[0] in multiset(b) && b[0] in multiset(a);
      HeadsEqual(a, b);
      TailCounts(a);
      TailCounts(b);
      SortedUnique(a[1..], b[1..]);
      assert a == [a[0]] + a[1..] && b == [b[0]] + b[1..];
    }
  }
}
