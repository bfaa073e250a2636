/** A daily bar as the broker's daily-chart request returns it and as the
    per-stock data file stores it, and pandas' sort_values("date") on a
    frame of such bars. Dates are YYYYMMDD text, so Python's string order
    is chronological order. */
module Bars {

  datatype Bar = Bar(date: string, close: int, volume: int)

  /** Python's a <= b on str: lexicographic by code point. */
  predicate DateLe(a: string, b: string)
  {
    if a == [] then true
    else if b == [] then false
    else if a[0] != b[0] then a[0] < b[0]
    else DateLe(a[1..], b[1..])
  }

  lemma {:induction false} DateLeTotal(a: string, b: string)
    ensures DateLe(a, b) || DateLe(b, a)
  {
    if a != [] && b != [] && a[0] == b[0] {
      DateLeTotal(a[1..], b[1..]);
    }
  }

  lemma {:induction false} DateLeTransitive(a: string, b: string, c: string)
    requires DateLe(a, b) && DateLe(b, c)
    ensures DateLe(a, c)
  {
    if a != [] && b != [] && c != [] && a[0] == b[0] && b[0] == c[0] {
      DateLeTransitive(a[1..], b[1..], c[1..]);
    }
  }

  /** Consecutive bars are in date order. */
  predicate SortedByDate(s: seq<Bar>)
  {
    forall i :: 0 < i < |s| ==> DateLe(s[i - 1].date, s[i].date)
  }

  /** Inserts x before the first bar dated no earlier than x. */
  function Insert(x: Bar, s: seq<Bar>): (r: seq<Bar>)
    ensures multiset(r) == multiset(s) + multiset{x}
    ensures |r| == |s| + 1
  {
    if s == [] || DateLe(x.date, s[0].date) then [x] + s
    else
      assert s == [s[0]] + s[1..];
      [s[0]] + Insert(x, s[1..])
  }

  /** pandas' frame.sort_values("date"), as an insertion sort that keeps
      bars with equal dates in their original order. */
  function SortByDate(s: seq<Bar>): (r: seq<Bar>)
    ensures multiset(r) == multiset(s)
    ensures |r| == |s|
  {
    if s == [] then []
    else
      assert s == [s[0]] + s[1..];
      Insert(s[0], SortByDate(s[1..]))
  }

  lemma {:induction false} InsertSorted(x: Bar, s: seq<Bar>)
    requires SortedByDate(s)
    ensures SortedByDate(Insert(x, s))
    ensures s != [] ==> Insert(x, s)[0] == x || Insert(x, s)[0] == s[0]
  {
    if s != [] && !DateLe(x.date, s[0].date) {
      DateLeTotal(x.date, s[0].date);
      InsertSorted(x, s[1..]);
    }
  }

  /** Sorting orders the bars by date. */
  lemma {:induction false} SortByDateSorted(s: seq<Bar>)
    ensures SortedByDate(SortByDate(s))
  {
    if s != [] {
      SortByDateSorted(s[1..]);
      InsertSorted(s[0], SortByDate(s[1..]));
    }
  }

  /** A frame already in date order is left as it is. */
  lemma {:induction false} SortByDateKeepsSorted(s: seq<Bar>)
    requires SortedByDate(s)
    ensures SortByDate(s) == s
  {
    if s != [] {
      SortByDateKeepsSorted(s[1..]);
      assert s == [s[0]] + s[1..];
    }
  }

  /** Sorting twice is sorting once. */
  lemma SortByDateIdempotent(s: seq<Bar>)
    ensures SortByDate(SortByDate(s)) == SortByDate(s)
  {
    SortByDateSorted(s);
    SortByDateKeepsSorted(SortByDate(s));
  }

  /** The frame's "close" column. */
  function Closes(s: seq<Bar>): (c: seq<int>)
    ensures |c| == |s| && forall i :: 0 <= i < |s| ==> c[i] == s[i].close
  {
    seq(|s|, i requires 0 <= i < |s| => s[i].close)
  }

  /** The frame's "volume" column. */
  function Volumes(s: seq<Bar>): (v: seq<int>)
    ensures |v| == |s| && forall i :: 0 <= i < |s| ==> v[i] == s[i].volume
  {
    seq(|s|, i requires 0 <= i < |s| => s[i].volume)
  }
}
