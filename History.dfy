/**
 * The NAV history behind the chart: the feed's entries that have a date and
 * a NAV, dated no later than the report, in ascending date order (entries of
 * the same day keep their feed order), of which the latest thirty are shown.
 *
 * Dates are day numbers.  A feed date or a NAV that is missing, or that the
 * page could not read as a date or a number, is `None`.  The report date is
 * the day number `new Date` gives for the report's slug, `None` when that is
 * an Invalid Date; the model takes it as a parameter, not tied to the slug.
 */
module History {
  import opened Maybe

  /** One entry of the feed, as read. */
  datatype Entry = Entry(date: Option<int>, nav: Option<real>)

  /** One point of the chart. */
  datatype Point = Point(date: int, nav: real)

  const WindowSize := 30

  /** The two filters of the feed: a usable date and NAV, and a date no later than the report's. */
  predicate Keeps(e: Entry, report: Option<int>) {
    e.date.Some? && e.nav.Some? && report.Some? && e.date.value <= report.value
  }

  function PointOf(e: Entry): Point
    requires e.date.Some? && e.nav.Some?
  {
    Point(e.date.value, e.nav.value)
  }

  /** The entries that pass both filters, as points, in feed order. */
  function Kept(entries: seq<Entry>, report: Option<int>): (r: seq<Point>)
    ensures |r| <= |entries|
    ensures forall k :: 0 <= k < |r| ==> report.Some? && r[k].date <= report.value
    ensures forall k :: 0 <= k < |r| ==> Entry(Some(r[k].date), Some(r[k].nav)) in entries
  {
    if entries == [] then []
    else
      var e := entries[0];
      var rest := Kept(entries[1..], report);
      if Keeps(e, report) then [PointOf(e)] + rest else rest
  }

  /** Every entry that passes the filters is among the kept points. */
  lemma {:induction false} KeptComplete(entries: seq<Entry>, report: Option<int>, i: nat)
    requires i < |entries| && Keeps(entries[i], report)
    ensures PointOf(entries[i]) in Kept(entries, report)
  {
    if i > 0 {
      KeptComplete(entries[1..], report, i - 1);
    }
  }

  /** Filtering a feed in two parts filters each part and keeps them in order. */
  lemma {:induction false} KeptAppend(a: seq<Entry>, b: seq<Entry>, report: Option<int>)
    ensures Kept(a + b, report) == Kept(a, report) + Kept(b, report)
    decreases |a|
  {
    if a == [] {
      assert a + b == b;
    } else {
      assert (a + b)[0] == a[0] && (a + b)[1..] == a[1..] + b;
      KeptAppend(a[1..], b, report);
    }
  }

  /** One more entry at the end of the feed adds its point at the end, if it passes the filters. */
  lemma KeptSnoc(entries: seq<Entry>, e: Entry, report: Option<int>)
    ensures Kept(entries + [e], report)
         == Kept(entries, report) + (if Keeps(e, report) then [PointOf(e)] else [])
  {
    KeptAppend(entries, [e], report);
    assert [e][1..] == [];
  }

  /** No usable report date, no points. */
  lemma KeptWithoutReport(entries: seq<Entry>)
    ensures Kept(entries, None) == []
  {
  }

  predicate Sorted(ps: seq<Point>) {
    forall i, j :: 0 <= i < j < |ps| ==> ps[i].date <= ps[j].date
  }

  /** The points of day `d`, in order. */
  function OnDay(ps: seq<Point>, d: int): (r: seq<Point>)
    ensures |r| <= |ps|
    ensures forall k :: 0 <= k < |r| ==> r[k].date == d && r[k] in ps
  {
    if ps == [] then []
    else (if ps[0].date == d then [ps[0]] else []) + OnDay(ps[1..], d)
  }

  /** `p` placed before the first point of its day or later. */
  function Insert(p: Point, ps: seq<Point>): (r: seq<Point>)
    ensures |r| == |ps| + 1
    ensures multiset(r) == multiset(ps) + multiset{p}
  {
    if ps == [] || p.date <= ps[0].date then [p] + ps
    else
      assert ps == [ps[0]] + ps[1..];
      [ps[0]] + Insert(p, ps[1..])
  }

  /** The stable sort by date: `sort((a, b) => a.date - b.date)`. */
  function SortByDate(ps: seq<Point>): (r: seq<Point>)
    ensures multiset(r) == multiset(ps)
  {
    if ps == [] then []
    else
      assert ps == [ps[0]] + ps[1..];
      Insert(ps[0], SortByDate(ps[1..]))
  }

  /** No point dated before `lo`. */
  predicate AllFrom(ps: seq<Point>, lo: int) {
    forall k :: 0 <= k < |ps| ==> lo <= ps[k].date
  }

  /** Inserting a point not before `lo` keeps every point not before `lo`. */
  lemma {:induction false} InsertAllFrom(p: Point, ps: seq<Point>, lo: int)
    requires lo <= p.date && AllFrom(ps, lo)
    ensures AllFrom(Insert(p, ps), lo)
  {
    if ps != [] && p.date > ps[0].date {
      var tail := Insert(p, ps[1..]);
      assert AllFrom(ps[1..], lo) by {
        forall k | 0 <= k < |ps| - 1 ensures lo <= ps[1..][k].date {
          assert ps[1..][k] == ps[k + 1];
        }
      }
      InsertAllFrom(p, ps[1..], lo);
      var r := [ps[0]] + tail;
      assert Insert(p, ps) == r;
      forall k | 0 <= k < |r| ensures lo <= r[k].date {
        if k > 0 {
          assert r[k] == tail[k - 1];
        }
      }
    } else {
      var r := [p] + ps;
      forall k | 0 <= k < |r| ensures lo <= r[k].date {
        if k > 0 {
          assert r[k] == ps[k - 1];
        }
      }
    }
  }

  /** A point put in front of sorted points none of which is earlier keeps them sorted. */
  lemma SortedCons(x: Point, t: seq<Point>)
    requires Sorted(t) && AllFrom(t, x.date)
    ensures Sorted([x] + t)
  {
    var r := [x] + t;
    forall i, j | 0 <= i < j < |r| ensures r[i].date <= r[j].date {
      assert r[j] == t[j - 1];
      if i > 0 {
        assert r[i] == t[i - 1];
      }
    }
  }

  lemma {:induction false} InsertSorted(p: Point, ps: seq<Point>)
    requires Sorted(ps)
    ensures Sorted(Insert(p, ps))
  {
    if ps == [] || p.date <= ps[0].date {
      assert AllFrom(ps, p.date) by {
        forall k | 0 <= k < |ps| ensures p.date <= ps[k].date {
          assert ps[0].date <= ps[k].date;
        }
      }
      SortedCons(p, ps);
    } else {
      var rest := ps[1..];
      assert Sorted(rest) by {
        forall i, j | 0 <= i < j < |rest| ensures rest[i].date <= rest[j].date {
          assert rest[i] == ps[i + 1] && rest[j] == ps[j + 1];
        }
      }
      assert AllFrom(rest, ps[0].date) by {
        forall k | 0 <= k < |rest| ensures ps[0].date <= rest[k].date {
          assert rest[k] == ps[k + 1];
        }
      }
      InsertSorted(p, rest);
      InsertAllFrom(p, rest, ps[0].date);
      SortedCons(ps[0], Insert(p, rest));
    }
  }

  /** The sort orders the points by date. */
  lemma {:induction false} SortSorted(ps: seq<Point>)
    ensures Sorted(SortByDate(ps))
  {
    if ps != [] {
      SortSorted(ps[1..]);
      InsertSorted(ps[0], SortByDate(ps[1..]));
    }
  }

  lemma {:induction false} InsertOnDay(p: Point, ps: seq<Point>, d: int)
    ensures OnDay(Insert(p, ps), d) == (if p.date == d then [p] else []) + OnDay(ps, d)
  {
    if ps == [] || p.date <= ps[0].date {
      assert ([p] + ps)[1..] == ps;
    } else {
      var tail := Insert(p, ps[1..]);
      assert ([ps[0]] + tail)[1..] == tail;
      InsertOnDay(p, ps[1..], d);
      if p.date == d {
        assert ps[0].date != d;
        assert OnDay(ps, d) == OnDay(ps[1..], d);
      } else {
        assert OnDay(tail, d) == OnDay(ps[1..], d);
      }
    }
  }

  /** The sort is stable: the points of any one day keep their order. */
  lemma {:induction false} SortStable(ps: seq<Point>, d: int)
    ensures OnDay(SortByDate(ps), d) == OnDay(ps, d)
  {
    if ps != [] {
      SortStable(ps[1..], d);
      InsertOnDay(ps[0], SortByDate(ps[1..]), d);
    }
  }

  /** `slice(-30)`: the last thirty points, or all of them when there are fewer. */
  function Window(ps: seq<Point>): (w: seq<Point>)
    ensures |w| == if |ps| < WindowSize then |ps| else WindowSize
    ensures w == ps[|ps| - |w|..]
  {
    if |ps| <= WindowSize then ps else ps[|ps| - WindowSize..]
  }

  /** A window of sorted points is sorted and holds the latest points: none left out is later than any in it. */
  lemma WindowLatest(ps: seq<Point>)
    requires Sorted(ps)
    ensures Sorted(Window(ps))
    ensures forall i, j :: 0 <= i < |ps| - |Window(ps)| <= j < |ps| ==> ps[i].date <= ps[j].date
  {
  }

  /** The points the chart draws. */
  function NavWindow(entries: seq<Entry>, report: Option<int>): (w: seq<Point>)
    ensures |w| <= WindowSize
    ensures Sorted(w)
  {
    var sorted := SortByDate(Kept(entries, report));
    SortSorted(Kept(entries, report));
    WindowLatest(sorted);
    Window(sorted)
  }

  /** The chart's points are sorted, dated no later than the report, and taken from the feed. */
  lemma NavWindowProperties(entries: seq<Entry>, report: Option<int>)
    ensures var w := NavWindow(entries, report);
      && Sorted(w)
      && |w| == (if |Kept(entries, report)| < WindowSize then |Kept(entries, report)| else WindowSize)
      && (forall k :: 0 <= k < |w| ==> report.Some? && w[k].date <= report.value)
      && (forall k :: 0 <= k < |w| ==> Entry(Some(w[k].date), Some(w[k].nav)) in entries)
  {
    var kept := Kept(entries, report);
    SortSorted(kept);
    WindowLatest(SortByDate(kept));
    WindowFromFeed(entries, report);
  }

  /** Every point of the window passed the filters and comes from an entry of the feed. */
  lemma WindowFromFeed(entries: seq<Entry>, report: Option<int>)
    ensures var w := NavWindow(entries, report);
      && (forall k :: 0 <= k < |w| ==> report.Some? && w[k].date <= report.value)
      && (forall k :: 0 <= k < |w| ==> Entry(Some(w[k].date), Some(w[k].nav)) in entries)
  {
    var kept := Kept(entries, report);
    var sorted := SortByDate(kept);
    var w := Window(sorted);
    assert w == NavWindow(entries, report);
    forall k | 0 <= k < |w|
      ensures report.Some? && w[k].date <= report.value
      ensures Entry(Some(w[k].date), Some(w[k].nav)) in entries
    {
      var p := w[k];
      assert p == sorted[|sorted| - |w| + k];
      assert p in multiset(kept);
      assert p in kept;
      var i :| 0 <= i < |kept| && kept[i] == p;
    }
  }
}
