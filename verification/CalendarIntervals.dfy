/** Busy intervals, free windows and conflicts, all about one set of instants: the busy ones. */
module CalendarIntervals {
  import opened Common
  import opened Sorting

  datatype BusyInterval = BusyInterval(calendarRef: string, eventRef: string, startAt: nat, endAt: nat)

  /** The constructor refuses intervals that do not end after they start. */
  type Busy = b: BusyInterval | b.startAt < b.endAt witness BusyInterval("c", "e", 0, 1)

  datatype Window = Window(startAt: nat, endAt: nat)

  datatype PlanningError = INVALID_TIME_WINDOW | INVALID_MINIMUM_DURATION

  /** `_window`. */
  predicate ValidWindow(lo: int, hi: int) {
    0 <= lo < hi
  }

  ghost predicate Occupied(intervals: seq<Busy>, t: int) {
    exists i :: 0 <= i < |intervals| && intervals[i].startAt <= t < intervals[i].endAt
  }

  ghost predicate In(ws: seq<Window>, t: int) {
    exists i :: 0 <= i < |ws| && ws[i].startAt <= t < ws[i].endAt
  }

  /** Non-empty windows inside [lo, hi), in order, with a gap between any two. */
  ghost predicate Canonical(ws: seq<Window>, lo: int, hi: int) {
    && (forall i :: 0 <= i < |ws| ==> lo <= ws[i].startAt < ws[i].endAt <= hi)
    && (forall i, j :: 0 <= i < j < |ws| ==> ws[i].endAt < ws[j].startAt)
  }

  predicate WindowLe(a: Window, b: Window) {
    a.startAt < b.startAt || (a.startAt == b.startAt && a.endAt <= b.endAt)
  }

  lemma WindowLeOrder()
    ensures TotalOrder(WindowLe)
  {
  }

  /** `normalize_busy_intervals`: the canonical form of the busy instants inside the window. */
  method NormalizeBusyIntervals(intervals: seq<Busy>, lo: int, hi: int) returns (r: Result<seq<Window>, PlanningError>)
    ensures r.Failure? <==> lo < 0 || hi <= lo
    ensures r.Failure? ==> r.error == INVALID_TIME_WINDOW
    ensures r.Success? ==> Canonical(r.value, lo, hi)
    ensures r.Success? ==> forall t :: In(r.value, t) <==> lo <= t < hi && Occupied(intervals, t)
  {
    if !ValidWindow(lo, hi) {
      return Failure(INVALID_TIME_WINDOW);
    }
    var clipped := Clip(intervals, lo, hi);
    if clipped == [] {
      return Success([]);
    }
    WindowLeOrder();
    SortSorted(clipped, WindowLe);
    var sorted := Sort(clipped, WindowLe);
    SameElements(sorted, clipped);
    var merged := Merge(sorted, lo, hi);
    r := Success(merged);
  }

  lemma SameElements(a: seq<Window>, b: seq<Window>)
    requires multiset(a) == multiset(b)
    ensures forall w :: w in a <==> w in b
    ensures forall t :: In(a, t) <==> In(b, t)
  {
    assert forall w :: w in a <==> w in multiset(a);
    assert forall w :: w in b <==> w in multiset(b);
    forall t
      ensures In(a, t) <==> In(b, t)
    {
      if In(a, t) {
        var i :| 0 <= i < |a| && a[i].startAt <= t < a[i].endAt;
        assert a[i] in b;
      }
      if In(b, t) {
        var i :| 0 <= i < |b| && b[i].startAt <= t < b[i].endAt;
        assert b[i] in a;
      }
    }
  }

  /** The parts of the intervals inside the window. */
  method Clip(intervals: seq<Busy>, lo: int, hi: int) returns (clipped: seq<Window>)
    requires ValidWindow(lo, hi)
    ensures forall w :: w in clipped ==> lo <= w.startAt < w.endAt <= hi
    ensures forall t :: In(clipped, t) <==> lo <= t < hi && Occupied(intervals, t)
  {
    clipped := [];
    for k := 0 to |intervals|
      invariant forall w :: w in clipped ==> lo <= w.startAt < w.endAt <= hi
      invariant forall t :: In(clipped, t) <==> lo <= t < hi && Occupied(intervals[..k], t)
    {
      var start := if lo < intervals[k].startAt then intervals[k].startAt else lo;
      var end := if hi < intervals[k].endAt then hi else intervals[k].endAt;
      ghost var before := clipped;
      if start < end {
        clipped := clipped + [Window(start, end)];
        InSnoc(before, Window(start, end));
      }
      OccupiedSnoc(intervals[..k], intervals[k]);
      assert intervals[..k + 1] == intervals[..k] + [intervals[k]];
    }
    assert intervals[..|intervals|] == intervals;
  }

  lemma InSnoc(ws: seq<Window>, w: Window)
    ensures forall t :: In(ws + [w], t) <==> In(ws, t) || w.startAt <= t < w.endAt
  {
    var more := ws + [w];
    forall t
      ensures In(more, t) <==> In(ws, t) || w.startAt <= t < w.endAt
    {
      assert more[|ws|] == w;
      if In(ws, t) {
        var i :| 0 <= i < |ws| && ws[i].startAt <= t < ws[i].endAt;
        assert more[i] == ws[i];
      }
    }
  }

  lemma OccupiedSnoc(bs: seq<Busy>, b: Busy)
    ensures forall t :: Occupied(bs + [b], t) <==> Occupied(bs, t) || b.startAt <= t < b.endAt
  {
    var more := bs + [b];
    forall t
      ensures Occupied(more, t) <==> Occupied(bs, t) || b.startAt <= t < b.endAt
    {
      assert more[|bs|] == b;
      if Occupied(bs, t) {
        var i :| 0 <= i < |bs| && bs[i].startAt <= t < bs[i].endAt;
        assert more[i] == bs[i];
      }
    }
  }

  /** Adding a window behind the last one. */
  lemma CanonicalSnoc(ws: seq<Window>, w: Window, lo: int, hi: int)
    ensures Canonical(ws + [w], lo, hi) <==>
              Canonical(ws, lo, hi) && lo <= w.startAt < w.endAt <= hi && (ws != [] ==> ws[|ws| - 1].endAt < w.startAt)
  {
    var more := ws + [w];
    assert more[|ws|] == w;
    assert forall i :: 0 <= i < |ws| ==> more[i] == ws[i];
    if Canonical(ws, lo, hi) && ws != [] && ws[|ws| - 1].endAt < w.startAt {
      assert forall i :: 0 <= i < |ws| ==> ws[i].endAt <= ws[|ws| - 1].endAt;
    }
  }

  /** The merge loop over sorted clipped intervals. */
  method Merge(sorted: seq<Window>, lo: int, hi: int) returns (merged: seq<Window>)
    requires sorted != [] && Sorted(sorted, WindowLe)
    requires forall w :: w in sorted ==> lo <= w.startAt < w.endAt <= hi
    ensures Canonical(merged, lo, hi)
    ensures forall t :: In(merged, t) <==> In(sorted, t)
  {
    merged := [];
    var currentStart: nat, currentEnd: nat := sorted[0].startAt, sorted[0].endAt;
    assert sorted[0] in sorted;
    InSnoc([], sorted[0]);
    assert sorted[..1] == [] + [sorted[0]];
    for k := 1 to |sorted|
      invariant Canonical(merged + [Window(currentStart, currentEnd)], lo, hi)
      invariant currentStart <= sorted[k - 1].startAt
      invariant forall t :: In(merged + [Window(currentStart, currentEnd)], t) <==> In(sorted[..k], t)
    {
      var start, end := sorted[k].startAt, sorted[k].endAt;
      assert sorted[k] in sorted && WindowLe(sorted[k - 1], sorted[k]);
      ghost var before := merged + [Window(currentStart, currentEnd)];
      InSnoc(merged, Window(currentStart, currentEnd));
      CanonicalSnoc(merged, Window(currentStart, currentEnd), lo, hi);
      InSnoc(sorted[..k], sorted[k]);
      assert sorted[..k + 1] == sorted[..k] + [sorted[k]];
      if start <= currentEnd {
        currentEnd := if currentEnd < end then end else currentEnd;
        CanonicalSnoc(merged, Window(currentStart, currentEnd), lo, hi);
        InSnoc(merged, Window(currentStart, currentEnd));
      } else {
        merged := merged + [Window(currentStart, currentEnd)];
        currentStart, currentEnd := start, end;
        CanonicalSnoc(merged, Window(start, end), lo, hi);
        InSnoc(merged, Window(start, end));
      }
    }
    merged := merged + [Window(currentStart, currentEnd)];
    assert sorted[..|sorted|] == sorted;
  }

  // ---- the canonical form is unique --------------------------------------------------------------

  lemma CanonicalTail(ws: seq<Window>, lo: int, hi: int)
    requires ws != [] && Canonical(ws, lo, hi)
    ensures Canonical(ws[1..], ws[0].endAt + 1, hi)
    ensures forall t :: In(ws, t) <==> ws[0].startAt <= t < ws[0].endAt || In(ws[1..], t)
    ensures forall t :: In(ws[1..], t) ==> t > ws[0].endAt
  {
    forall t
      ensures In(ws, t) <==> ws[0].startAt <= t < ws[0].endAt || In(ws[1..], t)
    {
      if In(ws, t) {
        var i :| 0 <= i < |ws| && ws[i].startAt <= t < ws[i].endAt;
        if i > 0 { assert ws[1..][i - 1] == ws[i]; }
      }
      if In(ws[1..], t) {
        var i :| 0 <= i < |ws[1..]| && ws[1..][i].startAt <= t < ws[1..][i].endAt;
        assert ws[i + 1] == ws[1..][i];
      }
    }
  }

  /** The first window, seen from the instants: where it starts and ends, and what comes after it. */
  lemma FirstInstants(a: seq<Window>, lo: int, hi: int)
    requires Canonical(a, lo, hi) && a != []
    ensures In(a, a[0].startAt) && In(a, a[0].endAt - 1) && !In(a, a[0].endAt)
    ensures forall t :: In(a, t) ==> a[0].startAt <= t
    ensures forall t :: a[0].startAt <= t < a[0].endAt ==> In(a, t)
    ensures forall t :: In(a[1..], t) <==> In(a, t) && t >= a[0].endAt
  {
    CanonicalTail(a, lo, hi);
  }

  lemma SameFirst(a: seq<Window>, b: seq<Window>, lo: int, hi: int)
    requires Canonical(a, lo, hi) && Canonical(b, lo, hi) && a != [] && b != []
    requires forall t :: In(a, t) <==> In(b, t)
    ensures a[0] == b[0]
    ensures forall t :: In(a[1..], t) <==> In(b[1..], t)
  {
    FirstInstants(a, lo, hi);
    FirstInstants(b, lo, hi);
    assert a[0].startAt == b[0].startAt;
    assert a[0].endAt == b[0].endAt;
  }

  /** Two canonical lists that cover the same instants are equal. */
  lemma {:induction false} CanonicalUnique(a: seq<Window>, b: seq<Window>, lo: int, hi: int)
    requires Canonical(a, lo, hi) && Canonical(b, lo, hi)
    requires forall t :: In(a, t) <==> In(b, t)
    ensures a == b
  {
    if a != [] { assert In(a, a[0].startAt); }
    if b != [] { assert In(b, b[0].startAt); }
    if a != [] && b != [] {
      CanonicalTail(a, lo, hi);
      CanonicalTail(b, lo, hi);
      SameFirst(a, b, lo, hi);
      CanonicalUnique(a[1..], b[1..], a[0].endAt + 1, hi);
      assert a == [a[0]] + a[1..] && b == [b[0]] + b[1..];
    }
  }

  /** Any two results for inputs that occupy the same instants are equal: neither the order of the intervals,
      nor repetitions, nor how the busy time is cut into pieces matters. */
  lemma NormalFormDependsOnInstants(xs: seq<Busy>, ys: seq<Busy>, a: seq<Window>, b: seq<Window>, lo: int, hi: int)
    requires forall t :: lo <= t < hi ==> (Occupied(xs, t) <==> Occupied(ys, t))
    requires Canonical(a, lo, hi) && forall t :: In(a, t) <==> lo <= t < hi && Occupied(xs, t)
    requires Canonical(b, lo, hi) && forall t :: In(b, t) <==> lo <= t < hi && Occupied(ys, t)
    ensures a == b
  {
    CanonicalUnique(a, b, lo, hi);
  }

  lemma SameSetOccupies(xs: seq<Busy>, ys: seq<Busy>)
    requires forall b :: b in xs <==> b in ys
    ensures forall t :: Occupied(xs, t) <==> Occupied(ys, t)
  {
    forall t
      ensures Occupied(xs, t) <==> Occupied(ys, t)
    {
      if Occupied(xs, t) {
        var i :| 0 <= i < |xs| && xs[i].startAt <= t < xs[i].endAt;
        assert xs[i] in ys;
      }
      if Occupied(ys, t) {
        var i :| 0 <= i < |ys| && ys[i].startAt <= t < ys[i].endAt;
        assert ys[i] in xs;
      }
    }
  }
}
