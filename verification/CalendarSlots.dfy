/** Free windows and conflicts: two readings of the same busy instants. */
module CalendarSlots {
  import opened Common
  import opened Sorting
  import opened CalendarIntervals

  function Max(a: nat, b: nat): nat {
    if a < b then b else a
  }

  /** The stretches of at least `minimum` seconds from `cursor` to `hi` that the windows leave. */
  function Gaps(busy: seq<Window>, cursor: nat, hi: nat, minimum: nat): seq<Window> {
    if busy == [] then
      if hi - cursor >= minimum then [Window(cursor, hi)] else []
    else
      (if busy[0].startAt - cursor >= minimum then [Window(cursor, busy[0].startAt)] else [])
      + Gaps(busy[1..], Max(cursor, busy[0].endAt), hi, minimum)
  }

  /** [s, e) lies inside one of the windows. */
  ghost predicate Inside(ws: seq<Window>, s: int, e: int) {
    exists i :: 0 <= i < |ws| && ws[i].startAt <= s && e <= ws[i].endAt
  }

  ghost predicate Clear(ws: seq<Window>, s: int, e: int) {
    forall t :: s <= t < e ==> !In(ws, t)
  }

  lemma InsideCons(w: Window, ws: seq<Window>, s: int, e: int)
    ensures Inside([w] + ws, s, e) <==> (w.startAt <= s && e <= w.endAt) || Inside(ws, s, e)
  {
    var more := [w] + ws;
    assert more[0] == w;
    if Inside(ws, s, e) {
      var i :| 0 <= i < |ws| && ws[i].startAt <= s && e <= ws[i].endAt;
      assert more[i + 1] == ws[i];
    }
    if Inside(more, s, e) {
      var i :| 0 <= i < |more| && more[i].startAt <= s && e <= more[i].endAt;
      if i > 0 { assert ws[i - 1] == more[i]; }
    }
  }

  lemma {:induction false} GapsBounds(busy: seq<Window>, cursor: nat, hi: nat, minimum: nat)
    requires Canonical(busy, cursor, hi) && minimum > 0 && cursor <= hi
    ensures Canonical(Gaps(busy, cursor, hi, minimum), cursor, hi)
    ensures forall g :: g in Gaps(busy, cursor, hi, minimum) ==> g.endAt - g.startAt >= minimum
  {
    if busy != [] {
      CanonicalTail(busy, cursor, hi);
      GapsBounds(busy[1..], busy[0].endAt, hi, minimum);
    }
  }

  /** The first gap is listed or too short for the stretch. */
  lemma FirstGap(busy: seq<Window>, cursor: nat, hi: nat, minimum: nat, s: nat, e: nat)
    requires busy != [] && Canonical(busy, cursor, hi) && minimum > 0 && cursor <= s < e && e - s >= minimum
    ensures Inside(Gaps(busy, cursor, hi, minimum), s, e) <==>
              e <= busy[0].startAt || Inside(Gaps(busy[1..], busy[0].endAt, hi, minimum), s, e)
  {
    var rest := Gaps(busy[1..], busy[0].endAt, hi, minimum);
    if busy[0].startAt - cursor >= minimum {
      InsideCons(Window(cursor, busy[0].startAt), rest, s, e);
    } else {
      assert Gaps(busy, cursor, hi, minimum) == rest;
    }
  }

  lemma FirstWindow(busy: seq<Window>, lo: int, hi: int, s: nat, e: nat)
    requires busy != [] && Canonical(busy, lo, hi) && s < e
    ensures e <= busy[0].startAt ==> Clear(busy, s, e)
    ensures s >= busy[0].endAt ==> (Clear(busy, s, e) <==> Clear(busy[1..], s, e))
    ensures s < busy[0].endAt && e > busy[0].startAt ==> !Clear(busy, s, e)
  {
    CanonicalTail(busy, lo, hi);
    if s < busy[0].endAt && e > busy[0].startAt {
      assert In(busy, Max(s, busy[0].startAt));
    }
    if s >= busy[0].endAt {
      assert forall t :: s <= t < e ==> (In(busy, t) <==> In(busy[1..], t));
    }
  }

  lemma NotInsideLater(ws: seq<Window>, lo: int, hi: int, s: int, e: int)
    requires Canonical(ws, lo, hi) && s < lo
    ensures !Inside(ws, s, e)
  {
    forall i: nat | i < |ws|
      ensures lo <= ws[i].startAt
    {
    }
  }

  lemma NoBusyGap(cursor: nat, hi: nat, minimum: nat, s: nat, e: nat)
    requires minimum > 0 && cursor <= s < e <= hi && e - s >= minimum
    ensures Clear([], s, e) && Inside(Gaps([], cursor, hi, minimum), s, e)
  {
    assert Gaps([], cursor, hi, minimum)[0] == Window(cursor, hi);
  }

  /** A stretch long enough to matter is clear exactly when it lies inside one of the gaps. */
  lemma {:induction false} GapsCriterion(busy: seq<Window>, cursor: nat, hi: nat, minimum: nat, s: nat, e: nat)
    requires Canonical(busy, cursor, hi) && minimum > 0
    requires cursor <= s < e <= hi && e - s >= minimum
    ensures Clear(busy, s, e) <==> Inside(Gaps(busy, cursor, hi, minimum), s, e)
  {
    if busy == [] {
      NoBusyGap(cursor, hi, minimum, s, e);
    } else {
      CanonicalTail(busy, cursor, hi);
      FirstGap(busy, cursor, hi, minimum, s, e);
      FirstWindow(busy, cursor, hi, s, e);
      if s >= busy[0].endAt {
        GapsCriterion(busy[1..], busy[0].endAt, hi, minimum, s, e);
      } else {
        GapsBounds(busy[1..], busy[0].endAt, hi, minimum);
        NotInsideLater(Gaps(busy[1..], busy[0].endAt, hi, minimum), busy[0].endAt, hi, s, e);
      }
    }
  }

  function Total(ws: seq<Window>): int {
    if ws == [] then 0 else ws[0].endAt - ws[0].startAt + Total(ws[1..])
  }

  lemma TotalCons(w: Window, ws: seq<Window>)
    ensures Total([w] + ws) == w.endAt - w.startAt + Total(ws)
  {
    assert ([w] + ws)[1..] == ws;
  }

  /** With the smallest minimum nothing is lost: busy and free time add up to the window. */
  lemma {:induction false} BusyPlusFree(busy: seq<Window>, cursor: nat, hi: nat)
    requires Canonical(busy, cursor, hi) && cursor <= hi
    ensures Total(busy) + Total(Gaps(busy, cursor, hi, 1)) == hi - cursor
  {
    if busy != [] {
      CanonicalTail(busy, cursor, hi);
      BusyPlusFree(busy[1..], busy[0].endAt, hi);
      if busy[0].startAt > cursor {
        TotalCons(Window(cursor, busy[0].startAt), Gaps(busy[1..], busy[0].endAt, hi, 1));
      } else {
        assert Gaps(busy, cursor, hi, 1) == Gaps(busy[1..], busy[0].endAt, hi, 1);
      }
    }
  }

  // ---- conflicts ---------------------------------------------------------------------------------

  predicate Overlaps(b: Busy, s: int, e: int) {
    b.startAt < e && s < b.endAt
  }

  /** (start, end, calendar, event). */
  predicate ConflictLe(a: BusyInterval, b: BusyInterval) {
    a.startAt < b.startAt || (a.startAt == b.startAt &&
      (a.endAt < b.endAt || (a.endAt == b.endAt &&
        (if a.calendarRef == b.calendarRef then StringLe(a.eventRef, b.eventRef) else StringLe(a.calendarRef, b.calendarRef)))))
  }

  lemma ConflictLeOrder()
    ensures TotalOrder(ConflictLe)
  {
    StringLeOrder();
  }

  function Relevant(intervals: seq<Busy>, ignored: set<string>): seq<Busy> {
    if intervals == [] then []
    else (if intervals[0].eventRef in ignored then [] else [intervals[0]]) + Relevant(intervals[1..], ignored)
  }

  function Conflicting(intervals: seq<Busy>, s: int, e: int, ignored: set<string>): seq<BusyInterval> {
    if intervals == [] then []
    else (if intervals[0].eventRef !in ignored && Overlaps(intervals[0], s, e) then [intervals[0]] else [])
         + Conflicting(intervals[1..], s, e, ignored)
  }

  /** `find_conflicts`. */
  function FindConflicts(intervals: seq<Busy>, s: int, e: int, ignored: set<string>): Result<seq<BusyInterval>, PlanningError> {
    if !ValidWindow(s, e) then Failure(INVALID_TIME_WINDOW)
    else Success(Sort(Conflicting(intervals, s, e, ignored), ConflictLe))
  }

  lemma {:induction false} ConflictingExactly(intervals: seq<Busy>, s: int, e: int, ignored: set<string>)
    ensures forall b :: b in Conflicting(intervals, s, e, ignored) <==>
              (exists i :: 0 <= i < |intervals| && intervals[i] == b && b.eventRef !in ignored && Overlaps(intervals[i], s, e))
  {
    if intervals != [] {
      ConflictingExactly(intervals[1..], s, e, ignored);
      forall b
        ensures b in Conflicting(intervals, s, e, ignored) <==>
                  (exists i :: 0 <= i < |intervals| && intervals[i] == b && b.eventRef !in ignored && Overlaps(intervals[i], s, e))
      {
        if b in Conflicting(intervals[1..], s, e, ignored) {
          var i :| 0 <= i < |intervals[1..]| && intervals[1..][i] == b && b.eventRef !in ignored && Overlaps(intervals[1..][i], s, e);
          assert intervals[i + 1] == b;
        }
        if i :| 0 <= i < |intervals| && intervals[i] == b && b.eventRef !in ignored && Overlaps(intervals[i], s, e) {
          if i > 0 { assert intervals[1..][i - 1] == b; }
        }
      }
    }
  }

  /** By start, then end, then calendar, then event. */
  ghost predicate InOrder(a: BusyInterval, b: BusyInterval) {
    || a.startAt < b.startAt
    || (a.startAt == b.startAt && a.endAt < b.endAt)
    || (a.startAt == b.startAt && a.endAt == b.endAt && a.calendarRef != b.calendarRef && StringLe(a.calendarRef, b.calendarRef))
    || (a.startAt == b.startAt && a.endAt == b.endAt && a.calendarRef == b.calendarRef && StringLe(a.eventRef, b.eventRef))
  }

  lemma InOrderIs(a: BusyInterval, b: BusyInterval)
    ensures ConflictLe(a, b) <==> InOrder(a, b)
  {
  }

  lemma {:induction false} ConflictingCounts(intervals: seq<Busy>, s: int, e: int, ignored: set<string>, b: Busy)
    ensures multiset(Conflicting(intervals, s, e, ignored))[b] ==
            if b.eventRef !in ignored && b.startAt < e && s < b.endAt then multiset(intervals)[b] else 0
  {
    if intervals != [] {
      ConflictingCounts(intervals[1..], s, e, ignored, b);
      assert intervals == [intervals[0]] + intervals[1..];
    }
  }

  /** The conflicts are exactly the intervals that are not ignored and overlap [s, e), each as often as it is
      listed, in the one order by (start, end, calendar, event). */
  lemma ConflictsExactly(intervals: seq<Busy>, s: int, e: int, ignored: set<string>)
    ensures FindConflicts(intervals, s, e, ignored) == Failure(INVALID_TIME_WINDOW) <==> s < 0 || e <= s
    ensures FindConflicts(intervals, s, e, ignored).Failure? ==> s < 0 || e <= s
    ensures FindConflicts(intervals, s, e, ignored).Success? ==>
      var r := FindConflicts(intervals, s, e, ignored).value;
            && (forall i, j :: 0 <= i < j < |r| ==> InOrder(r[i], r[j]))
            && (forall b: Busy :: multiset(r)[b] ==
                  if b.eventRef !in ignored && b.startAt < e && s < b.endAt then multiset(intervals)[b] else 0)
            && forall b :: b in r <==>
                 (exists i :: 0 <= i < |intervals| && intervals[i] == b && b.eventRef !in ignored && Overlaps(intervals[i], s, e))
  {
    ConflictLeOrder();
    var c := Conflicting(intervals, s, e, ignored);
    SortSorted(c, ConflictLe);
    ConflictingExactly(intervals, s, e, ignored);
    var r := Sort(c, ConflictLe);
    assert forall b :: b in r <==> b in multiset(r);
    assert forall b :: b in c <==> b in multiset(c);
    forall i, j | 0 <= i < j < |r|
      ensures InOrder(r[i], r[j])
    {
      InOrderIs(r[i], r[j]);
    }
    forall b: Busy
      ensures multiset(r)[b] == if b.eventRef !in ignored && b.startAt < e && s < b.endAt then multiset(intervals)[b] else 0
    {
      ConflictingCounts(intervals, s, e, ignored, b);
    }
  }

  ghost predicate Unoccupied(bs: seq<Busy>, s: int, e: int) {
    forall t :: s <= t < e ==> !Occupied(bs, t)
  }

  lemma UnoccupiedCons(b: Busy, bs: seq<Busy>, s: int, e: int)
    requires s < e
    ensures Unoccupied([b] + bs, s, e) <==> !Overlaps(b, s, e) && Unoccupied(bs, s, e)
  {
    OccupiedCons(b, bs);
    if Overlaps(b, s, e) {
      var t: int := if s < b.startAt then b.startAt else s;
      assert Occupied([b] + bs, t);
    }
    if Unoccupied([b] + bs, s, e) {
      forall t | s <= t < e
        ensures !Occupied(bs, t)
      {
        assert !Occupied([b] + bs, t);
      }
    }
  }

  lemma {:induction false} NoConflictsMeansUnoccupied(intervals: seq<Busy>, s: int, e: int, ignored: set<string>)
    requires s < e
    ensures Conflicting(intervals, s, e, ignored) == [] <==> Unoccupied(Relevant(intervals, ignored), s, e)
  {
    if intervals != [] {
      NoConflictsMeansUnoccupied(intervals[1..], s, e, ignored);
      var b := intervals[0];
      if b.eventRef !in ignored {
        UnoccupiedCons(b, Relevant(intervals[1..], ignored), s, e);
      } else {
        assert Relevant(intervals, ignored) == Relevant(intervals[1..], ignored);
      }
    }
  }

  lemma OccupiedCons(b: Busy, bs: seq<Busy>)
    ensures forall t :: Occupied([b] + bs, t) <==> Occupied(bs, t) || b.startAt <= t < b.endAt
  {
    var more := [b] + bs;
    forall t
      ensures Occupied(more, t) <==> Occupied(bs, t) || b.startAt <= t < b.endAt
    {
      assert more[0] == b;
      if Occupied(bs, t) {
        var i :| 0 <= i < |bs| && bs[i].startAt <= t < bs[i].endAt;
        assert more[i + 1] == bs[i];
      }
      if Occupied(more, t) {
        var i :| 0 <= i < |more| && more[i].startAt <= t < more[i].endAt;
        if i > 0 { assert bs[i - 1] == more[i]; }
      }
    }
  }

  // ---- the two readings agree --------------------------------------------------------------------

  /** `busy` is the normal form of the intervals in the window. */
  ghost predicate NormalFormOf(busy: seq<Window>, intervals: seq<Busy>, lo: int, hi: int) {
    Canonical(busy, lo, hi) && forall t :: In(busy, t) <==> lo <= t < hi && Occupied(intervals, t)
  }

  /** `find_free_windows`: the gaps in the normal form, which is unique. */
  method FindFreeWindows(intervals: seq<Busy>, lo: int, hi: int, minimum: int) returns (r: Result<seq<Window>, PlanningError>)
    ensures r.Failure? <==> lo < 0 || hi <= lo || minimum <= 0
    ensures r.Failure? ==> r.error == if lo < 0 || hi <= lo then INVALID_TIME_WINDOW else INVALID_MINIMUM_DURATION
    ensures r.Success? ==> exists busy :: NormalFormOf(busy, intervals, lo, hi) && r.value == Gaps(busy, lo, hi, minimum)
    ensures r.Success? ==> Canonical(r.value, lo, hi)
  {
    if !ValidWindow(lo, hi) {
      return Failure(INVALID_TIME_WINDOW);
    }
    if minimum <= 0 {
      return Failure(INVALID_MINIMUM_DURATION);
    }
    var normal := NormalizeBusyIntervals(intervals, lo, hi);
    var busy := normal.value;
    var cursor: nat := lo;
    var free: seq<Window> := [];
    var end: nat, least: nat := hi, minimum;
    for k := 0 to |busy|
      invariant free + Gaps(busy[k..], cursor, end, least) == Gaps(busy, lo, end, least)
    {
      var interval := busy[k];
      assert busy[k..][1..] == busy[k + 1..] && busy[k..][0] == interval;
      if interval.startAt - cursor >= least {
        free := free + [Window(cursor, interval.startAt)];
      }
      cursor := Max(cursor, interval.endAt);
    }
    if end - cursor >= least {
      free := free + [Window(cursor, end)];
    }
    assert NormalFormOf(busy, intervals, lo, hi);
    GapsBounds(busy, lo, end, least);
    r := Success(free);
  }

  /** The slot criterion: a slot inside the window and not shorter than the minimum has no conflict exactly
      when one of the free windows contains it. */
  lemma SlotCriterion(intervals: seq<Busy>, ignored: set<string>, lo: nat, hi: nat, minimum: nat, busy: seq<Window>, s: nat, e: nat)
    requires NormalFormOf(busy, Relevant(intervals, ignored), lo, hi)
    requires minimum > 0 && lo <= s < e <= hi && e - s >= minimum
    ensures FindConflicts(intervals, s, e, ignored) == Success([]) <==> Inside(Gaps(busy, lo, hi, minimum), s, e)
  {
    GapsCriterion(busy, lo, hi, minimum, s, e);
    NoConflictsMeansUnoccupied(intervals, s, e, ignored);
    assert Clear(busy, s, e) <==> Unoccupied(Relevant(intervals, ignored), s, e) by {
      assert forall t :: s <= t < e ==> (In(busy, t) <==> Occupied(Relevant(intervals, ignored), t));
    }
    var c := Conflicting(intervals, s, e, ignored);
    assert |Sort(c, ConflictLe)| == |c|;
  }

  /** Nothing ignored, nothing left out. */
  lemma {:induction false} RelevantAll(intervals: seq<Busy>)
    ensures Relevant(intervals, {}) == intervals
  {
    if intervals != [] {
      RelevantAll(intervals[1..]);
    }
  }

  /** The two calls agree: `find_conflicts` with nothing ignored finds no conflict for a slot exactly when one of the
      windows that `find_free_windows` returns for the same intervals contains it. */
  lemma FreeMeansNoConflict(intervals: seq<Busy>, lo: nat, hi: nat, minimum: nat, free: seq<Window>, s: nat, e: nat)
    requires exists busy :: NormalFormOf(busy, intervals, lo, hi) && free == Gaps(busy, lo, hi, minimum)
    requires minimum > 0 && lo <= s < e <= hi && e - s >= minimum
    ensures FindConflicts(intervals, s, e, {}) == Success([]) <==> Inside(free, s, e)
  {
    var busy :| NormalFormOf(busy, intervals, lo, hi) && free == Gaps(busy, lo, hi, minimum);
    RelevantAll(intervals);
    SlotCriterion(intervals, {}, lo, hi, minimum, busy, s, e);
  }
}
