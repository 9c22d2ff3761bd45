/** What a drain does to the row table: which rows it takes, which of them get through, what that costs and what is
    left. */
module ProjectionWork {
  import opened Common
  import opened CanonicalRef
  import opened ProjectionOutbox
  import opened Sorting

  /** `works` are the first `limit` unfinished rows by revision. */
  ghost predicate FirstUnfinished(rows: map<WorkKey, Row>, works: seq<WorkKey>, limit: nat) {
    && Claimable(rows, works) && |works| <= limit
    && (forall i, j :: 0 <= i < j < |works| ==> works[i].revision <= works[j].revision)
    && forall k :: k in rows && rows[k].state != Done && k !in works ==>
         |works| == limit && forall i :: 0 <= i < |works| ==> works[i].revision <= k.revision
  }

  /** In order, each once. */
  ghost predicate Ascending(refs: seq<string>) {
    Sorted(refs, StringLe) && forall i, j :: 0 <= i < j < |refs| ==> refs[i] != refs[j]
  }

  lemma AscendingMore(refs: seq<string>, r: string)
    requires Ascending(refs) && r !in refs && forall i :: 0 <= i < |refs| ==> StringLe(refs[i], r)
    ensures Ascending(refs + [r])
  {
  }

  /** The active names in order, the result of `ActiveScopeRefs`. */
  ghost predicate IsActiveList(rows: map<WorkKey, Row>, refs: seq<string>) {
    ListsActive(rows, refs) && Ascending(refs)
  }

  /** Can this row not get through while the facts are as they are? */
  ghost predicate Stuck(rows: map<WorkKey, Row>, facts: map<Key, Fact>, x: WorkKey)
    requires x in rows
  {
    if rows[x].operation == Put then ReadEvent(facts, x.ref).Failure?
    else exists r :: Active(rows, r) && ReadEvent(facts, r).Failure?
  }

  /** A stuck row comes before every other unfinished one. */
  ghost predicate Blocked(rows: map<WorkKey, Row>, facts: map<Key, Fact>, x: WorkKey) {
    && x in rows && rows[x].state != Done && Stuck(rows, facts, x)
    && forall k :: k in rows && k != x && rows[k].state != Done ==> x.revision < k.revision
  }

  /** States apart, the tables are the same. */
  ghost predicate SameWork(a: map<WorkKey, Row>, b: map<WorkKey, Row>) {
    a.Keys == b.Keys && forall k :: k in a ==> b[k].operation == a[k].operation
  }

  lemma StuckSame(a: map<WorkKey, Row>, b: map<WorkKey, Row>, facts: map<Key, Fact>, x: WorkKey)
    requires SameWork(a, b) && x in a
    ensures Stuck(a, facts, x) == Stuck(b, facts, x)
  {
    forall r: string
      ensures Active(a, r) == Active(b, r)
    {
      if Active(a, r) { ActiveSame(a, b, r); }
      if Active(b, r) { ActiveSame(b, a, r); }
    }
  }

  lemma ActiveSame(a: map<WorkKey, Row>, b: map<WorkKey, Row>, r: string)
    requires SameWork(a, b) && Active(a, r)
    ensures Active(b, r)
  {
    var k :| k in a && k.ref == r && a[k].operation != Delete && forall o :: o in a && o.ref == r ==> o.revision <= k.revision;
    assert k in b && b[k].operation != Delete;
  }

  /** How many events a name that can be read gives: one if the fact exists. */
  function Yield(facts: map<Key, Fact>, ref: string): nat {
    var r := ReadEvent(facts, ref);
    if r.Success? && r.value.Some? then 1 else 0
  }

  function Yields(facts: map<Key, Fact>, refs: seq<string>): nat {
    if refs == [] then 0 else Yields(facts, refs[..|refs| - 1]) + Yield(facts, refs[|refs| - 1])
  }

  /** The active names whose fact exists. */
  ghost function ActiveFacts(rows: map<WorkKey, Row>, facts: map<Key, Fact>): set<string> {
    set k | k in rows && Active(rows, k.ref) && Yield(facts, k.ref) == 1 :: k.ref
  }

  /** How many events draining one row projects: that of its own fact, or for a delete row those of all active ones. */
  ghost function Projections(rows: map<WorkKey, Row>, facts: map<Key, Fact>, x: WorkKey): nat
    requires x in rows
  {
    if rows[x].operation == Put then Yield(facts, x.ref) else |ActiveFacts(rows, facts)|
  }

  lemma ProjectionsSame(a: map<WorkKey, Row>, b: map<WorkKey, Row>, facts: map<Key, Fact>, x: WorkKey)
    requires SameWork(a, b) && x in a
    ensures Projections(a, facts, x) == Projections(b, facts, x)
  {
    forall r: string
      ensures Active(a, r) == Active(b, r)
    {
      if Active(a, r) { ActiveSame(a, b, r); }
      if Active(b, r) { ActiveSame(b, a, r); }
    }
    assert ActiveFacts(a, facts) == ActiveFacts(b, facts);
  }

  ghost function WithFact(facts: map<Key, Fact>, refs: seq<string>): set<string> {
    set r | r in refs && Yield(facts, r) == 1
  }

  lemma WithFactMore(facts: map<Key, Fact>, refs: seq<string>, r: string)
    requires r !in refs
    ensures |WithFact(facts, refs + [r])| == |WithFact(facts, refs)| + Yield(facts, r)
  {
    var some, all := WithFact(facts, refs), WithFact(facts, refs + [r]);
    forall x: string
      ensures x in all <==> x in some || (x == r && Yield(facts, r) == 1)
    {
    }
    if Yield(facts, r) == 1 {
      assert all == some + {r};
    } else {
      assert all == some;
    }
  }

  /** The events of a list of distinct names are as many as its names with a fact. */
  lemma {:induction false} YieldsCount(facts: map<Key, Fact>, refs: seq<string>)
    requires forall i, j :: 0 <= i < j < |refs| ==> refs[i] != refs[j]
    ensures Yields(facts, refs) == |WithFact(facts, refs)|
    decreases |refs|
  {
    if refs != [] {
      var init, last := refs[..|refs| - 1], refs[|refs| - 1];
      YieldsCount(facts, init);
      assert refs == init + [last] && last !in init;
      WithFactMore(facts, init, last);
    } else {
      assert WithFact(facts, refs) == {};
    }
  }

  lemma RebuildYields(rows: map<WorkKey, Row>, facts: map<Key, Fact>, refs: seq<string>)
    requires IsActiveList(rows, refs)
    ensures Yields(facts, refs) == |ActiveFacts(rows, facts)|
  {
    YieldsCount(facts, refs);
    forall r | r in refs
      ensures exists k :: k in rows && k.ref == r
    {
      assert Active(rows, r);
    }
    assert ActiveFacts(rows, facts) == WithFact(facts, refs);
  }

  /** How many of `works` are delete rows. */
  function DeleteRows(rows: map<WorkKey, Row>, works: seq<WorkKey>): nat
    requires forall k :: k in works ==> k in rows
  {
    if works == [] then 0
    else DeleteRows(rows, works[..|works| - 1]) + if rows[works[|works| - 1]].operation == Delete then 1 else 0
  }

  lemma DeleteRowsSame(a: map<WorkKey, Row>, b: map<WorkKey, Row>, works: seq<WorkKey>)
    requires forall k :: k in works ==> k in a && k in b && a[k].operation == b[k].operation
    ensures DeleteRows(a, works) == DeleteRows(b, works)
  {
  }

  /** What draining `works` projects in all. */
  ghost function ProjectionsOf(rows: map<WorkKey, Row>, facts: map<Key, Fact>, works: seq<WorkKey>): nat
    requires forall k :: k in works ==> k in rows
  {
    if works == [] then 0
    else ProjectionsOf(rows, facts, works[..|works| - 1]) + Projections(rows, facts, works[|works| - 1])
  }

  lemma {:induction false} ProjectionsOfSame(a: map<WorkKey, Row>, b: map<WorkKey, Row>, facts: map<Key, Fact>, works: seq<WorkKey>)
    requires SameWork(a, b) && forall k :: k in works ==> k in a
    ensures ProjectionsOf(a, facts, works) == ProjectionsOf(b, facts, works)
    decreases |works|
  {
    if works != [] {
      ProjectionsSame(a, b, facts, works[|works| - 1]);
      ProjectionsOfSame(a, b, facts, works[..|works| - 1]);
    }
  }

  // ---- the cost of a row -----------------------------------------------------------------------------

  /** How many calls to the backend and the ledger draining a row takes: the forgetting of a delete row, its events and
      the ledger. */
  ghost function RowCost(rows: map<WorkKey, Row>, facts: map<Key, Fact>, x: WorkKey): nat
    requires x in rows
  {
    Projections(rows, facts, x) + (if rows[x].operation == Delete then 1 else 0) + 1
  }

  ghost function CostOf(rows: map<WorkKey, Row>, facts: map<Key, Fact>, works: seq<WorkKey>): nat
    requires forall k :: k in works ==> k in rows
  {
    ProjectionsOf(rows, facts, works) + DeleteRows(rows, works) + |works|
  }

  lemma CostNext(rows: map<WorkKey, Row>, facts: map<Key, Fact>, works: seq<WorkKey>, i: nat)
    requires i < |works| && forall k :: k in works ==> k in rows
    ensures forall k :: k in works[..i] || k in works[..i + 1] ==> k in rows
    ensures CostOf(rows, facts, works[..i + 1]) == CostOf(rows, facts, works[..i]) + RowCost(rows, facts, works[i])
    ensures ProjectionsOf(rows, facts, works[..i + 1]) == ProjectionsOf(rows, facts, works[..i]) + Projections(rows, facts, works[i])
    ensures DeleteRows(rows, works[..i + 1]) == DeleteRows(rows, works[..i]) + if rows[works[i]].operation == Delete then 1 else 0
  {
    assert works[..i + 1][..i] == works[..i];
  }

  lemma {:induction false} CostGrows(rows: map<WorkKey, Row>, facts: map<Key, Fact>, works: seq<WorkKey>, i: nat)
    requires i <= |works| && forall k :: k in works ==> k in rows
    ensures CostOf(rows, facts, works[..i]) <= CostOf(rows, facts, works)
    decreases |works| - i
  {
    if i < |works| {
      CostNext(rows, facts, works, i);
      CostGrows(rows, facts, works, i + 1);
    } else {
      assert works[..i] == works;
    }
  }

  lemma CostSame(a: map<WorkKey, Row>, b: map<WorkKey, Row>, facts: map<Key, Fact>, works: seq<WorkKey>)
    requires SameWork(a, b) && forall k :: k in works ==> k in a
    ensures CostOf(a, facts, works) == CostOf(b, facts, works)
    ensures ProjectionsOf(a, facts, works) == ProjectionsOf(b, facts, works) && DeleteRows(a, works) == DeleteRows(b, works)
  {
    ProjectionsOfSame(a, b, facts, works);
    DeleteRowsSame(a, b, works);
  }

  // ---- the table after a drain -----------------------------------------------------------------------

  function RowsDone(rows: map<WorkKey, Row>, works: seq<WorkKey>): (r: map<WorkKey, Row>)
    ensures r.Keys == rows.Keys
    ensures forall k :: k in rows ==> r[k] == if k in works then rows[k].(state := Done) else rows[k]
  {
    map k | k in rows :: if k in works then rows[k].(state := Done) else rows[k]
  }

  /** The rows before the `i`th are DONE, and that one is back in the queue. */
  function RowsFailed(rows: map<WorkKey, Row>, works: seq<WorkKey>, i: nat): map<WorkKey, Row>
    requires i < |works| && works[i] in rows
  {
    RowsDone(rows, works[..i])[works[i] := rows[works[i]].(state := Queued)]
  }

  lemma RowDone(rows: map<WorkKey, Row>, works: seq<WorkKey>, i: nat)
    requires i < |works| && works[i] in rows
    ensures RowsDone(rows, works[..i + 1]) == RowsDone(rows, works[..i])[works[i] := rows[works[i]].(state := Done)]
  {
    assert works[..i + 1] == works[..i] + [works[i]];
  }

  lemma RowsDoneSame(rows: map<WorkKey, Row>, works: seq<WorkKey>)
    ensures SameWork(rows, RowsDone(rows, works))
  {
  }

  ghost predicate NoneStuck(rows: map<WorkKey, Row>, facts: map<Key, Fact>, works: seq<WorkKey>) {
    forall k :: k in works ==> k in rows && !Stuck(rows, facts, k)
  }

  /** None of the rows is stuck and the calls suffice. */
  ghost predicate GoesThrough(rows: map<WorkKey, Row>, facts: map<Key, Fact>, works: seq<WorkKey>, calls: nat) {
    NoneStuck(rows, facts, works) && CostOf(rows, facts, works) <= calls
  }

  /** The rows before the `i`th get through, and that one is stuck or runs out of calls. */
  ghost predicate FailsAt(rows: map<WorkKey, Row>, facts: map<Key, Fact>, works: seq<WorkKey>, calls: nat, i: nat) {
    && i < |works| && (forall k :: k in works ==> k in rows) && GoesThrough(rows, facts, works[..i], calls)
    && (Stuck(rows, facts, works[i]) || calls < CostOf(rows, facts, works[..i]) + RowCost(rows, facts, works[i]))
  }

  lemma FailsOrGoes(rows: map<WorkKey, Row>, facts: map<Key, Fact>, works: seq<WorkKey>, calls: nat, i: nat)
    requires FailsAt(rows, facts, works, calls, i)
    ensures !GoesThrough(rows, facts, works, calls)
  {
    CostNext(rows, facts, works, i);
    CostGrows(rows, facts, works, i + 1);
    assert works[i] in works;
  }

  datatype DrainReport = DrainReport(claimed: nat, projected: nat, forgotten: nat)

  /** What a drain that claims `works` comes to, exactly: it succeeds if and only if none of them is stuck and the calls
      suffice; then all of them are DONE and counted. Otherwise it ends at the first that does not get through. */
  ghost predicate Outcome(before: map<WorkKey, Row>, facts: map<Key, Fact>, limit: nat, calls: nat, works: seq<WorkKey>,
                          after: map<WorkKey, Row>, report: Option<DrainReport>, left: nat) {
    && FirstUnfinished(before, works, limit)
    && (report.Some? <==> GoesThrough(before, facts, works, calls))
    && match report
       case Some(r) =>
         && after == RowsDone(before, works) && left + CostOf(before, facts, works) == calls
         && r == DrainReport(|works|, ProjectionsOf(before, facts, works), DeleteRows(before, works))
       case None =>
         exists i: nat :: FailsAt(before, facts, works, calls, i) && after == RowsFailed(Processed(before, works), works, i)
                     && (Stuck(before, facts, works[i]) || left == 0)
  }

  ghost predicate DrainsTo(before: map<WorkKey, Row>, facts: map<Key, Fact>, limit: nat, calls: nat,
                           after: map<WorkKey, Row>, report: Option<DrainReport>, left: nat) {
    exists works :: Outcome(before, facts, limit, calls, works, after, report, left)
  }

  lemma ProcessedSame(rows: map<WorkKey, Row>, works: seq<WorkKey>)
    ensures SameWork(rows, Processed(rows, works))
  {
  }

  lemma NoneStuckSame(a: map<WorkKey, Row>, b: map<WorkKey, Row>, facts: map<Key, Fact>, works: seq<WorkKey>)
    requires SameWork(a, b)
    ensures NoneStuck(a, facts, works) == NoneStuck(b, facts, works)
  {
    forall k | k in works && k in a
      ensures Stuck(a, facts, k) == Stuck(b, facts, k)
    {
      StuckSame(a, b, facts, k);
    }
  }

  lemma OutcomeDone(before: map<WorkKey, Row>, facts: map<Key, Fact>, limit: nat, calls: nat, works: seq<WorkKey>,
                    left: nat, projected: nat, forgotten: nat)
    requires FirstUnfinished(before, works, limit) && GoesThrough(Processed(before, works), facts, works, calls)
    requires left + CostOf(Processed(before, works), facts, works) == calls
    requires projected == ProjectionsOf(Processed(before, works), facts, works)
    requires forgotten == DeleteRows(Processed(before, works), works)
    ensures Outcome(before, facts, limit, calls, works, RowsDone(Processed(before, works), works),
                    Some(DrainReport(|works|, projected, forgotten)), left)
  {
    ProcessedSame(before, works);
    NoneStuckSame(before, Processed(before, works), facts, works);
    CostSame(before, Processed(before, works), facts, works);
    assert RowsDone(Processed(before, works), works) == RowsDone(before, works);
  }

  lemma OutcomeFailed(before: map<WorkKey, Row>, facts: map<Key, Fact>, limit: nat, calls: nat, works: seq<WorkKey>,
                      i: nat, left: nat)
    requires FirstUnfinished(before, works, limit) && FailsAt(Processed(before, works), facts, works, calls, i)
    requires Stuck(Processed(before, works), facts, works[i]) || left == 0
    ensures Outcome(before, facts, limit, calls, works, RowsFailed(Processed(before, works), works, i), None, left)
  {
    var rows := Processed(before, works);
    ProcessedSame(before, works);
    StuckSame(before, rows, facts, works[i]);
    NoneStuckSame(before, rows, facts, works[..i]);
    CostSame(before, rows, facts, works[..i]);
    ProjectionsSame(before, rows, facts, works[i]);
    assert FailsAt(before, facts, works, calls, i);
    FailsOrGoes(before, facts, works, calls, i);
  }

  // ---- a stuck row in front --------------------------------------------------------------------------

  /** The drain failed, `x` is still in the way, and nothing has become DONE. */
  ghost predicate StillBlocked(before: map<WorkKey, Row>, after: map<WorkKey, Row>, facts: map<Key, Fact>, x: WorkKey) {
    && Blocked(after, facts, x) && after.Keys == before.Keys
    && forall k :: k in after ==> (after[k].state == Done <==> before[k].state == Done)
  }

  /** The claim order puts the stuck row first. */
  lemma FirstIsStuck(rows: map<WorkKey, Row>, facts: map<Key, Fact>, works: seq<WorkKey>, limit: nat, x: WorkKey)
    requires Blocked(rows, facts, x) && FirstUnfinished(rows, works, limit) && limit > 0
    ensures works != [] && works[0] == x
  {
    if works != [] {
      assert works[0] in works;
    }
    if x in works {
      var i :| 0 <= i < |works| && works[i] == x;
      if i > 0 {
        assert false;
      }
    }
  }

  lemma StaysBlocked(a: map<WorkKey, Row>, b: map<WorkKey, Row>, facts: map<Key, Fact>, x: WorkKey)
    requires Blocked(a, facts, x) && SameWork(a, b)
    requires forall k :: k in b ==> (b[k].state == Done <==> a[k].state == Done)
    ensures Blocked(b, facts, x)
  {
    StuckSame(a, b, facts, x);
  }

  lemma NoneStuckAt(rows: map<WorkKey, Row>, facts: map<Key, Fact>, works: seq<WorkKey>, i: nat, j: nat)
    requires j < i <= |works| && NoneStuck(rows, facts, works[..i])
    ensures works[j] in rows && !Stuck(rows, facts, works[j])
  {
    assert works[..i][j] == works[j];
  }

  lemma FailsAtFirst(rows: map<WorkKey, Row>, facts: map<Key, Fact>, works: seq<WorkKey>, calls: nat, i: nat)
    requires FailsAt(rows, facts, works, calls, i) && Stuck(rows, facts, works[0])
    ensures i == 0
  {
    if i > 0 {
      NoneStuckAt(rows, facts, works, i, 0);
    }
  }

  lemma QueuedAgain(before: map<WorkKey, Row>, facts: map<Key, Fact>, works: seq<WorkKey>, x: WorkKey)
    requires Blocked(before, facts, x) && Claimable(before, works) && works != [] && works[0] == x
    ensures StillBlocked(before, RowsFailed(Processed(before, works), works, 0), facts, x)
  {
    var after := RowsFailed(Processed(before, works), works, 0);
    assert works[..0] == [];
    ProcessedSame(before, works);
    StaysBlocked(before, after, facts, x);
  }

  /** A stuck row that comes before every other unfinished one makes every drain fail, whatever it may call: nothing
      becomes DONE and the row is still in the way. */
  lemma BlockedDrain(before: map<WorkKey, Row>, facts: map<Key, Fact>, limit: nat, calls: nat, after: map<WorkKey, Row>,
                     report: Option<DrainReport>, left: nat, x: WorkKey)
    requires Blocked(before, facts, x) && limit > 0 && DrainsTo(before, facts, limit, calls, after, report, left)
    ensures report.None? && StillBlocked(before, after, facts, x)
  {
    var works :| Outcome(before, facts, limit, calls, works, after, report, left);
    FirstIsStuck(before, facts, works, limit, x);
    assert works[0] in works;
    assert report.None?;
    var i: nat :| FailsAt(before, facts, works, calls, i) && after == RowsFailed(Processed(before, works), works, i);
    FailsAtFirst(before, facts, works, calls, i);
    QueuedAgain(before, facts, works, x);
  }

  // ---- draining again and again ----------------------------------------------------------------------

  function Unfinished(rows: map<WorkKey, Row>): set<WorkKey> {
    set k | k in rows && rows[k].state != Done
  }

  ghost predicate NoneWaitingStuck(rows: map<WorkKey, Row>, facts: map<Key, Fact>) {
    forall k :: k in rows && rows[k].state != Done ==> !Stuck(rows, facts, k)
  }

  function Elements(works: seq<WorkKey>): set<WorkKey> {
    set k | k in works
  }

  lemma {:induction false} DistinctSize(works: seq<WorkKey>)
    requires forall i, j :: 0 <= i < j < |works| ==> works[i] != works[j]
    ensures |Elements(works)| == |works|
  {
    if works == [] {
      assert Elements(works) == {};
    } else {
      var init, last := works[..|works| - 1], works[|works| - 1];
      DistinctSize(init);
      assert works == init + [last] && last !in init;
      assert Elements(works) == Elements(init) + {last};
    }
  }

  ghost function RefsOf(keys: set<WorkKey>): set<string> {
    set k | k in keys :: k.ref
  }

  lemma {:induction false} RefsSize(keys: set<WorkKey>)
    ensures |RefsOf(keys)| <= |keys|
    decreases keys
  {
    if keys == {} {
      assert RefsOf(keys) == {};
    } else {
      var x :| x in keys;
      RefsSize(keys - {x});
      assert RefsOf(keys) == RefsOf(keys - {x}) + {x.ref};
    }
  }

  lemma ActiveFactsBounded(rows: map<WorkKey, Row>, facts: map<Key, Fact>)
    ensures |ActiveFacts(rows, facts)| <= |rows|
  {
    RefsSize(rows.Keys);
    assert ActiveFacts(rows, facts) <= RefsOf(rows.Keys);
    SubsetSize(ActiveFacts(rows, facts), RefsOf(rows.Keys));
    assert |rows.Keys| == |rows|;
  }

  lemma RowCostBounded(rows: map<WorkKey, Row>, facts: map<Key, Fact>, x: WorkKey)
    requires x in rows
    ensures RowCost(rows, facts, x) <= |rows| + 2
  {
    ActiveFactsBounded(rows, facts);
  }

  lemma {:induction false} CostBounded(rows: map<WorkKey, Row>, facts: map<Key, Fact>, works: seq<WorkKey>, most: nat)
    requires forall k :: k in works ==> k in rows && RowCost(rows, facts, k) <= most
    ensures CostOf(rows, facts, works) <= |works| * most
    decreases |works|
  {
    if works != [] {
      var n := |works| - 1;
      assert works[..n + 1] == works;
      CostNext(rows, facts, works, n);
      CostBounded(rows, facts, works[..n], most);
      OneMore(CostOf(rows, facts, works[..n]), RowCost(rows, facts, works[n]), n, most);
    }
  }

  lemma OneMore(sum: nat, a: nat, n: nat, most: nat)
    requires sum <= n * most && a <= most
    ensures sum + a <= (n + 1) * most
  {
  }

  lemma Times(a: nat, b: nat, c: nat)
    requires a <= b
    ensures a * c <= b * c
  {
  }

  /** With no stuck row waiting and a call for every name of the table and two more, for each row that may be claimed,
      a drain succeeds and takes as many rows off as it may. */
  lemma DrainProgress(before: map<WorkKey, Row>, facts: map<Key, Fact>, limit: nat, calls: nat, after: map<WorkKey, Row>,
                      report: Option<DrainReport>, left: nat)
    requires DrainsTo(before, facts, limit, calls, after, report, left)
    requires NoneWaitingStuck(before, facts) && calls >= limit * (|before| + 2)
    ensures report.Some? && SameWork(before, after) && |after| == |before| && NoneWaitingStuck(after, facts)
    ensures |Unfinished(after)| == if |Unfinished(before)| <= limit then 0 else |Unfinished(before)| - limit
  {
    var works :| Outcome(before, facts, limit, calls, works, after, report, left);
    forall k | k in works
      ensures RowCost(before, facts, k) <= |before| + 2
    {
      RowCostBounded(before, facts, k);
    }
    CostBounded(before, facts, works, |before| + 2);
    Times(|works|, limit, |before| + 2);
    assert GoesThrough(before, facts, works, calls);
    RowsDoneSame(before, works);
    assert |after.Keys| == |after| && |before.Keys| == |before|;
    forall k | k in after && after[k].state != Done
      ensures !Stuck(after, facts, k)
    {
      StuckSame(before, after, facts, k);
    }
    TakenOff(before, works, limit);
  }

  lemma TakenOff(before: map<WorkKey, Row>, works: seq<WorkKey>, limit: nat)
    requires FirstUnfinished(before, works, limit)
    ensures |Unfinished(RowsDone(before, works))| == if |Unfinished(before)| <= limit then 0 else |Unfinished(before)| - limit
  {
    var rest := Unfinished(RowsDone(before, works));
    DistinctSize(works);
    assert Unfinished(before) == rest + Elements(works) && rest !! Elements(works);
    if rest != {} {
      var k :| k in rest;
      assert |works| == limit;
    }
  }

  ghost predicate Drained(before: map<WorkKey, Row>, facts: map<Key, Fact>, limit: nat, calls: nat, after: map<WorkKey, Row>) {
    exists report, left :: DrainsTo(before, facts, limit, calls, after, report, left)
  }

  /** Each table is what some drain makes of the one before. */
  ghost predicate DrainedInTurn(tables: seq<map<WorkKey, Row>>, facts: map<Key, Fact>, limit: nat, calls: nat) {
    |tables| > 1 ==> Drained(tables[0], facts, limit, calls, tables[1]) && DrainedInTurn(tables[1..], facts, limit, calls)
  }

  /** No stuck row is waiting, each drain has calls enough, and `n` of them may take every waiting row. */
  ghost predicate Ready(rows: map<WorkKey, Row>, facts: map<Key, Fact>, limit: nat, calls: nat, n: nat) {
    NoneWaitingStuck(rows, facts) && calls >= limit * (|rows| + 2) && n * limit >= |Unfinished(rows)|
  }

  lemma ReadyNext(before: map<WorkKey, Row>, facts: map<Key, Fact>, limit: nat, calls: nat, after: map<WorkKey, Row>, n: nat)
    requires n > 0 && Ready(before, facts, limit, calls, n) && Drained(before, facts, limit, calls, after)
    ensures Ready(after, facts, limit, calls, n - 1)
  {
    var report, left :| DrainsTo(before, facts, limit, calls, after, report, left);
    DrainProgress(before, facts, limit, calls, after, report, left);
    FewerLeft(n, limit, |Unfinished(before)|);
  }

  ghost predicate AllDone(rows: map<WorkKey, Row>) {
    forall k :: k in rows ==> rows[k].state == Done
  }

  lemma NothingUnfinished(rows: map<WorkKey, Row>)
    requires |Unfinished(rows)| == 0
    ensures AllDone(rows)
  {
    forall k | k in rows
      ensures rows[k].state == Done
    {
      assert k !in Unfinished(rows);
    }
  }

  lemma FewerLeft(n: nat, limit: nat, waiting: nat)
    requires n > 0 && n * limit >= waiting
    ensures (n - 1) * limit >= if waiting <= limit then 0 else waiting - limit
  {
    assert n * limit == (n - 1) * limit + limit;
  }

  /** Draining again and again: as soon as the drains together may take as many rows as are waiting, every row is
      DONE. */
  lemma {:induction false} RepeatedDrains(tables: seq<map<WorkKey, Row>>, facts: map<Key, Fact>, limit: nat, calls: nat)
    requires tables != [] && DrainedInTurn(tables, facts, limit, calls)
    requires Ready(tables[0], facts, limit, calls, |tables| - 1)
    ensures AllDone(tables[|tables| - 1])
    decreases |tables|
  {
    if |tables| > 1 {
      ReadyNext(tables[0], facts, limit, calls, tables[1], |tables| - 1);
      RepeatedDrains(tables[1..], facts, limit, calls);
    } else {
      NothingUnfinished(tables[0]);
    }
  }
}
