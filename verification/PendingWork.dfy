/** Pending intake work merged from several stores, with the limit pushed down into each store's query. */
module PendingWork {
  import opened Common
  import opened Sorting

  datatype State = Received | Preserved | Classified | Indexed | Processing | Done | Blocked | Deferred

  /** A row of `intake_lifecycle`; the id is its primary key. */
  datatype Item = Item(intakeId: string, state: State, updatedAt: int)

  /** What rows of one store, and of all stores, are sorted by; the key names the row. */
  datatype LocalKey = LocalKey(updatedAt: int, intakeId: string)

  datatype GlobalKey = GlobalKey(updatedAt: int, storeRef: string, intakeId: string)

  datatype Store = Store(ref: string, table: seq<Item>)

  datatype LimitError = LimitInvalid

  const MAX_LIMIT: int := 1000

  predicate LocalBefore(a: LocalKey, b: LocalKey) {
    a.updatedAt < b.updatedAt || (a.updatedAt == b.updatedAt && StringLe(a.intakeId, b.intakeId))
  }

  predicate GlobalBefore(a: GlobalKey, b: GlobalKey) {
    a.updatedAt < b.updatedAt
    || (a.updatedAt == b.updatedAt
        && (if a.storeRef == b.storeRef then StringLe(a.intakeId, b.intakeId) else StringLe(a.storeRef, b.storeRef)))
  }

  function First<T>(k: nat, s: seq<T>): seq<T> {
    if k <= |s| then s[..k] else s
  }

  function Pending(table: seq<Item>): seq<LocalKey> {
    if table == [] then []
    else
      var rest, item := Pending(table[..|table| - 1]), table[|table| - 1];
      if item.state.Done? then rest else rest + [LocalKey(item.updatedAt, item.intakeId)]
  }

  /** The query of `pending_work`. */
  function PendingRows(table: seq<Item>, limit: nat): seq<LocalKey> {
    First(limit, Sort(Pending(table), LocalBefore))
  }

  function Tag(ref: string): LocalKey -> GlobalKey {
    (k: LocalKey) => GlobalKey(k.updatedAt, ref, k.intakeId)
  }

  /** The rows the merge sees. */
  function Collected(stores: seq<Store>, limit: nat): seq<GlobalKey> {
    if stores == [] then []
    else
      var s := stores[|stores| - 1];
      Collected(stores[..|stores| - 1], limit) + Mapped(PendingRows(s.table, limit), Tag(s.ref))
  }

  /** All pending rows there are. */
  function AllPending(stores: seq<Store>): seq<GlobalKey> {
    if stores == [] then []
    else
      var s := stores[|stores| - 1];
      AllPending(stores[..|stores| - 1]) + Mapped(Pending(s.table), Tag(s.ref))
  }

  // ---- orders ----------------------------------------------------------------------------------------

  lemma GlobalTransitive(a: GlobalKey, b: GlobalKey, c: GlobalKey)
    requires GlobalBefore(a, b) && GlobalBefore(b, c)
    ensures GlobalBefore(a, c)
  {
    if a.updatedAt == c.updatedAt {
      if a.storeRef == b.storeRef == c.storeRef {
        StringLeTransitive(a.intakeId, b.intakeId, c.intakeId);
      } else {
        StringLeTotal(b.storeRef, b.storeRef);
        StringLeTransitive(a.storeRef, b.storeRef, c.storeRef);
        if a.storeRef == c.storeRef {
          StringLeTotal(a.storeRef, b.storeRef);
        }
      }
    }
  }

  lemma GlobalTotal()
    ensures TotalOrder(GlobalBefore)
  {
    forall a, b
      ensures (GlobalBefore(a, b) || GlobalBefore(b, a)) && (GlobalBefore(a, b) && GlobalBefore(b, a) ==> a == b)
    {
      StringLeTotal(a.intakeId, b.intakeId);
      StringLeTotal(a.storeRef, b.storeRef);
    }
    forall a, b, c | GlobalBefore(a, b) && GlobalBefore(b, c)
      ensures GlobalBefore(a, c)
    {
      GlobalTransitive(a, b, c);
    }
  }

  // ---- dropping rows that cannot be among the first --------------------------------------------------

  function CountLe<T>(s: seq<T>, y: T, le: (T, T) -> bool): nat {
    if s == [] then 0 else (if le(s[0], y) then 1 else 0) + CountLe(s[1..], y, le)
  }

  lemma {:induction false} CountAppend<T>(a: seq<T>, b: seq<T>, y: T, le: (T, T) -> bool)
    ensures CountLe(a + b, y, le) == CountLe(a, y, le) + CountLe(b, y, le)
  {
    if a == [] {
      assert a + b == b;
    } else {
      CountAppend(a[1..], b, y, le);
      assert (a + b)[1..] == a[1..] + b;
    }
  }

  lemma {:induction false} CountInsert<T>(s: seq<T>, x: T, y: T, le: (T, T) -> bool)
    ensures CountLe(Insert(s, x, le), y, le) == CountLe(s, y, le) + (if le(x, y) then 1 else 0)
  {
    if s != [] && !le(x, s[0]) {
      CountInsert(s[1..], x, y, le);
    }
  }

  lemma {:induction false} CountSort<T>(s: seq<T>, y: T, le: (T, T) -> bool)
    ensures CountLe(Sort(s, le), y, le) == CountLe(s, y, le)
  {
    if s != [] {
      var n := |s| - 1;
      var init, last := s[..n], s[n];
      assert s == init + [last];
      CountAppend(init, [last], y, le);
      CountSort(init, y, le);
      CountInsert(Sort(init, le), last, y, le);
    }
  }

  lemma {:induction false} CountAll<T>(s: seq<T>, y: T, le: (T, T) -> bool)
    requires forall i :: 0 <= i < |s| ==> le(s[i], y)
    ensures CountLe(s, y, le) == |s|
  {
    if s != [] {
      CountAll(s[1..], y, le);
    }
  }

  lemma {:induction false} CountNone<T>(s: seq<T>, y: T, le: (T, T) -> bool)
    requires forall i :: 0 <= i < |s| ==> !le(s[i], y)
    ensures CountLe(s, y, le) == 0
  {
    if s != [] {
      CountNone(s[1..], y, le);
    }
  }

  lemma {:induction false} CountAtMost<T>(s: seq<T>, y: T, le: (T, T) -> bool)
    ensures CountLe(s, y, le) <= |s|
  {
    if s != [] {
      CountAtMost(s[1..], y, le);
    }
  }

  /** In a sorted list with `k` elements up to `y`, the first `k` are. */
  lemma FirstAreLe<T(!new)>(s: seq<T>, y: T, k: nat, le: (T, T) -> bool)
    requires TotalOrder(le) && Sorted(s, le) && CountLe(s, y, le) >= k
    ensures k <= |s| && forall i :: 0 <= i < k ==> le(s[i], y)
  {
    CountAtMost(s, y, le);
    forall i | 0 <= i < k
      ensures le(s[i], y)
    {
      if !le(s[i], y) {
        assert s == s[..i] + s[i..];
        forall j | 0 <= j < |s[i..]|
          ensures !le(s[i..][j], y)
        {
          if j > 0 {
            assert le(s[i], s[i + j]);
          }
        }
        CountNone(s[i..], y, le);
        CountAtMost(s[..i], y, le);
        CountAppend(s[..i], s[i..], y, le);
      }
    }
  }

  /** Inserting an element behind the first `k` leaves them alone. */
  lemma {:induction false} InsertBehind<T(!new)>(s: seq<T>, y: T, k: nat, le: (T, T) -> bool)
    requires TotalOrder(le) && Sorted(s, le) && k <= |s| && forall i :: 0 <= i < k ==> le(s[i], y)
    ensures Insert(s, y, le)[..k] == s[..k]
  {
    if k > 0 {
      if le(y, s[0]) {
        forall i | 0 <= i < k
          ensures s[i] == y
        {
          assert i == 0 || le(s[0], s[i]);
        }
      } else {
        InsertBehind(s[1..], y, k - 1, le);
        assert Insert(s, y, le)[..k] == [s[0]] + Insert(s[1..], y, le)[..k - 1];
      }
    }
  }

  lemma SortOfPermutation<T(!new)>(a: seq<T>, b: seq<T>, le: (T, T) -> bool)
    requires TotalOrder(le) && multiset(a) == multiset(b)
    ensures Sort(a, le) == Sort(b, le)
  {
    SortSorted(a, le);
    OnlyArrangement(Sort(a, le), b, le);
  }

  lemma DropOne<T(!new)>(kept: seq<T>, y: T, k: nat, le: (T, T) -> bool)
    requires TotalOrder(le) && CountLe(kept, y, le) >= k
    ensures First(k, Sort(kept + [y], le)) == First(k, Sort(kept, le))
  {
    var s := Sort(kept, le);
    assert (kept + [y])[..|kept|] == kept;
    SortSorted(kept, le);
    CountSort(kept, y, le);
    FirstAreLe(s, y, k, le);
    InsertBehind(s, y, k, le);
  }

  ghost predicate Behind<T>(kept: seq<T>, late: seq<T>, k: nat, le: (T, T) -> bool) {
    forall j :: 0 <= j < |late| ==> CountLe(kept, late[j], le) >= k
  }

  lemma BehindInit<T>(kept: seq<T>, late: seq<T>, k: nat, le: (T, T) -> bool)
    requires late != [] && Behind(kept, late, k, le)
    ensures Behind(kept, late[..|late| - 1], k, le)
    ensures CountLe(kept + late[..|late| - 1], late[|late| - 1], le) >= k
    ensures kept + late[..|late| - 1] + [late[|late| - 1]] == kept + late
  {
    CountAppend(kept, late[..|late| - 1], late[|late| - 1], le);
  }

  /** Elements behind `k` others do not matter for the first `k`. */
  lemma {:induction false} DropLate<T(!new)>(kept: seq<T>, late: seq<T>, all: seq<T>, k: nat, le: (T, T) -> bool)
    requires TotalOrder(le) && Behind(kept, late, k, le) && all == kept + late
    ensures First(k, Sort(all, le)) == First(k, Sort(kept, le))
    decreases |late|
  {
    if late == [] {
      assert all == kept;
    } else {
      var n := |late| - 1;
      BehindInit(kept, late, k, le);
      DropLate(kept, late[..n], kept + late[..n], k, le);
      DropOne(kept + late[..n], late[n], k, le);
    }
  }

  lemma TailBehind<T(!new)>(others: seq<T>, p: seq<T>, k: nat, le: (T, T) -> bool)
    requires TotalOrder(le) && Sorted(p, le) && k <= |p|
    ensures Behind(others + p[..k], p[k..], k, le)
  {
    forall j | 0 <= j < |p[k..]|
      ensures CountLe(others + p[..k], p[k..][j], le) >= k
    {
      CountAll(p[..k], p[k + j], le);
      CountAppend(others, p[..k], p[k + j], le);
    }
  }

  lemma CutSorted<T(!new)>(others: seq<T>, p: seq<T>, k: nat, le: (T, T) -> bool)
    requires TotalOrder(le) && Sorted(p, le)
    ensures First(k, Sort(others + First(k, p), le)) == First(k, Sort(others + p, le))
  {
    if k < |p| {
      TailBehind(others, p, k, le);
      DropLate(others + p[..k], p[k..], others + p, k, le);
    } else {
      assert First(k, p) == p;
    }
  }

  /** One source may be cut to its first `k` elements before the merge. */
  lemma PushDownOne<T(!new)>(others: seq<T>, part: seq<T>, k: nat, le: (T, T) -> bool)
    requires TotalOrder(le)
    ensures First(k, Sort(others + First(k, Sort(part, le)), le)) == First(k, Sort(others + part, le))
  {
    SortSorted(part, le);
    CutSorted(others, Sort(part, le), k, le);
    SortOfPermutation(others + Sort(part, le), others + part, le);
  }

  // ---- the stores ------------------------------------------------------------------------------------

  lemma FirstMapped<T, U>(k: nat, s: seq<T>, f: T -> U)
    ensures Mapped(First(k, s), f) == First(k, Mapped(s, f))
  {
  }

  /** A store's limited query, tagged, is the first rows of its tagged rows in the merge order. */
  lemma LimitedRows(s: Store, k: nat)
    ensures Mapped(PendingRows(s.table, k), Tag(s.ref)) == First(k, Sort(Mapped(Pending(s.table), Tag(s.ref)), GlobalBefore))
  {
    SortMapped(Pending(s.table), Tag(s.ref), LocalBefore, GlobalBefore);
    FirstMapped(k, Sort(Pending(s.table), LocalBefore), Tag(s.ref));
  }

  lemma Associative<T>(a: seq<T>, b: seq<T>, c: seq<T>)
    ensures a + b + c == a + (b + c)
  {
  }

  lemma Rotate<T(!new)>(a: seq<T>, b: seq<T>, c: seq<T>, le: (T, T) -> bool)
    requires TotalOrder(le)
    ensures Sort(a + (b + c), le) == Sort(a + c + b, le) && Sort(a + b + c, le) == Sort(a + c + b, le)
  {
    SortOfPermutation(a + (b + c), a + c + b, le);
    SortOfPermutation(a + b + c, a + c + b, le);
  }

  lemma PushDownMiddle<T(!new)>(wholes: seq<T>, part: seq<T>, extra: seq<T>, k: nat, le: (T, T) -> bool)
    requires TotalOrder(le)
    ensures First(k, Sort(wholes + (First(k, Sort(part, le)) + extra), le)) == First(k, Sort(wholes + part + extra, le))
  {
    Rotate(wholes, First(k, Sort(part, le)), extra, le);
    PushDownOne(wholes + extra, part, k, le);
    Rotate(wholes, part, extra, le);
  }

  lemma PushDownStore(wholes: seq<GlobalKey>, part: seq<GlobalKey>, extra: seq<GlobalKey>, k: nat)
    ensures First(k, Sort(wholes + (First(k, Sort(part, GlobalBefore)) + extra), GlobalBefore)) ==
            First(k, Sort(wholes + part + extra, GlobalBefore))
  {
    GlobalTotal();
    PushDownMiddle(wholes, part, extra, k, GlobalBefore);
  }

  lemma {:induction false} PushDownAll(stores: seq<Store>, extra: seq<GlobalKey>, k: nat)
    ensures First(k, Sort(Collected(stores, k) + extra, GlobalBefore)) == First(k, Sort(AllPending(stores) + extra, GlobalBefore))
  {
    if stores != [] {
      var init, s := stores[..|stores| - 1], stores[|stores| - 1];
      var part, cut := Mapped(Pending(s.table), Tag(s.ref)), Mapped(PendingRows(s.table, k), Tag(s.ref));
      PushDownAll(init, cut + extra, k);
      LimitedRows(s, k);
      PushDownStore(AllPending(init), part, extra, k);
      Associative(Collected(init, k), cut, extra);
    }
  }

  /** Cutting each store to `k` rows before the merge loses nothing: the merged first `k` are the first `k` of
      all pending rows of all stores. */
  lemma LimitPushdown(stores: seq<Store>, k: nat)
    ensures First(k, Sort(Collected(stores, k), GlobalBefore)) == First(k, Sort(AllPending(stores), GlobalBefore))
  {
    PushDownAll(stores, [], k);
    assert Collected(stores, k) + [] == Collected(stores, k);
    assert AllPending(stores) + [] == AllPending(stores);
  }

  // ---- what the rows are -----------------------------------------------------------------------------

  /** A row of some store that is not done. */
  ghost predicate Waits(stores: seq<Store>, x: GlobalKey) {
    exists i :: 0 <= i < |stores| && WaitsIn(stores[i], x)
  }

  ghost predicate WaitsIn(s: Store, x: GlobalKey) {
    exists j :: 0 <= j < |s.table| && WaitsAt(s, s.table[j], x)
  }

  predicate WaitsAt(s: Store, item: Item, x: GlobalKey) {
    item.state != Done && x.updatedAt == item.updatedAt && x.storeRef == s.ref && x.intakeId == item.intakeId
  }

  /** Earlier, or of the same time and of an earlier store, or of the same store and with an earlier id. */
  ghost predicate Precedes(x: GlobalKey, y: GlobalKey) {
    || x.updatedAt < y.updatedAt
    || (x.updatedAt == y.updatedAt && x.storeRef != y.storeRef && StringLe(x.storeRef, y.storeRef))
    || (x.updatedAt == y.updatedAt && x.storeRef == y.storeRef && StringLe(x.intakeId, y.intakeId))
  }

  lemma {:induction false} PendingExactly(table: seq<Item>, k: LocalKey)
    ensures k in Pending(table) <==>
            exists j :: 0 <= j < |table| && table[j].state != Done && k == LocalKey(table[j].updatedAt, table[j].intakeId)
  {
    if table != [] {
      var n := |table| - 1;
      PendingExactly(table[..n], k);
      assert table == table[..n] + [table[n]];
    }
  }

  lemma TaggedExactly(s: Store, x: GlobalKey)
    ensures x in Mapped(Pending(s.table), Tag(s.ref)) <==> WaitsIn(s, x)
  {
    var k := LocalKey(x.updatedAt, x.intakeId);
    PendingExactly(s.table, k);
    var pending := Pending(s.table);
    if x in Mapped(pending, Tag(s.ref)) {
      var i :| 0 <= i < |pending| && Mapped(pending, Tag(s.ref))[i] == x;
      assert pending[i] == k;
    }
    if k in pending && x.storeRef == s.ref {
      var i :| 0 <= i < |pending| && pending[i] == k;
      assert Mapped(pending, Tag(s.ref))[i] == x;
    }
    if j :| 0 <= j < |s.table| && WaitsAt(s, s.table[j], x) {
      assert k == LocalKey(s.table[j].updatedAt, s.table[j].intakeId);
    }
  }

  lemma {:induction false} AllPendingExactly(stores: seq<Store>, x: GlobalKey)
    ensures x in AllPending(stores) <==> Waits(stores, x)
  {
    if stores != [] {
      var n := |stores| - 1;
      AllPendingExactly(stores[..n], x);
      TaggedExactly(stores[n], x);
      assert forall i :: 0 <= i < n ==> stores[..n][i] == stores[i];
    }
  }

  /** The answer: waiting rows only, earliest first, no more than the limit, and every waiting row that is not listed comes
      after all that are, of which there are then as many as the limit allows. */
  ghost predicate FirstWaiting(stores: seq<Store>, limit: nat, rows: seq<GlobalKey>) {
    && |rows| <= limit
    && (forall x :: x in rows ==> Waits(stores, x))
    && (forall i, j :: 0 <= i < j < |rows| ==> Precedes(rows[i], rows[j]))
    && (forall x :: Waits(stores, x) && x !in rows ==> |rows| == limit && forall y :: y in rows ==> Precedes(y, x))
  }

  lemma PrecedesIs(x: GlobalKey, y: GlobalKey)
    ensures GlobalBefore(x, y) <==> Precedes(x, y)
  {
  }

  lemma CutOff(sorted: seq<GlobalKey>, k: nat, x: GlobalKey, y: GlobalKey)
    requires Sorted(sorted, GlobalBefore) && x in sorted && x !in First(k, sorted) && y in First(k, sorted)
    ensures |First(k, sorted)| == k && GlobalBefore(y, x)
  {
    var i :| 0 <= i < |sorted| && sorted[i] == x;
    var j :| 0 <= j < |First(k, sorted)| && First(k, sorted)[j] == y;
    assert sorted[j] == y && j < i;
  }

  lemma CutShort(sorted: seq<GlobalKey>, k: nat, x: GlobalKey)
    requires x in sorted && x !in First(k, sorted)
    ensures |First(k, sorted)| == k
  {
  }

  lemma FirstRowsExactly(stores: seq<Store>, limit: nat)
    ensures FirstWaiting(stores, limit, First(limit, Sort(AllPending(stores), GlobalBefore)))
  {
    var all := AllPending(stores);
    var sorted := Sort(all, GlobalBefore);
    var rows := First(limit, sorted);
    GlobalTotal();
    SortSorted(all, GlobalBefore);
    forall x: GlobalKey
      ensures x in sorted <==> Waits(stores, x)
    {
      AllPendingExactly(stores, x);
      assert x in all <==> x in multiset(all);
      assert x in sorted <==> x in multiset(sorted);
    }
    assert forall i :: 0 <= i < |rows| ==> rows[i] == sorted[i] && sorted[i] in sorted;
    forall i, j | 0 <= i < j < |rows|
      ensures Precedes(rows[i], rows[j])
    {
      PrecedesIs(sorted[i], sorted[j]);
    }
    forall x | Waits(stores, x) && x !in rows
      ensures |rows| == limit && forall y :: y in rows ==> Precedes(y, x)
    {
      CutShort(sorted, limit, x);
      forall y | y in rows
        ensures Precedes(y, x)
      {
        CutOff(sorted, limit, x, y);
        PrecedesIs(y, x);
      }
    }
  }

  method SharedPendingLifecycleWork(stores: seq<Store>, limit: int) returns (rows: Result<seq<GlobalKey>, LimitError>)
    ensures rows == if 0 < limit <= MAX_LIMIT then Success(First(limit, Sort(AllPending(stores), GlobalBefore)))
                    else Failure(LimitInvalid)
    ensures rows.Success? <==> 1 <= limit <= 1000
    ensures rows.Success? ==> FirstWaiting(stores, limit, rows.value)
  {
    if limit <= 0 || limit > MAX_LIMIT {
      return Failure(LimitInvalid);
    }
    var collected: seq<GlobalKey> := [];
    assert stores[..0] == [];
    for i := 0 to |stores|
      invariant collected == Collected(stores[..i], limit)
    {
      var pending := PendingRows(stores[i].table, limit);
      collected := collected + Mapped(pending, Tag(stores[i].ref));
      assert stores[..i + 1][..i] == stores[..i];
    }
    assert stores[..|stores|] == stores;
    LimitPushdown(stores, limit);
    FirstRowsExactly(stores, limit);
    rows := Success(First(limit, Sort(collected, GlobalBefore)));
  }
}
