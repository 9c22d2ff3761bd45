/** Which facts the drain can be trusted with: the exact condition on their names. */
module ProjectionNames {
  import opened Common
  import opened CanonicalRef
  import opened ProjectionOutbox
  import opened ProjectionInvariant
  import opened ProjectionTheorems

  /** A run in which only facts of `keys` are ever mutated, all through this dataset. */
  ghost predicate RunOver(keys: iset<Key>, trail: seq<World>, actions: seq<Action>) {
    && Run(trail, actions) && trail[0] == START
    && forall a :: a in actions ==> !a.MutateElsewhere? && (a.Mutate? ==> a.key in keys)
  }

  /** The name is read as a different fact. */
  predicate Misread(k: Key) {
    Target(Render(k)).Some? && Target(Render(k)).value != k
  }

  lemma MisreadHasColon(k: Key)
    ensures Misread(k) <==> !ColonFree(k) && Target(Render(k)).Some?
  {
    ParseIsCut(k);
    CutOfRender(k);
  }

  /** A safe name is read as another fact exactly when the namespace has a colon, the two parts around the first one
      are not refused and the second is not too long for a token. */
  lemma MisreadExactly(k: Key)
    requires SafeKey(k)
    ensures ':' in Render(k)
    ensures Misread(k) <==> !ColonFree(k) && Parse(Render(k)).Some? && |Cut(Render(k)).factId| <= MAX_TOKEN_CHARS
  {
    MisreadHasColon(k);
    TargetExactly(k);
  }

  /** A colon is not enough: behind the first colon of this name more is left than a token may have, so every read of
      it raises. */
  lemma LongRemainderRefused(k: Key)
    requires SafeKey(k) && ':' in Render(k) && |Cut(Render(k)).factId| > MAX_TOKEN_CHARS
    ensures Target(Render(k)).None? && !Misread(k) && !ColonFree(k)
  {
    TargetExactly(k);
    CutOfRender(k);
  }

  lemma LongRemainderExists() returns (k: Key)
    ensures SafeKey(k) && ':' in Render(k) && |Cut(Render(k)).factId| > MAX_TOKEN_CHARS
  {
    var b := seq(126, i => 'b');
    k := Key("a:" + b, "cc");
    assert Render(k) == "a:" + (b + ":" + "cc");
    CutColonFree(Key("a", b + ":" + "cc"));
    CutOfRender(k);
  }

  /** In every quiet state of every run over these facts the index is right about each of them. */
  ghost predicate AlwaysAgree(keys: iset<Key>) {
    forall trail: seq<World>, actions: seq<Action> | RunOver(keys, trail, actions) ::
      forall i, k | 0 <= i < |trail| && Quiet(trail[i]) && k in keys :: Settled(trail[i], k)
  }

  // ---- names that are refused --------------------------------------------------------------------------

  ghost predicate HasPut(w: World, r: string) {
    exists x: WorkKey :: x.ref == r && ((x in w.rows && w.rows[x].operation == Put) || (x in w.unqueued && w.unqueued[x] == Put))
  }

  ghost predicate PutsOk(w: World) {
    && (forall k :: k in w.facts ==> HasPut(w, Render(k)))
    && w.rows.Keys !! w.unqueued.Keys
    && (forall x :: x in w.rows || x in w.unqueued ==> x.revision <= w.revision)
  }

  lemma PutsMutate(w: World, key: Key, value: Option<string>, v: World)
    requires PutsOk(w) && Next(w, Mutate(key, value), v)
    ensures PutsOk(v)
  {
    var work := WorkKey(Render(key), w.revision + 1);
    assert work !in w.rows && work !in w.unqueued;
    forall k | k in v.facts
      ensures HasPut(v, Render(k))
    {
      if k == key {
        assert v.unqueued[work] == Put;
      } else {
        PutStays(w, Mutate(key, value), v, Render(k));
      }
    }
  }

  lemma PutStays(w: World, a: Action, v: World, r: string)
    requires PutsOk(w) && Next(w, a, v) && HasPut(w, r)
    ensures HasPut(v, r)
  {
    var x: WorkKey :| x.ref == r && ((x in w.rows && w.rows[x].operation == Put) || (x in w.unqueued && w.unqueued[x] == Put));
    if a.Mutate? {
      assert x.revision <= w.revision;
    } else {
      WorkKept(w, a, v);
    }
    assert (x in v.rows && v.rows[x].operation == Put) || (x in v.unqueued && v.unqueued[x] == Put);
  }

  lemma TablesStep(w: World, a: Action, v: World)
    requires PutsOk(w) && Next(w, a, v)
    ensures v.rows.Keys !! v.unqueued.Keys && forall x :: x in v.rows || x in v.unqueued ==> x.revision <= v.revision
  {
    StepFrame(w, a, v);
  }

  lemma FactsFrame(w: World, a: Action, v: World)
    requires Next(w, a, v) && !a.Mutate? && !a.MutateElsewhere?
    ensures v.facts == w.facts && v.foreign == w.foreign
  {
    StepFrame(w, a, v);
  }

  lemma PutsStep(w: World, a: Action, v: World)
    requires PutsOk(w) && Next(w, a, v) && !a.MutateElsewhere?
    ensures PutsOk(v)
  {
    if a.Mutate? {
      PutsMutate(w, a.key, a.value, v);
    } else {
      TablesStep(w, a, v);
      FactsFrame(w, a, v);
      forall k | k in v.facts
        ensures HasPut(v, Render(k))
      {
        PutStays(w, a, v, Render(k));
      }
    }
  }

  lemma {:induction false} PutsKept(keys: iset<Key>, trail: seq<World>, actions: seq<Action>, i: nat)
    requires RunOver(keys, trail, actions) && i < |trail|
    ensures PutsOk(trail[i])
  {
    if i > 0 {
      PutsKept(keys, trail, actions, i - 1);
      PutsStep(trail[i - 1], actions[i - 1], trail[i]);
    }
  }

  /** While a fact with a refused name exists, its put row waits: the outbox is never quiet. */
  lemma RefusedNeverQuiet(keys: iset<Key>, trail: seq<World>, actions: seq<Action>, i: nat, k: Key)
    requires RunOver(keys, trail, actions) && i < |trail|
    requires k in trail[i].facts && Target(Render(k)).None?
    ensures !Quiet(trail[i])
  {
    var w := trail[i];
    PutsKept(keys, trail, actions, i);
    var x: WorkKey :| x.ref == Render(k)
      && ((x in w.rows && w.rows[x].operation == Put) || (x in w.unqueued && w.unqueued[x] == Put));
    if x in w.rows {
      UnreadableNeverDone(trail, actions, i, x);
    }
    assert Pending(w, x);
  }

  // ---- names that are taken ----------------------------------------------------------------------------

  ghost predicate TakenBy(keys: iset<Key>, f: Key) {
    exists k :: k in keys && !ColonFree(k) && Render(k) == Render(f)
  }

  lemma {:induction false} ForeignKept(keys: iset<Key>, trail: seq<World>, actions: seq<Action>, i: nat, f: Key)
    requires RunOver(keys, trail, actions) && i < |trail| && f in trail[i].foreign
    ensures TakenBy(keys, f)
  {
    if i > 0 {
      var w, a, v := trail[i - 1], actions[i - 1], trail[i];
      assert Next(w, a, v) && a in actions;
      if f in w.foreign {
        ForeignKept(keys, trail, actions, i - 1, f);
      } else if a.Mutate? {
        CutOfRender(a.key);
      } else {
        FactsFrame(w, a, v);
      }
    }
  }

  lemma NotTaken(keys: iset<Key>, f: Key)
    requires Target(Render(f)).Some? && forall k :: k in keys ==> !Misread(k)
    ensures !TakenBy(keys, f)
  {
    forall k | k in keys && Render(k) == Render(f)
      ensures ColonFree(k)
    {
      MisreadHasColon(k);
    }
  }

  lemma OverIsSafe(keys: iset<Key>, trail: seq<World>, actions: seq<Action>)
    requires RunOver(keys, trail, actions) && forall k :: k in keys ==> SafeKey(k)
    ensures SafeRun(trail, actions)
  {
  }

  lemma AgreesWith(keys: iset<Key>, trail: seq<World>, actions: seq<Action>, i: nat, k: Key)
    requires forall k :: k in keys ==> SafeKey(k) && !Misread(k)
    requires RunOver(keys, trail, actions) && i < |trail| && Quiet(trail[i]) && k in keys
    ensures Settled(trail[i], k)
  {
    OverIsSafe(keys, trail, actions);
    if Target(Render(k)).None? {
      NamesKept(trail, actions, i);
      if k in trail[i].facts {
        RefusedNeverQuiet(keys, trail, actions, i, k);
      }
    } else {
      MisreadHasColon(k);
      NotTaken(keys, k);
      if k in trail[i].foreign {
        ForeignKept(keys, trail, actions, i, k);
      }
      QuietMeansSettled(trail, actions, i, k);
    }
  }

  // ---- building runs -----------------------------------------------------------------------------------

  /** Some run over these facts ends in `w`. */
  ghost predicate Reach(keys: iset<Key>, w: World) {
    exists trail: seq<World>, actions: seq<Action> :: RunOver(keys, trail, actions) && trail[|trail| - 1] == w
  }

  lemma ReachStart(keys: iset<Key>)
    ensures Reach(keys, START)
  {
    assert RunOver(keys, [START], []);
  }

  lemma ReachStep(keys: iset<Key>, w: World, a: Action, v: World)
    requires Reach(keys, w) && Next(w, a, v) && !a.MutateElsewhere? && (a.Mutate? ==> a.key in keys)
    ensures Reach(keys, v)
  {
    var trail: seq<World>, actions: seq<Action> :| RunOver(keys, trail, actions) && trail[|trail| - 1] == w;
    var ws, bs := trail + [v], actions + [a];
    forall i | 0 <= i < |bs|
      ensures Next(ws[i], bs[i], ws[i + 1])
    {
      if i < |actions| {
        assert ws[i] == trail[i] && bs[i] == actions[i] && ws[i + 1] == trail[i + 1];
      }
    }
    assert RunOver(keys, ws, bs);
  }

  /** The world after the head of the claimed rows was drained without failure. */
  ghost function HeadDone(w: World, index: map<string, Event>): World
    requires w.drainer.Busy? && w.drainer.claimed != [] && Head(w) in w.rows
  {
    w.(index := index, ledger := if w.ledger < Head(w).revision then Head(w).revision else w.ledger,
       rows := w.rows[Head(w) := w.rows[Head(w)].(state := Done)],
       drainer := if |w.drainer.claimed| == 1 then Idle else Busy(w.drainer.claimed[1..], Picked))
  }

  lemma MarkAndFinish(keys: iset<Key>, w: World, u: World)
    requires w.drainer.Busy? && w.drainer.claimed != [] && Head(w) in w.rows
    requires Reach(keys, u) && u == w.(index := u.index, drainer := u.drainer)
    requires u.drainer == Busy(w.drainer.claimed, Handled) || u.drainer == Busy(w.drainer.claimed, Rebuilding([]))
    ensures Reach(keys, HeadDone(w, u.index))
  {
    var m := WithPhase(u, Marked).(ledger := HeadDone(w, u.index).ledger);
    ReachStep(keys, u, Mark, m);
    ReachStep(keys, m, Finish, HeadDone(w, u.index));
  }

  lemma PutDone(keys: iset<Key>, w: World, e: Option<Event>)
    requires Reach(keys, w) && OnRow(w, Picked, Put) && ReadEvent(w.facts, Head(w).ref) == Success(e)
    ensures Reach(keys, HeadDone(w, Put1(w.index, e)))
  {
    var l := WithPhase(w, Loaded(e));
    ReachStep(keys, w, Load, l);
    var p := WithPhase(l, Handled).(index := Put1(l.index, e));
    ReachStep(keys, l, Project, p);
    MarkAndFinish(keys, w, p);
  }

  lemma DeleteDone(keys: iset<Key>, w: World)
    requires Reach(keys, w) && OnRow(w, Picked, Delete) && ListsActive(w.rows, [])
    ensures Reach(keys, HeadDone(w, map[]))
  {
    var f := WithPhase(w, Wiped).(index := map[]);
    ReachStep(keys, w, Forget, f);
    var l := WithPhase(f, Rebuilding([]));
    ReachStep(keys, f, ListRefs, l);
    MarkAndFinish(keys, w, l);
  }

  /** One put of a fact whose name can be read, drained without any failure, ends quiet, with whatever was read
      in the index. */
  lemma PutRun(k: Key, text: string) returns (end: World)
    requires ReadEvent(map[k := Fact(1, text)], Render(k)).Success?
    ensures Reach(iset{k}, end) && Quiet(end) && end.facts == map[k := Fact(1, text)]
    ensures end.index == Put1(map[], ReadEvent(end.facts, Render(k)).value)
  {
    var x := WorkKey(Render(k), 1);
    var w1 := START.(facts := map[k := Fact(1, text)], revision := 1, unqueued := map[x := Put], last := map[Render(k) := 1],
                     foreign := Overwritten(k));
    assert {} - {k} + Overwritten(k) == Overwritten(k);
    var w2 := w1.(unqueued := map[], rows := map[x := Row(Put, Queued)]);
    assert w1.unqueued - {x} == map[];
    var w3 := w2.(rows := map[x := Row(Put, Processing)], drainer := Busy([x], Picked));
    assert Processed(w2.rows, [x]) == w3.rows;
    ReachStart(iset{k});
    ReachStep(iset{k}, START, Mutate(k, Some(text)), w1);
    ReachStep(iset{k}, w1, Enqueue(x), w2);
    ReachStep(iset{k}, w2, Claim([x]), w3);
    var e := ReadEvent(w3.facts, x.ref).value;
    PutDone(iset{k}, w3, e);
    end := HeadDone(w3, Put1(w3.index, e));
  }

  /** One put of a misread fact, drained without any failure, ends quiet and without the fact. */
  lemma MisreadDisagrees(k: Key, text: string) returns (end: World)
    requires Misread(k)
    ensures Reach(iset{k}, end) && Quiet(end) && k in end.facts && end.index == map[]
  {
    end := PutRun(k, text);
  }

  lemma ReachMore(keys: iset<Key>, more: iset<Key>, w: World)
    requires Reach(keys, w) && keys <= more
    ensures Reach(more, w)
  {
    var trail: seq<World>, actions: seq<Action> :| RunOver(keys, trail, actions) && trail[|trail| - 1] == w;
    assert RunOver(more, trail, actions);
  }

  // ---- two facts with one name -------------------------------------------------------------------------

  /** Both written, the misread one deleted again, all rows claimed. */
  ghost function ThreeClaimed(a: Key, r: string, text: string): World {
    var x1, x2, x3 := WorkKey(r, 1), WorkKey(r, 2), WorkKey(r, 3);
    World(map[a := Fact(1, text)], 3, map[],
          map[x1 := Row(Put, Processing), x2 := Row(Put, Processing), x3 := Row(Delete, Processing)],
          map[], 0, Busy([x1, x2, x3], Picked), {a}, map[r := 3])
  }

  lemma ThreeMutations(a: Key, b: Key, text: string) returns (w: World)
    requires ColonFree(a) && !ColonFree(b) && Render(a) == Render(b)
    ensures Reach(iset{a, b}, w)
    ensures var r := Render(a);
      w == START.(facts := map[a := Fact(1, text)], revision := 3, foreign := {a}, last := map[r := 3],
                  unqueued := map[WorkKey(r, 1) := Put, WorkKey(r, 2) := Put, WorkKey(r, 3) := Delete])
  {
    var r, keys := Render(a), iset{a, b};
    CutOfRender(a);
    CutOfRender(b);
    var w1 := START.(facts := map[a := Fact(1, text)], revision := 1, unqueued := map[WorkKey(r, 1) := Put], last := map[r := 1]);
    assert {} - {a} + Overwritten(a) == {};
    var w2 := w1.(facts := map[a := Fact(1, text), b := Fact(2, text)], revision := 2,
                  unqueued := map[WorkKey(r, 1) := Put, WorkKey(r, 2) := Put], last := map[r := 2], foreign := {a});
    assert {} - {b} + Overwritten(b) == {a};
    w := w2.(facts := map[a := Fact(1, text)], revision := 3, last := map[r := 3],
             unqueued := map[WorkKey(r, 1) := Put, WorkKey(r, 2) := Put, WorkKey(r, 3) := Delete]);
    assert {a} - {b} + Overwritten(b) == {a};
    assert w2.facts - {b} == map[a := Fact(1, text)];
    ReachStart(keys);
    ReachStep(keys, START, Mutate(a, Some(text)), w1);
    ReachStep(keys, w1, Mutate(b, Some(text)), w2);
    ReachStep(keys, w2, Mutate(b, None), w);
  }

  ghost function Enqueued(w: World, x: WorkKey): World
    requires x in w.unqueued
  {
    w.(unqueued := w.unqueued - {x}, rows := w.rows[x := Row(w.unqueued[x], Queued)])
  }

  lemma EnqueueReach(keys: iset<Key>, w: World, x: WorkKey)
    requires Reach(keys, w) && x in w.unqueued && x !in w.rows
    ensures Reach(keys, Enqueued(w, x))
  {
    ReachStep(keys, w, Enqueue(x), Enqueued(w, x));
  }

  lemma ThreeRows(a: Key, b: Key, text: string) returns (w: World)
    requires ColonFree(a) && !ColonFree(b) && Render(a) == Render(b)
    ensures Reach(iset{a, b}, w)
    ensures var r := Render(a);
      w == START.(facts := map[a := Fact(1, text)], revision := 3, foreign := {a}, last := map[r := 3],
                  rows := map[WorkKey(r, 1) := Row(Put, Queued), WorkKey(r, 2) := Row(Put, Queued), WorkKey(r, 3) := Row(Delete, Queued)])
  {
    var r, keys := Render(a), iset{a, b};
    var w0 := ThreeMutations(a, b, text);
    EnqueueReach(keys, w0, WorkKey(r, 1));
    var w1 := Enqueued(w0, WorkKey(r, 1));
    EnqueueReach(keys, w1, WorkKey(r, 2));
    var w2 := Enqueued(w1, WorkKey(r, 2));
    EnqueueReach(keys, w2, WorkKey(r, 3));
    w := Enqueued(w2, WorkKey(r, 3));
    assert w.unqueued == map[];
  }

  lemma ThreeClaims(a: Key, b: Key, text: string)
    requires ColonFree(a) && !ColonFree(b) && Render(a) == Render(b)
    ensures Reach(iset{a, b}, ThreeClaimed(a, Render(a), text))
  {
    var r := Render(a);
    var works := [WorkKey(r, 1), WorkKey(r, 2), WorkKey(r, 3)];
    var w := ThreeRows(a, b, text);
    var v := ThreeClaimed(a, r, text);
    assert Processed(w.rows, works) == v.rows;
    ReachStep(iset{a, b}, w, Claim(works), v);
  }

  lemma ThreeDrained(keys: iset<Key>, a: Key, r: string, text: string, e: Option<Event>) returns (end: World)
    requires Reach(keys, ThreeClaimed(a, r, text)) && ReadEvent(map[a := Fact(1, text)], r) == Success(e)
    ensures Reach(keys, end) && Quiet(end) && end.facts == map[a := Fact(1, text)] && end.index == map[]
  {
    var w := ThreeClaimed(a, r, text);
    PutDone(keys, w, e);
    var w1 := HeadDone(w, Put1(w.index, e));
    assert w1.drainer.claimed == [WorkKey(r, 2), WorkKey(r, 3)];
    PutDone(keys, w1, e);
    var w2 := HeadDone(w1, Put1(w1.index, e));
    assert w2.drainer.claimed == [WorkKey(r, 3)];
    NothingActive(w2.rows, r);
    DeleteDone(keys, w2);
    end := HeadDone(w2, map[]);
  }

  /** A misread fact takes with it the one whose name it has: both written, the misread one deleted and all rows
      drained without failure, the other one exists and is gone from the index. */
  lemma SharedNameLost(a: Key, b: Key) returns (end: World)
    requires SafeKey(a) && SafeKey(b) && Target(Render(a)) == Some(a) && |Render(a)| <= MAX_REF_CHARS
    requires a != b && Render(a) == Render(b)
    ensures Misread(b) && !Misread(a)
    ensures Reach(iset{a, b}, end) && Quiet(end) && a in end.facts && !Settled(end, a)
  {
    ParseIsCut(a);
    CutOfRender(a);
    CutOfRender(b);
    ThreeClaims(a, b, "x");
    var facts := map[a := Fact(1, "x")];
    assert a in facts;
    end := ThreeDrained(iset{a, b}, a, Render(a), "x", Some(EventOf(Render(a), facts[a])));
  }

  lemma NothingActive(rows: map<WorkKey, Row>, r: string)
    requires forall x :: x in rows ==> x.ref == r && x.revision <= 3
    requires WorkKey(r, 3) in rows && rows[WorkKey(r, 3)].operation == Delete
    ensures ListsActive(rows, [])
  {
    forall k | k in rows && rows[k].operation != Delete
      ensures exists o :: o in rows && o.ref == k.ref && o.revision > k.revision
    {
      assert k != WorkKey(r, 3) && k.ref == r;
      assert WorkKey(r, 3).revision > k.revision;
    }
  }

  // ---- the exact conditions ----------------------------------------------------------------------------

  /** For any set of safe names: the index is right about all of them in all quiet states of all runs over them,
      however they share names, exactly when none of them is read as another fact. */
  lemma AgreesExactly(keys: iset<Key>)
    requires forall k :: k in keys ==> SafeKey(k)
    ensures AlwaysAgree(keys) <==> forall k :: k in keys ==> !Misread(k)
  {
    if forall k :: k in keys ==> !Misread(k) {
      forall trail: seq<World>, actions: seq<Action> | RunOver(keys, trail, actions)
        ensures forall i, k | 0 <= i < |trail| && Quiet(trail[i]) && k in keys :: Settled(trail[i], k)
      {
        forall i, k | 0 <= i < |trail| && Quiet(trail[i]) && k in keys
          ensures Settled(trail[i], k)
        {
          AgreesWith(keys, trail, actions, i, k);
        }
      }
    } else {
      var k :| k in keys && Misread(k);
      var end := MisreadDisagrees(k, "x");
      ReachMore(iset{k}, keys, end);
      var trail: seq<World>, actions: seq<Action> :| RunOver(keys, trail, actions) && trail[|trail| - 1] == end;
      assert !Settled(trail[|trail| - 1], k);
    }
  }

  /** Some run over the fact ends quiet with the fact in the store and in the index. */
  ghost predicate CanBeIndexed(k: Key) {
    exists w :: Reach(iset{k}, w) && Quiet(w) && k in w.facts && Settled(w, k)
  }

  predicate ReadsAs(r: string, k: Key) {
    Target(r) == Some(k) && |r| <= MAX_REF_CHARS
  }

  ghost predicate OnlyReads(w: World, k: Key) {
    && w.facts.Keys <= {k}
    && (forall r :: r in w.index ==> ReadsAs(r, k))
    && (w.drainer.Busy? ==>
          match w.drainer.phase
          case Rebuilt(_, event) => event.Some? ==> ReadsAs(event.value.ref, k)
          case Loaded(event) => event.Some? ==> ReadsAs(event.value.ref, k)
          case _ => true)
  }

  lemma OnlyRead(facts: map<Key, Fact>, ref: string, k: Key)
    requires facts.Keys <= {k}
    ensures var r := ReadEvent(facts, ref); r.Success? && r.value.Some? ==> ReadsAs(r.value.value.ref, k)
  {
  }

  lemma OnlyReadsStep(w: World, a: Action, v: World, k: Key)
    requires OnlyReads(w, k) && Next(w, a, v) && !a.MutateElsewhere? && (a.Mutate? ==> a.key == k)
    ensures OnlyReads(v, k)
  {
    StepFrame(w, a, v);
    if a.Load? {
      OnlyRead(w.facts, Head(w).ref, k);
      if w.drainer.phase.Rebuilding? {
        OnlyRead(w.facts, w.drainer.phase.refs[0], k);
      }
    } else if !a.Mutate? {
      FactsFrame(w, a, v);
    }
  }

  lemma {:induction false} OnlyReadsKept(k: Key, trail: seq<World>, actions: seq<Action>, i: nat)
    requires RunOver(iset{k}, trail, actions) && i < |trail|
    ensures OnlyReads(trail[i], k)
  {
    if i > 0 {
      OnlyReadsKept(k, trail, actions, i - 1);
      assert actions[i - 1] in actions;
      OnlyReadsStep(trail[i - 1], actions[i - 1], trail[i], k);
    }
  }

  /** A fact can reach the index exactly when its name reads back as itself and fits into an event. */
  lemma ReachesExactly(k: Key)
    ensures CanBeIndexed(k) <==> Target(Render(k)) == Some(k) && |Render(k)| <= MAX_REF_CHARS
  {
    if Target(Render(k)) == Some(k) && |Render(k)| <= MAX_REF_CHARS {
      var end := PutRun(k, "x");
      assert Settled(end, k);
    } else {
      forall w | Reach(iset{k}, w)
        ensures !(k in w.facts && Settled(w, k))
      {
        var trail: seq<World>, actions: seq<Action> :| RunOver(iset{k}, trail, actions) && trail[|trail| - 1] == w;
        OnlyReadsKept(k, trail, actions, |trail| - 1);
      }
    }
  }
}
