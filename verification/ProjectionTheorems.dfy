/** What the drain promises over whole runs, and where the promise stops. */
module ProjectionTheorems {
  import opened Common
  import opened CanonicalRef
  import opened ProjectionOutbox
  import opened ProjectionInvariant

  /** A run from the empty store, over any facts with safe names. */
  ghost predicate SafeRun(trail: seq<World>, actions: seq<Action>) {
    Run(trail, actions) && trail[0] == START && forall a :: a in actions ==> Safe(a)
  }

  predicate ByWriter(a: Action) {
    a.Mutate? || a.MutateElsewhere? || a.Enqueue?
  }

  predicate InsideOneRow(a: Action) {
    a.Forget? || a.ListRefs? || a.Load? || a.Project? || a.Mark?
  }

  lemma WriterFrame(w: World, a: Action, v: World)
    requires Next(w, a, v) && ByWriter(a)
    ensures v.drainer == w.drainer && v.index == w.index
  {
  }

  lemma RowFrame(w: World, a: Action, v: World)
    requires Next(w, a, v) && InsideOneRow(a)
    ensures v == w.(index := v.index, ledger := v.ledger, drainer := v.drainer)
    ensures w.drainer.Busy? && v.drainer.Busy? && v.drainer.claimed == w.drainer.claimed != []
  {
    if a.Load? {
      LoadFrame(w, v);
    } else if a.Project? {
      ProjectFrame(w, v);
    } else {
      OtherRowFrame(w, a, v);
    }
  }

  lemma LoadFrame(w: World, v: World)
    requires Next(w, Load, v)
    ensures v == w.(drainer := v.drainer)
    ensures w.drainer.Busy? && v.drainer.Busy? && v.drainer.claimed == w.drainer.claimed != []
  {
  }

  lemma OtherRowFrame(w: World, a: Action, v: World)
    requires Next(w, a, v) && (a.Forget? || a.ListRefs? || a.Mark?)
    ensures v == w.(index := v.index, ledger := v.ledger, drainer := v.drainer)
    ensures w.drainer.Busy? && v.drainer.Busy? && v.drainer.claimed == w.drainer.claimed != []
  {
  }

  lemma ClaimFrame(w: World, a: Action, v: World)
    requires Next(w, a, v) && !ByWriter(a) && !InsideOneRow(a)
    ensures v == w.(rows := v.rows, drainer := v.drainer) && v.rows.Keys == w.rows.Keys
    ensures v.drainer.Busy? ==> v.drainer.phase == Picked
  {
  }

  /** Writers leave the drainer alone; the steps inside a row leave the tables alone; claiming, finishing
      and failing leave the index alone and the drainer at the start of a row. */
  lemma StepFrame(w: World, a: Action, v: World)
    requires Next(w, a, v)
    ensures ByWriter(a) ==> v.drainer == w.drainer && v.index == w.index
    ensures InsideOneRow(a) ==> v == w.(index := v.index, ledger := v.ledger, drainer := v.drainer)
                                && w.drainer.Busy? && v.drainer.Busy? && v.drainer.claimed == w.drainer.claimed != []
    ensures !ByWriter(a) && !InsideOneRow(a) ==>
              v == w.(rows := v.rows, drainer := v.drainer) && v.rows.Keys == w.rows.Keys
              && (v.drainer.Busy? ==> v.drainer.phase == Picked)
  {
    if ByWriter(a) {
      WriterFrame(w, a, v);
    } else if InsideOneRow(a) {
      RowFrame(w, a, v);
    } else {
      ClaimFrame(w, a, v);
    }
  }

  lemma WorkKept(w: World, a: Action, v: World)
    requires Next(w, a, v) && !a.Mutate? && w.rows.Keys !! w.unqueued.Keys
    ensures forall x :: x in w.rows ==> x in v.rows && v.rows[x].operation == w.rows[x].operation
    ensures forall x :: x in w.unqueued ==>
              (x in v.unqueued && v.unqueued[x] == w.unqueued[x]) || (x in v.rows && v.rows[x].operation == w.unqueued[x])
  {
    if a.Enqueue? {
      EnqueueFrame(w, a.work, v);
    } else if InsideOneRow(a) {
      RowFrame(w, a, v);
    } else if !ByWriter(a) {
      ClaimWork(w, a, v);
    }
  }

  lemma EnqueueFrame(w: World, work: WorkKey, v: World)
    requires Next(w, Enqueue(work), v) && w.rows.Keys !! w.unqueued.Keys
    ensures work in w.unqueued && v.rows == w.rows[work := Row(w.unqueued[work], Queued)]
    ensures v.unqueued == w.unqueued - {work}
  {
  }

  lemma ClaimWork(w: World, a: Action, v: World)
    requires Next(w, a, v) && (a.Claim? || a.Finish? || a.Fail?)
    ensures v.unqueued == w.unqueued && forall x :: x in w.rows ==> x in v.rows && v.rows[x].operation == w.rows[x].operation
  {
  }

  // ---- what gets into the index ----------------------------------------------------------------------

  /** The name of a colon-free fact that the drain can read and project. */
  predicate Indexable(r: string) {
    |r| <= MAX_REF_CHARS && Target(r).Some? && CleanKey(Target(r).value) && Render(Target(r).value) == r
  }

  ghost predicate EventNameOk(e: Option<Event>) {
    e.Some? ==> Indexable(e.value.ref)
  }

  /** Every name in the index, and every name the drainer is about to put there, is indexable. */
  ghost predicate NamesOk(w: World) {
    && (forall r :: r in w.index ==> Indexable(r))
    && (forall k :: k in w.facts ==> SafeKey(k))
    && (w.drainer.Busy? ==>
          match w.drainer.phase
          case Rebuilt(_, event) => EventNameOk(event)
          case Loaded(event) => EventNameOk(event)
          case _ => true)
  }

  lemma CutReadsBack(s: string)
    requires Target(s).Some?
    ensures ColonFree(Target(s).value) && Render(Target(s).value) == s
  {
    var i := IndexOf(s, ':');
    assert s == s[..i] + ":" + s[i + 1..];
  }

  lemma ReadIsIndexable(facts: map<Key, Fact>, ref: string)
    requires forall k :: k in facts ==> SafeKey(k)
    ensures var r := ReadEvent(facts, ref); r.Success? ==> EventNameOk(r.value)
  {
    if Target(ref).Some? {
      CutReadsBack(ref);
    }
  }

  lemma NamesStep(w: World, a: Action, v: World)
    requires NamesOk(w) && Next(w, a, v) && Safe(a)
    ensures NamesOk(v)
  {
    StepFrame(w, a, v);
    if a.Load? {
      ReadIsIndexable(w.facts, Head(w).ref);
      if w.drainer.phase.Rebuilding? {
        ReadIsIndexable(w.facts, w.drainer.phase.refs[0]);
      }
    }
  }

  lemma {:induction false} NamesKept(trail: seq<World>, actions: seq<Action>, i: nat)
    requires Run(trail, actions) && NamesOk(trail[0]) && i < |trail| && forall a :: a in actions ==> Safe(a)
    ensures NamesOk(trail[i])
  {
    if i > 0 {
      NamesKept(trail, actions, i - 1);
      NamesStep(trail[i - 1], actions[i - 1], trail[i]);
    }
  }

  // ---- quiet states ------------------------------------------------------------------------------------

  /** However mutations of any facts, drains, failures and crashes interleave: whenever nothing is pending, the
      index says about every colon-free fact that was last written through this dataset, and under whose name no
      other fact was written since, what the canonical store says. */
  lemma QuietMeansSettled(trail: seq<World>, actions: seq<Action>, i: nat, k: Key)
    requires SafeRun(trail, actions) && i < |trail|
    requires Quiet(trail[i]) && Tracked(trail[i], k)
    ensures Settled(trail[i], k)
  {
    StartInv();
    RunKeeps(trail, actions, i);
    var w := trail[i];
    assert !LatestPending(w, k);
    if DeletePending(w) {
      var d :| d in w.rows && w.rows[d].state != Done;
      assert Pending(w, d);
    }
  }

  /** If all facts were last written so, the whole index is exactly the colon-free facts. */
  lemma QuietMeansExact(trail: seq<World>, actions: seq<Action>, i: nat)
    requires SafeRun(trail, actions) && i < |trail|
    requires Quiet(trail[i]) && trail[i].foreign == {}
    ensures forall k :: k in trail[i].facts && ColonFree(k) ==>
              Render(k) in trail[i].index && Mirrors(trail[i].index[Render(k)], Render(k), trail[i].facts[k])
    ensures forall r :: r in trail[i].index ==> exists k :: k in trail[i].facts && ColonFree(k) && Render(k) == r
  {
    var w := trail[i];
    StartInv();
    RunKeeps(trail, actions, i);
    NamesKept(trail, actions, i);
    forall k | k in w.facts && ColonFree(k)
      ensures Render(k) in w.index && Mirrors(w.index[Render(k)], Render(k), w.facts[k])
    {
      QuietMeansSettled(trail, actions, i, k);
    }
    forall r | r in w.index
      ensures exists k :: k in w.facts && ColonFree(k) && Render(k) == r
    {
      QuietMeansSettled(trail, actions, i, Target(r).value);
    }
  }

  // ---- the ledger --------------------------------------------------------------------------------------

  ghost predicate LedgerOk(w: World) {
    && (forall x :: x in w.rows && w.rows[x].state == Done ==> x.revision <= w.ledger)
    && (w.drainer.Busy? && w.drainer.claimed != [] && w.drainer.phase == Marked ==> Head(w).revision <= w.ledger)
  }

  lemma LedgerStep(w: World, a: Action, v: World)
    requires LedgerOk(w) && Next(w, a, v)
    ensures LedgerOk(v)
  {
    StepFrame(w, a, v);
  }

  lemma {:induction false} LedgerKept(trail: seq<World>, actions: seq<Action>, i: nat)
    requires Run(trail, actions) && LedgerOk(trail[0]) && i < |trail|
    ensures LedgerOk(trail[i])
  {
    if i > 0 {
      LedgerKept(trail, actions, i - 1);
      LedgerStep(trail[i - 1], actions[i - 1], trail[i]);
    }
  }

  /** In every run the ledger never runs behind the finished rows. */
  lemma LedgerCoversDone(trail: seq<World>, actions: seq<Action>, i: nat, x: WorkKey)
    requires Run(trail, actions) && trail[0] == START && i < |trail|
    requires x in trail[i].rows && trail[i].rows[x].state == Done
    ensures x.revision <= trail[i].ledger
  {
    LedgerKept(trail, actions, i);
  }

  // ---- rows that cannot be read ------------------------------------------------------------------------

  /** Put rows get past their first step only if their name was read. */
  ghost predicate ReadOk(w: World, seen: iset<string>) {
    && (forall x :: x in w.rows && w.rows[x].state == Done && w.rows[x].operation == Put ==> x.ref in seen)
    && (w.drainer.Busy? && w.drainer.claimed != [] && Head(w) in w.rows && w.drainer.phase != Picked ==>
          (w.rows[Head(w)].operation == Put ==> Head(w).ref in seen)
          && (w.drainer.phase.Wiped? || w.drainer.phase.Rebuilding? || w.drainer.phase.Rebuilt? ==>
                w.rows[Head(w)].operation == Delete))
    && (w.drainer.Busy? ==> forall x :: x in w.drainer.claimed ==> x in w.rows)
    && w.rows.Keys !! w.unqueued.Keys
    && (forall x :: x in w.rows || x in w.unqueued ==> x.revision <= w.revision)
  }

  /** The names whose read succeeds now. */
  ghost function ReadableNow(facts: map<Key, Fact>): iset<string> {
    iset r: string | ReadEvent(facts, r).Success?
  }

  lemma ReadStep(w: World, a: Action, v: World, seen: iset<string>)
    requires ReadOk(w, seen) && Next(w, a, v)
    ensures ReadOk(v, seen + ReadableNow(w.facts))
  {
    StepFrame(w, a, v);
    if InsideOneRow(a) {
      ReadInsideRow(w, a, v, seen);
    } else if !ByWriter(a) {
      ReadBetweenRows(w, a, v, seen);
    }
  }

  lemma ReadInsideRow(w: World, a: Action, v: World, seen: iset<string>)
    requires ReadOk(w, seen) && Next(w, a, v) && InsideOneRow(a)
    ensures ReadOk(v, seen + ReadableNow(w.facts))
  {
    StepFrame(w, a, v);
    assert Head(w) in w.drainer.claimed;
  }

  lemma ReadBetweenRows(w: World, a: Action, v: World, seen: iset<string>)
    requires ReadOk(w, seen) && Next(w, a, v) && !InsideOneRow(a) && !ByWriter(a)
    ensures ReadOk(v, seen)
  {
    StepFrame(w, a, v);
    if a.Finish? {
      assert Head(w) in w.drainer.claimed;
      assert w.drainer.claimed == [Head(w)] + w.drainer.claimed[1..];
    }
  }

  ghost predicate WasRead(trail: seq<World>, i: nat, r: string)
    requires i < |trail|
  {
    exists j :: 0 <= j < i && ReadEvent(trail[j].facts, r).Success?
  }

  ghost function SeenBefore(trail: seq<World>, i: nat): iset<string>
    requires i < |trail|
  {
    iset r: string | WasRead(trail, i, r)
  }

  lemma {:induction false} ReadKept(trail: seq<World>, actions: seq<Action>, i: nat)
    requires Run(trail, actions) && trail[0] == START && i < |trail|
    ensures ReadOk(trail[i], SeenBefore(trail, i))
  {
    if i > 0 {
      ReadKept(trail, actions, i - 1);
      ReadStep(trail[i - 1], actions[i - 1], trail[i], SeenBefore(trail, i - 1));
      SeenGrows(trail, i);
      ReadMore(trail[i], SeenBefore(trail, i - 1) + ReadableNow(trail[i - 1].facts), SeenBefore(trail, i));
    }
  }

  lemma SeenGrows(trail: seq<World>, i: nat)
    requires 0 < i < |trail|
    ensures SeenBefore(trail, i - 1) + ReadableNow(trail[i - 1].facts) <= SeenBefore(trail, i)
  {
    forall r | r in SeenBefore(trail, i - 1) + ReadableNow(trail[i - 1].facts)
      ensures WasRead(trail, i, r)
    {
      if r in SeenBefore(trail, i - 1) {
        var j :| 0 <= j < i - 1 && ReadEvent(trail[j].facts, r).Success?;
        assert ReadEvent(trail[j].facts, r).Success?;
      }
    }
  }

  lemma ReadMore(w: World, seen: iset<string>, more: iset<string>)
    requires ReadOk(w, seen) && seen <= more
    ensures ReadOk(w, more)
  {
  }

  /** A put row is DONE only if its name was read at some point before: it is not refused, and if it is too long
      for an event then the fact was gone at that point. */
  lemma DoneWasRead(trail: seq<World>, actions: seq<Action>, i: nat, x: WorkKey)
    requires Run(trail, actions) && trail[0] == START && i < |trail|
    requires x in trail[i].rows && trail[i].rows[x].operation == Put && trail[i].rows[x].state == Done
    ensures exists j :: 0 <= j < i && ReadEvent(trail[j].facts, x.ref).Success?
  {
    ReadKept(trail, actions, i);
    assert WasRead(trail, i, x.ref);
  }

  /** So a put row is not DONE in any run while its name is refused (two dots in a row, say), or too long and the
      fact has always been there: the drain that meets it raises every time. */
  lemma UnreadableNeverDone(trail: seq<World>, actions: seq<Action>, i: nat, x: WorkKey)
    requires Run(trail, actions) && trail[0] == START && i < |trail|
    requires forall j :: 0 <= j < i ==>
               Target(x.ref).None? || (|x.ref| > MAX_REF_CHARS && Target(x.ref).value in trail[j].facts)
    requires x in trail[i].rows && trail[i].rows[x].operation == Put
    ensures trail[i].rows[x].state != Done
  {
    if trail[i].rows[x].state == Done {
      DoneWasRead(trail, actions, i, x);
    }
  }
}
