/** The durable projection outbox as a state machine.

    A canonical store of facts is mutated; every mutation later gets a row in the outbox table. One
    drainer claims rows, projects facts into a derived index and marks rows DONE. Every step below is
    one transaction of the program, so mutations may come between any two of them, and a crash or a
    backend failure may end the drain after any of them. */
module ProjectionOutbox {
  import opened Common
  import opened CanonicalRef

  /** Every operation except `delete` makes the drain project the fact. */
  datatype Operation = Put | Delete

  datatype RowState = Queued | Processing | Done

  datatype Row = Row(operation: Operation, state: RowState)

  /** `work_key` is a hash of these two (the scope is fixed), hence injective in them. */
  datatype WorkKey = WorkKey(ref: string, revision: nat)

  datatype Fact = Fact(revision: nat, text: string)

  datatype Event = Event(ref: string, revision: nat, text: string)

  const MAX_DRAIN_ITEMS: nat := 256
  const MAX_PROJECTION_TEXT_CHARS: nat := 4096
  const MAX_REF_CHARS: nat := 256

  /** What the drainer is about to do with the head of its claimed rows. */
  datatype Phase =
    | Picked                                             // row not started
    | Wiped                                              // delete row: scope forgotten, refs not listed yet
    | Rebuilding(refs: seq<string>)                      // delete row: refs still to project
    | Rebuilt(refs: seq<string>, event: Option<Event>)   // delete row: one event read, not yet projected
    | Loaded(event: Option<Event>)                       // put row: event read, not yet projected
    | Handled                                            // projected; ledger not yet written
    | Marked                                             // ledger written; row not yet DONE

  datatype Drainer = Idle | Busy(claimed: seq<WorkKey>, phase: Phase)

  /** `unqueued` holds mutations that are committed but whose row is not inserted yet; `foreign` the
      facts whose newest mutation went through another dataset, or whose name a fact with a colon in its
      namespace was written under since; `last` the newest revision each name got through this dataset. The
      last two are history: no step of the drain reads them. */
  datatype World = World(
    facts: map<Key, Fact>,
    revision: nat,
    unqueued: map<WorkKey, Operation>,
    rows: map<WorkKey, Row>,
    index: map<string, Event>,
    ledger: nat,
    drainer: Drainer,
    foreign: set<Key>,
    last: map<string, nat>
  )

  const START := World(map[], 0, map[], map[], map[], 0, Idle, {}, map[])

  datatype Action =
    | Mutate(key: Key, value: Option<string>)            // canonical put, or delete when None
    | MutateElsewhere(key: Key, value: Option<string>)   // the same through another dataset
    | Enqueue(work: WorkKey)                             // the mutation's row is inserted
    | Claim(works: seq<WorkKey>)
    | Forget
    | ListRefs
    | Load
    | Project
    | Mark
    | Finish
    | Fail(requeued: bool)                               // exception: row back to QUEUED; or crash: nothing written

  /** The entry under a name that says of a fact what the canonical store says: its revision and as much of its text, from
      the start, as an event may carry. */
  predicate Mirrors(e: Event, ref: string, f: Fact) {
    && e.ref == ref && e.revision == f.revision
    && e.text <= f.text && |e.text| == if |f.text| < 4096 then |f.text| else 4096
  }

  function EventOf(ref: string, f: Fact): (e: Event)
    ensures Mirrors(e, ref, f)
  {
    Event(ref, f.revision, if |f.text| <= MAX_PROJECTION_TEXT_CHARS then f.text else f.text[..MAX_PROJECTION_TEXT_CHARS])
  }

  /** `_event_from_active_ref`: no event when the fact is gone; an exception when the name is malformed, when
      `safe_token` refuses one of its parts, and when it is too long for a projection event. */
  function ReadEvent(facts: map<Key, Fact>, ref: string): Result<Option<Event>, string> {
    match Target(ref)
    case None =>
      Failure(if Parse(ref).None? then "projection_outbox_ref_invalid" else "projection_outbox_processing_failed")
    case Some(k) =>
      if k !in facts then Success(None)
      else if |ref| > MAX_REF_CHARS then Failure("projection_outbox_processing_failed")
      else Success(Some(EventOf(ref, facts[k])))
  }

  lemma MirrorsOnly(e: Event, ref: string, f: Fact)
    requires Mirrors(e, ref, f)
    ensures e == EventOf(ref, f)
  {
  }

  /** A read raises exactly when the name is no fact's, or is too long for an event and its fact is there; otherwise it
      gives the fact's mirror, or nothing if the fact is gone. */
  lemma ReadsExactly(facts: map<Key, Fact>, ref: string)
    ensures var r := ReadEvent(facts, ref);
      && (r.Failure? <==> Target(ref).None? || (Target(ref).value in facts && |ref| > 256))
      && (r.Failure? ==> r.error == if Parse(ref).None? then "projection_outbox_ref_invalid" else "projection_outbox_processing_failed")
      && (r.Success? ==> (r.value.Some? <==> Target(ref).value in facts))
      && (r.Success? && r.value.Some? ==> Mirrors(r.value.value, ref, facts[Target(ref).value]))
  {
  }

  predicate Pending(w: World, k: WorkKey) {
    k in w.unqueued || (k in w.rows && w.rows[k].state != Done)
  }

  /** Nothing is waiting: no committed mutation without its row, no row QUEUED or PROCESSING. */
  ghost predicate Quiet(w: World) {
    forall k :: !Pending(w, k)
  }

  /** The newest row of `ref` exists and is not a delete: `_active_scope_refs` lists `ref`. */
  predicate Active(rows: map<WorkKey, Row>, ref: string) {
    exists k :: k in rows && k.ref == ref && rows[k].operation != Delete
                && forall o :: o in rows && o.ref == ref ==> o.revision <= k.revision
  }

  /** Is this list what the `_active_scope_refs` query returns, whatever its order? */
  ghost predicate ListsActive(rows: map<WorkKey, Row>, refs: seq<string>) {
    forall r :: r in refs <==> Active(rows, r)
  }

  predicate Claimable(rows: map<WorkKey, Row>, works: seq<WorkKey>) {
    && (forall k :: k in works ==> k in rows && rows[k].state != Done)
    && (forall i, j :: 0 <= i < j < |works| ==> works[i] != works[j])
  }

  function Applied(facts: map<Key, Fact>, key: Key, revision: nat, value: Option<string>): map<Key, Fact> {
    match value
    case Some(v) => facts[key := Fact(revision, v)]
    case None => facts - {key}
  }

  /** The other fact whose name a mutation of `key` takes: none, unless the namespace has a colon. */
  function Overwritten(key: Key): set<Key> {
    if ColonFree(key) then {}
    else
      assert Render(key)[|key.namespace|] == ':';
      {Cut(Render(key))}
  }

  function OperationOf(value: Option<string>): Operation {
    if value.Some? then Put else Delete
  }

  function Head(w: World): WorkKey
    requires w.drainer.Busy? && w.drainer.claimed != []
  {
    w.drainer.claimed[0]
  }

  function WithPhase(w: World, p: Phase): World
    requires w.drainer.Busy?
  {
    w.(drainer := w.drainer.(phase := p))
  }

  function Put1(index: map<string, Event>, e: Option<Event>): map<string, Event> {
    match e
    case None => index
    case Some(v) => index[v.ref := v]
  }

  /** The row under the drainer exists; its operation decides what comes next. */
  predicate OnRow(w: World, p: Phase, op: Operation) {
    && w.drainer.Busy? && w.drainer.claimed != [] && w.drainer.phase == p
    && Head(w) in w.rows && w.rows[Head(w)].operation == op
  }

  /** One atomic step. What the ref query of `ListRefs` returns is found in the phase it leads to. */
  ghost predicate Next(w: World, a: Action, v: World) {
    match a
    case Mutate(key, value) =>
      var work := WorkKey(Render(key), w.revision + 1);
      && (value.None? ==> key in w.facts)
      && v == w.(facts := Applied(w.facts, key, w.revision + 1, value), revision := w.revision + 1,
                 unqueued := w.unqueued[work := OperationOf(value)],
                 foreign := w.foreign - {key} + Overwritten(key), last := w.last[Render(key) := w.revision + 1])
    case MutateElsewhere(key, value) =>
      v == w.(facts := Applied(w.facts, key, w.revision + 1, value), revision := w.revision + 1,
              foreign := w.foreign + {key})
    case Enqueue(work) =>
      && work in w.unqueued
      && v == w.(unqueued := w.unqueued - {work},
                 rows := if work in w.rows then w.rows else w.rows[work := Row(w.unqueued[work], Queued)])
    case Claim(works) =>
      && w.drainer.Idle? && Claimable(w.rows, works) && |works| <= MAX_DRAIN_ITEMS
      && v == w.(rows := Processed(w.rows, works), drainer := if works == [] then Idle else Busy(works, Picked))
    case Forget =>
      && OnRow(w, Picked, Delete)
      && v == WithPhase(w, Wiped).(index := map[])
    case ListRefs =>
      && OnRow(w, Wiped, Delete)
      && v.drainer.Busy? && v.drainer.phase.Rebuilding? && ListsActive(w.rows, v.drainer.phase.refs)
      && v == WithPhase(w, v.drainer.phase)
    case Load =>
      && w.drainer.Busy? && w.drainer.claimed != [] && Head(w) in w.rows
      && ((OnRow(w, Picked, Put)
           && var r := ReadEvent(w.facts, Head(w).ref);
              r.Success? && v == WithPhase(w, Loaded(r.value)))
          || (w.drainer.phase.Rebuilding? && w.drainer.phase.refs != []
              && var refs := w.drainer.phase.refs;
                 var r := ReadEvent(w.facts, refs[0]);
                 r.Success? && v == WithPhase(w, Rebuilt(refs[1..], r.value))))
    case Project =>
      && w.drainer.Busy? && w.drainer.claimed != []
      && ((w.drainer.phase.Loaded?
           && v == WithPhase(w, Handled).(index := Put1(w.index, w.drainer.phase.event)))
          || (w.drainer.phase.Rebuilt?
              && v == WithPhase(w, Rebuilding(w.drainer.phase.refs)).(index := Put1(w.index, w.drainer.phase.event))))
    case Mark =>
      && w.drainer.Busy? && w.drainer.claimed != []
      && (w.drainer.phase.Handled? || w.drainer.phase == Rebuilding([]))
      && v == WithPhase(w, Marked).(ledger := if w.ledger < Head(w).revision then Head(w).revision else w.ledger)
    case Finish =>
      && w.drainer.Busy? && w.drainer.claimed != [] && w.drainer.phase.Marked? && Head(w) in w.rows
      && v == w.(rows := w.rows[Head(w) := w.rows[Head(w)].(state := Done)],
                 drainer := if |w.drainer.claimed| == 1 then Idle else Busy(w.drainer.claimed[1..], Picked))
    case Fail(requeued) =>
      && w.drainer.Busy?
      && if requeued then
           && w.drainer.claimed != [] && Head(w) in w.rows
           && v == w.(rows := w.rows[Head(w) := w.rows[Head(w)].(state := Queued)], drainer := Idle)
         else v == w.(drainer := Idle)
  }

  function Processed(rows: map<WorkKey, Row>, works: seq<WorkKey>): (r: map<WorkKey, Row>)
    ensures r.Keys == rows.Keys
    ensures forall k :: k in rows ==> r[k] == if k in works then rows[k].(state := Processing) else rows[k]
  {
    map k | k in rows :: if k in works then rows[k].(state := Processing) else rows[k]
  }

  /** Runs: `trail[0]` is the start, and each world follows from the one before it. */
  ghost predicate Run(trail: seq<World>, actions: seq<Action>) {
    && |trail| == |actions| + 1
    && forall i :: 0 <= i < |actions| ==> Next(trail[i], actions[i], trail[i + 1])
  }
}
