/** Rounds of the ingestor: recover the claims, take the first packet by name, settle it or leave it. Each round
    is a run of the file operations of `HandoffStates`. */
module HandoffRounds {
  import opened Common
  import opened HandoffStates
  import opened HandoffTheorems
  import Q = InferenceStates

  /** Claims left by a crash are back in `pending`, or in `review` where their place is taken. */
  function Returned(h: Handoff): Handoff {
    h.(pending := h.processing + h.pending, processing := map[],
       review := h.review + Overlap(h.pending, h.processing))
  }

  lemma ReturnedApart(h: Handoff)
    requires Apart(h.pending, h.processing)
    ensures Returned(h) == h.(pending := h.pending + h.processing, processing := map[])
  {
    NoOverlap(h.pending, h.processing);
  }

  /** Recovering one claim leaves the rest of the recovery alone. */
  lemma ReturnedOne(h: Handoff, name: string)
    requires name in h.processing
    ensures Returned(Recovered(h, name)) == Returned(h)
    ensures Recovered(h, name).processing.Keys == h.processing.Keys - {name}
  {
    if name in h.pending {
      MovedAside(h.pending, h.processing, h.review, name);
    } else {
      MovedBack(h.pending, h.processing, name);
    }
  }

  lemma NoneToReturn(h: Handoff)
    requires h.processing == map[]
    ensures Returned(h) == h
  {
    ReturnedApart(h);
    assert h.pending + h.processing == h.pending;
  }

  /** The packet that the next call takes. */
  predicate First(h: Handoff, name: string) {
    Earliest(Returned(h).pending, name)
  }

  /** One packet taken from `pending`: to review if a schema refuses it, left in `processing` if another request
      holds its key, and otherwise accepted with its request in the queue. */
  function AfterIngest(c: Config, h: Handoff, name: string): Handoff
    requires name in h.pending
  {
    AfterVerdict(h, name, VerdictOf(c, h.pending[name], h.queue.submitted))
  }

  function AfterVerdict(h: Handoff, name: string, verdict: Verdict): Handoff
    requires name in h.pending
  {
    var p := h.pending[name];
    match verdict
    case RefusedPacket =>
      h.(pending := h.pending - {name}, review := h.review[name := p], receipts := h.receipts[name := ReviewReceipt])
    case ConflictingKey =>
      h.(pending := h.pending - {name}, processing := h.processing[name := p])
    case AlreadyQueued(id) =>
      h.(pending := h.pending - {name}, accepted := h.accepted[name := p], receipts := h.receipts[name := DuplicateReceipt(id)])
    case NewRequest(id, r) =>
      h.(pending := h.pending - {name}, accepted := h.accepted[name := p], receipts := h.receipts[name := QueuedReceipt(id)],
         queue := Q.Created(h.queue, id, r), creator := h.creator[id := name])
  }

  // ---- both are runs of file operations --------------------------------------------------------------

  lemma Disjoint(c: Config, h: Handoff)
    requires Inv(c, h)
    ensures Apart(h.pending, h.processing)
  {
    forall name | name in h.processing
      ensures name !in h.pending
    {
      assert OkAt(c, h, name);
    }
  }

  lemma RecoverOne(c: Config, h: Handoff, name: string)
    requires Inv(c, h) && Enabled(h, Recover(name))
    ensures Step(c, h, Recover(name)) == h.(pending := h.pending[name := h.processing[name]], processing := h.processing - {name})
    ensures Inv(c, Step(c, h, Recover(name)))
  {
    Disjoint(c, h);
    StepKeeps(c, h, Recover(name));
  }

  lemma {:induction false} ReturnRun(c: Config, h: Handoff, names: set<string>)
    requires Inv(c, h) && h.ingestor == Idle && names == h.processing.Keys
    ensures Reaches(c, h, Returned(h))
    decreases names
  {
    Disjoint(c, h);
    ReturnedApart(h);
    if names == {} {
      ReachesSelf(c, h);
    } else {
      var name :| name in names;
      var h1 := Step(c, h, Recover(name));
      RecoverOne(c, h, name);
      MovedAcross(h.pending, h.processing, name);
      ReturnedApart(h1);
      ReturnRun(c, h1, names - {name});
      ReachesStep(c, h, Recover(name), Returned(h));
    }
  }

  lemma ReturnIsRun(c: Config, h: Handoff)
    requires Inv(c, h) && h.ingestor == Idle
    ensures Reaches(c, h, Returned(h)) && Inv(c, Returned(h))
  {
    ReturnRun(c, h, h.processing.Keys);
    ReachesKeeps(c, h, Returned(h));
  }

  lemma AnsweredRun(c: Config, h: Handoff, name: string, v: Handoff)
    requires h.ingestor.Holding? && h.ingestor.name == name && name in h.processing
    requires h.ingestor.phase.Rejected? || (h.ingestor.phase.Submitted? && h.processing[name].Packet?)
    requires v == Step(c, Step(c, h, WriteReceipt(name)), Move(name))
    ensures Reaches(c, h, v)
  {
    ReachesSelf(c, v);
    ReachesStep(c, Step(c, h, WriteReceipt(name)), Move(name), v);
    ReachesStep(c, h, WriteReceipt(name), v);
  }

  lemma ClaimedRun(c: Config, h: Handoff, name: string, v: Handoff)
    requires Enabled(h, List(name)) && Reaches(c, Step(c, FirstClaimed(c, h, name), Submit(name)), v)
    ensures Reaches(c, h, v)
  {
    ReachesStep(c, FirstClaimed(c, h, name), Submit(name), v);
    ReachesStep(c, Step(c, h, List(name)), Claim(name), v);
    ReachesStep(c, h, List(name), v);
  }

  /** `pending` is listed and its first packet claimed. */
  ghost function FirstClaimed(c: Config, h: Handoff, name: string): (h1: Handoff)
    requires Enabled(h, List(name))
    ensures JustClaimed(h, name, h1) && Enabled(h1, Submit(name))
  {
    Step(c, Step(c, h, List(name)), Claim(name))
  }

  ghost predicate JustClaimed(h: Handoff, name: string, h1: Handoff) {
    && name in h.pending && name !in h.processing && h.ingestor == Idle
    && h1 == h.(processing := h.processing[name := h.pending[name]], pending := h.pending - {name}, ingestor := Holding(name, Claimed))
  }

  lemma TakenSettled(c: Config, h: Handoff, name: string, h1: Handoff)
    requires JustClaimed(h, name, h1) && Inv(c, h1)
    requires var p := h.pending[name]; Refused(c, p) || Queued(c, p, h.queue.submitted)
    ensures Reaches(c, Step(c, h1, Submit(name)), AfterIngest(c, h, name))
  {
    HandedQueue(c, h1, name);
    assert h1.processing - {name} == h.processing;
    AnsweredRun(c, Step(c, h1, Submit(name)), name, AfterIngest(c, h, name));
  }

  lemma TakenConflict(c: Config, h: Handoff, name: string, h1: Handoff)
    requires JustClaimed(h, name, h1) && Inv(c, h1)
    requires Conflicts(c, h.pending[name], h.queue.submitted)
    ensures Reaches(c, Step(c, h1, Submit(name)), AfterIngest(c, h, name))
  {
    HandedQueue(c, h1, name);
    ReachesSelf(c, AfterIngest(c, h, name));
  }

  lemma NewSteps(c: Config, h: Handoff, name: string, h1: Handoff, h2: Handoff, q: Q.Queue)
    requires JustClaimed(h, name, h1)
    requires var p := h.pending[name]; !Refused(c, p) && IdFor(c, p) !in h.queue.submitted
    requires var p := h.pending[name]; q == Q.Created(h.queue, IdFor(c, p), RequestFor(c, p))
    requires h2 == h1.(queue := q, ingestor := Holding(name, Submitted(true)), creator := h1.creator[IdFor(c, h.pending[name]) := name])
    ensures Step(c, Step(c, h2, WriteReceipt(name)), Move(name)) == AfterIngest(c, h, name)
  {
    assert h1.processing - {name} == h.processing;
  }

  lemma TakenNew(c: Config, h: Handoff, name: string, h1: Handoff)
    requires JustClaimed(h, name, h1) && Inv(c, h1)
    requires var p := h.pending[name]; !Refused(c, p) && IdFor(c, p) !in h.queue.submitted
    ensures Reaches(c, Step(c, h1, Submit(name)), AfterIngest(c, h, name))
  {
    HandedQueue(c, h1, name);
    var h2 := Step(c, h1, Submit(name));
    NewSteps(c, h, name, h1, h2, h2.queue);
    AnsweredRun(c, h2, name, AfterIngest(c, h, name));
  }

  lemma IngestIsRun(c: Config, h: Handoff, name: string)
    requires Inv(c, h) && Enabled(h, List(name))
    ensures Reaches(c, h, AfterIngest(c, h, name))
  {
    var h1, p := FirstClaimed(c, h, name), h.pending[name];
    StepKeeps(c, h, List(name));
    StepKeeps(c, Step(c, h, List(name)), Claim(name));
    if Refused(c, p) || Queued(c, p, h.queue.submitted) {
      TakenSettled(c, h, name, h1);
    } else if Conflicts(c, p, h.queue.submitted) {
      TakenConflict(c, h, name, h1);
    } else {
      TakenNew(c, h, name, h1);
    }
    ClaimedRun(c, h, name, AfterIngest(c, h, name));
  }

  lemma CallIsRun(c: Config, h: Handoff, name: string)
    requires Inv(c, h) && h.ingestor == Idle && First(h, name)
    ensures Reaches(c, h, AfterIngest(c, Returned(h), name)) && Inv(c, AfterIngest(c, Returned(h), name))
  {
    ReturnIsRun(c, h);
    IngestIsRun(c, Returned(h), name);
    ReachesTrans(c, h, Returned(h), AfterIngest(c, Returned(h), name));
    ReachesKeeps(c, h, AfterIngest(c, Returned(h), name));
  }

  // ---- head of line ----------------------------------------------------------------------------------

  lemma PutBack(r: Handoff, name: string)
    requires name in r.pending && r.processing == map[]
    ensures Returned(r.(pending := r.pending - {name}, processing := map[name := r.pending[name]])) == r
  {
    var v := r.(pending := r.pending - {name}, processing := map[name := r.pending[name]]);
    ReturnedApart(v);
    assert v.pending + v.processing == r.pending;
  }

  /** Once the first packet by name conflicts, every later round takes it again and changes nothing at all: no
      packet behind it is accepted or reviewed until one with an earlier name arrives. */
  lemma ConflictBlocks(c: Config, h: Handoff, name: string)
    requires Inv(c, h) && First(h, name) && Conflicts(c, Returned(h).pending[name], h.queue.submitted)
    ensures var v := AfterIngest(c, Returned(h), name);
      && v.accepted == h.accepted && v.review == h.review && v.receipts == h.receipts && v.queue == h.queue
      && Returned(v) == Returned(h)
      && First(v, name) && AfterIngest(c, Returned(v), name) == v
  {
    var r := Returned(h);
    var v := AfterIngest(c, r, name);
    Disjoint(c, h);
    ReturnedApart(h);
    PutBack(r, name);
    assert r.processing[name := r.pending[name]] == map[name := r.pending[name]];
    assert First(v, name);
  }
}
