/** Exactly-once handoff: what holds of packets and requests together over whole runs. */
module HandoffTheorems {
  import opened Common
  import opened HandoffStates
  import Q = InferenceStates
  import T = InferenceTheorems

  ghost predicate Legal(c: Config, h: Handoff, acts: seq<Action>)
    decreases |acts|
  {
    acts == [] || (Enabled(h, acts[0]) && Legal(c, Step(c, h, acts[0]), acts[1..]))
  }

  ghost function Final(c: Config, h: Handoff, acts: seq<Action>): Handoff
    requires Legal(c, h, acts)
    decreases |acts|
  {
    if acts == [] then h else Final(c, Step(c, h, acts[0]), acts[1..])
  }

  ghost predicate Reaches(c: Config, h: Handoff, v: Handoff) {
    exists acts :: Legal(c, h, acts) && Final(c, h, acts) == v
  }

  ghost predicate Reachable(c: Config, h: Handoff) {
    Reaches(c, EMPTY, h)
  }

  lemma ReachesSelf(c: Config, h: Handoff)
    ensures Reaches(c, h, h)
  {
    assert Legal(c, h, []) && Final(c, h, []) == h;
  }

  lemma ReachesStep(c: Config, h: Handoff, a: Action, v: Handoff)
    requires Enabled(h, a) && Reaches(c, Step(c, h, a), v)
    ensures Reaches(c, h, v)
  {
    var acts :| Legal(c, Step(c, h, a), acts) && Final(c, Step(c, h, a), acts) == v;
    assert ([a] + acts)[1..] == acts;
    assert Legal(c, h, [a] + acts) && Final(c, h, [a] + acts) == v;
  }

  lemma ReachesTrans(c: Config, h: Handoff, m: Handoff, v: Handoff)
    requires Reaches(c, h, m) && Reaches(c, m, v)
    ensures Reaches(c, h, v)
  {
    var acts :| Legal(c, h, acts) && Final(c, h, acts) == m;
    RunThen(c, h, acts, v);
  }

  lemma {:induction false} RunThen(c: Config, h: Handoff, acts: seq<Action>, v: Handoff)
    requires Legal(c, h, acts) && Reaches(c, Final(c, h, acts), v)
    ensures Reaches(c, h, v)
    decreases |acts|
  {
    if acts != [] {
      RunThen(c, Step(c, h, acts[0]), acts[1..], v);
      ReachesStep(c, h, acts[0], v);
    }
  }

  lemma {:induction false} RunKeeps(c: Config, h: Handoff, acts: seq<Action>)
    requires Inv(c, h) && Legal(c, h, acts)
    ensures var v := Final(c, h, acts); Inv(c, v) && Grows(h.queue.submitted, v.queue.submitted) && Grows(h.creator, v.creator)
    decreases |acts|
  {
    if acts != [] {
      StepKeeps(c, h, acts[0]);
      StepGrows(c, h, acts[0]);
      RunKeeps(c, Step(c, h, acts[0]), acts[1..]);
    }
  }

  lemma ReachesKeeps(c: Config, h: Handoff, v: Handoff)
    requires Inv(c, h) && Reaches(c, h, v)
    ensures Inv(c, v) && Grows(h.queue.submitted, v.queue.submitted) && Grows(h.creator, v.creator)
  {
    var acts :| Legal(c, h, acts) && Final(c, h, acts) == v;
    RunKeeps(c, h, acts);
  }

  lemma ReachableInv(c: Config, h: Handoff)
    requires Reachable(c, h)
    ensures Inv(c, h)
  {
    assert Inv(c, EMPTY);
    ReachesKeeps(c, EMPTY, h);
  }

  // ---- the queue below runs as proved on its own -----------------------------------------------------

  lemma HandedStep(c: Config, h: Handoff, name: string)
    requires Inv(c, h) && name in h.processing
    ensures T.Reaches(h.queue, Handed(c, h, name).queue)
  {
    HandedQueue(c, h, name);
    var p := h.processing[name];
    if Refused(c, p) || IdFor(c, p) in h.queue.submitted {
      T.ReachesSelf(h.queue);
    } else {
      var a := Q.Submit(RequestFor(c, p));
      CreatedKeeps(h.queue, RequestFor(c, p));
      T.ReachesSelf(Q.Step(h.queue, a));
      T.ReachesStep(h.queue, a, Q.Step(h.queue, a));
    }
  }

  lemma QueueStepReaches(c: Config, h: Handoff, a: Action)
    requires Inv(c, h) && Enabled(h, a)
    ensures T.Reaches(h.queue, Step(c, h, a).queue)
  {
    if a.QueueStep? {
      T.ReachesSelf(Q.Step(h.queue, a.step));
      T.ReachesStep(h.queue, a.step, Q.Step(h.queue, a.step));
    } else if a.Submit? {
      HandedStep(c, h, a.name);
    } else {
      T.ReachesSelf(h.queue);
    }
  }

  lemma {:induction false} QueueRuns(c: Config, h: Handoff, acts: seq<Action>)
    requires Inv(c, h) && Legal(c, h, acts)
    ensures T.Reaches(h.queue, Final(c, h, acts).queue)
    decreases |acts|
  {
    if acts == [] {
      T.ReachesSelf(h.queue);
    } else {
      QueueStepReaches(c, h, acts[0]);
      StepKeeps(c, h, acts[0]);
      QueueRuns(c, Step(c, h, acts[0]), acts[1..]);
      T.ReachesTrans(h.queue, Step(c, h, acts[0]).queue, Final(c, h, acts).queue);
    }
  }

  /** Whatever the ingestor does, the queue stays one that its own operations could have produced. */
  lemma QueueReachable(c: Config, h: Handoff)
    requires Reachable(c, h)
    ensures T.Reachable(h.queue)
  {
    var acts :| Legal(c, EMPTY, acts) && Final(c, EMPTY, acts) == h;
    assert Inv(c, EMPTY);
    QueueRuns(c, EMPTY, acts);
  }

  // ---- safety ----------------------------------------------------------------------------------------

  function Copies(h: Handoff, name: string): nat {
    (if name in h.pending then 1 else 0) + (if name in h.processing then 1 else 0)
    + (if name in h.accepted then 1 else 0) + (if name in h.review then 1 else 0)
  }

  /** Between any two file operations a packet is in exactly one directory, with the content it was dropped
      with. */
  lemma NeverLostNorDoubled(c: Config, h: Handoff, name: string)
    requires Reachable(c, h)
    ensures Copies(h, name) == if name in h.dropped then 1 else 0
    ensures name in h.pending ==> h.pending[name] == h.dropped[name]
    ensures name in h.processing ==> h.processing[name] == h.dropped[name]
    ensures name in h.accepted ==> h.accepted[name] == h.dropped[name]
    ensures name in h.review ==> h.review[name] == h.dropped[name]
  {
    ReachableInv(c, h);
    assert OkAt(c, h, name);
  }

  /** An accepted packet's payload, with the aliases bound, is that of the single request under its key; the
      request is in exactly one directory of the queue and the receipt names it. */
  lemma AcceptedIsQueued(c: Config, h: Handoff, name: string)
    requires Reachable(c, h) && name in h.accepted
    ensures h.accepted[name].Packet? && !Refused(c, h.accepted[name])
    ensures var p, id := h.accepted[name], IdFor(c, h.accepted[name]);
      && id in h.queue.submitted && h.queue.submitted[id] == RequestFor(c, p)
      && h.queue.submitted[id].payload == Bound(c, p.payload) && h.queue.submitted[id].key == p.key
      && T.Only(h.queue, id) == 1
      && name in h.receipts && (h.receipts[name] == QueuedReceipt(id) || h.receipts[name] == DuplicateReceipt(id))
  {
    ReachableInv(c, h);
    assert OkAt(c, h, name);
    QueueReachable(c, h);
    T.ExactlyOnePlace(h.queue, IdFor(c, h.accepted[name]));
  }

  /** Field by field: text, source kind, languages, pages and mime type of the queued request are the packet's, its key too;
      the aliases, the type, the model and the limits are the configuration's. */
  lemma QueuedFields(c: Config, h: Handoff, name: string)
    requires Reachable(c, h) && name in h.accepted
    ensures h.accepted[name].Packet? && IdFor(c, h.accepted[name]) in h.queue.submitted
    ensures var p, r := h.accepted[name], h.queue.submitted[IdFor(c, h.accepted[name])];
      && IdFor(c, p) == c.requestType + ":" + p.key
      && r.payload.ocrText == p.payload.ocrText && r.payload.sourceKind == p.payload.sourceKind
      && r.payload.languages == p.payload.languages && r.payload.pageCount == p.payload.pageCount
      && r.payload.mimeType == p.payload.mimeType && r.payload.aliases == c.aliases
      && r.key == p.key && r.requestType == c.requestType && r.model == c.model
      && r.maxAttempts == c.maxAttempts && r.timeoutSeconds == c.timeoutSeconds
  {
    AcceptedIsQueued(c, h, name);
  }

  /** A packet is refused exactly if the packet, the aliases or the request it becomes is out of bounds. */
  lemma RefusedExactly(c: Config, p: Packet)
    ensures !Refused(c, p) <==>
      && p.Packet? && 8 <= |p.key| <= 240
      && 1 <= |p.payload.ocrText| <= 24000 && p.payload.sourceKind == "mfp"
      && (p.payload.languages.Some? ==>
            |p.payload.languages.value| <= 8 && forall l :: l in p.payload.languages.value ==> 2 <= |l| <= 16)
      && (p.payload.pageCount.Some? ==> 1 <= p.payload.pageCount.value <= 500)
      && (p.payload.mimeType.Some? ==> 1 <= |p.payload.mimeType.value| <= 120)
      && |c.aliases| == 3 && (forall a :: a in c.aliases ==> 1 <= |a| <= 80)
      && 3 <= |c.requestType| <= 96 && (forall x :: x in c.requestType ==> Q.TypeChar(x))
      && 1 <= |c.model| <= 128 && 1 <= c.maxAttempts <= 5 && 5 <= c.timeoutSeconds <= 300
  {
    if p.Packet? && p.payload.languages.Some? {
      assert forall i :: 0 <= i < |p.payload.languages.value| ==> p.payload.languages.value[i] in p.payload.languages.value;
    }
    assert forall i :: 0 <= i < |c.aliases| ==> c.aliases[i] in c.aliases;
  }

  /** Only packets that some schema refuses go to review, with the receipt that says so. */
  lemma ReviewIsRefused(c: Config, h: Handoff, name: string)
    requires Reachable(c, h) && name in h.review
    ensures Refused(c, h.review[name]) && name in h.receipts && h.receipts[name] == ReviewReceipt
  {
    ReachableInv(c, h);
    assert OkAt(c, h, name);
  }

  /** Under fresh names the recovery of a claimed packet never finds its place in `pending` taken. */
  lemma RecoveryReturns(c: Config, h: Handoff, name: string)
    requires Reachable(c, h) && Enabled(h, Recover(name))
    ensures name !in h.pending
    ensures Step(c, h, Recover(name)).review == h.review && name in Step(c, h, Recover(name)).pending
  {
    ReachableInv(c, h);
    assert OkAt(c, h, name);
  }

  /** At most one packet is told that it created the request; all others with its key are duplicates. */
  lemma OneCreator(c: Config, h: Handoff, a: string, b: string, id: string)
    requires Reachable(c, h) && a in h.receipts && b in h.receipts
    requires h.receipts[a] == QueuedReceipt(id) && h.receipts[b] == QueuedReceipt(id)
    ensures a == b
  {
    ReachableInv(c, h);
    assert OkAt(c, h, a) && OkAt(c, h, b);
    assert h.creator[id] == a && h.creator[id] == b;
  }

  /** Two accepted packets share a request exactly when they share a key, and then their payloads agree. */
  lemma SameKeySamePayload(c: Config, h: Handoff, a: string, b: string)
    requires Reachable(c, h) && a in h.accepted && b in h.accepted
    ensures h.accepted[a].Packet? && h.accepted[b].Packet?
    ensures IdFor(c, h.accepted[a]) == IdFor(c, h.accepted[b]) <==> h.accepted[a].key == h.accepted[b].key
    ensures h.accepted[a].key == h.accepted[b].key ==> h.accepted[a] == h.accepted[b]
  {
    AcceptedIsQueued(c, h, a);
    AcceptedIsQueued(c, h, b);
    var p, r := h.accepted[a], h.accepted[b];
    if IdFor(c, p) == IdFor(c, r) {
      Q.RequestIdInjective(c.requestType, p.key, c.requestType, r.key);
      assert Bound(c, p.payload) == Bound(c, r.payload);
    }
  }

  // ---- what was dropped stays dropped ----------------------------------------------------------------

  lemma DroppedStays(c: Config, h: Handoff, v: Handoff, name: string)
    requires Inv(c, h) && Reaches(c, h, v) && name in h.dropped
    ensures name in v.dropped && v.dropped[name] == h.dropped[name]
  {
    var acts :| Legal(c, h, acts) && Final(c, h, acts) == v;
    DroppedRun(c, h, acts, name);
  }

  lemma HandedDropped(c: Config, h: Handoff, name: string)
    requires Inv(c, h) && name in h.processing
    ensures Handed(c, h, name).dropped == h.dropped
  {
    HandedQueue(c, h, name);
    HandedAsFiles(h, name, VerdictOf(c, h.processing[name], h.queue.submitted), Handed(c, h, name));
  }

  lemma DroppedStep(c: Config, h: Handoff, a: Action, name: string)
    requires Inv(c, h) && Enabled(h, a) && name in h.dropped
    ensures name in Step(c, h, a).dropped && Step(c, h, a).dropped[name] == h.dropped[name]
  {
    if a.Submit? {
      HandedDropped(c, h, a.name);
    } else if a.Drop? {
      assert Step(c, h, a).dropped == h.dropped[a.name := a.packet];
    } else {
      NothingDropped(c, h, a);
    }
  }

  lemma NothingDropped(c: Config, h: Handoff, a: Action)
    requires Enabled(h, a) && !a.Submit? && !a.Drop?
    ensures Step(c, h, a).dropped == h.dropped
  {
    match a
    case QueueStep(s) => assert Step(c, h, a) == h.(queue := Q.Step(h.queue, s));
    case _ =>
  }

  lemma {:induction false} DroppedRun(c: Config, h: Handoff, acts: seq<Action>, name: string)
    requires Inv(c, h) && Legal(c, h, acts) && name in h.dropped
    ensures name in Final(c, h, acts).dropped && Final(c, h, acts).dropped[name] == h.dropped[name]
    decreases |acts|
  {
    if acts != [] {
      DroppedStep(c, h, acts[0], name);
      StepKeeps(c, h, acts[0]);
      DroppedRun(c, Step(c, h, acts[0]), acts[1..], name);
    }
  }
}
