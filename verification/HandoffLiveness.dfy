/** Which packets the ingestor can still settle. It takes the packets by name, and a packet whose key another
    request holds stays in front of all later ones for good. */
module HandoffLiveness {
  import opened Common
  import opened Sorting
  import opened HandoffStates
  import opened HandoffTheorems
  import opened HandoffRounds
  import Q = InferenceStates

  predicate Settled(h: Handoff, name: string) {
    name in h.accepted || name in h.review
  }

  ghost predicate CanSettle(c: Config, h: Handoff, name: string) {
    exists v :: Reaches(c, h, v) && Settled(v, name)
  }

  /** The ingestor listed this packet first, or holds it. */
  predicate AtHand(h: Handoff, name: string) {
    h.ingestor != Idle && h.ingestor.name == name
  }

  /** Different requests under one key. */
  predicate Rivals(c: Config, p: Packet, r: Packet) {
    !Refused(c, p) && !Refused(c, r) && IdFor(c, p) == IdFor(c, r) && RequestFor(c, p) != RequestFor(c, r)
  }

  /** Waiting, and not behind `name`. */
  predicate UpTo(h: Handoff, x: string, name: string) {
    x in h.dropped && !Settled(h, x) && StringLe(x, name)
  }

  /** No waiting packet with a name up to this one meets a different request under its key, neither one of the
      queue nor that of another of them. */
  ghost predicate Clear(c: Config, h: Handoff, name: string) {
    && (forall x :: UpTo(h, x, name) ==> !Conflicts(c, h.dropped[x], h.queue.submitted))
    && (forall x, y :: UpTo(h, x, name) && UpTo(h, y, name) ==> !Rivals(c, h.dropped[x], h.dropped[y]))
  }

  // ---- what settles ----------------------------------------------------------------------------------

  lemma SettlesVia(c: Config, h: Handoff, m: Handoff, name: string)
    requires Reaches(c, h, m) && CanSettle(c, m, name)
    ensures CanSettle(c, h, name)
  {
    var v :| Reaches(c, m, v) && Settled(v, name);
    ReachesTrans(c, h, m, v);
  }

  lemma StepSettles(c: Config, h: Handoff, a: Action, name: string)
    requires Enabled(h, a) && CanSettle(c, Step(c, h, a), name)
    ensures CanSettle(c, h, name)
  {
    var v :| Reaches(c, Step(c, h, a), v) && Settled(v, name);
    ReachesStep(c, h, a, v);
  }

  lemma ReceiptedSettles(c: Config, h: Handoff, name: string)
    requires Enabled(h, Move(name))
    ensures CanSettle(c, h, name)
  {
    ReachesSelf(c, Step(c, h, Move(name)));
    assert Settled(Step(c, h, Move(name)), name);
    StepSettles(c, h, Move(name), name);
  }

  lemma AnsweredSettles(c: Config, h: Handoff, name: string)
    requires Enabled(h, WriteReceipt(name))
    ensures CanSettle(c, h, name)
  {
    ReceiptedSettles(c, Step(c, h, WriteReceipt(name)), name);
    StepSettles(c, h, WriteReceipt(name), name);
  }

  lemma HandedAnswers(c: Config, h: Handoff, name: string, h': Handoff)
    requires name in h.processing && !Conflicts(c, h.processing[name], h.queue.submitted)
    requires HandedAs(h, name, VerdictOf(c, h.processing[name], h.queue.submitted), h')
    ensures Enabled(h', WriteReceipt(name))
  {
  }

  lemma ClaimedSettles(c: Config, h: Handoff, name: string)
    requires Inv(c, h) && Enabled(h, Submit(name)) && !Conflicts(c, h.processing[name], h.queue.submitted)
    ensures CanSettle(c, h, name)
  {
    HandedQueue(c, h, name);
    HandedAnswers(c, h, name, Step(c, h, Submit(name)));
    AnsweredSettles(c, Step(c, h, Submit(name)), name);
    StepSettles(c, h, Submit(name), name);
  }

  lemma HeldSettles(c: Config, h: Handoff, name: string)
    requires Inv(c, h) && h.ingestor.Holding? && h.ingestor.name == name && name in h.dropped
    requires !Conflicts(c, h.dropped[name], h.queue.submitted)
    ensures CanSettle(c, h, name)
  {
    assert OkAt(c, h, name);
    match h.ingestor.phase
    case Claimed => ClaimedSettles(c, h, name);
    case Receipted(_) => ReceiptedSettles(c, h, name);
    case _ => AnsweredSettles(c, h, name);
  }

  lemma AtHandSettles(c: Config, h: Handoff, name: string)
    requires Inv(c, h) && AtHand(h, name) && name in h.dropped && !Conflicts(c, h.dropped[name], h.queue.submitted)
    ensures CanSettle(c, h, name)
  {
    if h.ingestor.Listed? {
      assert OkAt(c, h, name);
      StepKeeps(c, h, Claim(name));
      HeldSettles(c, Step(c, h, Claim(name)), name);
      StepSettles(c, h, Claim(name), name);
    } else {
      HeldSettles(c, h, name);
    }
  }

  /** The requests under each key once the packet is through. */
  function WithRequest(verdict: Verdict, s: map<string, Q.Request>): map<string, Q.Request> {
    if verdict.NewRequest? then s[verdict.id := verdict.request] else s
  }

  lemma NoNewConflict(c: Config, p: Packet, r: Packet, s: map<string, Q.Request>)
    requires !Conflicts(c, r, s) && !Rivals(c, p, r)
    ensures !Conflicts(c, r, WithRequest(VerdictOf(c, p, s), s))
  {
  }

  lemma FirstSettles(h: Handoff, first: string, verdict: Verdict)
    requires first in h.pending && !verdict.ConflictingKey?
    ensures var v := AfterVerdict(h, first, verdict);
      && v.queue.submitted == WithRequest(verdict, h.queue.submitted) && v.dropped == h.dropped
      && Settled(v, first) && v.processing == h.processing && v.pending == h.pending - {first} && v.ingestor == h.ingestor
  {
  }

  lemma SettledStays(h: Handoff, first: string, verdict: Verdict, x: string)
    requires first in h.pending && Settled(h, x)
    ensures Settled(AfterVerdict(h, first, verdict), x)
  {
  }

  /** A round in which the first packet is settled leaves the packets behind it clear. */
  lemma RoundStaysClear(c: Config, h: Handoff, first: string, name: string)
    requires Inv(c, h) && Clear(c, h, name) && first in h.pending && StringLe(first, name)
    ensures Clear(c, AfterIngest(c, h, first), name) && Settled(AfterIngest(c, h, first), first)
  {
    assert OkAt(c, h, first);
    assert UpTo(h, first, name);
    var verdict := VerdictOf(c, h.pending[first], h.queue.submitted);
    FirstSettles(h, first, verdict);
    var v := AfterVerdict(h, first, verdict);
    forall x | UpTo(v, x, name)
      ensures UpTo(h, x, name) && !Conflicts(c, v.dropped[x], v.queue.submitted)
    {
      if Settled(h, x) { SettledStays(h, first, verdict, x); }
      assert UpTo(h, x, name) && !Rivals(c, h.dropped[first], h.dropped[x]);
      NoNewConflict(c, h.dropped[first], h.dropped[x], h.queue.submitted);
    }
  }

  /** The next round, for a clear packet. */
  lemma OneRound(c: Config, h: Handoff, name: string) returns (first: string, v: Handoff)
    requires Inv(c, h) && h.ingestor == Idle && h.processing == map[] && name in h.pending && Clear(c, h, name)
    ensures Reaches(c, h, v) && Clear(c, v, name)
    ensures v.ingestor == Idle && v.processing == map[] && first in h.pending && v.pending == h.pending - {first}
    ensures first == name ==> Settled(v, name)
  {
    assert name in h.pending.Keys;
    first := LeastOf(h.pending.Keys);
    v := AfterIngest(c, h, first);
    IngestIsRun(c, h, first);
    RoundStaysClear(c, h, first, name);
    assert OkAt(c, h, first) && UpTo(h, first, name);
    FirstSettles(h, first, VerdictOf(c, h.pending[first], h.queue.submitted));
  }

  /** Round after round, until it is the packet's turn. */
  lemma {:induction false} RoundsSettle(c: Config, h: Handoff, name: string)
    requires Inv(c, h) && h.ingestor == Idle && h.processing == map[] && name in h.pending && Clear(c, h, name)
    ensures CanSettle(c, h, name)
    decreases h.pending.Keys
  {
    var first, v := OneRound(c, h, name);
    ReachesKeeps(c, h, v);
    if first != name {
      RoundsSettle(c, v, name);
      SettlesVia(c, h, v, name);
    }
  }

  lemma ClearSettles(c: Config, h: Handoff, name: string)
    requires Inv(c, h) && name in h.dropped && !Settled(h, name) && Clear(c, h, name)
    ensures CanSettle(c, h, name)
  {
    var h1 := Step(c, h, Crash);
    StepKeeps(c, h, Crash);
    Disjoint(c, h1);
    ReturnedApart(h1);
    ReturnIsRun(c, h1);
    assert OkAt(c, h, name);
    assert Clear(c, Returned(h1), name);
    RoundsSettle(c, Returned(h1), name);
    SettlesVia(c, h1, Returned(h1), name);
    StepSettles(c, h, Crash, name);
  }

  // ---- what never settles ----------------------------------------------------------------------------

  /** Its key is another request's, or it waits behind a packet that never goes away. */
  ghost predicate Doomed(c: Config, h: Handoff, name: string) {
    && name in h.dropped && !Settled(h, name)
    && (Conflicts(c, h.dropped[name], h.queue.submitted) || (!AtHand(h, name) && !Clear(c, h, name)))
  }

  lemma SettledAs(c: Config, h: Handoff, name: string)
    requires Inv(c, h) && Settled(h, name)
    ensures name in h.dropped && (Refused(c, h.dropped[name]) || Queued(c, h.dropped[name], h.queue.submitted))
  {
    assert OkAt(c, h, name);
  }

  lemma ConflictStays(c: Config, p: Packet, s: map<string, Q.Request>, t: map<string, Q.Request>)
    requires Conflicts(c, p, s) && Grows(s, t)
    ensures Conflicts(c, p, t)
  {
  }

  /** Of two rivals one settles at most; then the other conflicts. */
  lemma RivalsNotClear(c: Config, v: Handoff, x: string, y: string, name: string)
    requires Inv(c, v) && x in v.dropped && y in v.dropped && StringLe(x, name) && StringLe(y, name)
    requires Rivals(c, v.dropped[x], v.dropped[y])
    ensures !Clear(c, v, name)
  {
    if Settled(v, x) { SettledAs(c, v, x); }
    if Settled(v, y) { SettledAs(c, v, y); }
    assert UpTo(v, x, name) || Settled(v, x);
    assert UpTo(v, y, name) || Settled(v, y);
  }

  lemma ConflictNotClear(c: Config, v: Handoff, x: string, name: string)
    requires Inv(c, v) && x in v.dropped && StringLe(x, name) && Conflicts(c, v.dropped[x], v.queue.submitted)
    ensures !Settled(v, x) && !Clear(c, v, name)
  {
    if Settled(v, x) { SettledAs(c, v, x); }
    assert UpTo(v, x, name);
  }

  lemma NotClearStays(c: Config, h: Handoff, a: Action, name: string)
    requires Inv(c, h) && Enabled(h, a) && !Clear(c, h, name)
    ensures !Clear(c, Step(c, h, a), name)
  {
    var v := Step(c, h, a);
    StepKeeps(c, h, a);
    StepGrows(c, h, a);
    if x :| UpTo(h, x, name) && Conflicts(c, h.dropped[x], h.queue.submitted) {
      DroppedStep(c, h, a, x);
      ConflictStays(c, h.dropped[x], h.queue.submitted, v.queue.submitted);
      ConflictNotClear(c, v, x, name);
    } else {
      var x, y :| UpTo(h, x, name) && UpTo(h, y, name) && Rivals(c, h.dropped[x], h.dropped[y]);
      DroppedStep(c, h, a, x);
      DroppedStep(c, h, a, y);
      RivalsNotClear(c, v, x, y, name);
    }
  }

  /** The list starts with the packet only if it is clear or conflicts itself. */
  lemma ListedIsFirst(c: Config, h: Handoff, name: string)
    requires Inv(c, h) && Enabled(h, List(name)) && name in h.dropped && !Conflicts(c, h.dropped[name], h.queue.submitted)
    ensures Clear(c, h, name)
  {
    forall x | UpTo(h, x, name)
      ensures x == name
    {
      assert OkAt(c, h, x);
      StringLeTotal(x, name);
    }
  }

  lemma NotAtHandStays(c: Config, h: Handoff, a: Action, name: string)
    requires Inv(c, h) && Enabled(h, a) && !AtHand(h, name) && a != List(name)
    ensures !AtHand(Step(c, h, a), name)
  {
    if a.Submit? {
      HandedQueue(c, h, a.name);
      HandedAsFiles(h, a.name, VerdictOf(c, h.processing[a.name], h.queue.submitted), Handed(c, h, a.name));
    } else {
      OthersAtHand(c, h, a, name);
    }
  }

  lemma OthersAtHand(c: Config, h: Handoff, a: Action, name: string)
    requires Enabled(h, a) && !AtHand(h, name) && a != List(name) && !a.Submit?
    ensures !AtHand(Step(c, h, a), name)
  {
  }

  lemma UnsettledStays(c: Config, h: Handoff, a: Action, name: string)
    requires Inv(c, h) && Enabled(h, a) && name in h.dropped && !Settled(h, name) && !AtHand(h, name)
    ensures !Settled(Step(c, h, a), name)
  {
    if Target(h, a) != Some(name) {
      StepFrame(c, h, a, name);
      assert At(Step(c, h, a), name).accepted.None? && At(Step(c, h, a), name).review.None?;
    } else if a.Recover? {
      assert OkAt(c, h, name);
      assert Step(c, h, a) == Recovered(h, name);
    }
  }

  lemma DoomedStep(c: Config, h: Handoff, a: Action, name: string)
    requires Inv(c, h) && Enabled(h, a) && Doomed(c, h, name)
    ensures Doomed(c, Step(c, h, a), name)
  {
    var v := Step(c, h, a);
    StepKeeps(c, h, a);
    StepGrows(c, h, a);
    DroppedStep(c, h, a, name);
    if Conflicts(c, h.dropped[name], h.queue.submitted) {
      ConflictStays(c, h.dropped[name], h.queue.submitted, v.queue.submitted);
      StringLeTotal(name, name);
      ConflictNotClear(c, v, name, name);
    } else {
      if a == List(name) { ListedIsFirst(c, h, name); }
      NotClearStays(c, h, a, name);
      NotAtHandStays(c, h, a, name);
      UnsettledStays(c, h, a, name);
    }
  }

  lemma {:induction false} DoomedRun(c: Config, h: Handoff, acts: seq<Action>, name: string)
    requires Inv(c, h) && Legal(c, h, acts) && Doomed(c, h, name)
    ensures !Settled(Final(c, h, acts), name)
    decreases |acts|
  {
    if acts != [] {
      DoomedStep(c, h, acts[0], name);
      StepKeeps(c, h, acts[0]);
      DoomedRun(c, Step(c, h, acts[0]), acts[1..], name);
    }
  }

  /** Whatever crashed before and whatever arrives, some run still accepts or reviews a dropped packet exactly
      when it is settled already, or is the one at hand and no other request holds its key, or no waiting packet
      with a name up to its own can meet a different request under its key. */
  lemma SettlesExactly(c: Config, h: Handoff, name: string)
    requires Reachable(c, h) && name in h.dropped
    ensures CanSettle(c, h, name) <==>
      Settled(h, name)
      || (AtHand(h, name) && !Conflicts(c, h.dropped[name], h.queue.submitted))
      || Clear(c, h, name)
  {
    ReachableInv(c, h);
    if Settled(h, name) {
      ReachesSelf(c, h);
    } else if AtHand(h, name) && !Conflicts(c, h.dropped[name], h.queue.submitted) {
      AtHandSettles(c, h, name);
    } else if Clear(c, h, name) {
      ClearSettles(c, h, name);
    } else {
      assert Doomed(c, h, name);
      forall acts | Legal(c, h, acts)
        ensures !Settled(Final(c, h, acts), name)
      {
        DoomedRun(c, h, acts, name);
      }
    }
  }
}
