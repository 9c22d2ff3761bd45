/** The ingestor object. One call of `IngestOne` is a round of `HandoffRounds`. */
module HandoffIngestor {
  import opened Common
  import opened HandoffStates
  import opened HandoffTheorems
  import opened HandoffRounds
  import opened InferenceWorker
  import opened Sorting
  import Q = InferenceStates

  class FamilyDocumentHandoffIngestor {
    const config: Config
    const queue: InferenceQueue
    var pending: map<string, Packet>
    var processing: map<string, Packet>
    var accepted: map<string, Packet>
    var review: map<string, Packet>
    var receipts: map<string, Receipt>
    ghost var ingestor: Ingestor
    ghost var dropped: map<string, Packet>
    ghost var creator: map<string, string>

    ghost function State(): Handoff
      reads this, queue
    {
      Handoff(pending, processing, accepted, review, receipts, ingestor, queue.State(), dropped, creator)
    }

    constructor (config: Config, queue: InferenceQueue)
      ensures this.config == config && this.queue == queue
      ensures State() == EMPTY.(queue := queue.State())
    {
      this.config, this.queue := config, queue;
      pending, processing, accepted, review, receipts := map[], map[], map[], map[], map[];
      ingestor, dropped, creator := Idle, map[], map[];
    }

    /** Puts every claimed packet back, or into review if its place is taken. */
    method RecoverProcessingClaims()
      modifies this
      ensures State() == Returned(old(State()))
    {
      ghost var goal, h := Returned(State()), State();
      var names := processing.Keys;
      while names != {}
        invariant State() == h && names == h.processing.Keys
        invariant Returned(h) == goal
        decreases names
      {
        var name := LeastName(names);
        ReturnedOne(h, name);
        RecoverClaim(name);
        names, h := names - {name}, HandoffStates.Recovered(h, name);
      }
      NoneToReturn(h);
    }

    method RecoverClaim(name: string)
      requires name in processing
      modifies this
      ensures State() == HandoffStates.Recovered(old(State()), name)
    {
      if name in pending {
        review, processing := review[name := processing[name]], processing - {name};
      } else {
        pending, processing := pending[name := processing[name]], processing - {name};
      }
    }

    /** Recovers, then takes the first packet by name. `true` means a packet was settled; the one error that
        escapes is the key conflict. */
    method IngestOne() returns (answer: Result<bool, Q.QueueError>)
      requires Inv(config, State()) && ingestor == Idle
      modifies this, queue
      ensures Inv(config, State()) && Reaches(config, old(State()), State())
      ensures answer == Success(false) ==> State() == Returned(old(State())) && pending == map[]
      ensures answer != Success(false) ==> exists name ::
        (&& First(old(State()), name)
         && State() == AfterIngest(config, Returned(old(State())), name)
         && answer == if Conflicts(config, Returned(old(State())).pending[name], old(queue.State().submitted))
                      then Failure(Q.IdempotencyConflict) else Success(true))
    {
      ghost var h := State();
      Disjoint(config, h);
      ReturnIsRun(config, h);
      RecoverProcessingClaims();
      if pending == map[] {
        return Success(false);
      }
      assert pending.Keys != {} by {
        var x :| x in pending;
        assert x in pending.Keys;
      }
      var name := LeastName(pending.Keys);
      CallIsRun(config, h, name);
      SubmitAnswer(config, Returned(h), name);
      answer := Take(name);
      assert First(h, name);
    }

    /** Claims one packet, validates and submits it, writes the receipt and moves it on. */
    method Take(name: string) returns (answer: Result<bool, Q.QueueError>)
      requires name in pending && processing == map[] && AnswersByHistory(config, State(), name)
      modifies this, queue
      ensures State() == AfterIngest(config, old(State()), name)
      ensures answer == if Conflicts(config, old(pending)[name], old(queue.State().submitted)) then Failure(Q.IdempotencyConflict)
                        else Success(true)
    {
      var packet := pending[name];
      processing, pending := processing[name := packet], pending - {name};
      if !ValidPacket(packet) || !ValidAliases(config) {
        SendToReview(name);
        return Success(true);
      }
      var submission := queue.Submit(RequestFor(config, packet));
      match submission
      case Success((id, created)) =>
        Accept(name, id, created);
        return Success(true);
      case Failure(SchemaInvalid) =>
        SendToReview(name);
        return Success(true);
      case Failure(e) =>
        return Failure(e);
    }

    method Accept(name: string, id: string, created: bool)
      requires name in processing
      modifies this
      ensures State() == old(State()).(accepted := old(accepted)[name := old(processing)[name]], processing := old(processing) - {name},
                                       receipts := old(receipts)[name := if created then QueuedReceipt(id) else DuplicateReceipt(id)],
                                       creator := if created then old(creator)[id := name] else old(creator))
    {
      receipts := receipts[name := if created then QueuedReceipt(id) else DuplicateReceipt(id)];
      accepted, processing := accepted[name := processing[name]], processing - {name};
      if created {
        creator := creator[id := name];
      }
    }

    method SendToReview(name: string)
      requires name in processing
      modifies this
      ensures State() == old(State()).(review := old(review)[name := old(processing)[name]], processing := old(processing) - {name},
                                       receipts := old(receipts)[name := ReviewReceipt])
    {
      receipts := receipts[name := ReviewReceipt];
      review, processing := review[name := processing[name]], processing - {name};
    }
  }

  /** The queue answers the packet's submission by the first request under its key. */
  predicate AnswersByHistory(c: Config, h: Handoff, name: string)
    requires name in h.pending
  {
    var p := h.pending[name];
    p.Packet? ==>
      Q.Submitted(h.queue, RequestFor(c, p)) ==
      if !Q.ValidRequest(RequestFor(c, p)) then (h.queue, Failure(Q.SchemaInvalid))
      else if IdFor(c, p) !in h.queue.submitted then (Q.Created(h.queue, IdFor(c, p), RequestFor(c, p)), Success((IdFor(c, p), true)))
      else if h.queue.submitted[IdFor(c, p)] == RequestFor(c, p) then (h.queue, Success((IdFor(c, p), false)))
      else (h.queue, Failure(Q.IdempotencyConflict))
  }

  lemma SubmitAnswer(c: Config, h: Handoff, name: string)
    requires Inv(c, h) && name in h.pending
    ensures AnswersByHistory(c, h, name)
  {
    var p := h.pending[name];
    if p.Packet? {
      assert Q.OkAt(h.queue, IdFor(c, p));
    }
  }
}
