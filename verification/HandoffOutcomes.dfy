/** What becomes of a packet in one round of the ingestor, in terms of its desk alone. */
module HandoffOutcomes {
  import opened Common
  import opened HandoffStates
  import opened HandoffRounds
  import Q = InferenceStates

  /** The desk of a packet that lay in `pending`, once it was taken: in review if a schema refuses it, accepted with the
      receipt of the request it created or of the one that was there, and left in `processing` if a different request
      holds its key. */
  predicate IsIngested(c: Config, p: Packet, submitted: map<string, Q.Request>, d: Desk, t: Desk) {
    if Refused(c, p) then t == d.(pending := None, review := Some(p), receipt := Some(ReviewReceipt))
    else
      var id := c.requestType + ":" + p.key;
      if id !in submitted then t == d.(pending := None, accepted := Some(p), receipt := Some(QueuedReceipt(id)))
      else if submitted[id] == RequestFor(c, p) then t == d.(pending := None, accepted := Some(p), receipt := Some(DuplicateReceipt(id)))
      else t == d.(pending := None, processing := Some(p))
  }

  lemma Reviewed(h: Handoff, name: string, receipt: Receipt, x: string)
    requires name in h.pending
    ensures var p, d := h.pending[name], At(h, x);
      At(h.(pending := h.pending - {name}, review := h.review[name := p], receipts := h.receipts[name := receipt]), x)
      == if x == name then d.(pending := None, review := Some(p), receipt := Some(receipt)) else d
  {
  }

  lemma Accepted(h: Handoff, name: string, receipt: Receipt, x: string)
    requires name in h.pending
    ensures var p, d := h.pending[name], At(h, x);
      At(h.(pending := h.pending - {name}, accepted := h.accepted[name := p], receipts := h.receipts[name := receipt]), x)
      == if x == name then d.(pending := None, accepted := Some(p), receipt := Some(receipt)) else d
  {
  }

  lemma HeldBack(h: Handoff, name: string, x: string)
    requires name in h.pending
    ensures At(h.(pending := h.pending - {name}, processing := h.processing[name := h.pending[name]]), x)
            == if x == name then At(h, x).(pending := None, processing := Some(h.pending[name])) else At(h, x)
  {
  }

  /** Taking one packet touches no other desk, and the queue only if the packet is new to it: then it gets the packet's
      request. */
  lemma IngestExactly(c: Config, h: Handoff, name: string, x: string)
    requires name in h.pending
    ensures var p, v := h.pending[name], AfterIngest(c, h, name);
      && (if x == name then IsIngested(c, p, h.queue.submitted, At(h, x), At(v, x)) else At(v, x) == At(h, x))
      && v.queue == (if !Refused(c, p) && IdFor(c, p) !in h.queue.submitted then Q.Created(h.queue, IdFor(c, p), RequestFor(c, p))
                     else h.queue)
  {
    var p, v := h.pending[name], AfterIngest(c, h, name);
    if Refused(c, p) {
      Reviewed(h, name, ReviewReceipt, x);
      SameDesk(v, h.(pending := h.pending - {name}, review := h.review[name := p], receipts := h.receipts[name := ReviewReceipt]), x);
    } else {
      var id := c.requestType + ":" + p.key;
      assert id == IdFor(c, p);
      if id !in h.queue.submitted {
        Accepted(h, name, QueuedReceipt(id), x);
        SameDesk(v, h.(pending := h.pending - {name}, accepted := h.accepted[name := p], receipts := h.receipts[name := QueuedReceipt(id)]), x);
      } else if h.queue.submitted[id] == RequestFor(c, p) {
        Accepted(h, name, DuplicateReceipt(id), x);
        SameDesk(v, h.(pending := h.pending - {name}, accepted := h.accepted[name := p], receipts := h.receipts[name := DuplicateReceipt(id)]), x);
      } else {
        HeldBack(h, name, x);
        SameDesk(v, h.(pending := h.pending - {name}, processing := h.processing[name := p]), x);
      }
    }
  }

  lemma SameDesk(a: Handoff, b: Handoff, x: string)
    requires a.pending == b.pending && a.processing == b.processing && a.accepted == b.accepted && a.review == b.review
    requires a.receipts == b.receipts && a.dropped == b.dropped
    ensures At(a, x) == At(b, x)
  {
  }

  /** A recovered claim is back in `pending`, or in review where that place is taken; nothing else moves. */
  lemma ReturnExactly(h: Handoff, x: string)
    ensures var d, t := At(h, x), At(Returned(h), x);
      if d.processing.None? then t == d
      else if d.pending.Some? then t == d.(processing := None, review := d.processing)
      else t == d.(processing := None, pending := d.processing)
    ensures Returned(h).queue == h.queue && Returned(h).ingestor == h.ingestor
  {
    assert Lookup(Overlap(h.pending, h.processing), x) == if x in h.pending && x in h.processing then Some(h.processing[x]) else None;
  }
}
