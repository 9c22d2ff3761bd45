/** Packets of recognised text on their way into the inference queue: the ingestor moves each through
    `pending`, `processing` and then `accepted` or `review`, and submits it in between. The ingestor and the
    queue's worker run as one process that may die between any two file operations; packets and foreign
    requests arrive at any time. */
module HandoffStates {
  import opened Common
  import opened Sorting
  import Q = InferenceStates
  import T = InferenceTheorems

  datatype Raw = Raw(
    ocrText: string,
    sourceKind: string,
    languages: Option<seq<string>>,
    pageCount: Option<int>,
    mimeType: Option<string>)

  /** A file that is no JSON object of the handoff's fields is `Malformed`. */
  datatype Packet = Malformed | Packet(key: string, payload: Raw)

  datatype Config = Config(requestType: string, model: string, aliases: seq<string>, maxAttempts: int, timeoutSeconds: int)

  predicate LengthIn(s: string, low: nat, high: nat) {
    low <= |s| <= high
  }

  predicate ValidRaw(p: Raw) {
    && LengthIn(p.ocrText, 1, 24000)
    && p.sourceKind == "mfp"
    && (p.languages.Some? ==>
          |p.languages.value| <= 8 && forall i :: 0 <= i < |p.languages.value| ==> LengthIn(p.languages.value[i], 2, 16))
    && (p.pageCount.Some? ==> 1 <= p.pageCount.value <= 500)
    && (p.mimeType.Some? ==> LengthIn(p.mimeType.value, 1, 120))
  }

  predicate ValidPacket(p: Packet) {
    p.Packet? && LengthIn(p.key, 8, 240) && ValidRaw(p.payload)
  }

  /** What the input schema asks of the bound aliases. */
  predicate ValidAliases(c: Config) {
    |c.aliases| == 3 && forall i :: 0 <= i < 3 ==> LengthIn(c.aliases[i], 1, 80)
  }

  function Bound(c: Config, p: Raw): Q.Payload {
    Q.Payload(p.ocrText, p.sourceKind, p.languages, p.pageCount, p.mimeType, c.aliases)
  }

  function RequestFor(c: Config, p: Packet): Q.Request
    requires p.Packet?
  {
    Q.Request(c.requestType, c.model, Bound(c, p.payload), p.key, c.maxAttempts, c.timeoutSeconds)
  }

  function IdFor(c: Config, p: Packet): string
    requires p.Packet?
  {
    Q.IdOf(RequestFor(c, p))
  }

  /** Does some schema refuse the packet, whatever is in the queue? */
  predicate Refused(c: Config, p: Packet) {
    !ValidPacket(p) || !ValidAliases(c) || !Q.ValidRequest(RequestFor(c, p))
  }

  /** The packet's request is in the queue under its key. */
  predicate Queued(c: Config, p: Packet, submitted: map<string, Q.Request>) {
    !Refused(c, p) && IdFor(c, p) in submitted && submitted[IdFor(c, p)] == RequestFor(c, p)
  }

  /** Another request holds the packet's key. */
  predicate Conflicts(c: Config, p: Packet, submitted: map<string, Q.Request>) {
    !Refused(c, p) && IdFor(c, p) in submitted && submitted[IdFor(c, p)] != RequestFor(c, p)
  }

  datatype Receipt = QueuedReceipt(id: string) | DuplicateReceipt(id: string) | ReviewReceipt

  datatype Phase =
    | Claimed
    | Submitted(created: bool)
    | Rejected
    | Receipted(accept: bool)

  /** `Listed` is a call that has recovered the claims and listed `pending`, with `name` first in its list. */
  datatype Ingestor = Idle | Listed(name: string) | Holding(name: string, phase: Phase)

  /** `dropped` and `creator` are history: what was put under each name, and which packet's submission created
      each request. */
  datatype Handoff = Handoff(
    pending: map<string, Packet>,
    processing: map<string, Packet>,
    accepted: map<string, Packet>,
    review: map<string, Packet>,
    receipts: map<string, Receipt>,
    ingestor: Ingestor,
    queue: Q.Queue,
    dropped: map<string, Packet>,
    creator: map<string, string>)

  const EMPTY := Handoff(map[], map[], map[], map[], map[], Idle, Q.EMPTY, map[], map[])

  datatype Action =
    | Drop(name: string, packet: Packet)
    | QueueStep(step: Q.Action)
    | Recover(name: string)
    | List(name: string)
    | Claim(name: string)
    | Submit(name: string)
    | WriteReceipt(name: string)
    | Move(name: string)
    | Crash

  predicate Earliest(pending: map<string, Packet>, name: string) {
    name in pending && forall x :: x in pending ==> StringLe(name, x)
  }

  predicate Enabled(h: Handoff, a: Action) {
    match a
    case Drop(name, _) => name !in h.dropped
    case QueueStep(s) => Q.Enabled(h.queue, s)
    case Recover(name) => h.ingestor == Idle && name in h.processing
    case List(name) => h.ingestor == Idle && h.processing == map[] && Earliest(h.pending, name)
    case Claim(name) => h.ingestor == Listed(name) && name in h.pending
    case Submit(name) => h.ingestor == Holding(name, Claimed) && name in h.processing
    case WriteReceipt(name) =>
      && h.ingestor.Holding? && h.ingestor.name == name && name in h.processing
      && (h.ingestor.phase.Rejected? || (h.ingestor.phase.Submitted? && h.processing[name].Packet?))
    case Move(name) =>
      h.ingestor.Holding? && h.ingestor.name == name && h.ingestor.phase.Receipted? && name in h.processing
    case Crash => true
  }

  function Step(c: Config, h: Handoff, a: Action): Handoff
    requires Enabled(h, a)
  {
    match a
    case Drop(name, packet) => h.(pending := h.pending[name := packet], dropped := h.dropped[name := packet])
    case QueueStep(s) => h.(queue := Q.Step(h.queue, s))
    case Recover(name) => Recovered(h, name)
    case List(name) => h.(ingestor := Listed(name))
    case Claim(name) =>
      h.(processing := h.processing[name := h.pending[name]], pending := h.pending - {name}, ingestor := Holding(name, Claimed))
    case Submit(name) => Handed(c, h, name)
    case WriteReceipt(name) => Receipted(c, h, name)
    case Move(name) =>
      if h.ingestor.phase.accept then
        h.(accepted := h.accepted[name := h.processing[name]], processing := h.processing - {name}, ingestor := Idle)
      else
        h.(review := h.review[name := h.processing[name]], processing := h.processing - {name}, ingestor := Idle)
    case Crash => h.(ingestor := Idle)
  }

  /** `_recover_processing_claims` on one file. */
  function Recovered(h: Handoff, name: string): Handoff
    requires name in h.processing
  {
    if name in h.pending then
      h.(review := h.review[name := h.processing[name]], processing := h.processing - {name})
    else
      h.(pending := h.pending[name := h.processing[name]], processing := h.processing - {name})
  }

  /** Validation and submission. A key conflict is an error the ingestor does not handle: it leaves the packet
      in `processing`. */
  function Handed(c: Config, h: Handoff, name: string): Handoff
    requires name in h.processing
  {
    var p := h.processing[name];
    if !ValidPacket(p) || !ValidAliases(c) then h.(ingestor := Holding(name, Rejected))
    else
      var (q, answer) := Q.Submitted(h.queue, RequestFor(c, p));
      match answer
      case Success((id, created)) =>
        h.(queue := q, ingestor := Holding(name, Submitted(created)),
           creator := if created then h.creator[id := name] else h.creator)
      case Failure(SchemaInvalid) => h.(ingestor := Holding(name, Rejected))
      case Failure(_) => h.(ingestor := Idle)
  }

  function Receipted(c: Config, h: Handoff, name: string): Handoff
    requires h.ingestor.Holding? && name in h.processing
    requires h.ingestor.phase.Submitted? ==> h.processing[name].Packet?
  {
    var ok := h.ingestor.phase.Submitted?;
    var receipt :=
      if !ok then ReviewReceipt
      else if h.ingestor.phase.created then QueuedReceipt(IdFor(c, h.processing[name]))
      else DuplicateReceipt(IdFor(c, h.processing[name]));
    h.(receipts := h.receipts[name := receipt], ingestor := Holding(name, Phase.Receipted(ok)))
  }

  // ---- one packet at a time --------------------------------------------------------------------------

  datatype Desk = Desk(
    pending: Option<Packet>,
    processing: Option<Packet>,
    accepted: Option<Packet>,
    review: Option<Packet>,
    receipt: Option<Receipt>,
    dropped: Option<Packet>)

  function At(h: Handoff, name: string): Desk {
    Desk(Lookup(h.pending, name), Lookup(h.processing, name), Lookup(h.accepted, name), Lookup(h.review, name),
         Lookup(h.receipts, name), Lookup(h.dropped, name))
  }

  function One(p: Option<Packet>): nat {
    if p.Some? then 1 else 0
  }

  function Places(d: Desk): nat {
    One(d.pending) + One(d.processing) + One(d.accepted) + One(d.review)
  }

  function Held(d: Desk): Option<Packet> {
    if d.pending.Some? then d.pending
    else if d.processing.Some? then d.processing
    else if d.accepted.Some? then d.accepted
    else d.review
  }

  function PhaseAt(i: Ingestor, name: string): Option<Phase> {
    if i.Holding? && i.name == name then Some(i.phase) else None
  }

  /** The receipt speaks of this packet, and a QUEUED receipt is the creator's. */
  predicate ReceiptOk(c: Config, name: string, p: Packet, receipt: Receipt, submitted: map<string, Q.Request>, creator: map<string, string>) {
    match receipt
    case QueuedReceipt(id) => Queued(c, p, submitted) && id == IdFor(c, p) && id in creator && creator[id] == name
    case DuplicateReceipt(id) => Queued(c, p, submitted) && id == IdFor(c, p)
    case ReviewReceipt => Refused(c, p)
  }

  predicate PhaseOk(c: Config, name: string, p: Packet, phase: Phase, receipt: Option<Receipt>, submitted: map<string, Q.Request>, creator: map<string, string>) {
    match phase
    case Claimed => true
    case Submitted(created) => Queued(c, p, submitted) && (created ==> IdFor(c, p) in creator && creator[IdFor(c, p)] == name)
    case Rejected => Refused(c, p)
    case Receipted(accept) => receipt.Some? && (accept <==> !receipt.value.ReviewReceipt?)
  }

  predicate DeskOk(c: Config, name: string, d: Desk, phase: Option<Phase>, submitted: map<string, Q.Request>, creator: map<string, string>) {
    if d.dropped.None? then Places(d) == 0 && d.receipt.None? && phase.None?
    else
      && Places(d) == 1 && Held(d) == d.dropped
      && (d.receipt.Some? ==> ReceiptOk(c, name, d.dropped.value, d.receipt.value, submitted, creator))
      && (d.accepted.Some? ==> d.receipt.Some? && !d.receipt.value.ReviewReceipt?)
      && (d.review.Some? ==> d.receipt == Some(ReviewReceipt))
      && (phase.Some? ==> d.processing.Some? && PhaseOk(c, name, d.dropped.value, phase.value, d.receipt, submitted, creator))
  }

  predicate OkAt(c: Config, h: Handoff, name: string) {
    DeskOk(c, name, At(h, name), PhaseAt(h.ingestor, name), h.queue.submitted, h.creator)
  }

  /** Only created requests have a creator. */
  ghost predicate CreatorsOk(h: Handoff) {
    forall id :: id in h.creator ==> id in h.queue.submitted
  }

  /** A listed packet is still there. */
  predicate ListedOk(h: Handoff) {
    h.ingestor.Listed? ==> h.ingestor.name in h.pending
  }

  ghost predicate Inv(c: Config, h: Handoff) {
    Q.Inv(h.queue) && CreatorsOk(h) && ListedOk(h) && forall name: string :: OkAt(c, h, name)
  }

  // ---- history only grows ----------------------------------------------------------------------------

  ghost predicate Grows<V>(m: map<string, V>, n: map<string, V>) {
    forall k :: k in m ==> k in n && n[k] == m[k]
  }

  /** A growing history keeps every desk in order. */
  lemma DeskGrows(c: Config, name: string, d: Desk, phase: Option<Phase>, s: map<string, Q.Request>, s': map<string, Q.Request>,
      k: map<string, string>, k': map<string, string>)
    requires DeskOk(c, name, d, phase, s, k) && Grows(s, s') && Grows(k, k')
    ensures DeskOk(c, name, d, phase, s', k') && DeskOk(c, name, d, None, s', k')
  {
  }

  lemma QueueGrows(q: Q.Queue, s: Q.Action)
    requires Q.Inv(q) && Q.Enabled(q, s)
    ensures Grows(q.submitted, Q.Step(q, s).submitted)
  {
    forall id | id in q.submitted
      ensures id in Q.Step(q, s).submitted && Q.Step(q, s).submitted[id] == q.submitted[id]
    {
      assert Q.OkAt(q, id);
      T.SubmittedStep(q, s, id);
    }
  }

  /** The outcomes of a packet's submission. */
  datatype Verdict = RefusedPacket | ConflictingKey | AlreadyQueued(id: string) | NewRequest(id: string, request: Q.Request)

  /** It depends on the packet and the first request under its key alone. */
  function VerdictOf(c: Config, p: Packet, submitted: map<string, Q.Request>): Verdict {
    if Refused(c, p) then RefusedPacket
    else if IdFor(c, p) !in submitted then NewRequest(IdFor(c, p), RequestFor(c, p))
    else if submitted[IdFor(c, p)] == RequestFor(c, p) then AlreadyQueued(IdFor(c, p))
    else ConflictingKey
  }

  ghost predicate HandedAs(h: Handoff, name: string, verdict: Verdict, h': Handoff) {
    match verdict
    case RefusedPacket => h' == h.(ingestor := Holding(name, Rejected))
    case ConflictingKey => h' == h.(ingestor := Idle)
    case AlreadyQueued(_) => h' == h.(ingestor := Holding(name, Submitted(false)))
    case NewRequest(id, r) =>
      && h'.queue == Q.Created(h.queue, id, r)
      && h' == h.(queue := h'.queue, ingestor := Holding(name, Submitted(true)), creator := h.creator[id := name])
  }

  /** What the packet's submission does. */
  lemma HandedQueue(c: Config, h: Handoff, name: string)
    requires Inv(c, h) && name in h.processing
    ensures HandedAs(h, name, VerdictOf(c, h.processing[name], h.queue.submitted), Handed(c, h, name))
  {
    var p := h.processing[name];
    if !Refused(c, p) {
      assert Q.OkAt(h.queue, IdFor(c, p));
    }
  }

  lemma CreatedKeeps(q: Q.Queue, r: Q.Request)
    requires Q.Inv(q) && Q.ValidRequest(r) && Q.IdOf(r) !in q.submitted
    ensures Q.Step(q, Q.Submit(r)) == Q.Created(q, Q.IdOf(r), r) && Q.Inv(Q.Created(q, Q.IdOf(r), r))
  {
    assert Q.OkAt(q, Q.IdOf(r));
    assert Q.Step(q, Q.Submit(r)) == Q.Created(q, Q.IdOf(r), r);
    Q.StepKeeps(q, Q.Submit(r));
  }

  ghost predicate GrowsTo(h: Handoff, h': Handoff) {
    && Q.Inv(h'.queue) && CreatorsOk(h')
    && Grows(h.queue.submitted, h'.queue.submitted) && Grows(h.creator, h'.creator)
  }

  lemma AddGrows<V>(m: map<string, V>, k: string, v: V)
    requires k !in m
    ensures Grows(m, m[k := v])
  {
  }

  lemma NewRequestGrows(h: Handoff, name: string, id: string, r: Q.Request, h': Handoff)
    requires Q.Inv(h.queue) && CreatorsOk(h) && Q.ValidRequest(r) && Q.IdOf(r) == id && id !in h.queue.submitted
    requires h'.queue == Q.Created(h.queue, id, r) && h'.creator == h.creator[id := name]
    ensures GrowsTo(h, h')
  {
    CreatedKeeps(h.queue, r);
    AddGrows(h.queue.submitted, id, r);
    AddGrows(h.creator, id, name);
  }

  lemma HandedAsGrows(h: Handoff, name: string, verdict: Verdict, h': Handoff)
    requires Q.Inv(h.queue) && CreatorsOk(h) && HandedAs(h, name, verdict, h')
    requires verdict.NewRequest? ==>
      Q.ValidRequest(verdict.request) && Q.IdOf(verdict.request) == verdict.id && verdict.id !in h.queue.submitted
    ensures GrowsTo(h, h')
  {
    if verdict.NewRequest? {
      NewRequestGrows(h, name, verdict.id, verdict.request, h');
    }
  }

  lemma HandedGrows(c: Config, h: Handoff, name: string)
    requires Inv(c, h) && name in h.processing
    ensures GrowsTo(h, Handed(c, h, name))
  {
    HandedQueue(c, h, name);
    HandedAsGrows(h, name, VerdictOf(c, h.processing[name], h.queue.submitted), Handed(c, h, name));
  }

  lemma StepGrows(c: Config, h: Handoff, a: Action)
    requires Inv(c, h) && Enabled(h, a)
    ensures GrowsTo(h, Step(c, h, a))
  {
    if a.QueueStep? {
      Q.StepKeeps(h.queue, a.step);
      QueueGrows(h.queue, a.step);
    } else if a.Submit? {
      HandedGrows(c, h, a.name);
    }
  }

  // ---- every file operation keeps the invariant ------------------------------------------------------

  function Target(h: Handoff, a: Action): Option<string> {
    match a
    case QueueStep(_) => None
    case List(_) => None
    case Crash => None
    case _ => Some(a.name)
  }

  predicate SameFiles(h: Handoff, h': Handoff) {
    && h'.pending == h.pending && h'.processing == h.processing && h'.accepted == h.accepted && h'.review == h.review
    && h'.receipts == h.receipts && h'.dropped == h.dropped
  }

  lemma HandedAsFiles(h: Handoff, name: string, verdict: Verdict, h': Handoff)
    requires HandedAs(h, name, verdict, h')
    ensures SameFiles(h, h') && (h'.ingestor == Idle || (h'.ingestor.Holding? && h'.ingestor.name == name))
  {
  }

  lemma SameDesk(h: Handoff, h': Handoff, name: string)
    requires SameFiles(h, h')
    ensures At(h', name) == At(h, name)
  {
  }

  lemma HandedAsFrame(h: Handoff, name: string, verdict: Verdict, h': Handoff, other: string)
    requires HandedAs(h, name, verdict, h')
    ensures At(h', other) == At(h, other)
    ensures other != name ==> PhaseAt(h'.ingestor, other).None?
  {
    HandedAsFiles(h, name, verdict, h');
    SameDesk(h, h', other);
  }

  lemma HandedFrame(c: Config, h: Handoff, name: string, other: string)
    requires Inv(c, h) && name in h.processing && name != other
    ensures At(Handed(c, h, name), other) == At(h, other)
    ensures PhaseAt(Handed(c, h, name).ingestor, other).None?
  {
    HandedQueue(c, h, name);
    HandedAsFrame(h, name, VerdictOf(c, h.processing[name], h.queue.submitted), Handed(c, h, name), other);
  }

  lemma FileFrame(c: Config, h: Handoff, a: Action, name: string)
    requires Enabled(h, a) && Target(h, a).Some? && Target(h, a) != Some(name)
    requires a.Drop? || a.Recover? || a.Claim?
    ensures At(Step(c, h, a), name) == At(h, name)
  {
  }

  lemma MoveFrame(c: Config, h: Handoff, x: string, name: string)
    requires Enabled(h, Move(x)) && x != name
    ensures At(Step(c, h, Move(x)), name) == At(h, name)
  {
    var p := h.processing[x];
    if h.ingestor.phase.accept {
      assert Step(c, h, Move(x)) == h.(accepted := h.accepted[x := p], processing := h.processing - {x}, ingestor := Idle);
    } else {
      assert Step(c, h, Move(x)) == h.(review := h.review[x := p], processing := h.processing - {x}, ingestor := Idle);
    }
  }

  lemma ReceiptFrame(c: Config, h: Handoff, x: string, name: string)
    requires Enabled(h, WriteReceipt(x)) && x != name
    ensures At(Step(c, h, WriteReceipt(x)), name) == At(h, name)
  {
  }

  lemma PhaseFrame(c: Config, h: Handoff, a: Action, name: string)
    requires Enabled(h, a) && Target(h, a) != Some(name) && !a.Submit?
    ensures var p := PhaseAt(Step(c, h, a).ingestor, name); p.None? || p == PhaseAt(h.ingestor, name)
  {
  }

  /** A file operation leaves all other packets alone. */
  lemma StepFrame(c: Config, h: Handoff, a: Action, name: string)
    requires Inv(c, h) && Enabled(h, a) && Target(h, a) != Some(name)
    ensures At(Step(c, h, a), name) == At(h, name)
    ensures var p := PhaseAt(Step(c, h, a).ingestor, name); p.None? || p == PhaseAt(h.ingestor, name)
  {
    if a.Submit? {
      HandedFrame(c, h, a.name, name);
    } else {
      PhaseFrame(c, h, a, name);
      if a.Drop? || a.Recover? || a.Claim? {
        FileFrame(c, h, a, name);
      } else if a.Move? {
        MoveFrame(c, h, a.name, name);
      } else if a.WriteReceipt? {
        ReceiptFrame(c, h, a.name, name);
      }
    }
  }

  /** What submission decides is right for the packet. */
  lemma HandedAsPhase(c: Config, h: Handoff, name: string, p: Packet, h': Handoff)
    requires HandedAs(h, name, VerdictOf(c, p, h.queue.submitted), h')
    ensures var phase := PhaseAt(h'.ingestor, name);
      phase.Some? ==> !phase.value.Receipted? && PhaseOk(c, name, p, phase.value, None, h'.queue.submitted, h'.creator)
  {
  }

  lemma DeskWithPhase(c: Config, name: string, d: Desk, phase: Phase, s: map<string, Q.Request>, k: map<string, string>)
    requires DeskOk(c, name, d, None, s, k) && d.processing.Some? && !phase.Receipted?
    requires PhaseOk(c, name, d.processing.value, phase, None, s, k)
    ensures DeskOk(c, name, d, Some(phase), s, k)
  {
  }

  lemma HandedAsKeeps(c: Config, h: Handoff, name: string, h': Handoff)
    requires name in h.processing && OkAt(c, h, name) && GrowsTo(h, h')
    requires HandedAs(h, name, VerdictOf(c, h.processing[name], h.queue.submitted), h')
    ensures OkAt(c, h', name)
  {
    HandedAsFrame(h, name, VerdictOf(c, h.processing[name], h.queue.submitted), h', name);
    HandedAsPhase(c, h, name, h.processing[name], h');
    DeskGrows(c, name, At(h, name), PhaseAt(h.ingestor, name), h.queue.submitted, h'.queue.submitted, h.creator, h'.creator);
    if PhaseAt(h'.ingestor, name).Some? {
      DeskWithPhase(c, name, At(h, name), PhaseAt(h'.ingestor, name).value, h'.queue.submitted, h'.creator);
    }
  }

  lemma SubmitKeeps(c: Config, h: Handoff, name: string)
    requires Inv(c, h) && Enabled(h, Submit(name)) && OkAt(c, h, name)
    ensures OkAt(c, Handed(c, h, name), name)
  {
    HandedGrows(c, h, name);
    HandedQueue(c, h, name);
    HandedAsKeeps(c, h, name, Handed(c, h, name));
  }

  lemma FileKeeps(c: Config, h: Handoff, a: Action, name: string)
    requires Enabled(h, a) && OkAt(c, h, name)
    requires (a.Drop? && a.name == name) || a == Recover(name) || a == Claim(name)
    ensures OkAt(c, Step(c, h, a), name)
  {
  }

  lemma ReceiptKeeps(c: Config, h: Handoff, name: string)
    requires Enabled(h, WriteReceipt(name)) && OkAt(c, h, name)
    ensures OkAt(c, Step(c, h, WriteReceipt(name)), name)
  {
  }

  lemma MoveKeeps(c: Config, h: Handoff, name: string)
    requires Enabled(h, Move(name)) && OkAt(c, h, name)
    ensures OkAt(c, Step(c, h, Move(name)), name)
  {
  }

  lemma TargetKeeps(c: Config, h: Handoff, a: Action, name: string)
    requires Inv(c, h) && Enabled(h, a) && OkAt(c, h, name) && Target(h, a) == Some(name)
    ensures OkAt(c, Step(c, h, a), name)
  {
    if a.Submit? {
      SubmitKeeps(c, h, name);
    } else if a.WriteReceipt? {
      ReceiptKeeps(c, h, name);
    } else if a.Move? {
      MoveKeeps(c, h, name);
    } else {
      FileKeeps(c, h, a, name);
    }
  }

  lemma HandedListed(c: Config, h: Handoff, name: string)
    requires Inv(c, h) && name in h.processing
    ensures ListedOk(Handed(c, h, name))
  {
    HandedQueue(c, h, name);
    HandedAsFiles(h, name, VerdictOf(c, h.processing[name], h.queue.submitted), Handed(c, h, name));
  }

  lemma ListedKeeps(c: Config, h: Handoff, a: Action)
    requires Inv(c, h) && Enabled(h, a)
    ensures ListedOk(Step(c, h, a))
  {
    if a.Submit? {
      HandedListed(c, h, a.name);
    }
  }

  lemma StepKeeps(c: Config, h: Handoff, a: Action)
    requires Inv(c, h) && Enabled(h, a)
    ensures Inv(c, Step(c, h, a))
  {
    StepGrows(c, h, a);
    ListedKeeps(c, h, a);
    forall name: string
      ensures OkAt(c, Step(c, h, a), name)
    {
      assert OkAt(c, h, name);
      if Target(h, a) == Some(name) {
        TargetKeeps(c, h, a, name);
      } else {
        OtherKeeps(c, h, a, name);
      }
    }
  }

  lemma OtherKeeps(c: Config, h: Handoff, a: Action, name: string)
    requires Inv(c, h) && Enabled(h, a) && OkAt(c, h, name) && Target(h, a) != Some(name)
    ensures OkAt(c, Step(c, h, a), name)
  {
    StepGrows(c, h, a);
    StepFrame(c, h, a, name);
    var h' := Step(c, h, a);
    DeskGrows(c, name, At(h, name), PhaseAt(h.ingestor, name), h.queue.submitted, h'.queue.submitted, h.creator, h'.creator);
  }
}
