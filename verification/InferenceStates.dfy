/** The local inference queue: request files that move between state directories by atomic renames.

    Every action below is one file operation (submission, done under its own lock, is one action), so a
    crash may come between any two of them. One worker at a time holds the worker lock; recovery of stale
    files runs under the same lock, hence only while the worker holds no claim. */
module InferenceStates {
  import opened Common
  import opened CanonicalRef

  /** The fields of the document payloads that the submitters send. */
  datatype Payload = Payload(
    ocrText: string,
    sourceKind: string,
    languages: Option<seq<string>>,
    pageCount: Option<int>,
    mimeType: Option<string>,
    aliases: seq<string>)

  datatype Request = Request(
    requestType: string,
    model: string,
    payload: Payload,
    key: string,
    maxAttempts: int,
    timeoutSeconds: int)

  datatype Reason = StaleProcessingRecovered | Reason(code: string)

  datatype Envelope = Envelope(request: Request, attempt: nat, nextAttemptAt: real, lastReason: Option<Reason>)

  datatype ResultFile = ResultFile(requestId: string, attempt: nat, output: string)

  const MAX_RESULT_ATTEMPT: nat := 5

  predicate TypeChar(c: char) {
    'a' <= c <= 'z' || '0' <= c <= '9' || c == '_' || c == '.' || c == '-'
  }

  predicate TypeName(s: string) {
    forall c :: c in s ==> TypeChar(c)
  }

  /** What `REQUEST_SCHEMA` demands of these fields. */
  predicate ValidRequest(r: Request) {
    && 3 <= |r.requestType| <= 96 && TypeName(r.requestType)
    && 1 <= |r.model| <= 128 && 8 <= |r.key| <= 240
    && 1 <= r.maxAttempts <= 5 && 5 <= r.timeoutSeconds <= 300
  }

  /** The text that is hashed to the request id, after its constant prefix. UUIDv5 (RFC 9562, section 5.5) is
      taken as injective, so the text stands for the id. */
  function RequestId(requestType: string, key: string): string {
    requestType + ":" + key
  }

  function IdOf(r: Request): string {
    RequestId(r.requestType, r.key)
  }

  /** A request id names one request type and one idempotency key, whatever colons the key holds. */
  lemma RequestIdInjective(type1: string, key1: string, type2: string, key2: string)
    requires TypeName(type1) && TypeName(type2)
    requires RequestId(type1, key1) == RequestId(type2, key2)
    ensures type1 == type2 && key1 == key2
  {
    var s := RequestId(type1, key1);
    assert forall j :: 0 <= j < |type1| ==> s[j] == type1[j] && type1[j] in type1;
    assert forall j :: 0 <= j < |type2| ==> s[j] == type2[j] && type2[j] in type2;
    IndexOfFirst(s, ':', |type1|);
    IndexOfFirst(s, ':', |type2|);
    assert type1 == s[..|type1|] && type2 == s[..|type2|];
    assert key1 == s[|type1| + 1..] && key2 == s[|type2| + 1..];
  }

  /** How far the worker is with the request it holds. */
  datatype Phase =
    | Moved                      // file renamed into processing, attempt not counted yet
    | Working                    // claim returned to the worker
    | ResultWritten              // result on disk, request not yet in done
    | FailWritten(again: bool)   // envelope rewritten, not yet moved to retry or quarantine
    | StaleWritten               // recovery rewrote the envelope, not yet moved to retry

  datatype Worker = Resting | Busy(id: string, phase: Phase)

  /** The directories. `submitted` and `recovered` are history: the request first accepted under each id, and
      how often recovery sent it back to retry. */
  datatype Queue = Queue(
    pending: map<string, Envelope>,
    processing: map<string, Envelope>,
    retry: map<string, Envelope>,
    done: map<string, Envelope>,
    quarantine: map<string, Envelope>,
    results: map<string, ResultFile>,
    worker: Worker,
    submitted: map<string, Request>,
    recovered: map<string, nat>)

  const EMPTY := Queue(map[], map[], map[], map[], map[], map[], Resting, map[], map[])

  datatype QueueError = SchemaInvalid | IdempotencyConflict | IdempotencyStateIncomplete

  /** The file of a request in the first of the five directories that has it. */
  function Find(q: Queue, id: string): Option<Envelope> {
    if id in q.pending then Some(q.pending[id])
    else if id in q.processing then Some(q.processing[id])
    else if id in q.retry then Some(q.retry[id])
    else if id in q.done then Some(q.done[id])
    else if id in q.quarantine then Some(q.quarantine[id])
    else None
  }

  /** `submit`: the queue afterwards, and (request id, created) or the error. */
  function Submitted(q: Queue, r: Request): (Queue, Result<(string, bool), QueueError>) {
    var id := IdOf(r);
    if !ValidRequest(r) then (q, Failure(SchemaInvalid))
    else match Find(q, id)
      case Some(e) => if e.request != r then (q, Failure(IdempotencyConflict)) else (q, Success((id, false)))
      case None =>
        if id in q.results then (q, Failure(IdempotencyStateIncomplete))
        else (Created(q, id, r), Success((id, true)))
  }

  function Created(q: Queue, id: string, r: Request): Queue {
    q.(pending := q.pending[id := Envelope(r, 0, 0.0, None)], submitted := q.submitted[id := r],
       recovered := q.recovered[id := 0])
  }

  /** One file operation. `id` is the request it works on. */
  datatype Action =
    | Submit(request: Request)
    | ClaimRetry(id: string, now: real)
    | ClaimPending(id: string)
    | ClaimWrite(id: string)
    | WriteResult(id: string, output: string)
    | MoveDone(id: string)
    | FailWrite(id: string, reason: Reason, retryable: bool, now: real)
    | FailRetry(id: string)
    | FailQuarantine(id: string)
    | RecoverDone(id: string)
    | RecoverDrop(id: string)
    | RecoverWrite(id: string, now: real)
    | RecoverMove(id: string)
    | Crash

  function Power2(n: nat): nat {
    if n == 0 then 1 else 2 * Power2(n - 1)
  }

  /** `min(60, 2 ** max(0, attempt - 1))`. */
  function Delay(attempt: nat): nat {
    var d := if attempt == 0 then 1 else Power2(attempt - 1);
    if d < 60 then d else 60
  }

  predicate Retries(e: Envelope, retryable: bool) {
    retryable && e.attempt < e.request.maxAttempts
  }

  /** Is this file operation the next one the program can do? */
  predicate Enabled(q: Queue, a: Action) {
    match a
    case Submit(_) => true
    case ClaimRetry(id, now) => q.worker == Resting && id in q.retry && q.retry[id].nextAttemptAt <= now
    case ClaimPending(id) => q.worker == Resting && id in q.pending
    case ClaimWrite(id) => q.worker == Busy(id, Moved) && id in q.processing
    case WriteResult(id, _) =>
      q.worker == Busy(id, Working) && id in q.processing && q.processing[id].attempt <= MAX_RESULT_ATTEMPT
    case MoveDone(id) => q.worker == Busy(id, ResultWritten) && id in q.processing
    case FailWrite(id, _, _, _) => q.worker == Busy(id, Working) && id in q.processing
    case FailRetry(id) => q.worker == Busy(id, FailWritten(true)) && id in q.processing
    case FailQuarantine(id) => q.worker == Busy(id, FailWritten(false)) && id in q.processing
    case RecoverDone(id) => q.worker == Resting && id in q.processing && id in q.results && q.results[id].requestId == id
    case RecoverDrop(id) => q.worker == Resting && id in q.processing && id in q.results && q.results[id].requestId != id
    case RecoverWrite(id, _) => q.worker == Resting && id in q.processing && id !in q.results
    case RecoverMove(id) => q.worker == Busy(id, StaleWritten) && id in q.processing
    case Crash => true
  }

  function Step(q: Queue, a: Action): Queue
    requires Enabled(q, a)
  {
    match a
    case Submit(r) => Submitted(q, r).0
    case ClaimRetry(id, _) =>
      q.(processing := q.processing[id := q.retry[id]], retry := q.retry - {id}, worker := Busy(id, Moved))
    case ClaimPending(id) =>
      q.(processing := q.processing[id := q.pending[id]], pending := q.pending - {id}, worker := Busy(id, Moved))
    case ClaimWrite(id) =>
      q.(processing := q.processing[id := Claimed(q.processing[id])], worker := Busy(id, Working))
    case WriteResult(id, output) =>
      q.(results := q.results[id := ResultFile(id, q.processing[id].attempt, output)], worker := Busy(id, ResultWritten))
    case MoveDone(id) =>
      q.(done := q.done[id := q.processing[id]], processing := q.processing - {id}, worker := Resting)
    case FailWrite(id, reason, retryable, now) =>
      q.(processing := q.processing[id := Failed(q.processing[id], reason, retryable, now)],
         worker := Busy(id, FailWritten(Retries(q.processing[id], retryable))))
    case FailRetry(id) =>
      q.(retry := q.retry[id := q.processing[id]], processing := q.processing - {id}, worker := Resting)
    case FailQuarantine(id) =>
      q.(quarantine := q.quarantine[id := q.processing[id]], processing := q.processing - {id}, worker := Resting)
    case RecoverDone(id) =>
      q.(done := q.done[id := q.processing[id]], processing := q.processing - {id})
    case RecoverDrop(id) =>
      q.(results := q.results - {id})
    case RecoverWrite(id, now) =>
      q.(processing := q.processing[id := Stale(q.processing[id], now)], worker := Busy(id, StaleWritten))
    case RecoverMove(id) =>
      q.(retry := q.retry[id := q.processing[id]], processing := q.processing - {id}, worker := Resting,
         recovered := q.recovered[id := 1 + Count(q, id)])
    case Crash => q.(worker := Resting)
  }

  function Claimed(e: Envelope): Envelope {
    e.(attempt := e.attempt + 1, nextAttemptAt := 0.0)
  }

  function Failed(e: Envelope, reason: Reason, retryable: bool, now: real): Envelope {
    var f := e.(lastReason := Some(reason));
    if Retries(e, retryable) then f.(nextAttemptAt := now + Delay(e.attempt) as real) else f
  }

  function Stale(e: Envelope, now: real): Envelope {
    e.(lastReason := Some(StaleProcessingRecovered), nextAttemptAt := now)
  }

  function Count(q: Queue, id: string): nat {
    if id in q.recovered then q.recovered[id] else 0
  }

  // ---- one request at a time -------------------------------------------------------------------------

  /** All that the disk holds of one request. */
  datatype Slot = Slot(
    pending: Option<Envelope>,
    processing: Option<Envelope>,
    retry: Option<Envelope>,
    done: Option<Envelope>,
    quarantine: Option<Envelope>,
    result: Option<ResultFile>,
    submitted: Option<Request>,
    recovered: nat)

  function At(q: Queue, id: string): Slot {
    Slot(Lookup(q.pending, id), Lookup(q.processing, id), Lookup(q.retry, id), Lookup(q.done, id),
         Lookup(q.quarantine, id), Lookup(q.results, id), Lookup(q.submitted, id), Count(q, id))
  }

  function One(e: Option<Envelope>): nat {
    if e.Some? then 1 else 0
  }

  /** In how many of the five directories is the request? */
  function Places(s: Slot): nat {
    One(s.pending) + One(s.processing) + One(s.retry) + One(s.done) + One(s.quarantine)
  }

  function Held(s: Slot): Option<Envelope> {
    if s.pending.Some? then s.pending
    else if s.processing.Some? then s.processing
    else if s.retry.Some? then s.retry
    else if s.done.Some? then s.done
    else s.quarantine
  }

  /** The worker's phase as far as this request is concerned. */
  function PhaseAt(w: Worker, id: string): Option<Phase> {
    if w.Busy? && w.id == id then Some(w.phase) else None
  }

  /** May this request be claimed once more without passing its attempt budget? */
  predicate Spare(s: Slot, phase: Option<Phase>) {
    s.pending.Some? || s.retry.Some? || phase == Some(Moved) || phase == Some(FailWritten(true))
  }

  predicate SlotOk(id: string, s: Slot, phase: Option<Phase>) {
    if s.submitted.None? then Places(s) == 0 && s.result.None? && phase.None?
    else
      && Places(s) == 1
      && var e := Held(s).value;
      && e.request == s.submitted.value && ValidRequest(e.request) && IdOf(e.request) == id
      && e.attempt + (if Spare(s, phase) then 1 else 0) <= e.request.maxAttempts + s.recovered
      && (phase.Some? ==> s.processing.Some?)
      && (s.done.Some? ==> s.result.Some?)
      && (s.pending.Some? ==> e.attempt == 0)
      && (phase == Some(Working) ==> e.attempt >= 1)
      && (phase.Some? ==> (s.result.Some? <==> phase == Some(ResultWritten)))
      && (s.result.Some? ==>
            && (s.processing.Some? || s.done.Some?)
            && s.result.value.requestId == id
            && s.result.value.attempt == e.attempt && 1 <= e.attempt <= MAX_RESULT_ATTEMPT)
  }

  predicate OkAt(q: Queue, id: string) {
    SlotOk(id, At(q, id), PhaseAt(q.worker, id))
  }

  /** What every file operation keeps. */
  ghost predicate Inv(q: Queue) {
    forall id: string :: OkAt(q, id)
  }

  function Target(q: Queue, a: Action): string {
    match a
    case Submit(r) => IdOf(r)
    case Crash => if q.worker.Busy? then q.worker.id else ""
    case _ => a.id
  }

  lemma QuietFrame(q: Queue, a: Action, id: string)
    requires Enabled(q, a) && id != Target(q, a)
    requires a.Crash? || a.WriteResult? || a.RecoverDrop? || a.ClaimWrite? || a.FailWrite? || a.RecoverWrite?
    ensures At(Step(q, a), id) == At(q, id)
  {
  }

  lemma InwardFrame(q: Queue, a: Action, id: string)
    requires Enabled(q, a) && id != Target(q, a)
    requires a.ClaimRetry? || a.ClaimPending?
    ensures At(Step(q, a), id) == At(q, id)
  {
  }

  lemma OutwardFrame(q: Queue, a: Action, id: string)
    requires Enabled(q, a) && id != Target(q, a)
    requires a.MoveDone? || a.RecoverDone? || a.RecoverMove?
    ensures At(Step(q, a), id) == At(q, id)
  {
  }

  lemma FailedFrame(q: Queue, a: Action, id: string)
    requires Enabled(q, a) && id != Target(q, a)
    requires a.FailRetry? || a.FailQuarantine?
    ensures At(Step(q, a), id) == At(q, id)
  {
  }

  lemma CreateFrame(q: Queue, r: Request, id: string, x: string)
    requires x != id
    ensures At(Created(q, id, r), x) == At(q, x)
  {
  }

  /** A file operation leaves all other requests alone. */
  lemma StepFrame(q: Queue, a: Action, id: string)
    requires Enabled(q, a) && id != Target(q, a)
    ensures At(Step(q, a), id) == At(q, id)
  {
    if a.Submit? {
      CreateFrame(q, a.request, IdOf(a.request), id);
    } else if a.Crash? || a.WriteResult? || a.RecoverDrop? || a.ClaimWrite? || a.FailWrite? || a.RecoverWrite? {
      QuietFrame(q, a, id);
    } else if a.ClaimRetry? || a.ClaimPending? {
      InwardFrame(q, a, id);
    } else if a.FailRetry? || a.FailQuarantine? {
      FailedFrame(q, a, id);
    } else {
      OutwardFrame(q, a, id);
    }
  }

  lemma WorkerFrame(q: Queue, a: Action, id: string)
    requires Enabled(q, a) && id != Target(q, a)
    ensures var p := PhaseAt(Step(q, a).worker, id); p.None? || p == PhaseAt(q.worker, id)
  {
  }

  lemma CreateKeeps(q: Queue, id: string, r: Request)
    requires ValidRequest(r) && IdOf(r) == id && OkAt(q, id) && Find(q, id).None?
    ensures OkAt(Created(q, id, r), id)
  {
    var v := Created(q, id, r);
    assert Places(At(q, id)) == 0;
    assert At(v, id) == Slot(Some(Envelope(r, 0, 0.0, None)), None, None, None, None, None, Some(r), 0);
  }

  lemma SubmitKeeps(q: Queue, r: Request, id: string)
    requires OkAt(q, id) && IdOf(r) == id
    ensures OkAt(Submitted(q, r).0, id)
  {
    if ValidRequest(r) && Find(q, id).None? {
      CreateKeeps(q, id, r);
    }
  }

  lemma ClaimKeeps(q: Queue, a: Action, id: string)
    requires Enabled(q, a) && OkAt(q, id)
    requires a == ClaimPending(id) || (a.ClaimRetry? && a.id == id) || a == ClaimWrite(id)
    ensures OkAt(Step(q, a), id)
  {
  }

  lemma ResultKeeps(q: Queue, a: Action, id: string)
    requires Enabled(q, a) && OkAt(q, id)
    requires (a.WriteResult? && a.id == id) || a == MoveDone(id) || a == RecoverDone(id)
    ensures OkAt(Step(q, a), id)
  {
  }

  lemma FailWriteKeeps(q: Queue, a: Action, id: string)
    requires Enabled(q, a) && OkAt(q, id) && a.FailWrite? && a.id == id
    ensures OkAt(Step(q, a), id)
  {
    var v := Step(q, a);
    var e := q.processing[id];
    var f := Failed(e, a.reason, a.retryable, a.now);
    assert f.request == e.request && f.attempt == e.attempt;
    assert At(v, id) == At(q, id).(processing := Some(f));
  }

  lemma FailMoveKeeps(q: Queue, a: Action, id: string)
    requires Enabled(q, a) && OkAt(q, id)
    requires a == FailRetry(id) || a == FailQuarantine(id)
    ensures OkAt(Step(q, a), id)
  {
  }

  lemma RecoverKeeps(q: Queue, a: Action, id: string)
    requires Enabled(q, a) && OkAt(q, id)
    requires (a.RecoverWrite? && a.id == id) || a == RecoverMove(id) || a == RecoverDrop(id)
    ensures OkAt(Step(q, a), id)
  {
  }

  lemma CrashKeeps(q: Queue, id: string)
    requires OkAt(q, id)
    ensures OkAt(q.(worker := Resting), id)
  {
  }

  lemma TargetKeeps(q: Queue, a: Action, id: string)
    requires Enabled(q, a) && OkAt(q, id) && id == Target(q, a)
    ensures OkAt(Step(q, a), id)
  {
    match a
    case Submit(r) => SubmitKeeps(q, r, id);
    case ClaimRetry(_, _) => ClaimKeeps(q, a, id);
    case ClaimPending(_) => ClaimKeeps(q, a, id);
    case ClaimWrite(_) => ClaimKeeps(q, a, id);
    case WriteResult(_, _) => ResultKeeps(q, a, id);
    case MoveDone(_) => ResultKeeps(q, a, id);
    case FailWrite(_, _, _, _) => FailWriteKeeps(q, a, id);
    case FailRetry(_) => FailMoveKeeps(q, a, id);
    case FailQuarantine(_) => FailMoveKeeps(q, a, id);
    case RecoverDone(_) => ResultKeeps(q, a, id);
    case RecoverDrop(_) => RecoverKeeps(q, a, id);
    case RecoverWrite(_, _) => RecoverKeeps(q, a, id);
    case RecoverMove(_) => RecoverKeeps(q, a, id);
    case Crash => CrashKeeps(q, id);
  }

  /** An idle slot stays in order when the worker leaves it. */
  lemma OkWithoutWorker(id: string, s: Slot, phase: Option<Phase>)
    requires SlotOk(id, s, phase)
    ensures SlotOk(id, s, None)
  {
  }

  lemma StepKeeps(q: Queue, a: Action)
    requires Inv(q) && Enabled(q, a)
    ensures Inv(Step(q, a))
  {
    forall id: string
      ensures OkAt(Step(q, a), id)
    {
      assert OkAt(q, id);
      if id == Target(q, a) {
        TargetKeeps(q, a, id);
      } else {
        StepFrame(q, a, id);
        WorkerFrame(q, a, id);
        OkWithoutWorker(id, At(q, id), PhaseAt(q.worker, id));
      }
    }
  }
}
