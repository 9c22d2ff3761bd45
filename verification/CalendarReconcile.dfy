/** Reconciling a desired calendar event with the remote one, field by field. */
module CalendarReconcile {
  import opened Common

  datatype Field = Time | Title | Description | Location | Attendees | Reminders

  const FIELD_NAMES: seq<Field> := [Time, Title, Description, Location, Attendees, Reminders]

  datatype Role = TravelPrimary | Family | WorkAbsence

  datatype Ownership = SkeletonOwned | ExternalOwned | Shared | UserOverridden

  datatype BindingStatus = BindingActive | BindingCancelled | BindingArchived | DeletedExternally | DeletionPendingApproval

  datatype DesiredStatus = DesiredActive | DesiredCancelled | DesiredArchived

  datatype RemoteStatus = RemoteActive | RemoteCancelled

  datatype ActionKind = CREATE | UPDATE | CANCEL | NOOP | NEEDS_OPERATOR

  /** A field's SHA-256 digest, named by what was hashed. */
  datatype Digest = OfRange(startAt: nat, endAt: nat) | OfText(text: string)

  datatype Binding = Binding(
    subjectRef: string, role: Role, calendarRef: string, remoteEventRef: Option<string>,
    eventOwnership: Ownership, fieldOwnership: map<Field, Ownership>,
    sourceRevision: nat, projectedRevision: nat, remoteRevision: Option<string>,
    projectedHashes: map<Field, Digest>, status: BindingStatus)

  datatype Desired = Desired(
    subjectRef: string, role: Role, sourceRevision: nat, startAt: nat, endAt: nat, status: DesiredStatus,
    hashes: map<Field, Digest>, privatePayloadRef: string, confirmed: bool, invitationChange: bool)

  datatype Remote = Remote(
    remoteEventRef: string, remoteRevision: string, status: RemoteStatus, startAt: nat, endAt: nat,
    hashes: map<Field, Digest>)

  predicate Complete<V>(m: map<Field, V>) {
    forall f: Field :: f in m
  }

  // What the constructors accept.
  predicate ValidBinding(b: Binding) {
    Complete(b.fieldOwnership) && b.projectedRevision <= b.sourceRevision
  }

  predicate ValidDesired(d: Desired) {
    d.sourceRevision > 0 && d.startAt < d.endAt && Complete(d.hashes) && d.hashes[Time] == OfRange(d.startAt, d.endAt)
  }

  predicate ValidRemote(r: Remote) {
    r.startAt < r.endAt && Complete(r.hashes) && r.hashes[Time] == OfRange(r.startAt, r.endAt)
  }

  datatype Reason =
    | ARCHIVED_NO_EXTERNAL_MUTATION | REMOTE_ALREADY_ABSENT | REMOTE_EVENT_DELETED_EXTERNALLY | NO_REMOTE_EVENT_REQUIRED
    | WORK_CALENDAR_BLOCK_REQUIRES_APPROVAL | INVITATION_CHANGE_REQUIRES_APPROVAL | REMOTE_EVENT_MISSING | UNBOUND_REMOTE_EVENT
    | CONFIRMED_EVENT_CANCELLATION_REQUIRES_APPROVAL | REMOTE_ALREADY_CANCELLED | CANDIDATE_EVENT_CANCELLED
    | REMOTE_EVENT_CANCELLED_EXTERNALLY | CONFIRMED_TRIP_TIME_CHANGE_REQUIRES_APPROVAL | ATTENDEE_CHANGE_REQUIRES_APPROVAL
    | REMOTE_MATCHES_SOURCE | PROJECTION_UP_TO_DATE | SAFE_FIELD_UPDATE
    | OwnershipConflict(field: Field) | SharedDrift(field: Field) | ManualDrift(field: Field) | FieldUpdate(field: Field)

  /** Sorted tuples without repetitions are kept as the sets they list. */
  datatype Proposal = Proposal(
    action: ActionKind, reasons: set<Reason>, subjectRef: string, role: Role, expectedRemoteRevision: Option<string>,
    sourceRevision: nat, changedFields: set<Field>, privatePayloadRef: Option<string>, operatorRequired: bool)

  /** What the proposal's constructor demands. */
  predicate ValidProposal(p: Proposal) {
    && p.reasons != {} && |p.reasons| <= MAX_REASON_CODES && p.sourceRevision > 0
    && (p.action == NEEDS_OPERATOR <==> p.operatorRequired)
    && (p.action in {CREATE, UPDATE} ==> p.privatePayloadRef.Some?)
  }

  const MAX_REASON_CODES: nat := 32

  datatype CalendarError = CALENDAR_BINDING_SUBJECT_MISMATCH | SOURCE_REVISION_REGRESSION | REMOTE_EVENT_REF_MISMATCH

  function Propose(action: ActionKind, reasons: set<Reason>, d: Desired, r: Option<Remote>, changed: set<Field>, payload: bool): Proposal {
    Proposal(action, reasons, d.subjectRef, d.role, if r.Some? then Some(r.value.remoteRevision) else None, d.sourceRevision,
             changed, if payload then Some(d.privatePayloadRef) else None, action == NEEDS_OPERATOR)
  }

  const ALL_FIELDS: set<Field> := {Time, Title, Description, Location, Attendees, Reminders}

  lemma EveryField(f: Field)
    ensures f in ALL_FIELDS && f in FIELD_NAMES
  {
    match f
    case Time => assert FIELD_NAMES[0] == f;
    case Title => assert FIELD_NAMES[1] == f;
    case Description => assert FIELD_NAMES[2] == f;
    case Location => assert FIELD_NAMES[3] == f;
    case Attendees => assert FIELD_NAMES[4] == f;
    case Reminders => assert FIELD_NAMES[5] == f;
  }

  // ---- one field ---------------------------------------------------------------------------------

  datatype Verdict = Same | Operator(reason: Reason) | Safe

  predicate SourceChanged(d: Desired, b: Binding, f: Field)
    requires Complete(d.hashes)
  {
    f !in b.projectedHashes || d.hashes[f] != b.projectedHashes[f]
  }

  predicate RemoteDrift(b: Binding, r: Remote, f: Field)
    requires Complete(r.hashes)
  {
    f in b.projectedHashes && r.hashes[f] != b.projectedHashes[f]
  }

  predicate Differs(d: Desired, r: Remote, f: Field)
    requires Complete(d.hashes) && Complete(r.hashes)
  {
    d.hashes[f] != r.hashes[f]
  }

  /** One turn of the field loop. */
  function Judge(d: Desired, b: Binding, r: Remote, f: Field): Verdict
    requires Complete(d.hashes) && Complete(r.hashes) && Complete(b.fieldOwnership)
  {
    var sourceChanged := SourceChanged(d, b, f);
    if f == Time && d.confirmed && sourceChanged then Operator(CONFIRMED_TRIP_TIME_CHANGE_REQUIRES_APPROVAL)
    else if f == Attendees && sourceChanged then Operator(ATTENDEE_CHANGE_REQUIRES_APPROVAL)
    else if !Differs(d, r, f) then Same
    else
      var ownership := b.fieldOwnership[f];
      var drift := RemoteDrift(b, r, f);
      if ownership in {ExternalOwned, UserOverridden} then Operator(OwnershipConflict(f))
      else if ownership == Shared && (drift || f in {Time, Attendees}) then Operator(SharedDrift(f))
      else if drift && f in {Time, Attendees} then Operator(ManualDrift(f))
      else if f == Attendees then Operator(ATTENDEE_CHANGE_REQUIRES_APPROVAL)
      else if sourceChanged || drift then Safe
      else Same
  }

  function Changed(d: Desired, b: Binding, r: Remote): set<Field>
    requires Complete(d.hashes) && Complete(r.hashes) && Complete(b.fieldOwnership)
  {
    set f: Field | f in ALL_FIELDS && Judge(d, b, r, f) != Same
  }

  function OperatorReasons(d: Desired, b: Binding, r: Remote): set<Reason>
    requires Complete(d.hashes) && Complete(r.hashes) && Complete(b.fieldOwnership)
  {
    set f: Field | f in ALL_FIELDS && Judge(d, b, r, f).Operator? :: Judge(d, b, r, f).reason
  }

  function SafeReasons(d: Desired, b: Binding, r: Remote): set<Reason>
    requires Complete(d.hashes) && Complete(r.hashes) && Complete(b.fieldOwnership)
  {
    set f: Field | f in ALL_FIELDS && Judge(d, b, r, f).Safe? :: FieldUpdate(f)
  }

  /** Both sides exist, are bound to each other and live: the fields decide. */
  function ReconcileFields(d: Desired, b: Binding, r: Remote): Proposal
    requires Complete(d.hashes) && Complete(r.hashes) && Complete(b.fieldOwnership)
  {
    var changed := Changed(d, b, r);
    if OperatorReasons(d, b, r) != {} then Propose(NEEDS_OPERATOR, OperatorReasons(d, b, r), d, Some(r), changed, false)
    else if changed == {} then
      Propose(NOOP, {if b.projectedRevision < d.sourceRevision then REMOTE_MATCHES_SOURCE else PROJECTION_UP_TO_DATE}, d, Some(r), {}, false)
    else
      Propose(UPDATE, if SafeReasons(d, b, r) != {} then SafeReasons(d, b, r) else {SAFE_FIELD_UPDATE}, d, Some(r), changed, true)
  }

  function Reconciled(d: Desired, b: Binding, remote: Option<Remote>): Result<Proposal, CalendarError>
    requires ValidDesired(d) && ValidBinding(b) && (remote.Some? ==> ValidRemote(remote.value))
  {
    if d.subjectRef != b.subjectRef || d.role != b.role then Failure(CALENDAR_BINDING_SUBJECT_MISMATCH)
    else if d.sourceRevision < b.sourceRevision then Failure(SOURCE_REVISION_REGRESSION)
    else if b.status == BindingArchived || d.status == DesiredArchived then
      Success(Propose(NOOP, {ARCHIVED_NO_EXTERNAL_MUTATION}, d, remote, {}, false))
    else match remote
      case None =>
        if b.remoteEventRef.Some? then
          if d.status in {DesiredCancelled, DesiredArchived} then Success(Propose(NOOP, {REMOTE_ALREADY_ABSENT}, d, remote, {}, false))
          else Success(Propose(NEEDS_OPERATOR, {REMOTE_EVENT_DELETED_EXTERNALLY}, d, remote, {Time}, false))
        else if d.status != DesiredActive then Success(Propose(NOOP, {NO_REMOTE_EVENT_REQUIRED}, d, remote, {}, false))
        else if d.role == WorkAbsence then
          Success(Propose(NEEDS_OPERATOR, {WORK_CALENDAR_BLOCK_REQUIRES_APPROVAL}, d, remote, ALL_FIELDS, false))
        else if d.invitationChange then
          Success(Propose(NEEDS_OPERATOR, {INVITATION_CHANGE_REQUIRES_APPROVAL}, d, remote, {Attendees}, false))
        else Success(Propose(CREATE, {REMOTE_EVENT_MISSING}, d, remote, ALL_FIELDS, true))
      case Some(r) =>
        if b.remoteEventRef.None? then Success(Propose(NEEDS_OPERATOR, {UNBOUND_REMOTE_EVENT}, d, remote, ALL_FIELDS, false))
        else if r.remoteEventRef != b.remoteEventRef.value then Failure(REMOTE_EVENT_REF_MISMATCH)
        else if d.status == DesiredCancelled then
          if d.confirmed || b.eventOwnership != SkeletonOwned then
            Success(Propose(NEEDS_OPERATOR, {CONFIRMED_EVENT_CANCELLATION_REQUIRES_APPROVAL}, d, remote, {}, false))
          else if r.status == RemoteCancelled then Success(Propose(NOOP, {REMOTE_ALREADY_CANCELLED}, d, remote, {}, false))
          else Success(Propose(CANCEL, {CANDIDATE_EVENT_CANCELLED}, d, remote, {}, false))
        else if r.status == RemoteCancelled then
          Success(Propose(NEEDS_OPERATOR, {REMOTE_EVENT_CANCELLED_EXTERNALLY}, d, remote, {Time}, false))
        else if d.invitationChange then
          Success(Propose(NEEDS_OPERATOR, {INVITATION_CHANGE_REQUIRES_APPROVAL}, d, remote, {Attendees}, false))
        else Success(ReconcileFields(d, b, r))
  }

  /** What the field loop has collected after some fields. */
  function ChangedIn(d: Desired, b: Binding, r: Remote, fields: seq<Field>): set<Field>
    requires Complete(d.hashes) && Complete(r.hashes) && Complete(b.fieldOwnership)
  {
    set f: Field | f in fields && Judge(d, b, r, f) != Same
  }

  function OperatorReasonsIn(d: Desired, b: Binding, r: Remote, fields: seq<Field>): set<Reason>
    requires Complete(d.hashes) && Complete(r.hashes) && Complete(b.fieldOwnership)
  {
    set f: Field | f in fields && Judge(d, b, r, f).Operator? :: Judge(d, b, r, f).reason
  }

  function SafeReasonsIn(d: Desired, b: Binding, r: Remote, fields: seq<Field>): set<Reason>
    requires Complete(d.hashes) && Complete(r.hashes) && Complete(b.fieldOwnership)
  {
    set f: Field | f in fields && Judge(d, b, r, f).Safe? :: FieldUpdate(f)
  }

  lemma NextField(d: Desired, b: Binding, r: Remote, fields: seq<Field>, f: Field)
    requires Complete(d.hashes) && Complete(r.hashes) && Complete(b.fieldOwnership)
    ensures ChangedIn(d, b, r, fields + [f]) == ChangedIn(d, b, r, fields) + (if Judge(d, b, r, f) != Same then {f} else {})
    ensures OperatorReasonsIn(d, b, r, fields + [f]) ==
            OperatorReasonsIn(d, b, r, fields) + (if Judge(d, b, r, f).Operator? then {Judge(d, b, r, f).reason} else {})
    ensures SafeReasonsIn(d, b, r, fields + [f]) ==
            SafeReasonsIn(d, b, r, fields) + (if Judge(d, b, r, f).Safe? then {FieldUpdate(f)} else {})
  {
    assert forall x: Field :: x in fields + [f] <==> x in fields || x == f;
  }

  lemma AllFields(d: Desired, b: Binding, r: Remote)
    requires Complete(d.hashes) && Complete(r.hashes) && Complete(b.fieldOwnership)
    ensures ChangedIn(d, b, r, FIELD_NAMES) == Changed(d, b, r)
    ensures OperatorReasonsIn(d, b, r, FIELD_NAMES) == OperatorReasons(d, b, r)
    ensures SafeReasonsIn(d, b, r, FIELD_NAMES) == SafeReasons(d, b, r)
  {
    forall f: Field ensures f in ALL_FIELDS && f in FIELD_NAMES { EveryField(f); }
  }

  /** The field loop, collecting as it goes. */
  method JudgeFields(d: Desired, b: Binding, r: Remote)
    returns (changed: set<Field>, operatorReasons: set<Reason>, safeReasons: set<Reason>)
    requires ValidDesired(d) && ValidBinding(b) && ValidRemote(r)
    ensures changed == Changed(d, b, r)
    ensures operatorReasons == OperatorReasons(d, b, r)
    ensures safeReasons == SafeReasons(d, b, r)
  {
    changed, operatorReasons, safeReasons := {}, {}, {};
    for k := 0 to |FIELD_NAMES|
      invariant changed == ChangedIn(d, b, r, FIELD_NAMES[..k])
      invariant operatorReasons == OperatorReasonsIn(d, b, r, FIELD_NAMES[..k])
      invariant safeReasons == SafeReasonsIn(d, b, r, FIELD_NAMES[..k])
    {
      var field := FIELD_NAMES[k];
      assert FIELD_NAMES[..k + 1] == FIELD_NAMES[..k] + [field];
      NextField(d, b, r, FIELD_NAMES[..k], field);
      var verdict := Judge(d, b, r, field);
      match verdict
      case Same =>
      case Operator(reason) =>
        operatorReasons := operatorReasons + {reason};
        changed := changed + {field};
      case Safe =>
        safeReasons := safeReasons + {FieldUpdate(field)};
        changed := changed + {field};
    }
    assert FIELD_NAMES[..|FIELD_NAMES|] == FIELD_NAMES;
    AllFields(d, b, r);
  }

  method ReconcileCalendarEvent(d: Desired, b: Binding, remote: Option<Remote>) returns (p: Result<Proposal, CalendarError>)
    requires ValidDesired(d) && ValidBinding(b) && (remote.Some? ==> ValidRemote(remote.value))
    ensures p == Reconciled(d, b, remote)
  {
    if d.subjectRef != b.subjectRef || d.role != b.role {
      return Failure(CALENDAR_BINDING_SUBJECT_MISMATCH);
    }
    if d.sourceRevision < b.sourceRevision {
      return Failure(SOURCE_REVISION_REGRESSION);
    }
    if b.status == BindingArchived || d.status == DesiredArchived {
      return Success(Propose(NOOP, {ARCHIVED_NO_EXTERNAL_MUTATION}, d, remote, {}, false));
    }
    if remote.None? {
      p := ReconcileMissing(d, b);
      return;
    }
    var r := remote.value;
    if b.remoteEventRef.None? {
      return Success(Propose(NEEDS_OPERATOR, {UNBOUND_REMOTE_EVENT}, d, remote, ALL_FIELDS, false));
    }
    if r.remoteEventRef != b.remoteEventRef.value {
      return Failure(REMOTE_EVENT_REF_MISMATCH);
    }
    if d.status == DesiredCancelled {
      p := ReconcileCancelled(d, b, r);
      return;
    }
    if r.status == RemoteCancelled {
      return Success(Propose(NEEDS_OPERATOR, {REMOTE_EVENT_CANCELLED_EXTERNALLY}, d, remote, {Time}, false));
    }
    if d.invitationChange {
      return Success(Propose(NEEDS_OPERATOR, {INVITATION_CHANGE_REQUIRES_APPROVAL}, d, remote, {Attendees}, false));
    }
    var changed, operatorReasons, safeReasons := JudgeFields(d, b, r);
    if operatorReasons != {} {
      return Success(Propose(NEEDS_OPERATOR, operatorReasons, d, remote, changed, false));
    }
    if changed == {} {
      return Success(Propose(NOOP, {if b.projectedRevision < d.sourceRevision then REMOTE_MATCHES_SOURCE else PROJECTION_UP_TO_DATE},
                             d, remote, {}, false));
    }
    p := Success(Propose(UPDATE, if safeReasons != {} then safeReasons else {SAFE_FIELD_UPDATE}, d, remote, changed, true));
  }

  /** No remote event, and nothing archived. */
  method ReconcileMissing(d: Desired, b: Binding) returns (p: Result<Proposal, CalendarError>)
    requires ValidDesired(d) && ValidBinding(b) && d.subjectRef == b.subjectRef && d.role == b.role
    requires d.sourceRevision >= b.sourceRevision && b.status != BindingArchived && d.status != DesiredArchived
    ensures p == Reconciled(d, b, None)
  {
    if b.remoteEventRef.Some? {
      if d.status == DesiredCancelled {
        return Success(Propose(NOOP, {REMOTE_ALREADY_ABSENT}, d, None, {}, false));
      }
      return Success(Propose(NEEDS_OPERATOR, {REMOTE_EVENT_DELETED_EXTERNALLY}, d, None, {Time}, false));
    }
    if d.status != DesiredActive {
      return Success(Propose(NOOP, {NO_REMOTE_EVENT_REQUIRED}, d, None, {}, false));
    }
    if d.role == WorkAbsence {
      return Success(Propose(NEEDS_OPERATOR, {WORK_CALENDAR_BLOCK_REQUIRES_APPROVAL}, d, None, ALL_FIELDS, false));
    }
    if d.invitationChange {
      return Success(Propose(NEEDS_OPERATOR, {INVITATION_CHANGE_REQUIRES_APPROVAL}, d, None, {Attendees}, false));
    }
    p := Success(Propose(CREATE, {REMOTE_EVENT_MISSING}, d, None, ALL_FIELDS, true));
  }

  /** The desired event is cancelled and the remote one bound to it. */
  method ReconcileCancelled(d: Desired, b: Binding, r: Remote) returns (p: Result<Proposal, CalendarError>)
    requires ValidDesired(d) && ValidBinding(b) && ValidRemote(r) && d.subjectRef == b.subjectRef && d.role == b.role
    requires d.sourceRevision >= b.sourceRevision && b.status != BindingArchived && d.status == DesiredCancelled
    requires b.remoteEventRef == Some(r.remoteEventRef)
    ensures p == Reconciled(d, b, Some(r))
  {
    if d.confirmed || b.eventOwnership != SkeletonOwned {
      return Success(Propose(NEEDS_OPERATOR, {CONFIRMED_EVENT_CANCELLATION_REQUIRES_APPROVAL}, d, Some(r), {}, false));
    }
    if r.status == RemoteCancelled {
      return Success(Propose(NOOP, {REMOTE_ALREADY_CANCELLED}, d, Some(r), {}, false));
    }
    p := Success(Propose(CANCEL, {CANDIDATE_EVENT_CANCELLED}, d, Some(r), {}, false));
  }

  /** None of the early answers applies. */
  predicate ReachesFields(d: Desired, b: Binding, r: Remote) {
    && d.subjectRef == b.subjectRef && d.role == b.role && d.sourceRevision >= b.sourceRevision
    && b.status != BindingArchived && d.status == DesiredActive
    && b.remoteEventRef == Some(r.remoteEventRef) && r.status == RemoteActive && !d.invitationChange
  }

  // ---- what the proposals promise ----------------------------------------------------------------

  function Image(fields: set<Field>, code: Field -> Reason): set<Reason> {
    set f: Field | f in fields :: code(f)
  }

  lemma {:induction false} ImageSize(fields: set<Field>, code: Field -> Reason)
    ensures |Image(fields, code)| <= |fields|
    decreases fields
  {
    if fields == {} {
      assert Image(fields, code) == {};
    } else {
      var f :| f in fields;
      ImageSize(fields - {f}, code);
      assert Image(fields, code) == Image(fields - {f}, code) + {code(f)};
    }
  }

  /** Six fields give at most six reason codes. */
  lemma FieldReasonsBounded(d: Desired, b: Binding, r: Remote)
    requires Complete(d.hashes) && Complete(r.hashes) && Complete(b.fieldOwnership)
    ensures |OperatorReasons(d, b, r)| <= 6 && |SafeReasons(d, b, r)| <= 6
  {
    var code := (f: Field) => if Judge(d, b, r, f).Operator? then Judge(d, b, r, f).reason else SAFE_FIELD_UPDATE;
    assert OperatorReasons(d, b, r) <= Image(ALL_FIELDS, code);
    ImageSize(ALL_FIELDS, code);
    SubsetSize(OperatorReasons(d, b, r), Image(ALL_FIELDS, code));
    var update := (f: Field) => FieldUpdate(f);
    assert SafeReasons(d, b, r) <= Image(ALL_FIELDS, update);
    ImageSize(ALL_FIELDS, update);
    SubsetSize(SafeReasons(d, b, r), Image(ALL_FIELDS, update));
  }

  /** Every proposal passes its own constructor. */
  lemma ProposalsAreValid(d: Desired, b: Binding, remote: Option<Remote>)
    requires ValidDesired(d) && ValidBinding(b) && (remote.Some? ==> ValidRemote(remote.value))
    ensures Reconciled(d, b, remote).Success? ==> ValidProposal(Reconciled(d, b, remote).value)
    ensures Reconciled(d, b, remote).Success? ==> 1 <= |Reconciled(d, b, remote).value.reasons| <= 32
  {
    if remote.Some? {
      FieldReasonsBounded(d, b, remote.value);
    }
  }

  /** A field an operator has to decide, in one formula. */
  predicate OperatorDecides(d: Desired, b: Binding, r: Remote, f: Field)
    requires Complete(d.hashes) && Complete(r.hashes) && Complete(b.fieldOwnership)
  {
    || (f == Time && d.confirmed && (SourceChanged(d, b, f) || Differs(d, r, f)))
    || (f == Attendees && (SourceChanged(d, b, f) || Differs(d, r, f)))
    || (Differs(d, r, f) && b.fieldOwnership[f] in {ExternalOwned, UserOverridden})
    || (Differs(d, r, f) && b.fieldOwnership[f] == Shared && (f == Time || RemoteDrift(b, r, f)))
    || (Differs(d, r, f) && f == Time && RemoteDrift(b, r, f))
  }

  lemma JudgeExactly(d: Desired, b: Binding, r: Remote, f: Field)
    requires Complete(d.hashes) && Complete(r.hashes) && Complete(b.fieldOwnership)
    ensures Judge(d, b, r, f).Operator? <==> OperatorDecides(d, b, r, f)
    ensures Judge(d, b, r, f).Safe? <==> Differs(d, r, f) && !OperatorDecides(d, b, r, f)
  {
  }

  /** Once the fields decide: an operator is asked exactly when some field needs one; otherwise an update is
      proposed exactly when something differs, and it changes exactly what differs. */
  lemma FieldsDecideExactly(d: Desired, b: Binding, r: Remote)
    requires ValidDesired(d) && ValidBinding(b) && ValidRemote(r) && ReachesFields(d, b, r)
    ensures Reconciled(d, b, Some(r)).Success?
    ensures var p := Reconciled(d, b, Some(r)).value;
            && (p.action == NEEDS_OPERATOR <==> exists f: Field :: OperatorDecides(d, b, r, f))
            && (p.action == UPDATE <==> (forall f: Field :: !OperatorDecides(d, b, r, f)) && exists f: Field :: Differs(d, r, f))
            && (p.action == NOOP <==> forall f: Field :: !OperatorDecides(d, b, r, f) && !Differs(d, r, f))
            && (p.action == UPDATE ==> forall f: Field :: f in p.changedFields <==> Differs(d, r, f))
  {
    forall f: Field
      ensures f in ALL_FIELDS
      ensures Judge(d, b, r, f).Operator? <==> OperatorDecides(d, b, r, f)
      ensures Judge(d, b, r, f).Safe? <==> Differs(d, r, f) && !OperatorDecides(d, b, r, f)
    {
      JudgeExactly(d, b, r, f);
    }
    var p := ReconcileFields(d, b, r);
    if f: Field :| OperatorDecides(d, b, r, f) {
      assert Judge(d, b, r, f).reason in OperatorReasons(d, b, r);
    } else {
      assert forall f: Field :: f in Changed(d, b, r) <==> Differs(d, r, f);
    }
  }

  /** UPDATE is proposed nowhere but where the fields decide. */
  lemma UpdateOnlyByFields(d: Desired, b: Binding, remote: Option<Remote>)
    requires ValidDesired(d) && ValidBinding(b) && (remote.Some? ==> ValidRemote(remote.value))
    requires Reconciled(d, b, remote).Success? && Reconciled(d, b, remote).value.action == UPDATE
    ensures remote.Some? && ReachesFields(d, b, remote.value)
  {
  }

  /** An update never touches attendees, a field someone else owns, a shared field that drifted, or the time
      of an event that is confirmed, shared or moved by hand. */
  lemma UpdateIsSafe(d: Desired, b: Binding, r: Remote, f: Field)
    requires ValidDesired(d) && ValidBinding(b) && ValidRemote(r)
    requires Reconciled(d, b, Some(r)).Success? && Reconciled(d, b, Some(r)).value.action == UPDATE
    requires f in Reconciled(d, b, Some(r)).value.changedFields
    ensures f != Attendees && b.fieldOwnership[f] in {SkeletonOwned, Shared}
    ensures b.fieldOwnership[f] == Shared ==> !RemoteDrift(b, r, f)
    ensures f == Time ==> !d.confirmed && b.fieldOwnership[f] == SkeletonOwned && !RemoteDrift(b, r, f)
  {
    UpdateOnlyByFields(d, b, Some(r));
    FieldsDecideExactly(d, b, r);
    assert Differs(d, r, f) && !OperatorDecides(d, b, r, f);
  }

  /** The remote event after the changed fields were written to it. */
  function Overwritten(d: Desired, r: Remote, changed: set<Field>): Remote
    requires Complete(d.hashes) && Complete(r.hashes)
  {
    var hashes := map f: Field | f in ALL_FIELDS :: if f in changed then d.hashes[f] else r.hashes[f];
    if Time in changed then r.(hashes := hashes, startAt := d.startAt, endAt := d.endAt) else r.(hashes := hashes)
  }

  /** Carrying out an update settles the matter: the same call then proposes nothing. */
  lemma UpdateConverges(d: Desired, b: Binding, r: Remote)
    requires ValidDesired(d) && ValidBinding(b) && ValidRemote(r)
    requires Reconciled(d, b, Some(r)).Success? && Reconciled(d, b, Some(r)).value.action == UPDATE
    ensures var after := Overwritten(d, r, Reconciled(d, b, Some(r)).value.changedFields);
            && ValidRemote(after)
            && Reconciled(d, b, Some(after)).Success? && Reconciled(d, b, Some(after)).value.action == NOOP
  {
    UpdateOnlyByFields(d, b, Some(r));
    FieldsDecideExactly(d, b, r);
    var after := Overwritten(d, r, Reconciled(d, b, Some(r)).value.changedFields);
    forall f: Field ensures f in ALL_FIELDS { EveryField(f); }
    forall f: Field
      ensures !Differs(d, after, f) && !OperatorDecides(d, b, after, f)
    {
      assert !OperatorDecides(d, b, r, f);
    }
    FieldsDecideExactly(d, b, after);
  }
}
