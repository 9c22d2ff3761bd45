/** Every answer of the reconciliation, by what the three events are like: which action is proposed, for which reasons, and
    what the proposal carries. */
module CalendarDecisions {
  import opened Common
  import opened CalendarReconcile

  /** The binding is that of the desired event, no newer, and neither is archived. */
  predicate Open(d: Desired, b: Binding) {
    && d.subjectRef == b.subjectRef && d.role == b.role && b.sourceRevision <= d.sourceRevision
    && b.status != BindingArchived && d.status != DesiredArchived
  }

  /** There is a remote event, and it is the bound one. */
  predicate BoundTo(b: Binding, remote: Option<Remote>) {
    remote.Some? && b.remoteEventRef == Some(remote.value.remoteEventRef)
  }

  predicate Vanished(d: Desired, b: Binding, remote: Option<Remote>) {
    Open(d, b) && remote.None? && b.remoteEventRef.Some?
  }

  /** Neither side has an event yet. */
  predicate Unborn(d: Desired, b: Binding, remote: Option<Remote>) {
    Open(d, b) && remote.None? && b.remoteEventRef.None?
  }

  predicate Unbound(d: Desired, b: Binding, remote: Option<Remote>) {
    Open(d, b) && remote.Some? && b.remoteEventRef.None?
  }

  predicate CalledOff(d: Desired, b: Binding, remote: Option<Remote>) {
    Open(d, b) && BoundTo(b, remote) && d.status == DesiredCancelled
  }

  predicate Wanted(d: Desired, b: Binding, remote: Option<Remote>) {
    Open(d, b) && BoundTo(b, remote) && d.status == DesiredActive
  }

  /** Both live and no invitation is at stake: field by field. */
  predicate ByFields(d: Desired, b: Binding, remote: Option<Remote>) {
    Wanted(d, b, remote) && remote.value.status == RemoteActive && !d.invitationChange
  }

  predicate Sane(d: Desired, b: Binding, remote: Option<Remote>) {
    ValidDesired(d) && ValidBinding(b) && (remote.Some? ==> ValidRemote(remote.value))
  }

  lemma ErrorsExactly(d: Desired, b: Binding, remote: Option<Remote>)
    requires Sane(d, b, remote)
    ensures var p := Reconciled(d, b, remote);
      var matches := d.subjectRef == b.subjectRef && d.role == b.role;
      && (p == Failure(CALENDAR_BINDING_SUBJECT_MISMATCH) <==> !matches)
      && (p == Failure(SOURCE_REVISION_REGRESSION) <==> matches && d.sourceRevision < b.sourceRevision)
      && (p == Failure(REMOTE_EVENT_REF_MISMATCH) <==> Open(d, b) && remote.Some? && b.remoteEventRef.Some? && !BoundTo(b, remote))
  {
  }

  ghost predicate SomeOperatorField(d: Desired, b: Binding, r: Remote)
    requires Complete(d.hashes) && Complete(r.hashes) && Complete(b.fieldOwnership)
  {
    exists f: Field :: OperatorDecides(d, b, r, f)
  }

  ghost predicate SomeDifference(d: Desired, r: Remote)
    requires Complete(d.hashes) && Complete(r.hashes)
  {
    exists f: Field :: d.hashes[f] != r.hashes[f]
  }

  lemma DifferenceIs(d: Desired, r: Remote)
    requires Complete(d.hashes) && Complete(r.hashes)
    ensures SomeDifference(d, r) <==> exists f: Field :: Differs(d, r, f)
  {
    if f: Field :| d.hashes[f] != r.hashes[f] {
      assert Differs(d, r, f);
    }
  }

  predicate Proposes(p: Result<Proposal, CalendarError>, action: ActionKind) {
    p.Success? && p.value.action == action
  }

  /** An event is created exactly if neither side has one, it is wanted, no work calendar would be blocked and nobody invited;
      and cancelled exactly if it is bound, live, not confirmed and Skeleton's own. */
  lemma CreatesAndCancelsExactly(d: Desired, b: Binding, remote: Option<Remote>)
    requires Sane(d, b, remote)
    ensures Proposes(Reconciled(d, b, remote), CREATE) <==>
            Unborn(d, b, remote) && d.status == DesiredActive && d.role != WorkAbsence && !d.invitationChange
    ensures Proposes(Reconciled(d, b, remote), CANCEL) <==>
            CalledOff(d, b, remote) && remote.value.status == RemoteActive && !d.confirmed && b.eventOwnership == SkeletonOwned
  {
  }

  lemma UpdatesExactly(d: Desired, b: Binding, remote: Option<Remote>)
    requires Sane(d, b, remote)
    ensures Proposes(Reconciled(d, b, remote), UPDATE) <==>
            ByFields(d, b, remote) && SomeDifference(d, remote.value) && !SomeOperatorField(d, b, remote.value)
  {
    if ByFields(d, b, remote) {
      FieldsDecideExactly(d, b, remote.value);
      DifferenceIs(d, remote.value);
    }
  }

  /** An operator is asked exactly in these cases; all that is left is nothing to do. */
  lemma AsksExactly(d: Desired, b: Binding, remote: Option<Remote>)
    requires Sane(d, b, remote)
    ensures Proposes(Reconciled(d, b, remote), NEEDS_OPERATOR) <==>
      || (Vanished(d, b, remote) && d.status == DesiredActive)
      || (Unborn(d, b, remote) && d.status == DesiredActive && (d.role == WorkAbsence || d.invitationChange))
      || Unbound(d, b, remote)
      || (CalledOff(d, b, remote) && (d.confirmed || b.eventOwnership != SkeletonOwned))
      || (Wanted(d, b, remote) && (remote.value.status == RemoteCancelled || d.invitationChange))
      || (ByFields(d, b, remote) && SomeOperatorField(d, b, remote.value))
  {
    if ByFields(d, b, remote) {
      FieldsDecideExactly(d, b, remote.value);
    }
  }

  // ---- reasons ---------------------------------------------------------------------------------------

  /** What must hold for an answer to give this reason; field reasons apart. */
  ghost predicate Because(d: Desired, b: Binding, remote: Option<Remote>, reason: Reason)
    requires Sane(d, b, remote)
  {
    match reason
    case ARCHIVED_NO_EXTERNAL_MUTATION => b.status == BindingArchived || d.status == DesiredArchived
    case REMOTE_ALREADY_ABSENT => Vanished(d, b, remote) && d.status == DesiredCancelled
    case REMOTE_EVENT_DELETED_EXTERNALLY => Vanished(d, b, remote) && d.status == DesiredActive
    case NO_REMOTE_EVENT_REQUIRED => Unborn(d, b, remote) && d.status == DesiredCancelled
    case WORK_CALENDAR_BLOCK_REQUIRES_APPROVAL => Unborn(d, b, remote) && d.status == DesiredActive && d.role == WorkAbsence
    case INVITATION_CHANGE_REQUIRES_APPROVAL =>
      && d.invitationChange && d.status == DesiredActive
      && ((Unborn(d, b, remote) && d.role != WorkAbsence) || (Wanted(d, b, remote) && remote.value.status == RemoteActive))
    case REMOTE_EVENT_MISSING => Unborn(d, b, remote) && d.status == DesiredActive && d.role != WorkAbsence && !d.invitationChange
    case UNBOUND_REMOTE_EVENT => Unbound(d, b, remote)
    case CONFIRMED_EVENT_CANCELLATION_REQUIRES_APPROVAL =>
      CalledOff(d, b, remote) && (d.confirmed || b.eventOwnership != SkeletonOwned)
    case REMOTE_ALREADY_CANCELLED =>
      CalledOff(d, b, remote) && !d.confirmed && b.eventOwnership == SkeletonOwned && remote.value.status == RemoteCancelled
    case CANDIDATE_EVENT_CANCELLED =>
      CalledOff(d, b, remote) && !d.confirmed && b.eventOwnership == SkeletonOwned && remote.value.status == RemoteActive
    case REMOTE_EVENT_CANCELLED_EXTERNALLY => Wanted(d, b, remote) && remote.value.status == RemoteCancelled
    case REMOTE_MATCHES_SOURCE =>
      ByFields(d, b, remote) && !SomeDifference(d, remote.value) && !SomeOperatorField(d, b, remote.value)
      && b.projectedRevision < d.sourceRevision
    case PROJECTION_UP_TO_DATE =>
      ByFields(d, b, remote) && !SomeDifference(d, remote.value) && !SomeOperatorField(d, b, remote.value)
      && b.projectedRevision >= d.sourceRevision
    case _ => ByFields(d, b, remote) && exists f: Field :: Blames(d, b, remote.value, f, reason)
  }

  /** The field `f` is the reason. A change of the time of a confirmed trip and of the attendees comes before all others; an
      update is named only if no field needs an operator. */
  ghost predicate Blames(d: Desired, b: Binding, r: Remote, f: Field, reason: Reason)
    requires Complete(d.hashes) && Complete(r.hashes) && Complete(b.fieldOwnership)
  {
    var projected := Lookup(b.projectedHashes, f);
    var first := projected != Some(d.hashes[f]) && ((f == Time && d.confirmed) || f == Attendees);
    var later := d.hashes[f] != r.hashes[f] && !first;
    var drift := projected.Some? && projected.value != r.hashes[f];
    match reason
    case CONFIRMED_TRIP_TIME_CHANGE_REQUIRES_APPROVAL => first && f == Time
    case ATTENDEE_CHANGE_REQUIRES_APPROVAL => first && f == Attendees
    case OwnershipConflict(g) => later && g == f && b.fieldOwnership[f] in {ExternalOwned, UserOverridden}
    case SharedDrift(g) => later && g == f && b.fieldOwnership[f] == Shared && (drift || f in {Time, Attendees})
    case ManualDrift(g) => later && g == f && b.fieldOwnership[f] == SkeletonOwned && drift && f in {Time, Attendees}
    case FieldUpdate(g) => d.hashes[f] != r.hashes[f] && g == f && !SomeOperatorField(d, b, r)
    case _ => false
  }

  lemma JudgedBecause(d: Desired, b: Binding, r: Remote, f: Field, reason: Reason)
    requires Complete(d.hashes) && Complete(r.hashes) && Complete(b.fieldOwnership) && !reason.FieldUpdate?
    ensures Judge(d, b, r, f) == Operator(reason) <==> Blames(d, b, r, f, reason)
  {
  }

  lemma OperatorReasonsAre(d: Desired, b: Binding, r: Remote, reason: Reason)
    requires Complete(d.hashes) && Complete(r.hashes) && Complete(b.fieldOwnership) && !reason.FieldUpdate?
    ensures reason in OperatorReasons(d, b, r) <==> exists f: Field :: Blames(d, b, r, f, reason)
  {
    forall f: Field
      ensures f in ALL_FIELDS && (Judge(d, b, r, f) == Operator(reason) <==> Blames(d, b, r, f, reason))
    {
      EveryField(f);
      JudgedBecause(d, b, r, f, reason);
    }
  }

  lemma SafeReasonsAre(d: Desired, b: Binding, r: Remote, reason: Reason)
    requires Complete(d.hashes) && Complete(r.hashes) && Complete(b.fieldOwnership) && !SomeOperatorField(d, b, r)
    ensures reason in SafeReasons(d, b, r) <==> reason.FieldUpdate? && Differs(d, r, reason.field)
  {
    forall f: Field
      ensures f in ALL_FIELDS && (Judge(d, b, r, f).Safe? <==> Differs(d, r, f))
    {
      EveryField(f);
      JudgeExactly(d, b, r, f);
    }
  }

  lemma OperatorReasonsNone(d: Desired, b: Binding, r: Remote)
    requires Complete(d.hashes) && Complete(r.hashes) && Complete(b.fieldOwnership)
    ensures OperatorReasons(d, b, r) != {} <==> SomeOperatorField(d, b, r)
    ensures forall f: Field :: f in Changed(d, b, r) <==> OperatorDecides(d, b, r, f) || Differs(d, r, f)
  {
    forall f: Field
      ensures f in ALL_FIELDS
      ensures Judge(d, b, r, f).Operator? <==> OperatorDecides(d, b, r, f)
      ensures Judge(d, b, r, f).Safe? <==> Differs(d, r, f) && !OperatorDecides(d, b, r, f)
    {
      EveryField(f);
      JudgeExactly(d, b, r, f);
    }
    if f: Field :| OperatorDecides(d, b, r, f) {
      assert Judge(d, b, r, f).reason in OperatorReasons(d, b, r);
    }
  }

  /** The reasons the field loop ends with, and when each holds. */
  ghost predicate FieldsBecause(d: Desired, b: Binding, r: Remote, reason: Reason)
    requires Complete(d.hashes) && Complete(r.hashes) && Complete(b.fieldOwnership)
  {
    if SomeOperatorField(d, b, r) then !reason.FieldUpdate? && exists f: Field :: Blames(d, b, r, f, reason)
    else if SomeDifference(d, r) then reason.FieldUpdate? && Differs(d, r, reason.field)
    else reason == if b.projectedRevision < d.sourceRevision then REMOTE_MATCHES_SOURCE else PROJECTION_UP_TO_DATE
  }

  lemma OperatorCase(d: Desired, b: Binding, r: Remote, reason: Reason)
    requires Sane(d, b, Some(r)) && SomeOperatorField(d, b, r)
    ensures reason in ReconcileFields(d, b, r).reasons <==> !reason.FieldUpdate? && exists f: Field :: Blames(d, b, r, f, reason)
  {
    OperatorReasonsNone(d, b, r);
    OnlyFieldReasons(d, b, r, reason);
    assert ReconcileFields(d, b, r).reasons == OperatorReasons(d, b, r);
    if !reason.FieldUpdate? { OperatorReasonsAre(d, b, r, reason); }
  }

  lemma UpdateCase(d: Desired, b: Binding, r: Remote, reason: Reason)
    requires Sane(d, b, Some(r)) && !SomeOperatorField(d, b, r) && SomeDifference(d, r)
    ensures reason in ReconcileFields(d, b, r).reasons <==> reason.FieldUpdate? && Differs(d, r, reason.field)
  {
    OperatorReasonsNone(d, b, r);
    var f: Field :| d.hashes[f] != r.hashes[f];
    SafeReasonsAre(d, b, r, reason);
    SafeReasonsAre(d, b, r, FieldUpdate(f));
    assert f in Changed(d, b, r);
    assert ReconcileFields(d, b, r).reasons == SafeReasons(d, b, r);
  }

  lemma FieldReasonsExactly(d: Desired, b: Binding, r: Remote, reason: Reason)
    requires Sane(d, b, Some(r))
    ensures reason in ReconcileFields(d, b, r).reasons <==> FieldsBecause(d, b, r, reason)
  {
    if SomeOperatorField(d, b, r) {
      OperatorCase(d, b, r, reason);
    } else if SomeDifference(d, r) {
      UpdateCase(d, b, r, reason);
    } else {
      OperatorReasonsNone(d, b, r);
      assert Changed(d, b, r) == {};
    }
  }

  lemma FieldsBecauseIs(d: Desired, b: Binding, r: Remote, reason: Reason)
    requires Sane(d, b, Some(r)) && ByFields(d, b, Some(r))
    ensures FieldsBecause(d, b, r, reason) <==> Because(d, b, Some(r), reason)
  {
    BlamesOperator(d, b, r, reason);
    if reason.FieldUpdate? && !SomeOperatorField(d, b, r) && Differs(d, r, reason.field) {
      assert Blames(d, b, r, reason.field, reason);
    }
  }

  /** Operators are asked for field reasons only. */
  lemma OnlyFieldReasons(d: Desired, b: Binding, r: Remote, reason: Reason)
    requires Complete(d.hashes) && Complete(r.hashes) && Complete(b.fieldOwnership)
    ensures reason in OperatorReasons(d, b, r) ==>
      || reason == CONFIRMED_TRIP_TIME_CHANGE_REQUIRES_APPROVAL || reason == ATTENDEE_CHANGE_REQUIRES_APPROVAL
      || reason.OwnershipConflict? || reason.SharedDrift? || reason.ManualDrift?
  {
  }

  lemma BlamesOperator(d: Desired, b: Binding, r: Remote, reason: Reason)
    requires Complete(d.hashes) && Complete(r.hashes) && Complete(b.fieldOwnership)
    ensures !SomeOperatorField(d, b, r) && !reason.FieldUpdate? ==> forall f: Field :: !Blames(d, b, r, f, reason)
  {
    if !reason.FieldUpdate? {
      forall f: Field
        ensures Blames(d, b, r, f, reason) ==> OperatorDecides(d, b, r, f)
      {
        JudgedBecause(d, b, r, f, reason);
        JudgeExactly(d, b, r, f);
      }
    }
  }

  lemma MissingReasons(d: Desired, b: Binding, reason: Reason)
    requires Sane(d, b, None) && Reconciled(d, b, None).Success?
    ensures reason in Reconciled(d, b, None).value.reasons <==> Because(d, b, None, reason)
  {
  }

  lemma PresentReasons(d: Desired, b: Binding, r: Remote, reason: Reason)
    requires Sane(d, b, Some(r)) && Reconciled(d, b, Some(r)).Success? && !ByFields(d, b, Some(r))
    ensures reason in Reconciled(d, b, Some(r)).value.reasons <==> Because(d, b, Some(r), reason)
  {
  }

  lemma EarlyReasons(d: Desired, b: Binding, remote: Option<Remote>, reason: Reason)
    requires Sane(d, b, remote) && Reconciled(d, b, remote).Success? && !ByFields(d, b, remote)
    ensures reason in Reconciled(d, b, remote).value.reasons <==> Because(d, b, remote, reason)
  {
    if remote.None? { MissingReasons(d, b, reason); } else { PresentReasons(d, b, remote.value, reason); }
  }

  /** For every answer: the reasons it gives are exactly those that hold. */
  lemma ReasonsExactly(d: Desired, b: Binding, remote: Option<Remote>, reason: Reason)
    requires Sane(d, b, remote) && Reconciled(d, b, remote).Success?
    ensures reason in Reconciled(d, b, remote).value.reasons <==> Because(d, b, remote, reason)
  {
    if ByFields(d, b, remote) {
      FieldReasonsExactly(d, b, remote.value, reason);
      FieldsBecauseIs(d, b, remote.value, reason);
    } else {
      EarlyReasons(d, b, remote, reason);
    }
  }

  // ---- what a proposal carries -----------------------------------------------------------------------

  /** The fields a proposal is about: those in question when an operator is asked, those that differ for an update, all for a
      creation. */
  ghost predicate About(d: Desired, b: Binding, remote: Option<Remote>, action: ActionKind, f: Field)
    requires Sane(d, b, remote)
  {
    match action
    case CREATE => true
    case UPDATE => remote.Some? && d.hashes[f] != remote.value.hashes[f]
    case CANCEL => false
    case NOOP => false
    case NEEDS_OPERATOR =>
      if Unbound(d, b, remote) || (Unborn(d, b, remote) && d.role == WorkAbsence) then true
      else if CalledOff(d, b, remote) then false
      else if Vanished(d, b, remote) || (Wanted(d, b, remote) && remote.value.status == RemoteCancelled) then f == Time
      else if d.invitationChange then f == Attendees
      else remote.Some? && (OperatorDecides(d, b, remote.value, f) || d.hashes[f] != remote.value.hashes[f])
  }

  lemma MissingFields(d: Desired, b: Binding, f: Field)
    requires Sane(d, b, None) && Reconciled(d, b, None).Success?
    ensures var p := Reconciled(d, b, None).value; f in p.changedFields <==> About(d, b, None, p.action, f)
  {
    EveryField(f);
  }

  lemma PresentFields(d: Desired, b: Binding, r: Remote, f: Field)
    requires Sane(d, b, Some(r)) && Reconciled(d, b, Some(r)).Success? && !ByFields(d, b, Some(r))
    ensures var p := Reconciled(d, b, Some(r)).value; f in p.changedFields <==> About(d, b, Some(r), p.action, f)
  {
    EveryField(f);
  }

  lemma LateFields(d: Desired, b: Binding, remote: Option<Remote>, f: Field)
    requires Sane(d, b, remote) && ByFields(d, b, remote)
    ensures Reconciled(d, b, remote).Success?
    ensures var p := Reconciled(d, b, remote).value; f in p.changedFields <==> About(d, b, remote, p.action, f)
  {
    FieldsDecideExactly(d, b, remote.value);
    OperatorReasonsNone(d, b, remote.value);
    assert Reconciled(d, b, remote) == Success(ReconcileFields(d, b, remote.value));
  }

  /** A proposal speaks of the desired event and the revision of the remote one it was made for, carries the private payload
      exactly if something is to be written, and asks an operator exactly if that is its action. */
  lemma CarriesExactly(d: Desired, b: Binding, remote: Option<Remote>)
    requires Sane(d, b, remote) && Reconciled(d, b, remote).Success?
    ensures var p := Reconciled(d, b, remote).value;
      && p.subjectRef == d.subjectRef && p.role == d.role && p.sourceRevision == d.sourceRevision
      && (p.expectedRemoteRevision == if remote.Some? then Some(remote.value.remoteRevision) else None)
      && (p.privatePayloadRef == if p.action == CREATE || p.action == UPDATE then Some(d.privatePayloadRef) else None)
      && (p.operatorRequired <==> p.action == NEEDS_OPERATOR)
  {
  }

  /** And it names exactly the fields it is about. */
  lemma FieldsExactly(d: Desired, b: Binding, remote: Option<Remote>, f: Field)
    requires Sane(d, b, remote) && Reconciled(d, b, remote).Success?
    ensures var p := Reconciled(d, b, remote).value; f in p.changedFields <==> About(d, b, remote, p.action, f)
  {
    if ByFields(d, b, remote) { LateFields(d, b, remote, f); } else if remote.None? { MissingFields(d, b, f); }
    else { PresentFields(d, b, remote.value, f); }
  }
}
