/** What the handlers of the registry object answer, in every reachable state and for every request. */
module RegistryAnswers {
  import opened Common
  import opened RegistryEvents
  import opened Registry
  import opened RegistryRuns
  import opened RegistryTheorems
  import opened RegistryAuthority

  // ----- Identity handlers

  /** The tables of an object that has just accepted a registration at time `at`. */
  predicate JustRegistered(t: Tables, reply: Reply, r: Registration, at: nat) {
    var row := IdentityRow(r.subject, r.genesisHash, r.genesis, Active, 0, at, None, None);
    var event := IdentityEvent(Registered, r.subject, r.genesisHash, 0, Active, at, r.genesisHash);
    && t == Tables(Some(row), map[0 := event], {event}, map[], 0, map[], {})
    && reply == IdentityReply(row, event)
  }

  /**
   * A registration of a new subject is planned unless it is malformed; each planned one that commits while there is
   * still no identity leaves its own row, journal entry and outbox event, and answers with them.
   */
  lemma {:induction false} FirstRegistration(actions: seq<Action>, registration: Registration, now: nat)
    requires Reach(actions).tables.identity.None?
    ensures var w := Reach(actions);
            && (match registration.rejection
                case Some(code) => PrepareRegistration(w.tables, registration, now) == Answer(Fault(code))
                case None =>
                  var p := PrepareRegistration(w.tables, registration, now);
                  p.Plan? && var (t, reply) := CommitRegistration(w.tables, p.plan);
                             JustRegistered(t, reply, registration, now))
            && forall plan :: plan in w.registrations ==>
                 var (t, reply) := CommitRegistration(w.tables, plan);
                 JustRegistered(t, reply, plan.registration, plan.event.acceptedAt)
  {
    ReachInv(actions);
    assert Reach(actions).tables == EMPTY;
    forall plan | plan in Reach(actions).registrations
      ensures RegistrationPlanOk(plan)
    {
    }
  }

  /** The identity row that `row` becomes when `event` revokes it. */
  function RevokedIdentity(row: IdentityRow, event: IdentityEvent): IdentityRow {
    IdentityRow(row.subject, row.genesisHash, row.genesis, Revoked, 1, row.registeredAt, Some(event.acceptedAt),
                Some(event))
  }

  /**
   * A revocation of an unknown subject is refused, and so is one that quotes another sequence than 0 or whose
   * signature or secret is not accepted; otherwise it is carried out, undisturbed, and answered with its event.
   */
  lemma {:induction false} RevocationAnswers(actions: seq<Action>, command: RevokeCommand, now: nat)
    ensures var t := Reach(actions).tables;
            var p := PrepareRevocation(t, command, now);
            && (t.identity.None? ==> p == Answer(Fault(IdentityNotFound)))
            && (t.identity.Some? && t.identity.value.state == Active ==>
                  var row := t.identity.value;
                  var event := IdentityEvent(IdentityRevoked, row.subject, row.genesisHash, 1, Revoked, now,
                                             command.actionHash);
                  if command.expectedSequence != 0 then p == Answer(Fault(SequenceConflict))
                  else if command.verification.Some? then p == Answer(Fault(command.verification.value))
                  else
                    p.Plan? && p.plan.event == event
                    && CommitRevocation(t, p.plan)
                       == (t.(identity := Some(RevokedIdentity(row, event)), actions := t.actions[1 := event],
                              outbox := t.outbox + {event}),
                           IdentityReply(RevokedIdentity(row, event), event)))
  {
    ReachInv(actions);
  }

  // ----- Device handlers

  predicate IdentityActive(t: Tables) {
    t.identity.Some? && t.identity.value.state == Active
  }

  /** The parts of the request do not belong together. */
  predicate Mismatched(request: DeviceRequest) {
    var c := request.checks;
    if request.RootRevokeRequest? then !c.payloadMatches
    else !c.authorizationMatches || (c.rootSignatureValid && !c.payloadMatches)
  }

  /** A signature that the request needs is missing, and nothing that is looked at before it is wrong. */
  predicate BadlySigned(request: DeviceRequest) {
    var c := request.checks;
    if request.RootRevokeRequest? then c.payloadMatches && !c.rootSignatureValid
    else c.authorizationMatches && (!c.rootSignatureValid || (c.payloadMatches && !c.deviceSignatureValid))
  }

  predicate HasDevice(t: Tables, request: DeviceRequest, state: LifecycleState) {
    TargetDevice(request) in t.devices && t.devices[TargetDevice(request)].state == state
  }

  /** The device is active under the authorization of the request. */
  predicate Fits(t: Tables, request: DeviceRequest)
    requires !request.RootRevokeRequest?
  {
    HasDevice(t, request, Active)
    && t.devices[TargetDevice(request)].authorizationId == Some(request.authorization.authorizationId)
  }

  predicate InTime(request: DeviceRequest, now: nat) {
    Timely(request, now) && WellProportioned(request)
  }

  predicate Seen(t: Tables, request: DeviceRequest) {
    OperationOf(request) in t.operations
  }

  /** The answers that both kinds of device requests have in common. */
  predicate CommonAnswers(p: Prepared<DevicePlan>, t: Tables, request: DeviceRequest) {
    var c := request.checks;
    && (!c.wellFormed ==> p == Answer(Fault(BadRequest)))
    && (p == Answer(Fault(IdentityNotFound)) <==> c.wellFormed && t.identity.None?)
    && (p == Answer(Fault(InvalidSignature)) <==> c.wellFormed && t.identity.Some? && BadlySigned(request))
    && (c.wellFormed && t.identity.Some? && Mismatched(request) ==> p == Answer(Fault(BadRequest)))
    && (p == Answer(Fault(IdentityIsRevoked)) <==> t.identity.Some? && !IdentityActive(t) && Signed(request))
  }

  /** The event of `log` that activated device `d`, or revoked it. */
  predicate IsLogged(e: DeviceEvent, log: seq<DeviceEvent>, d: DeviceId, eventType: DeviceEventType) {
    e in log && e.deviceId == d && e.eventType == eventType
  }

  /** What a device handler finds for the device of its request, when the tables and the log belong together. */
  predicate RowsFound(t: Tables, log: seq<DeviceEvent>, request: DeviceRequest) {
    var d := TargetDevice(request);
    && IdentityOk(t) && t.deviceLedger == |log|
    && (HasDevice(t, request, Active) ==> Found(t.devices[d].activationEvent, t, log, d, Activated))
    && (HasDevice(t, request, Revoked) ==> Found(t.devices[d].revocationEvent, t, log, d, DeviceRevoked))
    && (Seen(t, request) ==>
          && d in t.devices && (!request.ActivateRequest? ==> HasDevice(t, request, Revoked))
          && Found(Some(t.operations[OperationOf(request)]), t, log, d,
                   if request.ActivateRequest? then Activated else DeviceRevoked))
  }

  predicate Found(e: Option<DeviceEvent>, t: Tables, log: seq<DeviceEvent>, d: DeviceId, eventType: DeviceEventType) {
    e.Some? && IsLogged(e.value, log, d, eventType) && e.value in t.deviceOutbox
  }

  lemma RowsAreFound(w: World, request: DeviceRequest)
    requires Inv(w)
    ensures RowsFound(w.tables, w.log, request)
  {
    var d := TargetDevice(request);
    RowOf(w, d);
    RowReflectsEvents(w.log, d);
    if Seen(w.tables, request) {
      ReplayFindsRow(w, OperationOf(request), request);
      assert CarriesOut(w.tables.operations[OperationOf(request)]);
    }
  }

  ghost predicate AnswersActivation(p: Prepared<DevicePlan>, log: seq<DeviceEvent>, d: DeviceId) {
    exists e :: IsLogged(e, log, d, Activated) && p == Answer(DeviceReply(e, Some(e.acceptedAt), None))
  }

  ghost predicate AnswersRevocation(p: Prepared<DevicePlan>, log: seq<DeviceEvent>, d: DeviceId,
                                    activatedAt: Option<nat>)
  {
    exists e :: IsLogged(e, log, d, DeviceRevoked) && p == Answer(DeviceReply(e, activatedAt, Some(e.acceptedAt)))
  }

  ghost predicate ActivationAnswered(p: Prepared<DevicePlan>, t: Tables, log: seq<DeviceEvent>, request: DeviceRequest,
                                     now: nat)
    requires request.ActivateRequest?
  {
    var d := TargetDevice(request);
    && (p == Answer(Fault(DeviceIsRevoked)) <==> IdentityActive(t) && Signed(request) && HasDevice(t, request, Revoked))
    && (p == Answer(Fault(DeviceAuthorizationConflict)) <==>
          IdentityActive(t) && Signed(request) && HasDevice(t, request, Active) && !Fits(t, request))
    && (IdentityActive(t) && Signed(request) && (d !in t.devices || Fits(t, request)) ==>
          if Seen(t, request) || (InTime(request, now) && d in t.devices) then AnswersActivation(p, log, d)
          else if InTime(request, now) then PlansActivation(p, t, log, request, now)
          else p == Answer(Fault(BadRequest)))
  }

  predicate PlansActivation(p: Prepared<DevicePlan>, t: Tables, log: seq<DeviceEvent>, request: DeviceRequest, now: nat)
    requires request.ActivateRequest? && t.identity.Some?
  {
    var ActivateRequest(_, a, iat, exp, nonce) := request;
    p == Plan(ActivationPlan(
      DeviceEvent(ActivateOperation(a.deviceId, a.authorizationId, iat, exp, nonce), Activated,
                  t.identity.value.subject, t.identity.value.genesisHash, 0, Active, |log| + 1, a.deviceId,
                  Some(a.authorizationId), Active, Some(a.expiresAt), now, None)))
  }

  lemma ActivationCommon(t: Tables, request: DeviceRequest, now: nat)
    requires request.ActivateRequest?
    ensures CommonAnswers(PrepareActivation(t, request, now), t, request)
  {
  }

  lemma ActivationFound(t: Tables, log: seq<DeviceEvent>, request: DeviceRequest, now: nat)
    requires request.ActivateRequest? && RowsFound(t, log, request)
    ensures ActivationAnswered(PrepareActivation(t, request, now), t, log, request, now)
  {
  }

  /** Every answer of an activation before its transaction, and when it is given. */
  lemma {:induction false} ActivationAnswers(actions: seq<Action>, request: DeviceRequest, now: nat)
    requires request.ActivateRequest?
    ensures var w := Reach(actions);
            var p := PrepareActivation(w.tables, request, now);
            CommonAnswers(p, w.tables, request) && ActivationAnswered(p, w.tables, w.log, request, now)
  {
    ReachInv(actions);
    RowsAreFound(Reach(actions), request);
    ActivationCommon(Reach(actions).tables, request, now);
    ActivationFound(Reach(actions).tables, Reach(actions).log, request, now);
  }

  ghost predicate RevocationAnswered(p: Prepared<DevicePlan>, t: Tables, log: seq<DeviceEvent>, request: DeviceRequest,
                                     now: nat, acceptedAt: nat)
    requires !request.ActivateRequest?
  {
    var d := TargetDevice(request);
    && p != Answer(Fault(DeviceIsRevoked))
    && (IdentityActive(t) && Signed(request) ==>
          if HasDevice(t, request, Revoked) && (Seen(t, request) || InTime(request, now)) then
            AnswersRevocation(p, log, d, t.devices[d].activatedAt)
          else if !InTime(request, now) then p == Answer(Fault(BadRequest))
          else if request.SelfRevokeRequest? && HasDevice(t, request, Active) && !Fits(t, request) then
            p == Answer(Fault(DeviceAuthorizationConflict))
          else PlansRevocation(p, t, log, request, acceptedAt))
  }

  /** The event names the authorization of the device's row, or else that of the request, and its expiry. */
  predicate PlansRevocation(p: Prepared<DevicePlan>, t: Tables, log: seq<DeviceEvent>, request: DeviceRequest,
                            acceptedAt: nat)
    requires !request.ActivateRequest? && t.identity.Some?
  {
    var d := TargetDevice(request);
    var own := if request.SelfRevokeRequest? then Some(request.authorization.authorizationId) else None;
    && p.Plan? && p.plan.DeviceRevocationPlan? && p.plan.requestAuthorizationId == own
    && var e := p.plan.event;
       && e.authorizationId == (if d in t.devices then t.devices[d].authorizationId else own)
       && e.authorizationExpiresAt
          == (if d in t.devices then t.devices[d].authorizationExpiresAt
              else if request.SelfRevokeRequest? then Some(request.authorization.expiresAt) else None)
       && e == DeviceEvent(
                 if request.SelfRevokeRequest? then
                   SelfRevokeOperation(d, request.authorization.authorizationId, request.issuedAt, request.nonce)
                 else RootRevokeOperation(d, request.issuedAt, request.nonce),
                 DeviceRevoked, t.identity.value.subject, t.identity.value.genesisHash, 0, Active, |log| + 1, d,
                 e.authorizationId, Revoked, e.authorizationExpiresAt, acceptedAt,
                 Some(if request.SelfRevokeRequest? then Device else Root))
  }

  lemma DeviceRevocationCommon(t: Tables, request: DeviceRequest, now: nat, acceptedAt: nat)
    requires !request.ActivateRequest?
    ensures CommonAnswers(PrepareDeviceRevocation(t, request, now, acceptedAt), t, request)
  {
  }

  lemma DeviceRevocationFound(t: Tables, log: seq<DeviceEvent>, request: DeviceRequest, now: nat, acceptedAt: nat)
    requires !request.ActivateRequest? && RowsFound(t, log, request)
    requires HasDevice(t, request, Active) ==>
               var row := t.devices[TargetDevice(request)];
               row.authorizationId.Some? && row.authorizationExpiresAt.Some?
    ensures RevocationAnswered(PrepareDeviceRevocation(t, request, now, acceptedAt), t, log, request, now, acceptedAt)
  {
  }

  /** Every answer of a device revocation before its transaction, and when it is given. */
  lemma {:induction false} DeviceRevocationAnswers(actions: seq<Action>, request: DeviceRequest, now: nat,
                                                   acceptedAt: nat)
    requires !request.ActivateRequest?
    ensures var w := Reach(actions);
            var p := PrepareDeviceRevocation(w.tables, request, now, acceptedAt);
            CommonAnswers(p, w.tables, request) && RevocationAnswered(p, w.tables, w.log, request, now, acceptedAt)
  {
    var w := Reach(actions);
    ReachInv(actions);
    RowsAreFound(w, request);
    if HasDevice(w.tables, request, Active) {
      ActiveRowIsComplete(w, TargetDevice(request));
    }
    DeviceRevocationCommon(w.tables, request, now, acceptedAt);
    DeviceRevocationFound(w.tables, w.log, request, now, acceptedAt);
  }

  lemma ActiveRowIsComplete(w: World, d: DeviceId)
    requires Inv(w) && d in w.tables.devices && w.tables.devices[d].state == Active
    ensures w.tables.devices[d].authorizationId.Some? && w.tables.devices[d].authorizationExpiresAt.Some?
  {
    RowOf(w, d);
    RowReflectsEvents(w.log, d);
  }

  /** The row of a device after its event committed. */
  function RowAfter(before: Option<DeviceRow>, e: DeviceEvent): DeviceRow {
    match before
    case None =>
      if e.eventType == Activated then
        DeviceRow(e.authorizationId, Active, e.authorizationExpiresAt, Some(e.acceptedAt), None, None, Some(e), None)
      else
        DeviceRow(e.authorizationId, Revoked, e.authorizationExpiresAt, None, Some(e.acceptedAt), e.revokedBy, None,
                  Some(e))
    case Some(row) =>
      DeviceRow(row.authorizationId, Revoked, row.authorizationExpiresAt, row.activatedAt, Some(e.acceptedAt),
                e.revokedBy, row.activationEvent, Some(e))
  }

  /**
   * The planned event of a device handler commits together with its row, its journal entry and its outbox row, and
   * is the answer; or the identity was revoked meanwhile, and nothing changes.
   */
  lemma {:induction false} DeviceCommitAnswers(actions: seq<Action>)
    requires Reach(actions).slot.Some?
    ensures var t, e := Reach(actions).tables, Reach(actions).slot.value.event;
            var row := RowAfter(DeviceOf(t, e.deviceId), e);
            CommitDevice(t, Reach(actions).slot.value)
            == if !IdentityActive(t) then (t, Fault(IdentityIsRevoked))
               else
                 (t.(devices := t.devices[e.deviceId := row], deviceLedger := |Reach(actions).log| + 1,
                     operations := t.operations[e.operation := e], deviceOutbox := t.deviceOutbox + {e}),
                  DeviceReply(e, row.activatedAt, row.revokedAt))
  {
    var w := Reach(actions);
    ReachInv(actions);
    if IdentityActive(w.tables) {
      PlannedCommit(w);
    }
  }

  // ----- Transactions on any tables

  /** Some key of the two tables refuses the event. */
  predicate ActionTaken(t: Tables, sequence: nat, event: IdentityEvent) {
    sequence in t.actions || event in t.actions.Values || event in t.outbox
  }

  predicate OperationTaken(t: Tables, event: DeviceEvent) {
    event.operation in t.operations || event in t.operations.Values || event in t.deviceOutbox
  }

  /** An answer for event `e` of a device row, or INTERNAL_ERROR when the event is gone. */
  predicate AnswersFor(reply: Reply, t: Tables, e: Option<DeviceEvent>) {
    if e.Some? && e.value in t.deviceOutbox then reply.DeviceReply? && reply.deviceEvent == e.value
    else reply == Fault(InternalError)
  }

  /**
   * The transaction of an activation looks again at everything its preparation looked at: whatever the tables hold by
   * then, it refuses or answers without a change unless the device is still unknown and the ledger where it was.
   */
  lemma ActivationCommitRefusals(t: Tables, e: DeviceEvent)
    ensures var (t', reply) := CommitActivation(t, e);
            && (t.identity.None? ==> (t', reply) == (t, Fault(IdentityNotFound)))
            && (t.identity.Some? && !IdentityActive(t) ==> (t', reply) == (t, Fault(IdentityIsRevoked)))
            && (IdentityActive(t) && e.deviceId in t.devices ==>
                  var row := t.devices[e.deviceId];
                  && t' == t
                  && if row.state == Revoked then reply == Fault(DeviceIsRevoked)
                     else if row.authorizationId != e.authorizationId then reply == Fault(DeviceAuthorizationConflict)
                     else AnswersFor(reply, t, row.activationEvent))
            && (IdentityActive(t) && e.deviceId !in t.devices ==>
                  if t.deviceLedger + 1 != e.deviceLedgerSequence then (t', reply) == (t, Fault(SequenceConflict))
                  else if OperationTaken(t, e) then (t', reply) == (t, Fault(InternalError))
                  else reply.DeviceReply? && reply.deviceEvent == e)
  {
  }

  /** The same for the transaction of a device revocation. */
  lemma DeviceRevocationCommitRefusals(t: Tables, e: DeviceEvent, requestAuthorizationId: Option<AuthorizationId>)
    ensures var (t', reply) := CommitDeviceRevocation(t, e, requestAuthorizationId);
            var row := DeviceOf(t, e.deviceId);
            && (t.identity.None? ==> (t', reply) == (t, Fault(IdentityNotFound)))
            && (t.identity.Some? && !IdentityActive(t) ==> (t', reply) == (t, Fault(IdentityIsRevoked)))
            && (IdentityActive(t) ==>
                  if row.Some? && row.value.state == Revoked then
                    t' == t && AnswersFor(reply, t, row.value.revocationEvent)
                  else if e.revokedBy == Some(Device) && row.Some?
                          && row.value.authorizationId != requestAuthorizationId then
                    (t', reply) == (t, Fault(DeviceAuthorizationConflict))
                  else if t.deviceLedger + 1 != e.deviceLedgerSequence then (t', reply) == (t, Fault(SequenceConflict))
                  else if OperationTaken(t, e) then (t', reply) == (t, Fault(InternalError))
                  else reply.DeviceReply? && reply.deviceEvent == e)
  {
  }

  /** And for those of registration and identity revocation. */
  lemma IdentityCommitRefusals(t: Tables, registration: RegistrationPlan, revocation: RevocationPlan)
    ensures t.identity.None? ==>
              CommitRevocation(t, revocation) == (t, Fault(IdentityNotFound))
              && (ActionTaken(t, 0, registration.event) ==>
                    CommitRegistration(t, registration) == (t, Fault(InternalError)))
    ensures IdentityActive(t) && t.identity.value.sequence != revocation.initialSequence ==>
              CommitRevocation(t, revocation) == (t, Fault(SequenceConflict))
    ensures IdentityActive(t) && t.identity.value.sequence == revocation.initialSequence
            && ActionTaken(t, revocation.initialSequence + 1, revocation.event) ==>
              CommitRevocation(t, revocation) == (t, Fault(InternalError))
    ensures t.identity.Some? && (t.identity.value.sequence !in t.actions
                                 || t.actions[t.identity.value.sequence] !in t.outbox) ==>
              MutationFromRow(t, t.identity.value) == Fault(InternalError)
  {
  }

  /** A journalled operation is answered with its event from the row of its device, both of which must be there. */
  lemma ReplayAnswer(t: Tables, d: DeviceId, operation: Operation)
    requires operation in t.operations
    ensures if d !in t.devices then Replay(t, d, operation) == Fault(InternalError)
            else AnswersFor(Replay(t, d, operation), t, Some(t.operations[operation]))
  {
  }

  /** A transaction that answers with an error leaves the tables as they were. */
  lemma CommitsAreAtomic(t: Tables, registration: RegistrationPlan, revocation: RevocationPlan, plan: DevicePlan)
    ensures CommitRegistration(t, registration).1.Fault? ==> CommitRegistration(t, registration).0 == t
    ensures CommitRevocation(t, revocation).1.Fault? ==> CommitRevocation(t, revocation).0 == t
    ensures CommitDevice(t, plan).1.Fault? ==> CommitDevice(t, plan).0 == t
  {
  }
}
