/**
 * The per-subject lifecycle authority (workers/registry/src/identity-state-do.ts), as functions: for every
 * handler, what it reads and decides before its transaction (Prepare...) and what its transaction does
 * (Commit...). Signatures and hash comparisons are boolean inputs, the clock is a parameter.
 */
module Registry {
  import opened Common
  import opened RegistryEvents

  const MAX_CLOCK_SKEW_SECONDS: int := 60
  const MAX_REVOCATION_AGE_SECONDS: int := 300
  const MAX_DEVICE_REQUEST_LIFETIME_SECONDS: int := 300
  const MAX_DEVICE_ACTIVATION_WINDOW_SECONDS: int := 30 * 24 * 60 * 60
  const MAX_DEVICE_AUTHORIZATION_LIFETIME_SECONDS: int := 366 * 24 * 60 * 60

  datatype ErrorCode =
    | BadRequest | InvalidSignature | InvalidRevocationSecret | IdentityNotFound | IdentityIsRevoked
    | DeviceIsRevoked | DeviceAuthorizationConflict | SequenceConflict | SubjectGenesisConflict | InternalError

  datatype IdentityRow = IdentityRow(
    subject: string,
    genesisHash: string,
    genesis: string,
    state: LifecycleState,
    sequence: nat,
    registeredAt: nat,
    revokedAt: Option<nat>,
    revocationEvent: Option<IdentityEvent>)

  datatype DeviceRow = DeviceRow(
    authorizationId: Option<AuthorizationId>,
    state: LifecycleState,
    authorizationExpiresAt: Option<nat>,
    activatedAt: Option<nat>,
    revokedAt: Option<nat>,
    revokedBy: Option<Revoker>,
    activationEvent: Option<DeviceEvent>,
    revocationEvent: Option<DeviceEvent>)

  /** The tables. The delivery columns of the two outboxes are the subject of the Outbox module. */
  datatype Tables = Tables(
    identity: Option<IdentityRow>,
    actions: map<nat, IdentityEvent>,
    outbox: set<IdentityEvent>,
    devices: map<DeviceId, DeviceRow>,
    deviceLedger: nat,
    operations: map<Operation, DeviceEvent>,
    deviceOutbox: set<DeviceEvent>)

  const EMPTY := Tables(None, map[], {}, map[], 0, map[], {})

  datatype Reply =
    | Fault(code: ErrorCode)
    | IdentityReply(row: IdentityRow, event: IdentityEvent)
    | DeviceReply(deviceEvent: DeviceEvent, activatedAt: Option<nat>, revokedAt: Option<nat>)

  // ----- Registration

  datatype Registration = Registration(subject: string, genesisHash: string, genesis: string,
                                       rejection: Option<ErrorCode>)

  datatype RegistrationPlan = RegistrationPlan(registration: Registration, event: IdentityEvent)

  datatype Prepared<P> = Answer(reply: Reply) | Plan(plan: P)

  /** `#mutationFromRow`: it throws unless the action of the row's sequence is still in the outbox. */
  function MutationFromRow(t: Tables, row: IdentityRow): Reply {
    if row.sequence in t.actions && t.actions[row.sequence] in t.outbox
    then IdentityReply(row, t.actions[row.sequence])
    else Fault(InternalError)
  }

  function ExistingRegistration(t: Tables, row: IdentityRow, registration: Registration): Reply {
    if row.genesis != registration.genesis then Fault(SubjectGenesisConflict) else MutationFromRow(t, row)
  }

  function PrepareRegistration(t: Tables, registration: Registration, now: nat): Prepared<RegistrationPlan> {
    if registration.rejection.Some? then Answer(Fault(registration.rejection.value))
    else if t.identity.Some? then Answer(ExistingRegistration(t, t.identity.value, registration))
    else
      Plan(RegistrationPlan(registration,
                            IdentityEvent(Registered, registration.subject, registration.genesisHash, 0, Active, now,
                                          registration.genesisHash)))
  }

  /** `#insertActionAndOutbox`; None when a primary key or unique constraint refuses. */
  function InsertAction(t: Tables, sequence: nat, event: IdentityEvent): Option<Tables> {
    if sequence in t.actions || event in t.actions.Values || event in t.outbox then None
    else Some(t.(actions := t.actions[sequence := event], outbox := t.outbox + {event}))
  }

  function CommitRegistration(t: Tables, plan: RegistrationPlan): (Tables, Reply) {
    var registration := plan.registration;
    if t.identity.Some? then (t, ExistingRegistration(t, t.identity.value, registration))
    else
      var row := IdentityRow(registration.subject, registration.genesisHash, registration.genesis, Active, 0,
                             plan.event.acceptedAt, None, None);
      match InsertAction(t.(identity := Some(row)), 0, plan.event)
      case None => (t, Fault(InternalError))
      case Some(t') => (t', MutationFromRow(t', row))
  }

  // ----- Identity revocation, by signature or by secret

  datatype RevokeCommand = RevokeCommand(expectedSequence: nat, verification: Option<ErrorCode>, actionHash: string)

  datatype RevocationPlan = RevocationPlan(initialSequence: nat, event: IdentityEvent)

  function PrepareRevocation(t: Tables, command: RevokeCommand, now: nat): Prepared<RevocationPlan> {
    if t.identity.None? then Answer(Fault(IdentityNotFound))
    else
      var initial := t.identity.value;
      if initial.state == Revoked then Answer(MutationFromRow(t, initial))
      else if command.expectedSequence != initial.sequence then Answer(Fault(SequenceConflict))
      else if command.verification.Some? then Answer(Fault(command.verification.value))
      else
        Plan(RevocationPlan(initial.sequence,
                            IdentityEvent(IdentityRevoked, initial.subject, initial.genesisHash, initial.sequence + 1,
                                          Revoked, now, command.actionHash)))
  }

  /** `#commitRevocation` */
  function CommitRevocation(t: Tables, plan: RevocationPlan): (Tables, Reply) {
    if t.identity.None? then (t, Fault(IdentityNotFound))
    else
      var current := t.identity.value;
      if current.state == Revoked then (t, MutationFromRow(t, current))
      else if current.sequence != plan.initialSequence then (t, Fault(SequenceConflict))
      else
        var row := current.(state := Revoked, sequence := plan.initialSequence + 1,
                            revokedAt := Some(plan.event.acceptedAt), revocationEvent := Some(plan.event));
        match InsertAction(t.(identity := Some(row)), plan.initialSequence + 1, plan.event)
        case None => (t, Fault(InternalError))
        case Some(t') => (t', MutationFromRow(t', row))
  }

  // ----- Device requests

  datatype Authorization = Authorization(
    authorizationId: AuthorizationId,
    deviceId: DeviceId,
    validFrom: nat,
    activationDeadline: nat,
    expiresAt: nat)

  /** The outcomes of parsing, hashing and signature verification, in the order in which they are looked at. */
  datatype Checks = Checks(
    wellFormed: bool,
    authorizationMatches: bool,
    rootSignatureValid: bool,
    payloadMatches: bool,
    deviceSignatureValid: bool)

  datatype DeviceRequest =
    | ActivateRequest(checks: Checks, authorization: Authorization, iat: nat, exp: nat, nonce: string)
    | SelfRevokeRequest(checks: Checks, authorization: Authorization, issuedAt: nat, nonce: string)
    | RootRevokeRequest(checks: Checks, deviceId: DeviceId, issuedAt: nat, nonce: string)

  function OperationOf(request: DeviceRequest): Operation {
    match request
    case ActivateRequest(_, a, iat, exp, nonce) => ActivateOperation(a.deviceId, a.authorizationId, iat, exp, nonce)
    case SelfRevokeRequest(_, a, issuedAt, nonce) => SelfRevokeOperation(a.deviceId, a.authorizationId, issuedAt, nonce)
    case RootRevokeRequest(_, deviceId, issuedAt, nonce) => RootRevokeOperation(deviceId, issuedAt, nonce)
  }

  datatype DevicePlan =
    | ActivationPlan(event: DeviceEvent)
    | DeviceRevocationPlan(event: DeviceEvent, requestAuthorizationId: Option<AuthorizationId>)

  /** `#deviceMutationFromEvent`: it throws unless the event is still in the device outbox. */
  function DeviceMutation(t: Tables, row: DeviceRow, event: Option<DeviceEvent>): Reply {
    if event.None? || event.value !in t.deviceOutbox then Fault(InternalError)
    else
      var e := event.value;
      DeviceReply(e, if e.eventType == Activated then Some(e.acceptedAt) else row.activatedAt,
                  if e.eventType == DeviceRevoked then Some(e.acceptedAt) else None)
  }

  /** A journalled operation answers with its original event. */
  function Replay(t: Tables, deviceId: DeviceId, operation: Operation): Reply
    requires operation in t.operations
  {
    if deviceId !in t.devices then Fault(InternalError)
    else DeviceMutation(t, t.devices[deviceId], Some(t.operations[operation]))
  }

  predicate ActivationTimesValid(a: Authorization, iat: nat, exp: nat, now: nat) {
    && a.validFrom <= a.activationDeadline <= a.expiresAt
    && a.activationDeadline - a.validFrom <= MAX_DEVICE_ACTIVATION_WINDOW_SECONDS
    && a.expiresAt - a.validFrom <= MAX_DEVICE_AUTHORIZATION_LIFETIME_SECONDS
    && now + MAX_CLOCK_SKEW_SECONDS >= a.validFrom
    && now - MAX_CLOCK_SKEW_SECONDS <= a.activationDeadline
    && now < a.expiresAt
    && iat <= exp && exp - iat <= MAX_DEVICE_REQUEST_LIFETIME_SECONDS
    && now + MAX_CLOCK_SKEW_SECONDS >= iat
    && now - MAX_CLOCK_SKEW_SECONDS <= exp
  }

  predicate RevocationTimeValid(issuedAt: nat, now: nat) {
    issuedAt <= now + MAX_CLOCK_SKEW_SECONDS && now - issuedAt <= MAX_REVOCATION_AGE_SECONDS
  }

  function ActivationEvent(identity: IdentityRow, request: DeviceRequest, ledger: nat, now: nat): DeviceEvent
    requires request.ActivateRequest?
  {
    var a := request.authorization;
    DeviceEvent(OperationOf(request), Activated, identity.subject, identity.genesisHash, identity.sequence, Active,
                ledger + 1, a.deviceId, Some(a.authorizationId), Active, Some(a.expiresAt), now, None)
  }

  /** `#activateDevice` up to its transaction. */
  function PrepareActivation(t: Tables, request: DeviceRequest, now: nat): Prepared<DevicePlan>
    requires request.ActivateRequest?
  {
    var a, checks := request.authorization, request.checks;
    if !checks.wellFormed then Answer(Fault(BadRequest))
    else if t.identity.None? then Answer(Fault(IdentityNotFound))
    else if !checks.authorizationMatches then Answer(Fault(BadRequest))
    else if !checks.rootSignatureValid then Answer(Fault(InvalidSignature))
    else if !checks.payloadMatches then Answer(Fault(BadRequest))
    else if !checks.deviceSignatureValid then Answer(Fault(InvalidSignature))
    else if t.identity.value.state == Revoked then Answer(Fault(IdentityIsRevoked))
    else if a.deviceId in t.devices && t.devices[a.deviceId].state == Revoked then Answer(Fault(DeviceIsRevoked))
    else if a.deviceId in t.devices && t.devices[a.deviceId].authorizationId != Some(a.authorizationId) then
      Answer(Fault(DeviceAuthorizationConflict))
    else if OperationOf(request) in t.operations then Answer(Replay(t, a.deviceId, OperationOf(request)))
    else if !ActivationTimesValid(a, request.iat, request.exp, now) then Answer(Fault(BadRequest))
    else if a.deviceId in t.devices then
      Answer(DeviceMutation(t, t.devices[a.deviceId], t.devices[a.deviceId].activationEvent))
    else Plan(ActivationPlan(ActivationEvent(t.identity.value, request, t.deviceLedger, now)))
  }

  /** The checks of `#revokeDeviceSelf` and `#revokeDeviceRoot`, None when they pass. */
  function RevocationRejection(t: Tables, request: DeviceRequest): Option<ErrorCode>
    requires !request.ActivateRequest?
  {
    var checks := request.checks;
    if !checks.wellFormed then Some(BadRequest)
    else if t.identity.None? then Some(IdentityNotFound)
    else if request.SelfRevokeRequest? && !checks.authorizationMatches then Some(BadRequest)
    else if request.SelfRevokeRequest? && !checks.rootSignatureValid then Some(InvalidSignature)
    else if !checks.payloadMatches then Some(BadRequest)
    else if request.SelfRevokeRequest? && !checks.deviceSignatureValid then Some(InvalidSignature)
    else if request.RootRevokeRequest? && !checks.rootSignatureValid then Some(InvalidSignature)
    else if t.identity.value.state == Revoked then Some(IdentityIsRevoked)
    else None
  }

  function TargetDevice(request: DeviceRequest): DeviceId {
    if request.RootRevokeRequest? then request.deviceId else request.authorization.deviceId
  }

  function RequestAuthorization(request: DeviceRequest): Option<AuthorizationId> {
    if request.RootRevokeRequest? then None else Some(request.authorization.authorizationId)
  }

  function RequestExpiry(request: DeviceRequest): Option<nat> {
    if request.RootRevokeRequest? then None else Some(request.authorization.expiresAt)
  }

  function RevokerOf(request: DeviceRequest): Revoker {
    if request.RootRevokeRequest? then Root else Device
  }

  function DeviceRevocationEvent(t: Tables, identity: IdentityRow, request: DeviceRequest,
                                 acceptedAt: nat): DeviceEvent
  {
    var deviceId := TargetDevice(request);
    var existing := if deviceId in t.devices then Some(t.devices[deviceId]) else None;
    var authorizationId := Coalesce(if existing.Some? then existing.value.authorizationId else None,
                                    RequestAuthorization(request));
    var expiresAt := Coalesce(if existing.Some? then existing.value.authorizationExpiresAt else None,
                              RequestExpiry(request));
    DeviceEvent(OperationOf(request), DeviceRevoked, identity.subject, identity.genesisHash, identity.sequence, Active,
                t.deviceLedger + 1, deviceId, authorizationId, Revoked, expiresAt, acceptedAt, Some(RevokerOf(request)))
  }

  /** `#commitDeviceRevocation` up to its transaction; it looks into the journal again. */
  function PlanDeviceRevocation(t: Tables, identity: IdentityRow, request: DeviceRequest, acceptedAt: nat)
    : Prepared<DevicePlan>
    requires !request.ActivateRequest?
  {
    var deviceId := TargetDevice(request);
    if deviceId in t.devices && t.devices[deviceId].state == Revoked then
      Answer(DeviceMutation(t, t.devices[deviceId], t.devices[deviceId].revocationEvent))
    else if request.SelfRevokeRequest? && deviceId in t.devices
            && t.devices[deviceId].authorizationId != RequestAuthorization(request) then
      Answer(Fault(DeviceAuthorizationConflict))
    else if OperationOf(request) in t.operations then Answer(Replay(t, deviceId, OperationOf(request)))
    else Plan(DeviceRevocationPlan(DeviceRevocationEvent(t, identity, request, acceptedAt),
                                   RequestAuthorization(request)))
  }

  /**
   * `#revokeDeviceSelf` and `#revokeDeviceRoot` up to the transaction of `#commitDeviceRevocation`. The clock is
   * read twice: for the age of the request and for the time of acceptance.
   */
  function PrepareDeviceRevocation(t: Tables, request: DeviceRequest, now: nat, acceptedAt: nat): Prepared<DevicePlan>
    requires !request.ActivateRequest?
  {
    var operation := OperationOf(request);
    if RevocationRejection(t, request).Some? then Answer(Fault(RevocationRejection(t, request).value))
    else if operation in t.operations then Answer(Replay(t, TargetDevice(request), operation))
    else if !RevocationTimeValid(request.issuedAt, now) then Answer(Fault(BadRequest))
    else PlanDeviceRevocation(t, t.identity.value, request, acceptedAt)
  }

  function PrepareDevice(t: Tables, request: DeviceRequest, now: nat, acceptedAt: nat): Prepared<DevicePlan> {
    if request.ActivateRequest? then PrepareActivation(t, request, now)
    else PrepareDeviceRevocation(t, request, now, acceptedAt)
  }

  /** `#writeDeviceLedgerSequence` and `#insertDeviceOperationAndOutbox`; None when a constraint refuses. */
  function InsertDeviceOperation(t: Tables, event: DeviceEvent): Option<Tables> {
    if event.operation in t.operations || event in t.operations.Values || event in t.deviceOutbox then None
    else
      Some(t.(deviceLedger := event.deviceLedgerSequence,
              operations := t.operations[event.operation := event],
              deviceOutbox := t.deviceOutbox + {event}))
  }

  function ActivatedRow(event: DeviceEvent): DeviceRow {
    DeviceRow(event.authorizationId, Active, event.authorizationExpiresAt, Some(event.acceptedAt), None, None,
              Some(event), None)
  }

  /** The transaction of `#activateDevice`. */
  function CommitActivation(t: Tables, event: DeviceEvent): (Tables, Reply) {
    if t.identity.None? then (t, Fault(IdentityNotFound))
    else if t.identity.value.state == Revoked then (t, Fault(IdentityIsRevoked))
    else if event.deviceId in t.devices then
      var current := t.devices[event.deviceId];
      (t,
       if current.state == Revoked then Fault(DeviceIsRevoked)
       else if current.authorizationId != event.authorizationId then Fault(DeviceAuthorizationConflict)
       else DeviceMutation(t, current, current.activationEvent))
    else if t.deviceLedger + 1 != event.deviceLedgerSequence then (t, Fault(SequenceConflict))
    else
      var row := ActivatedRow(event);
      match InsertDeviceOperation(t.(devices := t.devices[event.deviceId := row]), event)
      case None => (t, Fault(InternalError))
      case Some(t') => (t', DeviceMutation(t', row, Some(event)))
  }

  /** A device row once `event` has revoked it. */
  function RevokedRow(current: Option<DeviceRow>, event: DeviceEvent,
                      requestAuthorizationId: Option<AuthorizationId>): DeviceRow
  {
    match current
    case None =>
      DeviceRow(requestAuthorizationId, Revoked, event.authorizationExpiresAt, None, Some(event.acceptedAt),
                event.revokedBy, None, Some(event))
    case Some(row) =>
      row.(state := Revoked, revokedAt := Some(event.acceptedAt), revokedBy := event.revokedBy,
           revocationEvent := Some(event))
  }

  /** The transaction of `#commitDeviceRevocation`. */
  function CommitDeviceRevocation(t: Tables, event: DeviceEvent, requestAuthorizationId: Option<AuthorizationId>)
    : (Tables, Reply)
  {
    if t.identity.None? then (t, Fault(IdentityNotFound))
    else if t.identity.value.state == Revoked then (t, Fault(IdentityIsRevoked))
    else
      var current := if event.deviceId in t.devices then Some(t.devices[event.deviceId]) else None;
      if current.Some? && current.value.state == Revoked then
        (t, DeviceMutation(t, current.value, current.value.revocationEvent))
      else if event.revokedBy == Some(Device) && current.Some?
              && current.value.authorizationId != requestAuthorizationId then
        (t, Fault(DeviceAuthorizationConflict))
      else if t.deviceLedger + 1 != event.deviceLedgerSequence then (t, Fault(SequenceConflict))
      else
        var row := RevokedRow(current, event, requestAuthorizationId);
        match InsertDeviceOperation(t.(devices := t.devices[event.deviceId := row]), event)
        case None => (t, Fault(InternalError))
        case Some(t') => (t', DeviceMutation(t', row, Some(event)))
  }

  function CommitDevice(t: Tables, plan: DevicePlan): (Tables, Reply) {
    match plan
    case ActivationPlan(event) => CommitActivation(t, event)
    case DeviceRevocationPlan(event, authorizationId) => CommitDeviceRevocation(t, event, authorizationId)
  }
}
