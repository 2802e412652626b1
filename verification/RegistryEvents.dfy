/**
 * Events that leave the registry (packages/protocol/src/schemas.ts, workers/registry/src/events.ts). An event
 * id is a collision-free hash of the event's other fields, so an event stands for its own id; likewise an
 * operation stands for the operation id that is the hash of its payload.
 */
module RegistryEvents {
  import opened Common

  type DeviceId = string
  type AuthorizationId = string

  datatype LifecycleState = Active | Revoked

  datatype Revoker = Root | Device

  datatype Operation =
    | ActivateOperation(deviceId: DeviceId, authorizationId: AuthorizationId, iat: nat, exp: nat, nonce: string)
    | SelfRevokeOperation(deviceId: DeviceId, authorizationId: AuthorizationId, issuedAt: nat, nonce: string)
    | RootRevokeOperation(deviceId: DeviceId, issuedAt: nat, nonce: string)

  datatype DeviceEventType = Activated | DeviceRevoked

  datatype DeviceEvent = DeviceEvent(
    operation: Operation,
    eventType: DeviceEventType,
    subject: string,
    genesisHash: string,
    identitySequence: nat,
    identityState: LifecycleState,
    deviceLedgerSequence: nat,
    deviceId: DeviceId,
    authorizationId: Option<AuthorizationId>,
    deviceState: LifecycleState,
    authorizationExpiresAt: Option<nat>,
    acceptedAt: nat,
    revokedBy: Option<Revoker>)

  datatype IdentityEventType = Registered | IdentityRevoked

  datatype IdentityEvent = IdentityEvent(
    eventType: IdentityEventType,
    subject: string,
    genesisHash: string,
    sequence: nat,
    state: LifecycleState,
    acceptedAt: nat,
    actionHash: string)

  predicate SequenceMatchesState(sequence: nat, state: LifecycleState) {
    sequence == if state == Active then 0 else 1
  }

  /** `addRegistryTransitionIssues` raises nothing. */
  predicate IdentityEventValid(e: IdentityEvent) {
    match e.eventType
    case Registered => e.state == Active && e.sequence == 0
    case IdentityRevoked => e.state == Revoked && e.sequence == 1
  }

  /** `addDeviceRegistryTransitionIssues` raises nothing. */
  predicate DeviceEventValid(e: DeviceEvent) {
    && SequenceMatchesState(e.identitySequence, e.identityState)
    && match e.eventType
       case Activated =>
         e.identityState == Active && e.deviceState == Active
         && e.authorizationId.Some? && e.authorizationExpiresAt.Some? && e.revokedBy.None?
       case DeviceRevoked => e.deviceState == Revoked && e.revokedBy.Some?
  }
}
