/**
 * The registry object as a class over its tables (workers/registry/src/identity-state-do.ts). Each handler runs
 * its statements in the order of the source and is proved against the functions of module Registry, whose
 * behaviour over all interleavings is the subject of RegistryRuns and RegistryTheorems. A transaction that hits
 * a constraint rolls back.
 */
module RegistryObject {
  import opened Common
  import opened RegistryEvents
  import opened Registry
  import RegistryAnswers

  class IdentityState {
    var identity: Option<IdentityRow>
    var actions: map<nat, IdentityEvent>
    var outbox: set<IdentityEvent>
    var devices: map<DeviceId, DeviceRow>
    var deviceLedger: nat
    var operations: map<Operation, DeviceEvent>
    var deviceOutbox: set<DeviceEvent>

    constructor ()
      ensures Snapshot() == EMPTY
    {
      identity, actions, outbox, devices := None, map[], {}, map[];
      deviceLedger, operations, deviceOutbox := 0, map[], {};
    }

    function Snapshot(): Tables
      reads this
    {
      Tables(identity, actions, outbox, devices, deviceLedger, operations, deviceOutbox)
    }

    method Rollback(t: Tables)
      modifies this
      ensures Snapshot() == t
    {
      identity, actions, outbox, devices := t.identity, t.actions, t.outbox, t.devices;
      deviceLedger, operations, deviceOutbox := t.deviceLedger, t.operations, t.deviceOutbox;
    }

    /** Two inserts; a primary key or the unique event id refuses. */
    method InsertActionAndOutbox(sequence: nat, event: IdentityEvent) returns (inserted: bool)
      modifies this`actions, this`outbox
      ensures inserted <==> InsertAction(old(Snapshot()), sequence, event).Some?
      ensures inserted ==> InsertAction(old(Snapshot()), sequence, event) == Some(Snapshot())
    {
      if sequence in actions || event in actions.Values {
        return false;
      }
      actions := actions[sequence := event];
      if event in outbox {
        return false;
      }
      outbox := outbox + {event};
      return true;
    }

    method InsertDeviceOperationAndOutbox(event: DeviceEvent) returns (inserted: bool)
      modifies this`operations, this`deviceOutbox
      ensures inserted <==> InsertDeviceOperation(old(Snapshot()), event).Some?
      ensures inserted ==>
                InsertDeviceOperation(old(Snapshot()), event)
                  == Some(Snapshot().(deviceLedger := event.deviceLedgerSequence))
    {
      if event.operation in operations || event in operations.Values {
        return false;
      }
      operations := operations[event.operation := event];
      if event in deviceOutbox {
        return false;
      }
      deviceOutbox := deviceOutbox + {event};
      return true;
    }

    method Register(registration: Registration, now: nat) returns (reply: Reply)
      modifies this
      ensures match PrepareRegistration(old(Snapshot()), registration, now)
              case Answer(answer) => Snapshot() == old(Snapshot()) && reply == answer
              case Plan(plan) => (Snapshot(), reply) == CommitRegistration(old(Snapshot()), plan)
      // the first registration of an object
      ensures old(Snapshot()) == EMPTY && registration.rejection.None? ==>
                RegistryAnswers.JustRegistered(Snapshot(), reply, registration, now)
    {
      if registration.rejection.Some? {
        return Fault(registration.rejection.value);
      }
      if identity.Some? {
        if identity.value.genesis != registration.genesis {
          return Fault(SubjectGenesisConflict);
        }
        return MutationFromRow(Snapshot(), identity.value);
      }
      var event :=
        IdentityEvent(Registered, registration.subject, registration.genesisHash, 0, Active, now,
                      registration.genesisHash);
      reply := RegisterTransaction(RegistrationPlan(registration, event));
    }

    method RegisterTransaction(plan: RegistrationPlan) returns (reply: Reply)
      modifies this
      ensures (Snapshot(), reply) == CommitRegistration(old(Snapshot()), plan)
    {
      var registration := plan.registration;
      if identity.Some? {
        if identity.value.genesis != registration.genesis {
          return Fault(SubjectGenesisConflict);
        }
        return MutationFromRow(Snapshot(), identity.value);
      }
      var before := Snapshot();
      identity := Some(IdentityRow(registration.subject, registration.genesisHash, registration.genesis, Active, 0,
                                   plan.event.acceptedAt, None, None));
      var inserted := InsertActionAndOutbox(0, plan.event);
      if !inserted {
        Rollback(before);
        return Fault(InternalError);
      }
      reply := MutationFromRow(Snapshot(), identity.value);
    }

    /** `revokeBySignature` and `revokeBySecret` differ in `command.verification` and `command.actionHash`. */
    method Revoke(command: RevokeCommand, now: nat) returns (reply: Reply)
      modifies this
      ensures match PrepareRevocation(old(Snapshot()), command, now)
              case Answer(answer) => Snapshot() == old(Snapshot()) && reply == answer
              case Plan(plan) => (Snapshot(), reply) == CommitRevocation(old(Snapshot()), plan)
    {
      if identity.None? {
        return Fault(IdentityNotFound);
      }
      var initial := identity.value;
      if initial.state == Revoked {
        return MutationFromRow(Snapshot(), initial);
      }
      if command.expectedSequence != initial.sequence {
        return Fault(SequenceConflict);
      }
      if command.verification.Some? {
        return Fault(command.verification.value);
      }
      var event :=
        IdentityEvent(IdentityRevoked, initial.subject, initial.genesisHash, initial.sequence + 1, Revoked, now,
                      command.actionHash);
      reply := RevokeTransaction(RevocationPlan(initial.sequence, event));
    }

    method RevokeTransaction(plan: RevocationPlan) returns (reply: Reply)
      modifies this
      ensures (Snapshot(), reply) == CommitRevocation(old(Snapshot()), plan)
    {
      if identity.None? {
        return Fault(IdentityNotFound);
      }
      var current := identity.value;
      if current.state == Revoked {
        return MutationFromRow(Snapshot(), current);
      }
      if current.sequence != plan.initialSequence {
        return Fault(SequenceConflict);
      }
      var before := Snapshot();
      identity := Some(current.(state := Revoked, sequence := plan.initialSequence + 1,
                                revokedAt := Some(plan.event.acceptedAt), revocationEvent := Some(plan.event)));
      var inserted := InsertActionAndOutbox(plan.initialSequence + 1, plan.event);
      if !inserted {
        Rollback(before);
        return Fault(InternalError);
      }
      reply := MutationFromRow(Snapshot(), identity.value);
    }

    method ReadDevice(deviceId: DeviceId) returns (row: Option<DeviceRow>)
      ensures row == if deviceId in devices then Some(devices[deviceId]) else None
    {
      row := if deviceId in devices then Some(devices[deviceId]) else None;
    }

    method ReadDeviceOperation(operation: Operation) returns (event: Option<DeviceEvent>)
      ensures event == if operation in operations then Some(operations[operation]) else None
    {
      event := if operation in operations then Some(operations[operation]) else None;
    }

    /** The answer to a journalled operation, from the current row of its device. */
    method AnswerReplay(deviceId: DeviceId, event: DeviceEvent) returns (reply: Reply)
      ensures reply == if deviceId in devices then DeviceMutation(Snapshot(), devices[deviceId], Some(event))
                       else Fault(InternalError)
    {
      var row := ReadDevice(deviceId);
      if row.None? {
        return Fault(InternalError);
      }
      reply := DeviceMutation(Snapshot(), row.value, Some(event));
    }

    /** `#verifyAuthorization`; None when it accepts. */
    method VerifyAuthorization(checks: Checks) returns (rejection: Option<ErrorCode>)
      ensures rejection.None? <==> checks.authorizationMatches && checks.rootSignatureValid
      ensures rejection.Some? ==>
                rejection.value == if checks.authorizationMatches then InvalidSignature else BadRequest
    {
      if !checks.authorizationMatches {
        return Some(BadRequest);
      }
      if !checks.rootSignatureValid {
        return Some(InvalidSignature);
      }
      return None;
    }

    method ActivateDevice(request: DeviceRequest, now: nat) returns (reply: Reply)
      requires request.ActivateRequest?
      modifies this
      ensures match PrepareActivation(old(Snapshot()), request, now)
              case Answer(answer) => Snapshot() == old(Snapshot()) && reply == answer
              case Plan(plan) => (Snapshot(), reply) == CommitDevice(old(Snapshot()), plan)
    {
      var ActivateRequest(checks, authorization, iat, exp, nonce) := request;
      if !checks.wellFormed {
        return Fault(BadRequest);
      }
      if identity.None? {
        return Fault(IdentityNotFound);
      }
      var row := identity.value;
      var rejection := VerifyAuthorization(checks);
      if rejection.Some? {
        return Fault(rejection.value);
      }
      var deviceId, authorizationId := authorization.deviceId, authorization.authorizationId;
      if !checks.payloadMatches {
        return Fault(BadRequest);
      }
      if !checks.deviceSignatureValid {
        return Fault(InvalidSignature);
      }
      if row.state == Revoked {
        return Fault(IdentityIsRevoked);
      }
      var existing := ReadDevice(deviceId);
      if existing.Some? && existing.value.state == Revoked {
        return Fault(DeviceIsRevoked);
      }
      if existing.Some? && existing.value.authorizationId != Some(authorizationId) {
        return Fault(DeviceAuthorizationConflict);
      }
      var operation := ActivateOperation(deviceId, authorizationId, iat, exp, nonce);
      var replay := ReadDeviceOperation(operation);
      if replay.Some? {
        reply := AnswerReplay(deviceId, replay.value);
        return;
      }
      var outOfTime := ActivationOutOfTime(authorization, iat, exp, now);
      if outOfTime {
        return Fault(BadRequest);
      }
      if existing.Some? {
        if existing.value.activationEvent.None? {
          return Fault(InternalError);
        }
        return DeviceMutation(Snapshot(), existing.value, existing.value.activationEvent);
      }
      var nextSequence := deviceLedger + 1;
      var event := DeviceEvent(operation, Activated, row.subject, row.genesisHash, row.sequence, Active, nextSequence,
                               deviceId, Some(authorizationId), Active, Some(authorization.expiresAt), now, None);
      reply := ActivationTransaction(event);
    }

    /** The nine comparisons with the clock and the limits of an activation. */
    method ActivationOutOfTime(authorization: Authorization, iat: nat, exp: nat, now: nat) returns (outOfTime: bool)
      ensures outOfTime <==> !ActivationTimesValid(authorization, iat, exp, now)
    {
      var Authorization(_, _, validFrom, deadline, expiresAt) := authorization;
      outOfTime :=
        || validFrom > deadline || deadline > expiresAt
        || deadline - validFrom > MAX_DEVICE_ACTIVATION_WINDOW_SECONDS
        || expiresAt - validFrom > MAX_DEVICE_AUTHORIZATION_LIFETIME_SECONDS
        || now + MAX_CLOCK_SKEW_SECONDS < validFrom || now - MAX_CLOCK_SKEW_SECONDS > deadline || now >= expiresAt
        || iat > exp || exp - iat > MAX_DEVICE_REQUEST_LIFETIME_SECONDS
        || now + MAX_CLOCK_SKEW_SECONDS < iat || now - MAX_CLOCK_SKEW_SECONDS > exp;
    }

    method RevokeDeviceSelf(request: DeviceRequest, now: nat, acceptedAt: nat) returns (reply: Reply)
      requires request.SelfRevokeRequest?
      modifies this
      ensures match PrepareDeviceRevocation(old(Snapshot()), request, now, acceptedAt)
              case Answer(answer) => Snapshot() == old(Snapshot()) && reply == answer
              case Plan(plan) => (Snapshot(), reply) == CommitDevice(old(Snapshot()), plan)
    {
      var SelfRevokeRequest(checks, authorization, issuedAt, nonce) := request;
      if !checks.wellFormed {
        return Fault(BadRequest);
      }
      if identity.None? {
        return Fault(IdentityNotFound);
      }
      var row := identity.value;
      var rejection := VerifyAuthorization(checks);
      if rejection.Some? {
        return Fault(rejection.value);
      }
      if !checks.payloadMatches {
        return Fault(BadRequest);
      }
      if !checks.deviceSignatureValid {
        return Fault(InvalidSignature);
      }
      if row.state == Revoked {
        return Fault(IdentityIsRevoked);
      }
      var deviceId, authorizationId := authorization.deviceId, authorization.authorizationId;
      var operation := SelfRevokeOperation(deviceId, authorizationId, issuedAt, nonce);
      var replay := ReadDeviceOperation(operation);
      if replay.Some? {
        reply := AnswerReplay(deviceId, replay.value);
        return;
      }
      if issuedAt > now + MAX_CLOCK_SKEW_SECONDS || now - issuedAt > MAX_REVOCATION_AGE_SECONDS {
        return Fault(BadRequest);
      }
      reply :=
        FinishDeviceRevocation(row, deviceId, Some(authorizationId), Some(authorization.expiresAt), operation, Device,
                               request, acceptedAt);
    }

    method RevokeDeviceRoot(request: DeviceRequest, now: nat, acceptedAt: nat) returns (reply: Reply)
      requires request.RootRevokeRequest?
      modifies this
      ensures match PrepareDeviceRevocation(old(Snapshot()), request, now, acceptedAt)
              case Answer(answer) => Snapshot() == old(Snapshot()) && reply == answer
              case Plan(plan) => (Snapshot(), reply) == CommitDevice(old(Snapshot()), plan)
    {
      var RootRevokeRequest(checks, deviceId, issuedAt, nonce) := request;
      if !checks.wellFormed {
        return Fault(BadRequest);
      }
      if identity.None? {
        return Fault(IdentityNotFound);
      }
      var row := identity.value;
      if !checks.payloadMatches {
        return Fault(BadRequest);
      }
      if !checks.rootSignatureValid {
        return Fault(InvalidSignature);
      }
      if row.state == Revoked {
        return Fault(IdentityIsRevoked);
      }
      var operation := RootRevokeOperation(deviceId, issuedAt, nonce);
      var replay := ReadDeviceOperation(operation);
      if replay.Some? {
        reply := AnswerReplay(deviceId, replay.value);
        return;
      }
      if issuedAt > now + MAX_CLOCK_SKEW_SECONDS || now - issuedAt > MAX_REVOCATION_AGE_SECONDS {
        return Fault(BadRequest);
      }
      reply := FinishDeviceRevocation(row, deviceId, None, None, operation, Root, request, acceptedAt);
    }

    /** `#commitDeviceRevocation`; `request` is what its other parameters are taken from. */
    method FinishDeviceRevocation(row: IdentityRow, deviceId: DeviceId, authorizationId: Option<AuthorizationId>,
                                  requestExpiry: Option<nat>, operation: Operation, revokedBy: Revoker,
                                  ghost request: DeviceRequest, acceptedAt: nat)
      returns (reply: Reply)
      requires !request.ActivateRequest? && deviceId == TargetDevice(request) && operation == OperationOf(request)
      requires authorizationId == RequestAuthorization(request) && requestExpiry == RequestExpiry(request)
      requires revokedBy == RevokerOf(request)
      modifies this
      ensures match PlanDeviceRevocation(old(Snapshot()), row, request, acceptedAt)
              case Answer(answer) => Snapshot() == old(Snapshot()) && reply == answer
              case Plan(plan) => (Snapshot(), reply) == CommitDevice(old(Snapshot()), plan)
    {
      var existing := ReadDevice(deviceId);
      if existing.Some? && existing.value.state == Revoked {
        if existing.value.revocationEvent.None? {
          return Fault(InternalError);
        }
        return DeviceMutation(Snapshot(), existing.value, existing.value.revocationEvent);
      }
      if revokedBy == Device && existing.Some? && existing.value.authorizationId != authorizationId {
        return Fault(DeviceAuthorizationConflict);
      }
      var previous := ReadDeviceOperation(operation);
      if previous.Some? {
        reply := AnswerReplay(deviceId, previous.value);
        return;
      }
      var nextSequence := deviceLedger + 1;
      var effectiveAuthorizationId, expiresAt := authorizationId, requestExpiry;
      if existing.Some? {
        effectiveAuthorizationId := Coalesce(existing.value.authorizationId, authorizationId);
        expiresAt := Coalesce(existing.value.authorizationExpiresAt, requestExpiry);
      }
      var event :=
        DeviceEvent(operation, DeviceRevoked, row.subject, row.genesisHash, row.sequence, Active, nextSequence,
                    deviceId, effectiveAuthorizationId, Revoked, expiresAt, acceptedAt, Some(revokedBy));
      reply := DeviceRevocationTransaction(event, authorizationId);
    }

    method ActivationTransaction(event: DeviceEvent) returns (reply: Reply)
      modifies this
      ensures (Snapshot(), reply) == CommitActivation(old(Snapshot()), event)
    {
      if identity.None? {
        return Fault(IdentityNotFound);
      }
      if identity.value.state == Revoked {
        return Fault(IdentityIsRevoked);
      }
      if event.deviceId in devices {
        var current := devices[event.deviceId];
        if current.state == Revoked {
          return Fault(DeviceIsRevoked);
        }
        if current.authorizationId != event.authorizationId {
          return Fault(DeviceAuthorizationConflict);
        }
        return DeviceMutation(Snapshot(), current, current.activationEvent);
      }
      if deviceLedger + 1 != event.deviceLedgerSequence {
        return Fault(SequenceConflict);
      }
      var before := Snapshot();
      devices := devices[event.deviceId := ActivatedRow(event)];
      deviceLedger := event.deviceLedgerSequence;
      var inserted := InsertDeviceOperationAndOutbox(event);
      if !inserted {
        Rollback(before);
        return Fault(InternalError);
      }
      reply := DeviceMutation(Snapshot(), devices[event.deviceId], Some(event));
    }

    method DeviceRevocationTransaction(event: DeviceEvent, authorizationId: Option<AuthorizationId>)
      returns (reply: Reply)
      modifies this
      ensures (Snapshot(), reply) == CommitDeviceRevocation(old(Snapshot()), event, authorizationId)
    {
      if identity.None? {
        return Fault(IdentityNotFound);
      }
      if identity.value.state == Revoked {
        return Fault(IdentityIsRevoked);
      }
      var present := event.deviceId in devices;
      if present && devices[event.deviceId].state == Revoked {
        return DeviceMutation(Snapshot(), devices[event.deviceId], devices[event.deviceId].revocationEvent);
      }
      if event.revokedBy == Some(Device) && present && devices[event.deviceId].authorizationId != authorizationId {
        return Fault(DeviceAuthorizationConflict);
      }
      if deviceLedger + 1 != event.deviceLedgerSequence {
        return Fault(SequenceConflict);
      }
      var before := Snapshot();
      if !present {
        devices := devices[event.deviceId := DeviceRow(authorizationId, Revoked, event.authorizationExpiresAt, None,
                                                       Some(event.acceptedAt), event.revokedBy, None, Some(event))];
      } else {
        var revoked := devices[event.deviceId].(state := Revoked, revokedAt := Some(event.acceptedAt),
                                                revokedBy := event.revokedBy, revocationEvent := Some(event));
        devices := devices[event.deviceId := revoked];
      }
      deviceLedger := event.deviceLedgerSequence;
      var inserted := InsertDeviceOperationAndOutbox(event);
      if !inserted {
        Rollback(before);
        return Fault(InternalError);
      }
      reply := DeviceMutation(Snapshot(), devices[event.deviceId], Some(event));
    }
  }
}
