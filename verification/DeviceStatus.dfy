/**
 * From a device row to a signed status: `#deviceStatusFromRow` (workers/registry/src/identity-state-do.ts),
 * `validateDeviceStatus` and `signedDeviceStatus` (workers/edge-api/src/index.ts) and the wire schema of the
 * statement (packages/protocol/src/schemas.ts). Formats of identifiers are not modelled.
 */
module DeviceStatus {
  import opened Common
  import opened RegistryEvents
  import opened Registry
  import opened RegistryRuns
  import opened RegistryTheorems

  datatype StatusState = StatusActive | StatusRevoked | StatusExpired | StatusUnknown

  datatype Status = Status(
    subject: string,
    genesisHash: string,
    identityState: LifecycleState,
    identitySequence: nat,
    deviceLedgerSequence: nat,
    deviceId: DeviceId,
    authorizationId: AuthorizationId,
    deviceState: StatusState,
    activatedAt: Option<nat>,
    revokedAt: Option<nat>,
    authorizationExpiresAt: Option<nat>)

  /** `#deviceStatusFromRow` */
  function StatusFromRow(t: Tables, deviceId: DeviceId, authorizationId: AuthorizationId, now: nat): Status
    requires t.identity.Some?
  {
    var identity, row := t.identity.value, DeviceOf(t, deviceId);
    var matches := row.Some? && row.value.authorizationId == Some(authorizationId);
    Status(
      identity.subject, identity.genesisHash, identity.state, identity.sequence, t.deviceLedger,
      deviceId, authorizationId,
      if identity.state == Revoked then StatusRevoked
      else if row.Some? && row.value.state == Revoked then StatusRevoked
      else if row.None? || !matches then StatusUnknown
      else if row.value.authorizationExpiresAt.Some? && now >= row.value.authorizationExpiresAt.value then StatusExpired
      else StatusActive,
      if matches then row.value.activatedAt else None,
      if identity.state == Revoked then identity.revokedAt
      else if row.Some? && row.value.state == Revoked then row.value.revokedAt else None,
      if matches then row.value.authorizationExpiresAt else None)
  }

  predicate IsSafeEpoch(x: int) {
    IsSafeInteger(x) && x >= 0
  }

  predicate OptionalSafeEpoch(x: Option<nat>) {
    x.Some? ==> IsSafeEpoch(x.value)
  }

  predicate InOrder(earlier: Option<nat>, later: Option<nat>) {
    earlier.Some? && later.Some? ==> earlier.value <= later.value
  }

  predicate HasActivationAndExpiryOnly(s: Status) {
    s.identityState == Active && s.activatedAt.Some? && s.revokedAt.None? && s.authorizationExpiresAt.Some?
  }

  predicate TimesFitState(s: Status) {
    match s.deviceState
    case StatusActive => HasActivationAndExpiryOnly(s)
    case StatusExpired => HasActivationAndExpiryOnly(s)
    case StatusRevoked => s.revokedAt.Some?
    case StatusUnknown => s.activatedAt.None? && s.revokedAt.None? && s.authorizationExpiresAt.None?
  }

  /** `validateDeviceStatus` returns its argument. */
  predicate EdgeAccepts(s: Status, subject: string, deviceId: DeviceId, authorizationId: AuthorizationId) {
    && s.subject == subject && s.deviceId == deviceId && s.authorizationId == authorizationId
    && IsSafeEpoch(s.identitySequence) && SequenceMatchesState(s.identitySequence, s.identityState)
    && IsSafeEpoch(s.deviceLedgerSequence)
    && OptionalSafeEpoch(s.activatedAt) && OptionalSafeEpoch(s.revokedAt) && OptionalSafeEpoch(s.authorizationExpiresAt)
    && TimesFitState(s)
    && InOrder(s.activatedAt, s.revokedAt) && InOrder(s.activatedAt, s.authorizationExpiresAt)
  }

  datatype Statement = Statement(status: Status, iat: nat, exp: nat)

  /** `signedDeviceStatus` up to the schema check of its own output. */
  function Sign(s: Status, issuedAt: nat, ttl: nat): Statement {
    var effective :=
      if s.deviceState == StatusActive && s.authorizationExpiresAt.Some? && issuedAt >= s.authorizationExpiresAt.value
      then s.(deviceState := StatusExpired) else s;
    Statement(effective, issuedAt,
              if effective.deviceState == StatusActive && effective.authorizationExpiresAt.Some?
                 && effective.authorizationExpiresAt.value < issuedAt + ttl
              then effective.authorizationExpiresAt.value else issuedAt + ttl)
  }

  /** `deviceStatusStatementPayloadV2Schema` accepts the payload. */
  predicate SchemaAccepts(p: Statement) {
    && IsSafeEpoch(p.status.identitySequence) && IsSafeEpoch(p.status.deviceLedgerSequence)
    && OptionalSafeEpoch(p.status.activatedAt) && OptionalSafeEpoch(p.status.revokedAt)
    && OptionalSafeEpoch(p.status.authorizationExpiresAt)
    && IsSafeEpoch(p.iat) && IsSafeEpoch(p.exp)
    && p.iat <= p.exp
    && SequenceMatchesState(p.status.identitySequence, p.status.identityState)
    && TimesFitState(p.status)
    && InOrder(p.status.activatedAt, p.status.authorizationExpiresAt)
    && InOrder(p.status.activatedAt, p.status.revokedAt)
  }

  /**
   * The statement says of this very device what the status says, except that an authorization that has run out
   * since is shown as expired; it holds from now for `ttl` seconds, and no longer than an active authorization.
   */
  predicate Conveys(p: Statement, s: Status, issuedAt: nat, ttl: nat) {
    var expired := s.deviceState == StatusActive && s.authorizationExpiresAt.Some?
                   && s.authorizationExpiresAt.value <= issuedAt;
    && p.status == s.(deviceState := p.status.deviceState)
    && p.status.deviceState == (if expired then StatusExpired else s.deviceState)
    && p.iat == issuedAt && p.exp <= issuedAt + ttl
    && if p.status.deviceState == StatusActive && s.authorizationExpiresAt.Some? then
         p.exp <= s.authorizationExpiresAt.value
         && (p.exp == issuedAt + ttl || p.exp == s.authorizationExpiresAt.value)
       else p.exp == issuedAt + ttl
  }

  /** What a relying party may conclude from the times of a statement. */
  predicate TimesMakeSense(s: Status) {
    && (s.deviceState in {StatusActive, StatusExpired} ==>
          s.identityState == Active && s.activatedAt.Some? && s.revokedAt.None? && s.authorizationExpiresAt.Some?)
    && (s.deviceState == StatusRevoked ==> s.revokedAt.Some?)
    && (s.deviceState == StatusUnknown ==> s.activatedAt.None? && s.revokedAt.None? && s.authorizationExpiresAt.None?)
    && (s.activatedAt.Some? && s.revokedAt.Some? ==> s.activatedAt.value <= s.revokedAt.value)
    && (s.activatedAt.Some? && s.authorizationExpiresAt.Some? ==>
          s.activatedAt.value <= s.authorizationExpiresAt.value)
    && s.identitySequence == if s.identityState == Active then 0 else 1
  }

  /**
   * Whatever the edge accepts is about the device it was asked for, is signed as it stands, and satisfies the wire
   * schema; an active statement is issued before the authorization's expiry and does not outlive it.
   */
  lemma AcceptedIsSigned(s: Status, subject: string, deviceId: DeviceId, authorizationId: AuthorizationId,
                         issuedAt: nat, ttl: nat)
    requires EdgeAccepts(s, subject, deviceId, authorizationId)
    requires 1 <= ttl && IsSafeInteger(issuedAt + ttl)
    ensures var p := Sign(s, issuedAt, ttl);
            && p.status.subject == subject && p.status.deviceId == deviceId
            && p.status.authorizationId == authorizationId
            && Conveys(p, s, issuedAt, ttl) && SchemaAccepts(p) && TimesMakeSense(p.status) && p.iat < p.exp
            && (p.status.deviceState == StatusActive ==> p.iat < p.status.authorizationExpiresAt.value)
  {
  }

  /** The two validators agree: of a status, the schema of the statement checks just what the edge checks. */
  lemma SchemaAgreesWithEdge(s: Status, iat: nat, exp: nat)
    ensures SchemaAccepts(Statement(s, iat, exp))
            <==> EdgeAccepts(s, s.subject, s.deviceId, s.authorizationId)
                 && iat <= exp <= 0x1F_FFFF_FFFF_FFFF
  {
  }

  // ----- Runs whose device handlers read a clock that never goes back

  /** A device handler's readings follow `clock`, and the authorization it is given has a safe expiry. */
  predicate StepClocked(action: Action, clock: nat, limit: nat) {
    action.BeginDevice? ==>
      clock <= action.now <= action.acceptedAt <= limit
      && (action.request.RootRevokeRequest? || action.request.authorization.expiresAt <= MAX_SAFE_INTEGER)
  }

  function ClockAfter(action: Action, clock: nat): nat {
    if action.BeginDevice? then action.acceptedAt else clock
  }

  /** Device handlers are serialized, so their clock readings are ordered; the others' need not be. */
  predicate DeviceClock(actions: seq<Action>, clock: nat, limit: nat)
    decreases |actions|
  {
    clock <= limit
    && (actions == []
        || (StepClocked(actions[0], clock, limit) && DeviceClock(actions[1..], ClockAfter(actions[0], clock), limit)))
  }

  predicate EventClocked(e: DeviceEvent, clock: nat) {
    && e.acceptedAt <= clock
    && OptionalSafeEpoch(e.authorizationExpiresAt)
    && (e.eventType == Activated ==> e.authorizationExpiresAt.Some? && e.acceptedAt < e.authorizationExpiresAt.value)
  }

  ghost predicate Clocked(w: World, clock: nat) {
    && (forall e :: e in w.log ==> EventClocked(e, clock))
    && (forall i, j :: 0 <= i < j < |w.log| ==> w.log[i].acceptedAt <= w.log[j].acceptedAt)
    && (w.slot.Some? ==>
          && EventClocked(w.slot.value.event, clock)
          && forall e :: e in w.log ==> EventClocked(e, w.slot.value.event.acceptedAt))
  }

  lemma ClockAdvances(w: World, clock: nat, later: nat)
    requires Clocked(w, clock) && clock <= later
    ensures Clocked(w, later)
  {
  }

  lemma PlannedEventClocked(t: Tables, action: Action, clock: nat)
    requires action.BeginDevice? && StepClocked(action, clock, action.acceptedAt)
    requires var row := DeviceOf(t, TargetDevice(action.request));
             row.Some? ==> OptionalSafeEpoch(row.value.authorizationExpiresAt)
    ensures var p := PrepareDevice(t, action.request, action.now, action.acceptedAt);
            p.Plan? ==> EventClocked(p.plan.event, action.acceptedAt) && action.now <= p.plan.event.acceptedAt
  {
  }

  lemma ExpiryOfRowSafe(w: World, clock: nat, d: DeviceId)
    requires Inv(w) && Clocked(w, clock)
    ensures var row := DeviceOf(w.tables, d); row.Some? ==> OptionalSafeEpoch(row.value.authorizationExpiresAt)
  {
    RowOf(w, d);
    RowReflectsEvents(w.log, d);
  }

  lemma BeginDeviceClocked(w: World, action: Action, clock: nat)
    requires Inv(w) && Clocked(w, clock) && action.BeginDevice? && StepClocked(action, clock, action.acceptedAt)
    ensures Clocked(Apply(w, action), action.acceptedAt)
  {
    ClockAdvances(w, clock, action.acceptedAt);
    if w.slot.None? {
      ExpiryOfRowSafe(w, clock, TargetDevice(action.request));
      PlannedEventClocked(w.tables, action, clock);
    }
  }

  lemma FinishDeviceClocked(w: World, clock: nat)
    requires Clocked(w, clock)
    ensures Clocked(Apply(w, FinishDevice), clock)
  {
    if w.slot.Some? {
      var longer := w.log + [w.slot.value.event];
      forall i, j | 0 <= i < j < |longer|
        ensures longer[i].acceptedAt <= longer[j].acceptedAt
      {
        assert longer[i] in w.log;
      }
    }
  }

  lemma ApplyClocked(w: World, action: Action, clock: nat, limit: nat)
    requires Inv(w) && Clocked(w, clock) && StepClocked(action, clock, limit)
    ensures Clocked(Apply(w, action), ClockAfter(action, clock))
  {
    match action
    case BeginDevice(_, _, _) => BeginDeviceClocked(w, action, clock);
    case FinishDevice => FinishDeviceClocked(w, clock);
    case _ =>
      var w' := Apply(w, action);
      assert w'.log == w.log && (w'.slot == w.slot || w'.slot.None?);
  }

  lemma {:induction false} RunClocked(w: World, actions: seq<Action>, clock: nat, limit: nat)
    requires Inv(w) && Clocked(w, clock) && DeviceClock(actions, clock, limit)
    ensures Clocked(Run(w, actions), limit)
    decreases |actions|
  {
    if actions == [] {
      ClockAdvances(w, clock, limit);
    } else {
      ApplyKeeps(w, actions[0]);
      ApplyClocked(w, actions[0], clock, limit);
      RunClocked(Apply(w, actions[0]), actions[1..], ClockAfter(actions[0], clock), limit);
    }
  }

  // ----- When the pipeline accepts

  /** The device row a status shows was activated after the moment at which the identity counts as revoked. */
  predicate ActivatedAfterRevocation(t: Tables, deviceId: DeviceId, authorizationId: AuthorizationId)
    requires t.identity.Some?
  {
    var identity, row := t.identity.value, DeviceOf(t, deviceId);
    && identity.state == Revoked && identity.revokedAt.Some?
    && row.Some? && row.value.authorizationId == Some(authorizationId)
    && row.value.activatedAt.Some? && identity.revokedAt.value < row.value.activatedAt.value
  }

  predicate RowClocked(row: DeviceRow) {
    && OptionalSafeEpoch(row.activatedAt) && OptionalSafeEpoch(row.revokedAt)
    && OptionalSafeEpoch(row.authorizationExpiresAt)
    && (row.state == Active ==> row.activatedAt.Some? && row.authorizationExpiresAt.Some?)
    && (row.state == Revoked ==> row.revokedAt.Some?)
    && InOrder(row.activatedAt, row.revokedAt) && InOrder(row.activatedAt, row.authorizationExpiresAt)
  }

  lemma EventsInOrder(w: World, clock: nat, e: DeviceEvent, f: DeviceEvent)
    requires HistoryOk(w.log) && Clocked(w, clock) && e in w.log && f in w.log && e.deviceId == f.deviceId
    requires e.eventType == Activated && f.eventType == DeviceRevoked
    ensures e.acceptedAt <= f.acceptedAt
  {
    var i :| 0 <= i < |w.log| && w.log[i] == e;
    var j :| 0 <= j < |w.log| && w.log[j] == f;
    assert i < j || MayFollow(f, e);
  }

  lemma RowsClocked(w: World, clock: nat, d: DeviceId)
    requires Inv(w) && Clocked(w, clock) && clock <= MAX_SAFE_INTEGER
    ensures var row := DeviceOf(w.tables, d); row.Some? ==> RowClocked(row.value)
  {
    RowOf(w, d);
    RowReflectsEvents(w.log, d);
    var row := FoldDevice(w.log, d);
    if row.Some? && row.value.activationEvent.Some? && row.value.revocationEvent.Some? {
      EventsInOrder(w, clock, row.value.activationEvent.value, row.value.revocationEvent.value);
    }
  }

  lemma StatusAcceptedIff(t: Tables, d: DeviceId, a: AuthorizationId, now: nat)
    requires IdentityOk(t) && t.identity.Some? && t.deviceLedger <= MAX_SAFE_INTEGER
    requires OptionalSafeEpoch(t.identity.value.revokedAt)
    requires var row := DeviceOf(t, d); row.Some? ==> RowClocked(row.value)
    ensures EdgeAccepts(StatusFromRow(t, d, a, now), t.identity.value.subject, d, a)
            <==> !ActivatedAfterRevocation(t, d, a)
  {
  }

  /**
   * In every interleaving, the edge accepts the status of a device exactly when the identity was not revoked
   * with a clock reading older than the activation; `now` is the registry's clock when it answers.
   */
  lemma {:induction false} PipelineAcceptsIff(actions: seq<Action>, d: DeviceId, a: AuthorizationId, now: nat)
    requires DeviceClock(actions, 0, MAX_SAFE_INTEGER)
    requires var t := Reach(actions).tables;
             t.identity.Some? && OptionalSafeEpoch(t.identity.value.revokedAt) && t.deviceLedger <= MAX_SAFE_INTEGER
    ensures var t := Reach(actions).tables;
            EdgeAccepts(StatusFromRow(t, d, a, now), t.identity.value.subject, d, a)
            <==> !ActivatedAfterRevocation(t, d, a)
  {
    ReachInv(actions);
    RunClocked(INITIAL, actions, 0, MAX_SAFE_INTEGER);
    RowsClocked(Reach(actions), MAX_SAFE_INTEGER, d);
    StatusAcceptedIff(Reach(actions).tables, d, a, now);
  }

  /** An event of the device, of this type and under this authorization. */
  predicate IsEventOf(e: DeviceEvent, d: DeviceId, eventType: DeviceEventType, a: Option<AuthorizationId>) {
    e.deviceId == d && e.eventType == eventType && e.authorizationId == a
  }

  ghost predicate EverRevoked(log: seq<DeviceEvent>, d: DeviceId) {
    exists e :: e in log && e.deviceId == d && e.eventType == DeviceRevoked
  }

  ghost predicate ActivatedUnder(log: seq<DeviceEvent>, d: DeviceId, a: AuthorizationId) {
    exists e :: e in log && IsEventOf(e, d, Activated, Some(a))
  }

  /** The times of a status, event by event. */
  ghost predicate TimesAreRecorded(s: Status, log: seq<DeviceEvent>, identityRevokedAt: Option<nat>) {
    && (s.activatedAt.Some? <==> ActivatedUnder(log, s.deviceId, s.authorizationId))
    && (forall e :: e in log && e.deviceId == s.deviceId && e.authorizationId == Some(s.authorizationId) ==>
          s.authorizationExpiresAt == e.authorizationExpiresAt
          && (e.eventType == Activated ==> s.activatedAt == Some(e.acceptedAt)))
    && (s.authorizationExpiresAt.Some? ==>
          exists e :: e in log && e.deviceId == s.deviceId && e.authorizationId == Some(s.authorizationId))
    && (s.identityState == Revoked ==> s.revokedAt == identityRevokedAt)
    && (s.identityState == Active ==>
          && (s.revokedAt.Some? <==> EverRevoked(log, s.deviceId))
          && forall e :: e in log && e.deviceId == s.deviceId && e.eventType == DeviceRevoked ==>
               s.revokedAt == Some(e.acceptedAt))
  }

  ghost predicate StateIsRecorded(s: Status, log: seq<DeviceEvent>, now: nat) {
    && (s.deviceState == StatusRevoked <==> s.identityState == Revoked || EverRevoked(log, s.deviceId))
    && (s.deviceState in {StatusActive, StatusExpired} <==>
          s.identityState == Active && !EverRevoked(log, s.deviceId)
          && ActivatedUnder(log, s.deviceId, s.authorizationId))
    && (s.deviceState == StatusExpired ==> s.authorizationExpiresAt.Some? && s.authorizationExpiresAt.value <= now)
    && (s.deviceState == StatusActive ==> s.authorizationExpiresAt.Some? && now < s.authorizationExpiresAt.value)
  }

  lemma StateOfStatus(t: Tables, log: seq<DeviceEvent>, d: DeviceId, a: AuthorizationId, now: nat)
    requires t.identity.Some? && Reflects(DeviceOf(t, d), log, d) && forall e :: e in log ==> DeviceEventValid(e)
    ensures StateIsRecorded(StatusFromRow(t, d, a, now), log, now)
  {
  }

  lemma TimesOfStatus(t: Tables, log: seq<DeviceEvent>, d: DeviceId, a: AuthorizationId, now: nat)
    requires t.identity.Some? && Reflects(DeviceOf(t, d), log, d) && forall e :: e in log ==> DeviceEventValid(e)
    ensures TimesAreRecorded(StatusFromRow(t, d, a, now), log, t.identity.value.revokedAt)
  {
  }

  /**
   * A status is about the device, the authorization and the identity it names, at the current end of the ledger. It
   * is revoked exactly when the identity or the device is, active or expired exactly when the history holds an
   * activation under that authorization and no revocation, and its times are those of the events.
   */
  lemma {:induction false} StatusMeans(actions: seq<Action>, d: DeviceId, a: AuthorizationId, now: nat)
    requires Reach(actions).tables.identity.Some?
    ensures var log, row := Reach(actions).log, Reach(actions).tables.identity.value;
            var s := StatusFromRow(Reach(actions).tables, d, a, now);
            && s.deviceId == d && s.authorizationId == a && s.subject == row.subject && s.genesisHash == row.genesisHash
            && s.identityState == row.state && s.identitySequence == row.sequence && s.deviceLedgerSequence == |log|
            && StateIsRecorded(s, log, now) && TimesAreRecorded(s, log, row.revokedAt)
  {
    var w := Reach(actions);
    ReachInv(actions);
    RowOf(w, d);
    RowReflectsEvents(w.log, d);
    StateOfStatus(w.tables, w.log, d, a, now);
    TimesOfStatus(w.tables, w.log, d, a, now);
  }

  /** A status is active exactly when the history says so. */
  lemma {:induction false} ActiveMeans(actions: seq<Action>, d: DeviceId, a: AuthorizationId, now: nat)
    requires Reach(actions).tables.identity.Some?
    ensures var w := Reach(actions);
            StatusFromRow(w.tables, d, a, now).deviceState == StatusActive
            <==> w.tables.identity.value.state == Active
                 && (exists e :: e in w.log && e.deviceId == d && e.eventType == Activated
                                 && e.authorizationId == Some(a) && now < e.authorizationExpiresAt.GetOr(0))
                 && !(exists e :: e in w.log && e.deviceId == d && e.eventType == DeviceRevoked)
  {
    ReachInv(actions);
    RowOf(Reach(actions), d);
    RowReflectsEvents(Reach(actions).log, d);
  }
}
