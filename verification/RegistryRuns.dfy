/**
 * Runs of the registry object: device handlers are serialized (blockConcurrencyWhile), registrations and
 * identity revocations are not, so any of their transactions may land between a device handler's reads and
 * its own transaction. The object may restart at any time and lose everything but its tables.
 */
module RegistryRuns {
  import opened Common
  import opened RegistryEvents
  import opened Registry

  datatype World = World(
    tables: Tables,
    registrations: set<RegistrationPlan>,
    revocations: set<RevocationPlan>,
    slot: Option<DevicePlan>,
    // history: the device events in the order in which they were committed
    log: seq<DeviceEvent>)

  const INITIAL := World(EMPTY, {}, {}, None, [])

  datatype Action =
    | BeginRegistration(registration: Registration, now: nat)
    | FinishRegistration(registrationPlan: RegistrationPlan)
    | BeginRevocation(command: RevokeCommand, now: nat)
    | FinishRevocation(revocationPlan: RevocationPlan)
    | BeginDevice(request: DeviceRequest, now: nat, acceptedAt: nat)
    | FinishDevice
    | Restart

  /** A plan stays available after its commit, which stands for equal plans of other pending calls. */
  function Apply(w: World, action: Action): World {
    match action
    case BeginRegistration(registration, now) =>
      (match PrepareRegistration(w.tables, registration, now)
       case Answer(_) => w
       case Plan(plan) => w.(registrations := w.registrations + {plan}))
    case FinishRegistration(plan) =>
      if plan in w.registrations then w.(tables := CommitRegistration(w.tables, plan).0) else w
    case BeginRevocation(command, now) =>
      (match PrepareRevocation(w.tables, command, now)
       case Answer(_) => w
       case Plan(plan) => w.(revocations := w.revocations + {plan}))
    case FinishRevocation(plan) =>
      if plan in w.revocations then w.(tables := CommitRevocation(w.tables, plan).0) else w
    case BeginDevice(request, now, acceptedAt) =>
      if w.slot.Some? then w
      else (match PrepareDevice(w.tables, request, now, acceptedAt)
            case Answer(_) => w
            case Plan(plan) => w.(slot := Some(plan)))
    case FinishDevice =>
      if w.slot.None? then w
      else
        var t := CommitDevice(w.tables, w.slot.value).0;
        w.(tables := t, slot := None, log := if t == w.tables then w.log else w.log + [w.slot.value.event])
    case Restart => w.(registrations := {}, revocations := {}, slot := None)
  }

  function Run(w: World, actions: seq<Action>): World
    decreases |actions|
  {
    if actions == [] then w else Run(Apply(w, actions[0]), actions[1..])
  }

  // ----- A device row is the fold of the device's events

  function DeviceAfter(row: Option<DeviceRow>, event: DeviceEvent): DeviceRow {
    match event.eventType
    case Activated => ActivatedRow(event)
    case DeviceRevoked => RevokedRow(row, event, event.authorizationId)
  }

  function FoldDevice(log: seq<DeviceEvent>, deviceId: DeviceId): Option<DeviceRow> {
    if log == [] then None
    else
      var event := log[|log| - 1];
      var before := FoldDevice(log[..|log| - 1], deviceId);
      if event.deviceId == deviceId then Some(DeviceAfter(before, event)) else before
  }

  lemma FoldDeviceSnoc(log: seq<DeviceEvent>, event: DeviceEvent, deviceId: DeviceId)
    ensures FoldDevice(log + [event], deviceId)
            == if event.deviceId == deviceId then Some(DeviceAfter(FoldDevice(log, deviceId), event))
               else FoldDevice(log, deviceId)
  {
    assert (log + [event])[..|log|] == log;
  }

  // ----- Invariant

  predicate IdentityOk(t: Tables) {
    match t.identity
    case None => t == EMPTY
    case Some(row) =>
      && 0 in t.actions
      && t.actions[0]
         == IdentityEvent(Registered, row.subject, row.genesisHash, 0, Active, row.registeredAt, row.genesisHash)
      && match row.state
         case Active =>
           row.sequence == 0 && row.revokedAt.None? && row.revocationEvent.None?
           && t.actions == map[0 := t.actions[0]] && t.outbox == {t.actions[0]}
         case Revoked =>
           && row.sequence == 1 && row.revokedAt.Some? && row.revocationEvent.Some?
           && RevocationEventOf(row.revocationEvent.value, row)
           && row.revocationEvent.value.acceptedAt == row.revokedAt.value
           && t.actions == map[0 := t.actions[0], 1 := row.revocationEvent.value]
           && t.outbox == {t.actions[0], row.revocationEvent.value}
  }

  predicate RevocationEventOf(e: IdentityEvent, row: IdentityRow) {
    e.eventType == IdentityRevoked && e.subject == row.subject && e.genesisHash == row.genesisHash
    && e.sequence == 1 && e.state == Revoked
  }

  /** The event that carries out an operation concerns the device and the authorization of that operation. */
  predicate CarriesOut(e: DeviceEvent) {
    match e.operation
    case ActivateOperation(deviceId, authorizationId, _, _, _) =>
      e.eventType == Activated && e.deviceId == deviceId && e.authorizationId == Some(authorizationId)
    case SelfRevokeOperation(deviceId, authorizationId, _, _) =>
      e.eventType == DeviceRevoked && e.deviceId == deviceId && e.authorizationId == Some(authorizationId)
      && e.revokedBy == Some(Device)
    case RootRevokeOperation(deviceId, _, _) =>
      e.eventType == DeviceRevoked && e.deviceId == deviceId && e.revokedBy == Some(Root)
  }

  /** An event that a device handler of this identity emits while the identity is active. */
  predicate EmittedBy(e: DeviceEvent, row: IdentityRow) {
    e.subject == row.subject && e.genesisHash == row.genesisHash
    && e.identitySequence == 0 && e.identityState == Active && DeviceEventValid(e) && CarriesOut(e)
  }

  /** What may follow an event of a device: a revocation that keeps its authorization, and only after an activation. */
  predicate MayFollow(earlier: DeviceEvent, later: DeviceEvent) {
    earlier.deviceId == later.deviceId ==>
      earlier.eventType == Activated && later.eventType == DeviceRevoked
      && later.authorizationId == earlier.authorizationId
      && later.authorizationExpiresAt == earlier.authorizationExpiresAt
  }

  ghost predicate HistoryOk(log: seq<DeviceEvent>) {
    && (forall i :: 0 <= i < |log| ==> log[i].deviceLedgerSequence == i + 1)
    && (forall i, j :: 0 <= i < j < |log| ==> MayFollow(log[i], log[j]))
  }

  ghost predicate JournalOk(t: Tables, log: seq<DeviceEvent>) {
    && t.deviceLedger == |log|
    && (forall e :: e in t.deviceOutbox <==> e in log)
    && (forall op :: op in t.operations ==> t.operations[op] in log && t.operations[op].operation == op)
    && (forall e :: e in log ==> e.operation in t.operations && t.operations[e.operation] == e)
    && (forall e :: e in log ==> t.identity.Some? && EmittedBy(e, t.identity.value))
  }

  ghost predicate DevicesOk(t: Tables, log: seq<DeviceEvent>) {
    forall d :: (if d in t.devices then Some(t.devices[d]) else None) == FoldDevice(log, d)
  }

  predicate PlanOk(t: Tables, plan: DevicePlan) {
    var e := plan.event;
    && t.identity.Some? && EmittedBy(e, t.identity.value)
    && e.deviceLedgerSequence == t.deviceLedger + 1
    && e.operation !in t.operations
    && match plan
       case ActivationPlan(_) => e.eventType == Activated && e.deviceId !in t.devices
       case DeviceRevocationPlan(_, authorizationId) =>
         && e.eventType == DeviceRevoked
         && if e.deviceId in t.devices then
              var row := t.devices[e.deviceId];
              row.state == Active && e.authorizationId == row.authorizationId
              && e.authorizationExpiresAt == row.authorizationExpiresAt
              && (e.revokedBy == Some(Device) ==> row.authorizationId == authorizationId)
            else e.authorizationId == authorizationId
  }

  predicate RevocationPlanOk(t: Tables, plan: RevocationPlan) {
    t.identity.Some? && plan.initialSequence == 0 && RevocationEventOf(plan.event, t.identity.value)
  }

  predicate RegistrationPlanOk(plan: RegistrationPlan) {
    var r := plan.registration;
    plan.event == IdentityEvent(Registered, r.subject, r.genesisHash, 0, Active, plan.event.acceptedAt, r.genesisHash)
  }

  ghost predicate Inv(w: World) {
    && IdentityOk(w.tables)
    && HistoryOk(w.log) && JournalOk(w.tables, w.log) && DevicesOk(w.tables, w.log)
    && (w.slot.Some? ==> PlanOk(w.tables, w.slot.value))
    && (forall plan :: plan in w.revocations ==> RevocationPlanOk(w.tables, plan))
    && (forall plan :: plan in w.registrations ==> RegistrationPlanOk(plan))
  }

  // ----- What no action takes back

  predicate DeviceEvolves(before: Option<DeviceRow>, after: Option<DeviceRow>) {
    before.Some? ==>
      after.Some?
      && (before.value.state == Revoked ==> after == before)
      && (before.value.state == Active ==>
            after == before
            || after.value == before.value.(state := Revoked, revokedAt := after.value.revokedAt,
                                            revokedBy := after.value.revokedBy,
                                            revocationEvent := after.value.revocationEvent))
  }

  function DeviceOf(t: Tables, d: DeviceId): Option<DeviceRow> {
    if d in t.devices then Some(t.devices[d]) else None
  }

  ghost predicate Evolves(w: World, w': World) {
    && w.log <= w'.log
    && (forall d :: DeviceEvolves(DeviceOf(w.tables, d), DeviceOf(w'.tables, d)))
    && (w.tables.identity.Some? ==>
          && w'.tables.identity.Some?
          && w'.tables.identity.value.subject == w.tables.identity.value.subject
          && w'.tables.identity.value.genesisHash == w.tables.identity.value.genesisHash
          && w'.tables.identity.value.registeredAt == w.tables.identity.value.registeredAt
          && (w.tables.identity.value.state == Revoked ==>
                w'.tables.identity == w.tables.identity && w'.log == w.log && w'.tables.devices == w.tables.devices))
  }

  lemma EvolvesTransitive(a: World, b: World, c: World)
    requires Evolves(a, b) && Evolves(b, c)
    ensures Evolves(a, c)
  {
    forall d
      ensures DeviceEvolves(DeviceOf(a.tables, d), DeviceOf(c.tables, d))
    {
      assert DeviceEvolves(DeviceOf(a.tables, d), DeviceOf(b.tables, d));
      assert DeviceEvolves(DeviceOf(b.tables, d), DeviceOf(c.tables, d));
    }
  }

  /** A device row records what the events of the device said. */
  ghost predicate Reflects(row: Option<DeviceRow>, log: seq<DeviceEvent>, d: DeviceId) {
    match row
    case None => forall e :: e in log ==> e.deviceId != d
    case Some(row) =>
      && (row.state == Active <==> row.revocationEvent.None?)
      && (row.activationEvent.Some? ==>
            row.activationEvent.value in log && ShowsActivation(row, row.activationEvent.value, d))
      && (row.activationEvent.None? ==> row.state == Revoked && row.activatedAt.None?)
      && (row.revocationEvent.Some? ==>
            row.revocationEvent.value in log && ShowsRevocation(row, row.revocationEvent.value, d))
      && (row.state == Active ==> row.revokedAt.None? && row.revokedBy.None?)
      && (forall e :: e in log && e.deviceId == d ==> Some(e) == row.activationEvent || Some(e) == row.revocationEvent)
  }

  predicate ShowsActivation(row: DeviceRow, e: DeviceEvent, d: DeviceId) {
    && e.deviceId == d && e.eventType == Activated
    && row.authorizationId == e.authorizationId && row.authorizationExpiresAt == e.authorizationExpiresAt
    && row.activatedAt == Some(e.acceptedAt)
  }

  predicate ShowsRevocation(row: DeviceRow, e: DeviceEvent, d: DeviceId) {
    && e.deviceId == d && e.eventType == DeviceRevoked
    && row.authorizationId == e.authorizationId && row.authorizationExpiresAt == e.authorizationExpiresAt
    && row.revokedAt == Some(e.acceptedAt) && row.revokedBy == e.revokedBy
  }

  lemma ReflectsOther(row: Option<DeviceRow>, log: seq<DeviceEvent>, event: DeviceEvent, d: DeviceId)
    requires Reflects(row, log, d) && event.deviceId != d
    ensures Reflects(row, log + [event], d)
  {
  }

  lemma ReflectsOwn(row: Option<DeviceRow>, log: seq<DeviceEvent>, event: DeviceEvent, d: DeviceId)
    requires Reflects(row, log, d) && event.deviceId == d && DeviceEventValid(event)
    requires forall e :: e in log && e.deviceId == d ==> MayFollow(e, event)
    ensures Reflects(Some(DeviceAfter(row, event)), log + [event], d)
  {
    match row
    case None =>
    case Some(before) =>
      assert before.activationEvent.Some? ==> MayFollow(before.activationEvent.value, event);
      assert before.revocationEvent.Some? ==> MayFollow(before.revocationEvent.value, event);
  }

  /** Device rows record what their events said. */
  lemma {:induction false} RowReflectsEvents(log: seq<DeviceEvent>, d: DeviceId)
    requires HistoryOk(log) && forall e :: e in log ==> DeviceEventValid(e)
    ensures Reflects(FoldDevice(log, d), log, d)
    decreases |log|
  {
    if log != [] {
      var last := |log| - 1;
      var before, event := log[..last], log[last];
      assert log == before + [event];
      RowReflectsEvents(before, d);
      if event.deviceId != d {
        ReflectsOther(FoldDevice(before, d), before, event, d);
      } else {
        forall e | e in before && e.deviceId == d
          ensures MayFollow(e, event)
        {
          var i :| 0 <= i < last && before[i] == e;
          assert log[i] == e;
        }
        ReflectsOwn(FoldDevice(before, d), before, event, d);
      }
    }
  }

  lemma RowOf(w: World, d: DeviceId)
    requires Inv(w)
    ensures DeviceOf(w.tables, d) == FoldDevice(w.log, d)
  {
  }

  // ----- Every action keeps the invariant

  lemma BeginDeviceKeeps(w: World, request: DeviceRequest, now: nat, acceptedAt: nat)
    requires Inv(w) && w.slot.None?
    ensures var p := PrepareDevice(w.tables, request, now, acceptedAt); p.Plan? ==> PlanOk(w.tables, p.plan)
  {
    var d := TargetDevice(request);
    RowReflectsEvents(w.log, d);
    RowOf(w, d);
    if request.ActivateRequest? {
      ActivationPlanned(w.tables, request, now);
    } else {
      RevocationPlanned(w.tables, request, now, acceptedAt);
    }
  }

  lemma ActivationPlanned(t: Tables, request: DeviceRequest, now: nat)
    requires IdentityOk(t) && request.ActivateRequest?
    ensures var p := PrepareActivation(t, request, now); p.Plan? ==> PlanOk(t, p.plan)
  {
  }

  lemma RevocationPlanned(t: Tables, request: DeviceRequest, now: nat, acceptedAt: nat)
    requires IdentityOk(t) && !request.ActivateRequest?
    requires forall row :: DeviceOf(t, TargetDevice(request)) == Some(row) && row.state == Active ==>
               row.authorizationId.Some? && row.authorizationExpiresAt.Some?
    ensures var p := PrepareDeviceRevocation(t, request, now, acceptedAt); p.Plan? ==> PlanOk(t, p.plan)
  {
  }

  lemma CommitExtendsDevices(w: World, event: DeviceEvent, row: DeviceRow, t: Tables)
    requires DevicesOk(w.tables, w.log)
    requires row == DeviceAfter(DeviceOf(w.tables, event.deviceId), event)
    requires t.devices == w.tables.devices[event.deviceId := row]
    ensures DevicesOk(t, w.log + [event])
  {
    forall d
      ensures DeviceOf(t, d) == FoldDevice(w.log + [event], d)
    {
      FoldDeviceSnoc(w.log, event, d);
      assert DeviceOf(w.tables, d) == FoldDevice(w.log, d);
    }
  }

  lemma CommitExtendsJournal(w: World, event: DeviceEvent, t: Tables)
    requires JournalOk(w.tables, w.log) && w.tables.identity.Some? && EmittedBy(event, w.tables.identity.value)
    requires event.deviceLedgerSequence == w.tables.deviceLedger + 1
    requires t.identity == w.tables.identity
    requires InsertDeviceOperation(w.tables.(devices := t.devices), event) == Some(t)
    ensures JournalOk(t, w.log + [event])
  {
  }

  lemma CommitExtendsHistory(log: seq<DeviceEvent>, event: DeviceEvent)
    requires HistoryOk(log) && event.deviceLedgerSequence == |log| + 1
    requires forall e :: e in log ==> MayFollow(e, event)
    ensures HistoryOk(log + [event])
  {
    var longer := log + [event];
    forall i, j | 0 <= i < j < |longer|
      ensures MayFollow(longer[i], longer[j])
    {
      if j == |log| {
        assert longer[i] in log;
      }
    }
  }

  lemma PlannedEventFollows(w: World, e: DeviceEvent)
    requires Inv(w) && w.slot.Some? && e in w.log
    ensures MayFollow(e, w.slot.value.event)
  {
    RowReflectsEvents(w.log, e.deviceId);
    RowOf(w, e.deviceId);
  }

  /** While the identity is active, the planned event of the one running device handler commits. */
  lemma PlannedCommit(w: World)
    requires Inv(w) && w.slot.Some? && w.tables.identity.value.state == Active
    ensures var event := w.slot.value.event;
            var row := DeviceAfter(DeviceOf(w.tables, event.deviceId), event);
            var t := CommitDevice(w.tables, w.slot.value).0;
            InsertDeviceOperation(w.tables.(devices := w.tables.devices[event.deviceId := row]), event) == Some(t)
            && CommitDevice(w.tables, w.slot.value).1 == DeviceMutation(t, row, Some(event))
  {
    var event := w.slot.value.event;
    assert event !in w.log;
    assert event !in w.tables.operations.Values;
  }

  lemma CommittedEventKeeps(w: World)
    requires Inv(w) && w.slot.Some? && w.tables.identity.value.state == Active
    ensures var t := CommitDevice(w.tables, w.slot.value).0;
            && HistoryOk(w.log + [w.slot.value.event]) && JournalOk(t, w.log + [w.slot.value.event])
            && DevicesOk(t, w.log + [w.slot.value.event])
            && t == w.tables.(devices := t.devices, deviceLedger := w.tables.deviceLedger + 1,
                              operations := t.operations, deviceOutbox := t.deviceOutbox)
  {
    var event := w.slot.value.event;
    var row := DeviceAfter(DeviceOf(w.tables, event.deviceId), event);
    var t := CommitDevice(w.tables, w.slot.value).0;
    PlannedCommit(w);
    forall e | e in w.log
      ensures MayFollow(e, event)
    {
      PlannedEventFollows(w, e);
    }
    CommitExtendsDevices(w, event, row, t);
    CommitExtendsJournal(w, event, t);
    CommitExtendsHistory(w.log, event);
  }

  lemma CommittedEventEvolves(w: World)
    requires Inv(w) && w.slot.Some? && w.tables.identity.value.state == Active
    ensures forall d :: DeviceEvolves(DeviceOf(w.tables, d), DeviceOf(CommitDevice(w.tables, w.slot.value).0, d))
  {
    var event := w.slot.value.event;
    var t := CommitDevice(w.tables, w.slot.value).0;
    PlannedCommit(w);
    forall d
      ensures DeviceEvolves(DeviceOf(w.tables, d), DeviceOf(t, d))
    {
      assert d != event.deviceId ==> DeviceOf(t, d) == DeviceOf(w.tables, d);
    }
  }

  lemma PlannedCommitAdvances(w: World)
    requires Inv(w) && w.slot.Some? && w.tables.identity.value.state == Active
    ensures CommitDevice(w.tables, w.slot.value).0.deviceLedger == w.tables.deviceLedger + 1
  {
    PlannedCommit(w);
  }

  lemma RevokedCommitsNothing(t: Tables, plan: DevicePlan)
    requires t.identity.Some? && t.identity.value.state == Revoked
    ensures CommitDevice(t, plan) == (t, Fault(IdentityIsRevoked))
  {
  }

  /** The running device handler commits its event, or finds the identity revoked. */
  lemma FinishDeviceResult(w: World)
    requires Inv(w) && w.slot.Some?
    ensures Apply(w, FinishDevice)
            == if w.tables.identity.value.state == Active then
                 w.(tables := CommitDevice(w.tables, w.slot.value).0, slot := None, log := w.log + [w.slot.value.event])
               else w.(slot := None)
  {
    if w.tables.identity.value.state == Active {
      PlannedCommitAdvances(w);
    } else {
      RevokedCommitsNothing(w.tables, w.slot.value);
    }
  }

  lemma FinishLeavesIdentity(w: World)
    ensures var w' := Apply(w, FinishDevice);
            w'.tables.identity == w.tables.identity && w'.slot.None? && |w'.log| <= |w.log| + 1
  {
  }

  lemma FinishDeviceKeeps(w: World)
    requires Inv(w)
    ensures Inv(Apply(w, FinishDevice)) && Evolves(w, Apply(w, FinishDevice))
  {
    if w.slot.Some? {
      FinishDeviceResult(w);
      if w.tables.identity.value.state == Active {
        CommittedEventKeeps(w);
        CommittedEventEvolves(w);
      }
    }
  }

  /** A change of the identity alone. */
  lemma IdentityChangeKeeps(w: World, t: Tables)
    requires Inv(w) && IdentityOk(t) && t.identity.Some?
    requires t == w.tables.(identity := t.identity, actions := t.actions, outbox := t.outbox)
    requires w.tables.identity.Some? ==>
               var row, row' := w.tables.identity.value, t.identity.value;
               row'.subject == row.subject && row'.genesisHash == row.genesisHash
                 && row'.registeredAt == row.registeredAt
               && (row.state == Revoked ==> t == w.tables)
    ensures Inv(w.(tables := t)) && Evolves(w, w.(tables := t))
  {
    var w' := w.(tables := t);
    forall d
      ensures DeviceOf(t, d) == FoldDevice(w.log, d)
    {
      RowOf(w, d);
    }
    assert JournalOk(t, w.log);
  }

  lemma IdentityActionKeeps(w: World, action: Action)
    requires Inv(w) && (action.FinishRegistration? || action.FinishRevocation?)
    ensures Inv(Apply(w, action)) && Evolves(w, Apply(w, action))
  {
    match action
    case FinishRegistration(plan) =>
      if plan in w.registrations && w.tables.identity.None? {
        assert RegistrationPlanOk(plan);
        RegistrationCommits(w.tables, plan);
        IdentityChangeKeeps(w, CommitRegistration(w.tables, plan).0);
      }
    case FinishRevocation(plan) =>
      if plan in w.revocations {
        assert RevocationPlanOk(w.tables, plan);
        RevocationCommits(w.tables, plan);
        IdentityChangeKeeps(w, CommitRevocation(w.tables, plan).0);
      }
  }

  lemma BeginIdentityKeeps(w: World, action: Action)
    requires Inv(w) && (action.BeginRegistration? || action.BeginRevocation? || action.Restart?)
    ensures Inv(Apply(w, action)) && Evolves(w, Apply(w, action))
  {
    var w' := Apply(w, action);
    assert w'.tables == w.tables && w'.log == w.log;
  }

  lemma RegistrationCommits(t: Tables, plan: RegistrationPlan)
    requires t == EMPTY && RegistrationPlanOk(plan)
    ensures var t' := CommitRegistration(t, plan).0;
            IdentityOk(t') && t'.identity.Some? && t'.identity.value.state == Active
            && t' == t.(identity := t'.identity, actions := t'.actions, outbox := t'.outbox)
  {
  }

  lemma RevocationCommits(t: Tables, plan: RevocationPlan)
    requires IdentityOk(t) && RevocationPlanOk(t, plan)
    ensures var t' := CommitRevocation(t, plan).0;
            && IdentityOk(t') && t'.identity.Some? && t'.identity.value.state == Revoked
            && t' == t.(identity := t'.identity, actions := t'.actions, outbox := t'.outbox)
            && t'.identity.value
               == t.identity.value.(state := Revoked, sequence := 1, revokedAt := t'.identity.value.revokedAt,
                                    revocationEvent := t'.identity.value.revocationEvent)
            && (t.identity.value.state == Revoked ==> t' == t)
  {
  }

  lemma ApplyKeeps(w: World, action: Action)
    requires Inv(w)
    ensures Inv(Apply(w, action)) && Evolves(w, Apply(w, action))
  {
    match action
    case BeginDevice(request, now, acceptedAt) =>
      if w.slot.None? {
        BeginDeviceKeeps(w, request, now, acceptedAt);
      }
    case FinishDevice => FinishDeviceKeeps(w);
    case FinishRegistration(_) => IdentityActionKeeps(w, action);
    case FinishRevocation(_) => IdentityActionKeeps(w, action);
    case _ => BeginIdentityKeeps(w, action);
  }

  lemma {:induction false} RunKeeps(w: World, actions: seq<Action>)
    requires Inv(w)
    ensures Inv(Run(w, actions)) && Evolves(w, Run(w, actions))
    decreases |actions|
  {
    if actions != [] {
      ApplyKeeps(w, actions[0]);
      RunKeeps(Apply(w, actions[0]), actions[1..]);
      EvolvesTransitive(w, Apply(w, actions[0]), Run(w, actions));
    }
  }

  lemma {:induction false} RunConcat(w: World, first: seq<Action>, second: seq<Action>)
    ensures Run(w, first + second) == Run(Run(w, first), second)
    decreases |first|
  {
    if first == [] {
      assert first + second == second;
    } else {
      assert (first + second)[1..] == first[1..] + second;
      RunConcat(Apply(w, first[0]), first[1..], second);
    }
  }
}
