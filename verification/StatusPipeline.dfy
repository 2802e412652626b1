/**
 * The status pipeline over calls served one at a time: none of its checks ever rejects what the registry says.
 * An interleaving in which a check does reject is given at the end.
 */
module StatusPipeline {
  import opened Common
  import opened RegistryEvents
  import opened Registry
  import opened RegistryRuns
  import opened RegistryTheorems
  import opened DeviceStatus

  datatype Call =
    | RegisterCall(registration: Registration, now: nat)
    | RevokeCall(command: RevokeCommand, now: nat)
    | DeviceCall(request: DeviceRequest, now: nat, acceptedAt: nat)

  /** A call served from beginning to end. */
  function ActionsOf(t: Tables, call: Call): (actions: seq<Action>)
    ensures |actions| <= 2
  {
    match call
    case RegisterCall(registration, now) =>
      (match PrepareRegistration(t, registration, now)
       case Answer(_) => []
       case Plan(plan) => [BeginRegistration(registration, now), FinishRegistration(plan)])
    case RevokeCall(command, now) =>
      (match PrepareRevocation(t, command, now)
       case Answer(_) => []
       case Plan(plan) => [BeginRevocation(command, now), FinishRevocation(plan)])
    case DeviceCall(request, now, acceptedAt) => [BeginDevice(request, now, acceptedAt), FinishDevice]
  }

  function Script(w: World, calls: seq<Call>): seq<Action>
    decreases |calls|
  {
    if calls == [] then []
    else
      var actions := ActionsOf(w.tables, calls[0]);
      actions + Script(Run(w, actions), calls[1..])
  }

  function LastReading(call: Call): nat {
    if call.DeviceCall? then call.acceptedAt else call.now
  }

  /** The clock never goes back, and authorizations have safe expiries. */
  predicate CallsClocked(calls: seq<Call>, clock: nat, limit: nat)
    decreases |calls|
  {
    clock <= limit
    && (calls == []
        || (clock <= calls[0].now <= LastReading(calls[0])
            && (calls[0].DeviceCall? && !calls[0].request.RootRevokeRequest? ==>
                  calls[0].request.authorization.expiresAt <= MAX_SAFE_INTEGER)
            && CallsClocked(calls[1..], LastReading(calls[0]), limit)))
  }

  /** A revoked identity was revoked by `clock` and after every device event. */
  ghost predicate RevokedLast(t: Tables, log: seq<DeviceEvent>, clock: nat) {
    t.identity.Some? && t.identity.value.state == Revoked ==>
      && t.identity.value.revokedAt.Some? && t.identity.value.revokedAt.value <= clock
      && forall e :: e in log ==> e.acceptedAt <= t.identity.value.revokedAt.value
  }

  ghost predicate Orderly(w: World, clock: nat) {
    Inv(w) && w.slot.None? && Clocked(w, clock) && RevokedLast(w.tables, w.log, clock)
  }

  lemma RunTwo(w: World, first: Action, second: Action)
    ensures Run(w, [first, second]) == Apply(Apply(w, first), second)
  {
    assert [first, second][1..] == [second];
    assert Run(Apply(w, first), [second]) == Run(Apply(Apply(w, first), second), [second][1..]);
  }

  function RegisteredTables(t: Tables, registration: Registration, now: nat): Tables {
    match PrepareRegistration(t, registration, now)
    case Answer(_) => t
    case Plan(plan) => CommitRegistration(t, plan).0
  }

  function RevokedTables(t: Tables, command: RevokeCommand, now: nat): Tables {
    match PrepareRevocation(t, command, now)
    case Answer(_) => t
    case Plan(plan) => CommitRevocation(t, plan).0
  }

  /** What serving a call about the identity amounts to. */
  lemma IdentityCallResult(w: World, call: Call)
    requires !call.DeviceCall?
    ensures var w' := Run(w, ActionsOf(w.tables, call));
            && w'.log == w.log && w'.slot == w.slot
            && w'.tables == if call.RegisterCall? then RegisteredTables(w.tables, call.registration, call.now)
                            else RevokedTables(w.tables, call.command, call.now)
  {
    match call
    case RegisterCall(registration, now) =>
      var p := PrepareRegistration(w.tables, registration, now);
      if p.Plan? {
        RunTwo(w, BeginRegistration(registration, now), FinishRegistration(p.plan));
      }
    case RevokeCall(command, now) =>
      var p := PrepareRevocation(w.tables, command, now);
      if p.Plan? {
        RunTwo(w, BeginRevocation(command, now), FinishRevocation(p.plan));
      }
  }

  lemma RevocationTime(t: Tables, command: RevokeCommand, now: nat)
    ensures var t' := RevokedTables(t, command, now);
            t' == t || (t'.identity.Some? && t'.identity.value.revokedAt == Some(now))
  {
  }

  lemma RegistrationNotRevoked(t: Tables, registration: Registration, now: nat)
    ensures var t' := RegisteredTables(t, registration, now);
            t' == t || (t'.identity.Some? && t'.identity.value.state == Active)
  {
  }

  lemma SameLogClocked(w: World, w': World, clock: nat)
    requires Clocked(w, clock) && w'.log == w.log && w'.slot.None?
    ensures Clocked(w', clock)
  {
  }

  lemma IdentityCallOrderly(w: World, call: Call, clock: nat)
    requires Orderly(w, clock) && !call.DeviceCall? && clock <= call.now
    ensures var w' := Run(w, ActionsOf(w.tables, call)); Orderly(w', call.now) && w'.log == w.log
  {
    var w' := Run(w, ActionsOf(w.tables, call));
    IdentityCallResult(w, call);
    RunKeeps(w, ActionsOf(w.tables, call));
    ClockAdvances(w, clock, call.now);
    SameLogClocked(w, w', call.now);
    assert RevokedLast(w'.tables, w.log, call.now) by {
      assert forall e :: e in w.log ==> EventClocked(e, clock);
      if call.RegisterCall? {
        RegistrationNotRevoked(w.tables, call.registration, call.now);
      } else {
        RevocationTime(w.tables, call.command, call.now);
      }
    }
  }

  lemma BeginLeavesTables(w: World, action: Action)
    requires action.BeginDevice?
    ensures Apply(w, action).tables == w.tables && Apply(w, action).log == w.log
  {
  }

  lemma DeviceCallOrderly(w: World, call: Call, clock: nat)
    requires Orderly(w, clock) && call.DeviceCall? && clock <= call.now <= call.acceptedAt
    requires call.request.RootRevokeRequest? || call.request.authorization.expiresAt <= MAX_SAFE_INTEGER
    ensures var w' := Run(w, ActionsOf(w.tables, call)); Orderly(w', call.acceptedAt) && |w'.log| <= |w.log| + 1
  {
    var begin := BeginDevice(call.request, call.now, call.acceptedAt);
    var begun := Apply(w, begin);
    RunTwo(w, begin, FinishDevice);
    var w' := Apply(begun, FinishDevice);
    BeginDeviceClocked(w, begin, clock);
    FinishDeviceClocked(begun, call.acceptedAt);
    RunKeeps(w, ActionsOf(w.tables, call));
    BeginLeavesTables(w, begin);
    FinishLeavesIdentity(begun);
    assert RevokedLast(w'.tables, w'.log, call.acceptedAt) by {
      assert Evolves(w, w');
    }
  }

  lemma {:induction false} ScriptOrderly(w: World, calls: seq<Call>, clock: nat, limit: nat)
    requires Orderly(w, clock) && CallsClocked(calls, clock, limit)
    ensures var w' := Run(w, Script(w, calls)); Orderly(w', limit) && |w'.log| <= |w.log| + |calls|
    decreases |calls|
  {
    if calls == [] {
      ClockAdvances(w, clock, limit);
    } else {
      var call := calls[0];
      var w' := Run(w, ActionsOf(w.tables, call));
      match call {
        case DeviceCall(_, _, _) => DeviceCallOrderly(w, call, clock);
        case _ => IdentityCallOrderly(w, call, clock);
      }
      ScriptOrderly(w', calls[1..], LastReading(call), limit);
      RunConcat(w, ActionsOf(w.tables, call), Script(w', calls[1..]));
    }
  }

  /**
   * Whatever calls were served one at a time under a clock that never goes back, the status of every device is
   * accepted by the edge and signed into a statement that the wire schema accepts; an active statement is
   * issued before the authorization expires and does not outlive it.
   */
  lemma {:induction false} HonestRegistryNeverRejected(calls: seq<Call>, d: DeviceId, a: AuthorizationId, now: nat,
                                                       issuedAt: nat, ttl: nat)
    requires CallsClocked(calls, 0, MAX_SAFE_INTEGER) && |calls| <= MAX_SAFE_INTEGER
    requires Reach(Script(INITIAL, calls)).tables.identity.Some?
    requires 1 <= ttl && IsSafeInteger(issuedAt + ttl)
    ensures var t := Reach(Script(INITIAL, calls)).tables;
            var status := StatusFromRow(t, d, a, now);
            var statement := Sign(status, issuedAt, ttl);
            && EdgeAccepts(status, t.identity.value.subject, d, a)
            && SchemaAccepts(statement) && Conveys(statement, status, issuedAt, ttl)
            && statement.status.subject == t.identity.value.subject && statement.status.deviceId == d
            && statement.status.authorizationId == a
            && (statement.status.deviceState == StatusActive ==>
                  statement.iat < statement.status.authorizationExpiresAt.value
                  && statement.exp <= statement.status.authorizationExpiresAt.value)
  {
    var w := Reach(Script(INITIAL, calls));
    ScriptOrderly(INITIAL, calls, 0, MAX_SAFE_INTEGER);
    RowsClocked(w, MAX_SAFE_INTEGER, d);
    NotActivatedAfterRevocation(w, MAX_SAFE_INTEGER, d, a);
    StatusAcceptedIff(w.tables, d, a, now);
    AcceptedIsSigned(StatusFromRow(w.tables, d, a, now), w.tables.identity.value.subject, d, a, issuedAt, ttl);
  }

  lemma NotActivatedAfterRevocation(w: World, clock: nat, d: DeviceId, a: AuthorizationId)
    requires Orderly(w, clock) && w.tables.identity.Some?
    ensures !ActivatedAfterRevocation(w.tables, d, a)
  {
    RowOf(w, d);
    RowReflectsEvents(w.log, d);
  }

  /**
   * Without that discipline it fails: when a revocation read its clock before a device was activated and commits
   * after the activation, the edge refuses every status of that device from then on.
   */
  lemma LateRevocationRejected(w: World, plan: RevocationPlan, d: DeviceId, a: AuthorizationId, now: nat)
    requires Inv(w) && plan in w.revocations && w.tables.identity.Some? && w.tables.identity.value.state == Active
    requires var row := DeviceOf(w.tables, d);
             row.Some? && row.value.authorizationId == Some(a)
             && row.value.activatedAt.Some? && plan.event.acceptedAt < row.value.activatedAt.value
    ensures var t := Apply(w, FinishRevocation(plan)).tables;
            t.identity.Some? && ActivatedAfterRevocation(t, d, a)
            && !EdgeAccepts(StatusFromRow(t, d, a, now), t.identity.value.subject, d, a)
  {
    assert RevocationPlanOk(w.tables, plan);
    RevocationCommits(w.tables, plan);
  }

  const RACE_REGISTRATION := Registration("subject", "hash", "genesis", None)
  const RACE_REGISTERED := IdentityEvent(Registered, "subject", "hash", 0, Active, 1, "hash")
  const RACE_REVOKED := IdentityEvent(IdentityRevoked, "subject", "hash", 1, Revoked, 10, "action")
  const RACE_ACTIVATION :=
    ActivateRequest(Checks(true, true, true, true, true), Authorization("a", "d", 10, 100, 1000), 10, 100, "n")

  /** A revocation reads the clock at 10, an activation reads it at 11 and commits; the revocation has yet to commit. */
  const RACE: seq<Action> :=
    [BeginRegistration(RACE_REGISTRATION, 1), FinishRegistration(RegistrationPlan(RACE_REGISTRATION, RACE_REGISTERED))]
    + ([BeginRevocation(RevokeCommand(0, None, "action"), 10), BeginDevice(RACE_ACTIVATION, 11, 11)] + [FinishDevice])

  lemma RaceRegistered()
    ensures var w := Run(INITIAL, RACE[..2]);
            w.tables.identity == Some(IdentityRow("subject", "hash", "genesis", Active, 0, 1, None, None))
            && w.tables.devices == map[] && w.tables.operations == map[] && w.tables.deviceOutbox == {} && w.slot.None?
            && w.tables.deviceLedger == 0
  {
    assert RACE[..2] == [RACE[0], RACE[1]];
    RunTwo(INITIAL, RACE[0], RACE[1]);
  }

  lemma RacePlanned()
    ensures var w := Run(Run(INITIAL, RACE[..2]), [RACE[2], RACE[3]]);
            && w.tables == Run(INITIAL, RACE[..2]).tables && w.tables.identity.Some?
            && RevocationPlan(0, RACE_REVOKED) in w.revocations
            && w.slot == Some(ActivationPlan(ActivationEvent(w.tables.identity.value, RACE_ACTIVATION, 0, 11)))
  {
    RaceRegistered();
    RunTwo(Run(INITIAL, RACE[..2]), RACE[2], RACE[3]);
  }

  lemma RaceActivated()
    ensures var w := Reach(RACE);
            && w.tables.identity == Some(IdentityRow("subject", "hash", "genesis", Active, 0, 1, None, None))
            && RevocationPlan(0, RACE_REVOKED) in w.revocations
            && DeviceOf(w.tables, "d").Some? && DeviceOf(w.tables, "d").value.authorizationId == Some("a")
            && DeviceOf(w.tables, "d").value.activatedAt == Some(11)
  {
    RaceRegistered();
    RacePlanned();
    var planned := Run(Run(INITIAL, RACE[..2]), [RACE[2], RACE[3]]);
    assert RACE == RACE[..2] + ([RACE[2], RACE[3]] + [RACE[4]]);
    RunConcat(INITIAL, RACE[..2], [RACE[2], RACE[3]] + [RACE[4]]);
    RunConcat(Run(INITIAL, RACE[..2]), [RACE[2], RACE[3]], [RACE[4]]);
    assert [RACE[4]][1..] == [];
    assert Run(planned, [RACE[4]]) == Apply(planned, RACE[4]);
  }

  lemma RaceClocked()
    ensures DeviceClock(RACE, 0, MAX_SAFE_INTEGER)
  {
    assert RACE[1..][1..] == RACE[2..];
    assert RACE[2..][1..] == RACE[3..];
    assert RACE[3..][1..] == RACE[4..];
    assert RACE[4..][1..] == [];
    assert DeviceClock(RACE[4..], 11, MAX_SAFE_INTEGER);
    assert DeviceClock(RACE[3..], 0, MAX_SAFE_INTEGER);
    assert DeviceClock(RACE[2..], 0, MAX_SAFE_INTEGER);
  }

  /** The race happens: a run on which the edge rejects the registry's own status. */
  lemma StatusRaceIsReachable(now: nat)
    ensures var t := Apply(Reach(RACE), FinishRevocation(RevocationPlan(0, RACE_REVOKED))).tables;
            DeviceClock(RACE, 0, MAX_SAFE_INTEGER) && t.identity.Some? && ActivatedAfterRevocation(t, "d", "a")
            && !EdgeAccepts(StatusFromRow(t, "d", "a", now), t.identity.value.subject, "d", "a")
  {
    RaceClocked();
    RaceActivated();
    ReachInv(RACE);
    LateRevocationRejected(Reach(RACE), RevocationPlan(0, RACE_REVOKED), "d", "a", now);
  }
}
