/**
 * Nothing happens without authority: every state change of the registry object goes back to a request of the
 * run whose signatures or secret were verified, and which was timely when its handler read the clock.
 */
module RegistryAuthority {
  import opened Common
  import opened RegistryEvents
  import opened Registry
  import opened RegistryRuns
  import opened RegistryTheorems

  /** The signatures that a request needs: root and device for the device's own requests, root for root requests. */
  predicate Signed(request: DeviceRequest) {
    var checks := request.checks;
    && checks.wellFormed && checks.payloadMatches && checks.rootSignatureValid
    && (!request.RootRevokeRequest? ==> checks.authorizationMatches && checks.deviceSignatureValid)
  }

  /**
   * Within the windows of the authorization and of the request, up to a clock skew of a minute; requests live for five
   * minutes at most.
   */
  predicate Timely(request: DeviceRequest, now: nat) {
    match request
    case ActivateRequest(_, a, iat, exp, _) =>
      && now < a.expiresAt
      && a.validFrom - 60 <= now <= a.activationDeadline + 60
      && iat - 60 <= now <= exp + 60 && exp <= iat + 300
    case SelfRevokeRequest(_, _, issuedAt, _) => issuedAt - 60 <= now <= issuedAt + 300
    case RootRevokeRequest(_, _, issuedAt, _) => issuedAt - 60 <= now <= issuedAt + 300
  }

  /** The action asks for the event, and may. */
  predicate Grants(action: Action, e: DeviceEvent) {
    && action.BeginDevice? && OperationOf(action.request) == e.operation
    && Signed(action.request) && Timely(action.request, action.now)
    && e.acceptedAt == (if action.request.ActivateRequest? then action.now else action.acceptedAt)
    && (action.request.ActivateRequest? ==> e.authorizationExpiresAt == Some(action.request.authorization.expiresAt))
  }

  predicate GrantsRevocation(action: Action, e: IdentityEvent) {
    && action.BeginRevocation? && action.command.verification.None? && action.command.expectedSequence + 1 == e.sequence
    && action.command.actionHash == e.actionHash && action.now == e.acceptedAt
  }

  predicate GrantsRegistration(action: Action, registration: Registration, registeredAt: nat) {
    action.BeginRegistration? && action.registration == registration && registration.rejection.None?
      && action.now == registeredAt
  }

  predicate DeviceEventGranted(actions: seq<Action>, e: DeviceEvent) {
    exists action :: action in actions && Grants(action, e)
  }

  predicate RevocationGranted(actions: seq<Action>, e: IdentityEvent) {
    exists action :: action in actions && GrantsRevocation(action, e)
  }

  predicate RegistrationGranted(actions: seq<Action>, registration: Registration, registeredAt: nat) {
    exists action :: action in actions && GrantsRegistration(action, registration, registeredAt)
  }

  ghost predicate IdentityGranted(actions: seq<Action>, row: IdentityRow) {
    && RegistrationGranted(actions, Registration(row.subject, row.genesisHash, row.genesis, None), row.registeredAt)
    && (row.revocationEvent.Some? ==> RevocationGranted(actions, row.revocationEvent.value))
  }

  ghost predicate AllGranted(w: World, actions: seq<Action>) {
    && (forall e :: e in w.log ==> DeviceEventGranted(actions, e))
    && (w.slot.Some? ==> DeviceEventGranted(actions, w.slot.value.event))
    && (forall plan :: plan in w.revocations ==> RevocationGranted(actions, plan.event))
    && (forall plan :: plan in w.registrations ==>
          RegistrationGranted(actions, plan.registration, plan.event.acceptedAt))
    && (w.tables.identity.Some? ==> IdentityGranted(actions, w.tables.identity.value))
  }

  lemma MoreActions(w: World, actions: seq<Action>, action: Action)
    requires AllGranted(w, actions)
    ensures AllGranted(w, actions + [action])
  {
    assert forall a :: a in actions ==> a in actions + [action];
  }

  lemma PlanGranted(t: Tables, action: Action)
    requires action.BeginDevice?
    ensures var p := PrepareDevice(t, action.request, action.now, action.acceptedAt);
            p.Plan? ==> Grants(action, p.plan.event)
  {
  }

  lemma BeginGranted(w: World, actions: seq<Action>, action: Action)
    requires Inv(w) && AllGranted(w, actions + [action])
    requires action.BeginDevice? || action.BeginRevocation? || action.BeginRegistration? || action.Restart?
    ensures AllGranted(Apply(w, action), actions + [action])
  {
    assert action in actions + [action];
    if action.BeginDevice? {
      PlanGranted(w.tables, action);
    }
  }

  lemma FinishRegistrationGranted(w: World, actions: seq<Action>, plan: RegistrationPlan)
    requires AllGranted(w, actions)
    ensures AllGranted(Apply(w, FinishRegistration(plan)), actions)
  {
    var r := plan.registration;
    if plan in w.registrations && w.tables.identity.None? {
      assert RegistrationGranted(actions, r, plan.event.acceptedAt);
      assert r == Registration(r.subject, r.genesisHash, r.genesis, None);
    }
  }

  lemma FinishRevocationGranted(w: World, actions: seq<Action>, plan: RevocationPlan)
    requires AllGranted(w, actions)
    ensures AllGranted(Apply(w, FinishRevocation(plan)), actions)
  {
  }

  lemma FinishDeviceGranted(w: World, actions: seq<Action>)
    requires Inv(w) && AllGranted(w, actions)
    ensures AllGranted(Apply(w, FinishDevice), actions)
  {
    if w.slot.Some? {
      FinishDeviceResult(w);
      FinishLeavesIdentity(w);
    }
  }

  lemma {:induction false} RunGranted(w: World, before: seq<Action>, actions: seq<Action>)
    requires Inv(w) && AllGranted(w, before)
    ensures AllGranted(Run(w, actions), before + actions)
    decreases |actions|
  {
    if actions == [] {
      assert before + actions == before;
    } else {
      var action := actions[0];
      MoreActions(w, before, action);
      match action {
        case FinishRegistration(plan) => FinishRegistrationGranted(w, before + [action], plan);
        case FinishRevocation(plan) => FinishRevocationGranted(w, before + [action], plan);
        case FinishDevice => FinishDeviceGranted(w, before + [action]);
        case _ => BeginGranted(w, before, action);
      }
      ApplyKeeps(w, action);
      RunGranted(Apply(w, action), before + [action], actions[1..]);
      assert before + [action] + actions[1..] == before + actions;
    }
  }

  /**
   * In every interleaving, every committed device event was asked for by a signed and timely request and carries
   * its time of acceptance; the identity's registration and its revocation, if any, were verified requests too.
   */
  lemma {:induction false} NothingWithoutAuthority(actions: seq<Action>)
    ensures var w := Reach(actions);
            && (forall e :: e in w.log ==> DeviceEventGranted(actions, e) && CarriesOut(e))
            && (w.tables.identity.Some? ==> IdentityGranted(actions, w.tables.identity.value))
  {
    RunGranted(INITIAL, [], actions);
    assert [] + actions == actions;
    ReachInv(actions);
  }

  // ----- And authority suffices

  /** What the object's state must be for a request to be carried out rather than refused or answered. */
  predicate Admissible(t: Tables, request: DeviceRequest) {
    var d := TargetDevice(request);
    && t.identity.Some? && t.identity.value.state == Active && OperationOf(request) !in t.operations
    && if request.ActivateRequest? then d !in t.devices
       else d in t.devices ==>
              t.devices[d].state == Active
              && (request.SelfRevokeRequest? ==> t.devices[d].authorizationId == RequestAuthorization(request))
  }

  /** An activation window of 30 days and a lifetime of 366 days at most. */
  predicate WellProportioned(request: DeviceRequest) {
    request.ActivateRequest? ==>
      var a := request.authorization;
      && a.validFrom <= a.activationDeadline <= a.expiresAt && request.iat <= request.exp
      && a.activationDeadline <= a.validFrom + 2_592_000
      && a.expiresAt <= a.validFrom + 31_622_400
  }

  /**
   * A request is carried out exactly when it is signed, timely and admissible: then, undisturbed, its event takes
   * the next ledger value and is the answer.
   */
  lemma CarriedOutIff(w: World, request: DeviceRequest, now: nat, acceptedAt: nat)
    requires Inv(w) && w.slot.None?
    ensures var w' := Apply(Apply(w, BeginDevice(request, now, acceptedAt)), FinishDevice);
            && (|w'.log| == |w.log| + 1 <==>
                  Signed(request) && Timely(request, now) && WellProportioned(request) && Admissible(w.tables, request))
            && (|w'.log| != |w.log| + 1 ==> w'.log == w.log && w'.tables == w.tables)
  {
    PlannedIff(w, request, now, acceptedAt);
    var begun := Apply(w, BeginDevice(request, now, acceptedAt));
    ApplyKeeps(w, BeginDevice(request, now, acceptedAt));
    if begun.slot.Some? {
      FinishDeviceResult(begun);
    }
  }

  lemma PlannedIff(w: World, request: DeviceRequest, now: nat, acceptedAt: nat)
    requires Inv(w)
    ensures PrepareDevice(w.tables, request, now, acceptedAt).Plan?
            <==> Signed(request) && Timely(request, now) && WellProportioned(request) && Admissible(w.tables, request)
  {
    if request.ActivateRequest? {
      ActivationPlannedIff(w.tables, request, now);
    } else {
      RevocationPlannedIff(w.tables, request, now, acceptedAt);
    }
  }

  lemma ActivationPlannedIff(t: Tables, request: DeviceRequest, now: nat)
    requires request.ActivateRequest?
    ensures PrepareActivation(t, request, now).Plan?
            <==> Signed(request) && Timely(request, now) && WellProportioned(request) && Admissible(t, request)
  {
  }

  lemma RevocationPlannedIff(t: Tables, request: DeviceRequest, now: nat, acceptedAt: nat)
    requires !request.ActivateRequest?
    ensures PrepareDeviceRevocation(t, request, now, acceptedAt).Plan?
            <==> Signed(request) && Timely(request, now) && WellProportioned(request) && Admissible(t, request)
  {
  }
}
