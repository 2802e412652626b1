/**
 * From the registry objects through the queues to D1: once every outbox row of a registry run has been handled
 * at least once, in any order, any number of times and in any interleaving, the projection agrees with the
 * object. One object per subject, any number of subjects.
 */
module EndToEnd {
  import opened Common
  import opened RegistryEvents
  import R = Registry
  import RR = RegistryRuns
  import RT = RegistryTheorems
  import opened IdentityProjection
  import opened DeviceProjection
  import opened ProjectorRuns

  /** A run of the object of each subject. */
  type Registries = map<Subject, seq<RR.Action>>

  function TablesOf(registries: Registries, s: Subject): R.Tables
    requires s in registries
  {
    RT.Reach(registries[s]).tables
  }

  /** Each object holds its own subject, and the queues carry what is in the outboxes. */
  ghost predicate EmittedFrom(src: Sources, registries: Registries) {
    && (forall s :: s in registries && TablesOf(registries, s).identity.Some? ==>
          TablesOf(registries, s).identity.value.subject == s)
    && (forall e :: e in src.devices ==> e.subject in registries && e in TablesOf(registries, e.subject).deviceOutbox)
    && (forall r :: r in src.identities ==> r.subject in registries && r in TablesOf(registries, r.subject).outbox)
  }

  lemma LogCompatible(w: RR.World, e: DeviceEvent, f: DeviceEvent)
    requires RR.Inv(w) && e in w.log && f in w.log
    ensures DeviceEventValid(e) && e.deviceLedgerSequence >= 1 && Compatible(e, f)
  {
    var i :| 0 <= i < |w.log| && w.log[i] == e;
    var j :| 0 <= j < |w.log| && w.log[j] == f;
    assert i < j ==> RR.MayFollow(w.log[i], w.log[j]);
  }

  lemma OutboxEvents(t: R.Tables, r: IdentityEvent)
    requires RR.IdentityOk(t) && r in t.outbox
    ensures t.identity.Some? && IdentityEventValid(r)
    ensures r.subject == t.identity.value.subject && r.genesisHash == t.identity.value.genesisHash
    ensures r == if r.eventType == Registered then t.actions[0] else t.identity.value.revocationEvent.GetOr(r)
    ensures r.eventType == IdentityRevoked ==> t.identity.value.state == Revoked
  {
  }

  lemma {:induction false} SourcesAreHonest(src: Sources, registries: Registries)
    requires EmittedFrom(src, registries)
    ensures HonestSources(src)
  {
    forall e, f | e in src.devices && f in src.devices
      ensures DeviceEventValid(e) && e.deviceLedgerSequence >= 1 && Compatible(e, f)
    {
      RT.ReachInv(registries[e.subject]);
      LogCompatible(RT.Reach(registries[e.subject]), e, if f.subject == e.subject then f else e);
    }
    forall e, r | e in src.devices && r in src.identities && e.subject == r.subject
      ensures e.genesisHash == r.genesisHash
    {
      RT.ReachInv(registries[e.subject]);
      OutboxEvents(TablesOf(registries, r.subject), r);
      assert e in RT.Reach(registries[e.subject]).log;
    }
    OutboxesConsistent(src, registries);
  }

  lemma {:induction false} OutboxesConsistent(src: Sources, registries: Registries)
    requires EmittedFrom(src, registries)
    ensures Consistent(src.identities)
  {
    forall r | r in src.identities
      ensures IdentityEventValid(r)
    {
      RT.ReachInv(registries[r.subject]);
      OutboxEvents(TablesOf(registries, r.subject), r);
    }
    forall q, r | q in src.identities && r in src.identities && q.subject == r.subject
      ensures q.genesisHash == r.genesisHash && (q.eventType == r.eventType ==> q == r)
    {
      RT.ReachInv(registries[r.subject]);
      OutboxEvents(TablesOf(registries, r.subject), q);
      OutboxEvents(TablesOf(registries, r.subject), r);
    }
  }

  // ----- Agreement

  /** The `identities` row of D1 shows the row of the object. */
  predicate IdentityAgrees(p: Projection, row: R.IdentityRow) {
    && row.subject in p.identities
    && var entry := p.identities[row.subject];
       && entry.genesisHash == row.genesisHash && entry.state == row.state && entry.sequence == row.sequence
       && entry.registeredAt == row.registeredAt && entry.revokedAt == row.revokedAt
       && entry.updatedAt == row.revokedAt.GetOr(row.registeredAt)
  }

  /** The `device_states` row shows the row of the object, the activation time apart. */
  predicate DeviceAgrees(state: DeviceState, row: R.DeviceRow, genesisHash: string) {
    && state.genesisHash == genesisHash && state.updatedAt == state.latestEvent.acceptedAt
    && state.state == row.state && state.authorizationId == row.authorizationId
    && state.authorizationExpiresAt == row.authorizationExpiresAt
    && state.revokedAt == row.revokedAt && state.revokedBy == row.revokedBy
    && (state.activatedAt.Some? ==> state.activatedAt == row.activatedAt)
    && Coalesce(row.revocationEvent, row.activationEvent) == Some(state.latestEvent)
    && state.eventSequence == state.latestEvent.deviceLedgerSequence
  }

  predicate DevicesAgree(t: R.Tables, states: map<DeviceKey, DeviceState>, s: Subject, d: DeviceId)
    requires t.identity.Some?
  {
    var key, row := DeviceKey(s, d), RR.DeviceOf(t, d);
    && (row.Some? <==> key in states)
    && (key in states ==> DeviceAgrees(states[key], row.value, t.identity.value.genesisHash))
  }

  /** The head shows the last entry of the object's ledger, and is missing while the ledger is empty. */
  predicate HeadAgrees(t: R.Tables, heads: map<Subject, Head>, s: Subject)
    requires t.identity.Some?
  {
    && (s in heads <==> t.deviceLedger > 0)
    && forall e :: e in t.deviceOutbox && e.deviceLedgerSequence == t.deviceLedger && s in heads ==>
         heads[s] == Head(t.identity.value.genesisHash, t.deviceLedger, e.acceptedAt)
  }

  /** D1 has recorded exactly the events of the object. */
  ghost predicate EventsAgree(t: R.Tables, w: World, s: Subject) {
    && (forall e :: e in t.deviceOutbox <==> e in w.devices.stored && e.subject == s)
    && (forall n: nat :: Lookup(w.projection.events, Slot(s, n)) == Lookup(t.actions, n))
  }

  predicate AllHandled(w: World, t: R.Tables) {
    t.outbox <= w.completedIdentity && t.deviceOutbox <= w.completedDevice
  }

  lemma IdentityProjected(w: World, t: R.Tables, src: Sources)
    requires TablesOk(w, src) && HonestSources(src) && RR.IdentityOk(t) && t.identity.Some? && t.outbox <= w.applied
    requires forall r :: r in w.applied && r.subject == t.identity.value.subject ==> r in t.outbox
    ensures IdentityAgrees(w.projection, t.identity.value) && t.identity.value.subject !in w.projection.pending
  {
    var row := t.identity.value;
    assert RepresentsAt(w.projection, w.applied, row.subject);
    assert t.actions[0] in w.applied;
    assert row.state == Revoked ==> row.revocationEvent.value in w.applied;
    FoundIn(w.applied, src.identities, t.actions[0]);
    if row.state == Revoked {
      FoundIn(w.applied, src.identities, row.revocationEvent.value);
    }
  }

  lemma IdentityEventsProjected(w: World, t: R.Tables, src: Sources, n: nat)
    requires TablesOk(w, src) && HonestSources(src) && RR.IdentityOk(t) && t.identity.Some? && t.outbox <= w.applied
    requires forall r :: r in w.applied && r.subject == t.identity.value.subject ==> r in t.outbox
    ensures Lookup(w.projection.events, Slot(t.identity.value.subject, n)) == Lookup(t.actions, n)
  {
    var row := t.identity.value;
    assert RepresentsAt(w.projection, w.applied, row.subject);
    assert t.actions[0] in w.applied;
    FoundIn(w.applied, src.identities, t.actions[0]);
    if row.state == Revoked {
      assert row.revocationEvent.value in w.applied;
      FoundIn(w.applied, src.identities, row.revocationEvent.value);
    } else {
      assert forall r :: r in t.outbox ==> r.eventType == Registered;
    }
  }

  lemma FoundIn(applied: set<IdentityEvent>, all: set<IdentityEvent>, r: IdentityEvent)
    requires Consistent(all) && applied <= all && r in applied
    ensures Find(applied, r.subject, r.eventType) == Some(r)
  {
  }

  /** The materialized events of a subject are those of its object. */
  ghost predicate AllMaterialized(materialized: seq<DeviceEvent>, log: seq<DeviceEvent>, s: Subject) {
    && (forall e :: e in log ==> e in materialized && e.subject == s)
    && (forall e :: e in materialized && e.subject == s ==> e in log)
  }

  lemma LatestOfRow(done: seq<DeviceEvent>, log: seq<DeviceEvent>, src: Sources, s: Subject, d: DeviceId)
    requires HonestStream(src.devices) && (forall e :: e in log ==> e in src.devices)
    requires RR.HistoryOk(log) && AllMaterialized(done, log, s)
    ensures var row := RR.FoldDevice(log, d);
            LatestOf(done, DeviceKey(s, d))
            == if row.Some? then Coalesce(row.value.revocationEvent, row.value.activationEvent) else None
  {
    RR.RowReflectsEvents(log, d);
    LatestIsHighest(done, DeviceKey(s, d));
    var row := RR.FoldDevice(log, d);
    if row.Some? && row.value.activationEvent.Some? && row.value.revocationEvent.Some? {
      var a, r := row.value.activationEvent.value, row.value.revocationEvent.value;
      assert Compatible(a, r) && Compatible(r, a);
    }
  }

  lemma FirstOfRow(done: seq<DeviceEvent>, log: seq<DeviceEvent>, s: Subject, d: DeviceId)
    requires RR.HistoryOk(log) && AllMaterialized(done, log, s) && forall e :: e in log ==> DeviceEventValid(e)
    ensures var first, row := FirstOf(done, DeviceKey(s, d)), RR.FoldDevice(log, d);
            && (first.Some? <==> row.Some?)
            && (first.Some? && first.value.eventType == Activated ==>
                  row.value.activatedAt == Some(first.value.acceptedAt))
  {
    RR.RowReflectsEvents(log, d);
    FirstIsFirst(done, DeviceKey(s, d));
  }

  /** A row of the object and the event it was last changed by. */
  lemma RowShowsEvent(log: seq<DeviceEvent>, d: DeviceId, genesisHash: string)
    requires RR.HistoryOk(log) && forall e :: e in log ==> DeviceEventValid(e) && e.genesisHash == genesisHash
    ensures match RR.FoldDevice(log, d)
            case None => true
            case Some(row) =>
              var latest := Coalesce(row.revocationEvent, row.activationEvent);
              latest.Some? && DeviceAgrees(Excluded(latest.value).(activatedAt := row.activatedAt), row, genesisHash)
  {
    RR.RowReflectsEvents(log, d);
  }

  lemma DeviceProjected(w: World, registry: RR.World, src: Sources, s: Subject, d: DeviceId)
    requires TablesOk(w, src) && HonestSources(src) && RR.Inv(registry)
             && AllMaterialized(w.materialized, registry.log, s) && registry.tables.identity.Some?
    ensures DevicesAgree(registry.tables, w.devices.states, s, d)
  {
    var key, done := DeviceKey(s, d), w.materialized;
    RR.RowOf(registry, d);
    RowShowsEvent(registry.log, d, registry.tables.identity.value.genesisHash);
    FirstOfRow(done, registry.log, s, d);
    assert forall e :: e in registry.log ==> e in src.devices;
    LatestOfRow(done, registry.log, src, s, d);
    assert Lookup(w.devices.states, key) == RowFor(done, key);
  }

  lemma HeadProjected(w: World, registry: RR.World, src: Sources, s: Subject)
    requires TablesOk(w, src) && RR.Inv(registry) && AllMaterialized(w.materialized, registry.log, s)
    requires registry.tables.identity.Some?
    ensures HeadAgrees(registry.tables, w.devices.heads, s)
  {
    NewestIsHighest(w.materialized, s);
    assert Lookup(w.devices.heads, s) == HeadFor(w.materialized, s);
    if |registry.log| > 0 {
      var last := registry.log[|registry.log| - 1];
      assert last in registry.log && last.deviceLedgerSequence == |registry.log|;
    }
  }

  lemma {:induction false} HandledIsMaterialized(registries: Registries, src: Sources, actions: seq<Action>, s: Subject)
    requires EmittedFrom(src, registries) && DeliversAll(src, actions) && HonestSources(src)
    requires s in registries && TablesOf(registries, s).identity.Some?
    requires AllHandled(Run(INITIAL, actions), TablesOf(registries, s))
    ensures AllMaterialized(Run(INITIAL, actions).materialized, RT.Reach(registries[s]).log, s)
  {
    var w, registry := Run(INITIAL, actions), RT.Reach(registries[s]);
    ReachInv(src, actions);
    RT.ReachInv(registries[s]);
    var registration := registry.tables.actions[0];
    forall e | e in registry.log
      ensures e in w.materialized && e.subject == s
    {
      assert e in registry.tables.deviceOutbox;
      NoLostDeviceEvent(src, actions, e, registration);
    }
  }

  /**
   * End to end: after every row of both outboxes of a subject's object has had one completed handler, D1 agrees
   * with the object on the identity, on every device and on the ledger, and nothing of the subject is parked.
   */
  lemma {:induction false} ProjectionAgrees(registries: Registries, src: Sources, actions: seq<Action>, s: Subject)
    requires EmittedFrom(src, registries) && DeliversAll(src, actions)
    requires s in registries && TablesOf(registries, s).identity.Some?
    requires AllHandled(Run(INITIAL, actions), TablesOf(registries, s))
    ensures var w, t := Run(INITIAL, actions), TablesOf(registries, s);
            && IdentityAgrees(w.projection, t.identity.value) && s !in w.projection.pending
            && (forall d :: DevicesAgree(t, w.devices.states, s, d))
            && HeadAgrees(t, w.devices.heads, s) && EventsAgree(t, w, s)
  {
    var w, registry := Run(INITIAL, actions), RT.Reach(registries[s]);
    SourcesAreHonest(src, registries);
    ReachInv(src, actions);
    RT.ReachInv(registries[s]);
    HandledIsMaterialized(registries, src, actions, s);
    IdentityProjected(w, registry.tables, src);
    forall d
      ensures DevicesAgree(registry.tables, w.devices.states, s, d)
    {
      DeviceProjected(w, registry, src, s, d);
    }
    HeadProjected(w, registry, src, s);
    forall n: nat
      ensures Lookup(w.projection.events, Slot(s, n)) == Lookup(registry.tables.actions, n)
    {
      IdentityEventsProjected(w, registry.tables, src, n);
    }
  }

  /** The activation time is the one column that may differ: it is missing when the revocation came first. */
  lemma {:induction false} ActivationTimeLost(activation: DeviceEvent, revocation: DeviceEvent)
    requires HonestStream({activation, revocation}) && KeyOf(activation) == KeyOf(revocation)
    requires activation.eventType == Activated && revocation.eventType == DeviceRevoked
    ensures var inOrder := MaterializeAll(NO_DEVICES, [activation, revocation]).states[KeyOf(activation)];
            var swapped := MaterializeAll(NO_DEVICES, [revocation, activation]).states[KeyOf(activation)];
            inOrder.activatedAt == Some(activation.acceptedAt) && swapped == inOrder.(activatedAt := None)
  {
    assert Compatible(activation, revocation) && Compatible(revocation, activation);
    var t := MaterializeAll(NO_DEVICES, []);
    MaterializeAllSnoc(NO_DEVICES, [], activation);
    MaterializeAllSnoc(NO_DEVICES, [], revocation);
    MaterializeAllSnoc(NO_DEVICES, [activation], revocation);
    MaterializeAllSnoc(NO_DEVICES, [revocation], activation);
    assert [] + [activation] == [activation] && [] + [revocation] == [revocation];
    assert [activation] + [revocation] == [activation, revocation]
           && [revocation] + [activation] == [revocation, activation];
  }
}
