/**
 * The projector in every interleaving (workers/projector/src/projection.ts, device-projection.ts): any number of
 * device handlers (check, store, read the identity, materialize), registration handlers (check, insert the
 * identity, read the stored device events, materialize each) and revocation handlers run side by side, one
 * database statement or batch per step. A handler may stop after any step and its message is delivered again;
 * a step taken stays available, which stands for the same step of other handlers of the same message.
 */
module ProjectorRuns {
  import opened Common
  import opened RegistryEvents
  import opened IdentityProjection
  import opened DeviceProjection

  datatype Thread =
    | DeviceChecked(event: DeviceEvent)
    | DeviceStored(event: DeviceEvent)
    | DeviceAnchored(event: DeviceEvent)
    | IdentityChecked(identityEvent: IdentityEvent)
    | RegistrationApplied(identityEvent: IdentityEvent)
    | Reconciling(identityEvent: IdentityEvent, todo: seq<DeviceEvent>)
    | ReconcilingAnchored(identityEvent: IdentityEvent, todo: seq<DeviceEvent>)

  datatype World = World(
    projection: Projection,
    devices: DeviceTables,
    threads: set<Thread>,
    // history: identity batches and materializations that happened, and messages with a completed handler
    applied: set<IdentityEvent>,
    materialized: seq<DeviceEvent>,
    completedDevice: set<DeviceEvent>,
    completedIdentity: set<IdentityEvent>)

  const INITIAL := World(EMPTY, NO_DEVICES, {}, {}, [], {}, {})

  datatype Action =
    | DeliverDevice(deviceEvent: DeviceEvent)
    | DeliverIdentity(registryEvent: IdentityEvent)
    | Advance(thread: Thread, rows: seq<DeviceEvent>)

  /** `assertDeviceEventGenesis` and `assertRegistrationDeviceGenesis`, whichever stored event they happen to read. */
  predicate DeviceGenesisMatches(stored: set<DeviceEvent>, s: Subject, genesisHash: string) {
    forall f :: f in stored && f.subject == s ==> f.genesisHash == genesisHash
  }

  predicate AnchorMatches(p: Projection, e: DeviceEvent) {
    e.subject in p.identities ==> p.identities[e.subject].genesisHash == e.genesisHash
  }

  /** The result of the query of `reconcileDeviceEventsForIdentity`. */
  predicate IsSelection(rows: seq<DeviceEvent>, stored: set<DeviceEvent>, s: Subject) {
    && (forall e :: e in rows ==> e in stored && e.subject == s)
    && (forall e :: e in stored && e.subject == s ==> e in rows)
    && (forall i, j :: 0 <= i < j < |rows| ==> rows[i].deviceLedgerSequence < rows[j].deviceLedgerSequence)
  }

  function Spawn(w: World, thread: Thread): World {
    w.(threads := w.threads + {thread})
  }

  function MaterializeIn(w: World, e: DeviceEvent): World {
    w.(devices := Materialize(w.devices, e), materialized := w.materialized + [e])
  }

  /** The next step of a handler; a handler that throws makes none. */
  function AdvanceThread(w: World, thread: Thread, rows: seq<DeviceEvent>): World {
    match thread
    case DeviceChecked(e) =>
      (match Store(w.devices, e)
       case None => w
       case Some(devices) => Spawn(w.(devices := devices), DeviceStored(e)))
    case DeviceStored(e) =>
      if e.subject !in w.projection.identities then w.(completedDevice := w.completedDevice + {e})
      else if AnchorMatches(w.projection, e) then Spawn(w, DeviceAnchored(e))
      else w
    case DeviceAnchored(e) => MaterializeIn(w, e).(completedDevice := w.completedDevice + {e})
    case IdentityChecked(r) =>
      (match Batch(w.projection, r)
       case None => w
       case Some(p) =>
         var w' := w.(projection := p, applied := w.applied + {r});
         if r.eventType == Registered then Spawn(w', RegistrationApplied(r))
         else w'.(completedIdentity := w.completedIdentity + {r}))
    case RegistrationApplied(r) =>
      if IsSelection(rows, w.devices.stored, r.subject) then Spawn(w, Reconciling(r, rows)) else w
    case Reconciling(r, todo) =>
      if todo == [] then w.(completedIdentity := w.completedIdentity + {r})
      else if todo[0].subject !in w.projection.identities then Spawn(w, Reconciling(r, todo[1..]))
      else if AnchorMatches(w.projection, todo[0]) then Spawn(w, ReconcilingAnchored(r, todo))
      else w
    case ReconcilingAnchored(r, todo) =>
      if todo == [] then w else Spawn(MaterializeIn(w, todo[0]), Reconciling(r, todo[1..]))
  }

  function Apply(w: World, action: Action): World {
    match action
    case DeliverDevice(e) =>
      if AnchorMatches(w.projection, e) && DeviceGenesisMatches(w.devices.stored, e.subject, e.genesisHash)
      then Spawn(w, DeviceChecked(e)) else w
    case DeliverIdentity(r) =>
      if GenesisMatches(w.projection, r)
         && (r.eventType == Registered ==> DeviceGenesisMatches(w.devices.stored, r.subject, r.genesisHash))
      then Spawn(w, IdentityChecked(r)) else w
    case Advance(thread, rows) => if thread in w.threads then AdvanceThread(w, thread, rows) else w
  }

  function Run(w: World, actions: seq<Action>): World
    decreases |actions|
  {
    if actions == [] then w else Run(Apply(w, actions[0]), actions[1..])
  }

  // ----- What the queues carry

  /** The events of the registry objects: what their outboxes hold. */
  datatype Sources = Sources(devices: set<DeviceEvent>, identities: set<IdentityEvent>)

  ghost predicate HonestSources(src: Sources) {
    && Consistent(src.identities) && HonestStream(src.devices)
    && (forall e, r :: e in src.devices && r in src.identities && e.subject == r.subject ==>
          e.genesisHash == r.genesisHash)
  }

  predicate Delivers(src: Sources, action: Action) {
    match action
    case DeliverDevice(e) => e in src.devices
    case DeliverIdentity(r) => r in src.identities
    case Advance(_, _) => true
  }

  // ----- Invariant

  ghost predicate ThreadOk(w: World, src: Sources, thread: Thread) {
    match thread
    case DeviceChecked(e) => e in src.devices
    case DeviceStored(e) => e in w.devices.stored
    case DeviceAnchored(e) => e in w.devices.stored && e.subject in w.projection.identities
    case IdentityChecked(r) => r in src.identities
    case RegistrationApplied(r) => r in w.applied && r.eventType == Registered
    case Reconciling(r, todo) => ReconcilingOk(w, r, todo)
    case ReconcilingAnchored(r, todo) => ReconcilingOk(w, r, todo) && todo != []
  }

  ghost predicate ReconcilingOk(w: World, r: IdentityEvent, todo: seq<DeviceEvent>) {
    && r in w.applied && r.eventType == Registered
    && forall e :: e in todo ==> e in w.devices.stored && e.subject == r.subject
  }

  /** A registration handler that has read the stored events still has `e` before it. */
  predicate WillMaterialize(thread: Thread, e: DeviceEvent) {
    (thread.Reconciling? || thread.ReconcilingAnchored?) && thread.identityEvent.subject == e.subject ==>
      e in thread.todo
  }

  /** `e` is stored, and a registration handler that completes has materialized it. */
  ghost predicate Waiting(w: World, e: DeviceEvent) {
    && (forall thread :: thread in w.threads ==> WillMaterialize(thread, e))
    && (forall r :: r in w.completedIdentity && r.subject == e.subject ==> r.eventType != Registered)
  }

  ghost predicate TablesOk(w: World, src: Sources) {
    && w.applied <= src.identities && Represents(w.projection, w.applied)
    && w.devices.stored <= src.devices
    && Reflects(w.devices, w.materialized)
    && (forall e :: e in w.materialized ==> e in w.devices.stored && e.subject in w.projection.identities)
  }

  ghost predicate CompletedOk(w: World) {
    && (forall e :: e in w.completedDevice ==> e in w.devices.stored && (e in w.materialized || Waiting(w, e)))
    && w.completedIdentity <= w.applied
  }

  ghost predicate ThreadsOk(w: World, src: Sources) {
    forall thread :: thread in w.threads ==> ThreadOk(w, src, thread)
  }

  ghost predicate Inv(w: World, src: Sources) {
    TablesOk(w, src) && ThreadsOk(w, src) && CompletedOk(w)
  }

  lemma Anchored(w: World, src: Sources, s: Subject)
    requires TablesOk(w, src)
    ensures s in w.projection.identities <==> exists r :: r in w.applied && r.subject == s && r.eventType == Registered
  {
    assert RepresentsAt(w.projection, w.applied, s);
  }

  lemma AnchorGenesis(w: World, src: Sources, e: DeviceEvent)
    requires TablesOk(w, src) && HonestSources(src) && e in src.devices
    ensures AnchorMatches(w.projection, e)
  {
    assert RepresentsAt(w.projection, w.applied, e.subject);
  }

  lemma StoreAccepts(w: World, src: Sources, e: DeviceEvent)
    requires TablesOk(w, src) && HonestSources(src) && e in src.devices
    ensures Store(w.devices, e) == Some(w.devices.(stored := w.devices.stored + {e}))
  {
    forall f | f in w.devices.stored && f.subject == e.subject
      ensures f == e || (f.operation != e.operation && f.deviceLedgerSequence != e.deviceLedgerSequence)
    {
      assert Compatible(e, f);
    }
    if e in w.devices.stored {
      assert w.devices.stored + {e} == w.devices.stored;
    }
  }

  // ----- The kinds of steps keep the invariant

  lemma SpawnKeeps(w: World, src: Sources, thread: Thread)
    requires Inv(w, src) && ThreadOk(w, src, thread)
    requires forall e :: e in w.completedDevice && e !in w.materialized ==> WillMaterialize(thread, e)
    ensures Inv(Spawn(w, thread), src)
  {
    var w' := Spawn(w, thread);
    forall e | e in w.completedDevice && e !in w.materialized
      ensures Waiting(w', e)
    {
      assert Waiting(w, e);
    }
  }

  lemma StoreKeeps(w: World, src: Sources, e: DeviceEvent)
    requires Inv(w, src) && e in src.devices
    ensures Inv(w.(devices := w.devices.(stored := w.devices.stored + {e})), src)
  {
    var w' := w.(devices := w.devices.(stored := w.devices.stored + {e}));
    assert Reflects(w'.devices, w.materialized) by {
      SameTablesReflect(w.devices, w'.devices, w.materialized);
    }
    forall thread | thread in w.threads
      ensures ThreadOk(w', src, thread)
    {
      assert ThreadOk(w, src, thread);
    }
    SameWaiting(w, w');
  }

  lemma SameTablesReflect(t: DeviceTables, t': DeviceTables, done: seq<DeviceEvent>)
    requires Reflects(t, done) && t'.states == t.states && t'.heads == t.heads
    ensures Reflects(t', done)
  {
    forall key
      ensures Lookup(t'.states, key) == RowFor(done, key)
    {
      assert Lookup(t.states, key) == RowFor(done, key);
    }
    forall s
      ensures Lookup(t'.heads, s) == HeadFor(done, s)
    {
      assert Lookup(t.heads, s) == HeadFor(done, s);
    }
  }

  lemma SameWaiting(w: World, w': World)
    requires w'.threads == w.threads && w'.completedIdentity == w.completedIdentity
    ensures forall e :: Waiting(w, e) ==> Waiting(w', e)
  {
  }

  lemma MaterializeKeeps(w: World, src: Sources, e: DeviceEvent)
    requires Inv(w, src) && HonestSources(src) && e in w.devices.stored && e.subject in w.projection.identities
    ensures Inv(MaterializeIn(w, e), src)
  {
    var w' := MaterializeIn(w, e);
    assert HonestStream(Members(w.materialized) + {e}) by {
      assert Members(w.materialized) + {e} <= src.devices;
    }
    MaterializeReflects(w.devices, w.materialized, e);
    forall thread | thread in w.threads
      ensures ThreadOk(w', src, thread)
    {
      assert ThreadOk(w, src, thread);
    }
    SameWaiting(w, w');
  }

  lemma CompleteDeviceKeeps(w: World, src: Sources, e: DeviceEvent)
    requires Inv(w, src) && e in w.devices.stored && (e in w.materialized || Waiting(w, e))
    ensures Inv(w.(completedDevice := w.completedDevice + {e}), src)
  {
    var w' := w.(completedDevice := w.completedDevice + {e});
    forall thread | thread in w.threads
      ensures ThreadOk(w', src, thread)
    {
      assert ThreadOk(w, src, thread);
    }
    SameWaiting(w, w');
  }

  lemma CompleteIdentityKeeps(w: World, src: Sources, r: IdentityEvent)
    requires Inv(w, src) && r in w.applied
    requires r.eventType == Registered ==>
               forall e :: e in w.completedDevice && e.subject == r.subject ==> e in w.materialized
    ensures Inv(w.(completedIdentity := w.completedIdentity + {r}), src)
  {
    var w' := w.(completedIdentity := w.completedIdentity + {r});
    forall thread | thread in w.threads
      ensures ThreadOk(w', src, thread)
    {
      assert ThreadOk(w, src, thread);
    }
    forall e | e in w.completedDevice && e !in w.materialized
      ensures Waiting(w', e)
    {
      assert Waiting(w, e);
    }
  }

  /** The identity batch goes through, and identities that are there stay. */
  lemma BatchAccepts(w: World, src: Sources, r: IdentityEvent)
    requires TablesOk(w, src) && HonestSources(src) && r in src.identities
    ensures Deliver(w.projection, r).Some? && Represents(Deliver(w.projection, r).value, w.applied + {r})
    ensures w.projection.identities.Keys <= Deliver(w.projection, r).value.identities.Keys
  {
    assert w.applied + {r} <= src.identities;
    DeliverRepresents(w.projection, w.applied, r);
    var p := Deliver(w.projection, r).value;
    forall s | s in w.projection.identities
      ensures s in p.identities
    {
      assert RepresentsAt(w.projection, w.applied, s) && RepresentsAt(p, w.applied + {r}, s);
    }
  }

  lemma BatchKeeps(w: World, src: Sources, r: IdentityEvent)
    requires Inv(w, src) && HonestSources(src) && r in src.identities
    ensures Batch(w.projection, r).Some?
    ensures Inv(w.(projection := Batch(w.projection, r).value, applied := w.applied + {r}), src)
  {
    BatchAccepts(w, src, r);
    var w' := w.(projection := Batch(w.projection, r).value, applied := w.applied + {r});
    forall thread | thread in w.threads
      ensures ThreadOk(w', src, thread)
    {
      assert ThreadOk(w, src, thread);
    }
    SameWaiting(w, w');
  }

  /** While the identity is absent, no registration handler of the subject has come as far as its query. */
  lemma AbsentMeansWaiting(w: World, src: Sources, e: DeviceEvent)
    requires Inv(w, src) && e.subject !in w.projection.identities
    ensures Waiting(w, e)
  {
    Anchored(w, src, e.subject);
    forall thread | thread in w.threads
      ensures WillMaterialize(thread, e)
    {
      assert ThreadOk(w, src, thread);
    }
  }

  // ----- Every step does

  lemma DeviceStepKeeps(w: World, src: Sources, thread: Thread)
    requires Inv(w, src) && HonestSources(src) && thread in w.threads
    requires thread.DeviceChecked? || thread.DeviceStored? || thread.DeviceAnchored?
    ensures Inv(AdvanceThread(w, thread, []), src)
  {
    assert ThreadOk(w, src, thread);
    var e := thread.event;
    match thread
    case DeviceChecked(_) =>
      StoreAccepts(w, src, e);
      StoreKeeps(w, src, e);
      SpawnKeeps(w.(devices := w.devices.(stored := w.devices.stored + {e})), src, DeviceStored(e));
    case DeviceStored(_) =>
      if e.subject !in w.projection.identities {
        AbsentMeansWaiting(w, src, e);
        CompleteDeviceKeeps(w, src, e);
      } else if AnchorMatches(w.projection, e) {
        SpawnKeeps(w, src, DeviceAnchored(e));
      }
    case DeviceAnchored(_) =>
      MaterializeKeeps(w, src, e);
      CompleteDeviceKeeps(MaterializeIn(w, e), src, e);
  }

  lemma IdentityStepKeeps(w: World, src: Sources, r: IdentityEvent)
    requires Inv(w, src) && HonestSources(src) && IdentityChecked(r) in w.threads
    ensures Inv(AdvanceThread(w, IdentityChecked(r), []), src)
  {
    assert ThreadOk(w, src, IdentityChecked(r));
    BatchKeeps(w, src, r);
    var w' := w.(projection := Batch(w.projection, r).value, applied := w.applied + {r});
    if r.eventType == Registered {
      SpawnKeeps(w', src, RegistrationApplied(r));
    } else {
      CompleteIdentityKeeps(w', src, r);
    }
  }

  lemma SelectKeeps(w: World, src: Sources, r: IdentityEvent, rows: seq<DeviceEvent>)
    requires Inv(w, src) && RegistrationApplied(r) in w.threads
    ensures Inv(AdvanceThread(w, RegistrationApplied(r), rows), src)
  {
    assert ThreadOk(w, src, RegistrationApplied(r));
    if IsSelection(rows, w.devices.stored, r.subject) {
      SpawnKeeps(w, src, Reconciling(r, rows));
    }
  }

  lemma ReconcileStepKeeps(w: World, src: Sources, thread: Thread)
    requires Inv(w, src) && HonestSources(src) && thread in w.threads
             && (thread.Reconciling? || thread.ReconcilingAnchored?)
    ensures Inv(AdvanceThread(w, thread, []), src)
  {
    assert ThreadOk(w, src, thread);
    var r, todo := thread.identityEvent, thread.todo;
    forall e | e in w.completedDevice && e !in w.materialized
      ensures WillMaterialize(thread, e)
    {
      assert Waiting(w, e);
    }
    Anchored(w, src, r.subject);
    if todo == [] {
      CompleteIdentityKeeps(w, src, r);
    } else if thread.Reconciling? {
      if AnchorMatches(w.projection, todo[0]) {
        SpawnKeeps(w, src, ReconcilingAnchored(r, todo));
      }
    } else {
      MaterializeKeeps(w, src, todo[0]);
      assert todo == [todo[0]] + todo[1..];
      SpawnKeeps(MaterializeIn(w, todo[0]), src, Reconciling(r, todo[1..]));
    }
  }

  lemma ApplyKeeps(w: World, src: Sources, action: Action)
    requires Inv(w, src) && HonestSources(src) && Delivers(src, action)
    ensures Inv(Apply(w, action), src)
  {
    match action
    case DeliverDevice(e) => SpawnKeeps(w, src, DeviceChecked(e));
    case DeliverIdentity(r) => SpawnKeeps(w, src, IdentityChecked(r));
    case Advance(thread, rows) =>
      if thread in w.threads {
        match thread {
          case IdentityChecked(r) => IdentityStepKeeps(w, src, r);
          case RegistrationApplied(r) => SelectKeeps(w, src, r, rows);
          case Reconciling(_, _) => ReconcileStepKeeps(w, src, thread);
          case ReconcilingAnchored(_, _) => ReconcileStepKeeps(w, src, thread);
          case _ => DeviceStepKeeps(w, src, thread);
        }
      }
  }

  predicate DeliversAll(src: Sources, actions: seq<Action>) {
    forall action :: action in actions ==> Delivers(src, action)
  }

  lemma {:induction false} RunKeeps(w: World, src: Sources, actions: seq<Action>)
    requires Inv(w, src) && HonestSources(src) && DeliversAll(src, actions)
    ensures Inv(Run(w, actions), src)
    decreases |actions|
  {
    if actions != [] {
      ApplyKeeps(w, src, actions[0]);
      RunKeeps(Apply(w, actions[0]), src, actions[1..]);
    }
  }

  lemma {:induction false} ReachInv(src: Sources, actions: seq<Action>)
    requires HonestSources(src) && DeliversAll(src, actions)
    ensures Inv(Run(INITIAL, actions), src)
  {
    RunKeeps(INITIAL, src, actions);
  }

  // ----- Theorems

  /**
   * No lost device event: once a device event and the registration of its subject have each had one completed
   * handler, the event has been materialized, whatever the interleaving.
   */
  lemma {:induction false} NoLostDeviceEvent(src: Sources, actions: seq<Action>, e: DeviceEvent, r: IdentityEvent)
    requires HonestSources(src) && DeliversAll(src, actions)
    requires var w := Run(INITIAL, actions);
             e in w.completedDevice && r in w.completedIdentity && r.eventType == Registered && r.subject == e.subject
    ensures var w := Run(INITIAL, actions);
            e in w.materialized && KeyOf(e) in w.devices.states
            && w.devices.states[KeyOf(e)].eventSequence >= e.deviceLedgerSequence
  {
    ReachInv(src, actions);
    var w := Run(INITIAL, actions);
    assert e in w.materialized || Waiting(w, e);
    LatestIsHighest(w.materialized, KeyOf(e));
    FirstIsFirst(w.materialized, KeyOf(e));
    assert Lookup(w.devices.states, KeyOf(e)) == RowFor(w.materialized, KeyOf(e));
  }

  /** In every interleaving the identity tables are the closed form of the batches applied. */
  lemma {:induction false} IdentitiesAreClosedForm(src: Sources, actions: seq<Action>)
    requires HonestSources(src) && DeliversAll(src, actions)
    ensures var w := Run(INITIAL, actions);
            Represents(w.projection, w.applied) && w.completedIdentity <= w.applied
              && Reflects(w.devices, w.materialized)
  {
    ReachInv(src, actions);
  }

  /** No honest delivery fails: every check passes and every statement meets the constraints of its table. */
  lemma {:induction false} HandlersNeverThrow(src: Sources, actions: seq<Action>, e: DeviceEvent, r: IdentityEvent,
                                              key: DeviceKey)
    requires HonestSources(src) && DeliversAll(src, actions) && e in src.devices && r in src.identities
    ensures var w := Run(INITIAL, actions);
            && AnchorMatches(w.projection, e) && DeviceGenesisMatches(w.devices.stored, e.subject, e.genesisHash)
            && GenesisMatches(w.projection, r) && DeviceGenesisMatches(w.devices.stored, r.subject, r.genesisHash)
            && Store(w.devices, e).Some? && Batch(w.projection, r).Some?
            && (key in w.devices.states ==>
                  RowCheck(w.devices.states[key]) && w.devices.states[key].latestEvent in w.devices.stored
                  && KeyOf(w.devices.states[key].latestEvent) == key
                  && key.subject in w.devices.heads && key.subject in w.projection.identities)
  {
    ReachInv(src, actions);
    var w := Run(INITIAL, actions);
    AnchorGenesis(w, src, e);
    StoreAccepts(w, src, e);
    BatchAccepts(w, src, r);
    forall f | f in w.devices.stored && f.subject == e.subject
      ensures f.genesisHash == e.genesisHash
    {
      assert Compatible(f, e);
    }
    if key in w.devices.states {
      StateRowsOk(w, src, key);
    }
  }

  /** The subject is projected under another genesis than this. */
  predicate OtherAnchor(w: World, s: Subject, genesisHash: string) {
    s in w.projection.identities && w.projection.identities[s].genesisHash != genesisHash
  }

  predicate OtherStored(w: World, s: Subject, genesisHash: string) {
    exists f :: f in w.devices.stored && f.subject == s && f.genesisHash != genesisHash
  }

  /** A message of another genesis than the projected identity, or than a stored device event, has no effect. */
  lemma ForeignGenesisRefused(w: World, e: DeviceEvent, r: IdentityEvent)
    ensures OtherAnchor(w, e.subject, e.genesisHash) || OtherStored(w, e.subject, e.genesisHash) ==>
              Apply(w, DeliverDevice(e)) == w
    ensures OtherAnchor(w, e.subject, e.genesisHash) ==> Apply(w, Advance(DeviceStored(e), [])) == w
    ensures OtherAnchor(w, r.subject, r.genesisHash) ==> Apply(w, DeliverIdentity(r)) == w
    ensures r.eventType == Registered && OtherStored(w, r.subject, r.genesisHash) ==> Apply(w, DeliverIdentity(r)) == w
  {
  }

  lemma StateRowsOk(w: World, src: Sources, key: DeviceKey)
    requires TablesOk(w, src) && HonestSources(src) && key in w.devices.states
    ensures RowCheck(w.devices.states[key]) && w.devices.states[key].latestEvent in w.devices.stored
    ensures KeyOf(w.devices.states[key].latestEvent) == key
    ensures key.subject in w.devices.heads && key.subject in w.projection.identities
  {
    var done := w.materialized;
    assert Lookup(w.devices.states, key) == RowFor(done, key);
    FirstIsFirst(done, key);
    LatestIsHighest(done, key);
    NewestIsHighest(done, key.subject);
    var first, latest := FirstOf(done, key).value, LatestOf(done, key).value;
    assert first in src.devices && latest in src.devices && Compatible(first, latest);
    assert Lookup(w.devices.heads, key.subject) == HeadFor(done, key.subject);
  }
}
