/**
 * The device tables of the D1 projection (workers/projector/src/device-projection.ts,
 * migrations/d1/0002_device_projection_v2.sql): what one materialization does, and what any sequence of them,
 * reordered and repeated as the queue likes, adds up to.
 */
module DeviceProjection {
  import opened Common
  import opened RegistryEvents
  import RegistryRuns
  import opened IdentityProjection

  datatype DeviceKey = DeviceKey(subject: Subject, deviceId: DeviceId)

  datatype DeviceState = DeviceState(
    genesisHash: string,
    authorizationId: Option<AuthorizationId>,
    state: LifecycleState,
    eventSequence: nat,
    authorizationExpiresAt: Option<nat>,
    activatedAt: Option<nat>,
    revokedAt: Option<nat>,
    revokedBy: Option<Revoker>,
    updatedAt: nat,
    latestEvent: DeviceEvent)

  datatype Head = Head(genesisHash: string, maxLedgerSequence: nat, updatedAt: nat)

  datatype DeviceTables = DeviceTables(
    stored: set<DeviceEvent>,
    states: map<DeviceKey, DeviceState>,
    heads: map<Subject, Head>)

  const NO_DEVICES := DeviceTables({}, map[], map[])

  function KeyOf(e: DeviceEvent): DeviceKey {
    DeviceKey(e.subject, e.deviceId)
  }

  /** `storeDeviceEvent`; None when the operation or the ledger sequence belongs to another event. */
  function Store(t: DeviceTables, e: DeviceEvent): Option<DeviceTables> {
    if e in t.stored then Some(t)
    else if exists f :: f in t.stored && f.subject == e.subject
                        && (f.operation == e.operation || f.deviceLedgerSequence == e.deviceLedgerSequence) then None
    else Some(t.(stored := t.stored + {e}))
  }

  /** The row that the upsert of `materializeDeviceEvent` would insert. */
  function Excluded(e: DeviceEvent): DeviceState {
    DeviceState(e.genesisHash, e.authorizationId, e.deviceState, e.deviceLedgerSequence, e.authorizationExpiresAt,
                if e.eventType == Activated then Some(e.acceptedAt) else None,
                if e.eventType == DeviceRevoked then Some(e.acceptedAt) else None,
                e.revokedBy, e.acceptedAt, e)
  }

  function Upserted(row: DeviceState, excluded: DeviceState): DeviceState {
    if row.eventSequence < excluded.eventSequence && row.state != Revoked then
      row.(authorizationId := Coalesce(excluded.authorizationId, row.authorizationId),
           state := excluded.state,
           eventSequence := excluded.eventSequence,
           authorizationExpiresAt := Coalesce(excluded.authorizationExpiresAt, row.authorizationExpiresAt),
           activatedAt := Coalesce(row.activatedAt, excluded.activatedAt),
           revokedAt := excluded.revokedAt,
           revokedBy := excluded.revokedBy,
           updatedAt := excluded.updatedAt,
           latestEvent := excluded.latestEvent)
    else row
  }

  function UpsertedHead(head: Head, e: DeviceEvent): Head {
    if head.maxLedgerSequence < e.deviceLedgerSequence
    then head.(maxLedgerSequence := e.deviceLedgerSequence, updatedAt := e.acceptedAt) else head
  }

  /** Storing fails exactly for a new event that takes the operation or the ledger sequence of another one. */
  lemma StoredIff(t: DeviceTables, e: DeviceEvent)
    ensures Store(t, e).None? <==>
              e !in t.stored && exists f :: f in t.stored && f.subject == e.subject
                                            && (f.deviceLedgerSequence == e.deviceLedgerSequence
                                                || f.operation == e.operation)
    ensures Store(t, e).Some? ==> Store(t, e).value == DeviceTables(t.stored + {e}, t.states, t.heads)
  {
    if e in t.stored {
      assert t.stored + {e} == t.stored;
    }
  }

  /**
   * What a later event does to the row of a device that is not revoked: it keeps what the event does not tell and the
   * activation time, and an earlier event or a revoked row changes nothing.
   */
  lemma UpsertKeepsTheRest(row: DeviceState, e: DeviceEvent)
    ensures Upserted(row, Excluded(e))
            == if e.deviceLedgerSequence <= row.eventSequence || row.state == Revoked then row
               else
                 DeviceState(row.genesisHash,
                             if e.authorizationId.Some? then e.authorizationId else row.authorizationId,
                             e.deviceState, e.deviceLedgerSequence,
                             if e.authorizationExpiresAt.Some? then e.authorizationExpiresAt
                             else row.authorizationExpiresAt,
                             if row.activatedAt.None? && e.eventType == Activated then Some(e.acceptedAt)
                             else row.activatedAt,
                             if e.eventType == DeviceRevoked then Some(e.acceptedAt) else None,
                             e.revokedBy, e.acceptedAt, e)
  {
  }

  /** The batch of `materializeDeviceEvent`. */
  function Materialize(t: DeviceTables, e: DeviceEvent): DeviceTables {
    var key := KeyOf(e);
    t.(states := t.states[key := if key in t.states then Upserted(t.states[key], Excluded(e)) else Excluded(e)],
       heads := t.heads[e.subject := if e.subject in t.heads then UpsertedHead(t.heads[e.subject], e)
                                     else Head(e.genesisHash, e.deviceLedgerSequence, e.acceptedAt)])
  }

  /** The table constraint of `device_states`. */
  predicate RowCheck(row: DeviceState) {
    && row.eventSequence >= 1
    && if row.state == Active then
         row.authorizationId.Some? && row.authorizationExpiresAt.Some? && row.activatedAt.Some?
         && row.revokedAt.None? && row.revokedBy.None?
       else row.revokedAt.Some? && row.revokedBy.Some?
  }

  // ----- The streams that registry objects emit

  predicate Compatible(e: DeviceEvent, f: DeviceEvent) {
    e.subject == f.subject ==>
      && e.genesisHash == f.genesisHash
      && (e.deviceLedgerSequence == f.deviceLedgerSequence ==> e == f)
      && (e.operation == f.operation ==> e == f)
      && (e.deviceLedgerSequence < f.deviceLedgerSequence ==> RegistryRuns.MayFollow(e, f))
  }

  ghost predicate HonestStream(events: set<DeviceEvent>) {
    && (forall e :: e in events ==> DeviceEventValid(e) && e.deviceLedgerSequence >= 1)
    && (forall e, f :: e in events && f in events ==> Compatible(e, f))
  }

  function Members(events: seq<DeviceEvent>): set<DeviceEvent> {
    set e | e in events
  }

  // ----- The closed form of a sequence of materializations

  /** The first event of a device to be materialized. */
  function FirstOf(done: seq<DeviceEvent>, key: DeviceKey): Option<DeviceEvent> {
    if done == [] then None
    else
      var last := done[|done| - 1];
      var before := FirstOf(done[..|done| - 1], key);
      if before.Some? then before else if KeyOf(last) == key then Some(last) else None
  }

  /** The event of a device with the highest ledger sequence. */
  function LatestOf(done: seq<DeviceEvent>, key: DeviceKey): Option<DeviceEvent> {
    if done == [] then None
    else
      var last := done[|done| - 1];
      var before := LatestOf(done[..|done| - 1], key);
      if KeyOf(last) == key && (before.None? || before.value.deviceLedgerSequence < last.deviceLedgerSequence)
      then Some(last) else before
  }

  /** The event of a subject with the highest ledger sequence. */
  function NewestOf(done: seq<DeviceEvent>, s: Subject): Option<DeviceEvent> {
    if done == [] then None
    else
      var last := done[|done| - 1];
      var before := NewestOf(done[..|done| - 1], s);
      if last.subject == s && (before.None? || before.value.deviceLedgerSequence < last.deviceLedgerSequence)
      then Some(last) else before
  }

  /** The fields of the latest event; only the activation time depends on what came first. */
  function RowFor(done: seq<DeviceEvent>, key: DeviceKey): Option<DeviceState> {
    match (FirstOf(done, key), LatestOf(done, key))
    case (Some(first), Some(latest)) => Some(Excluded(latest).(activatedAt := Excluded(first).activatedAt))
    case _ => None
  }

  function HeadFor(done: seq<DeviceEvent>, s: Subject): Option<Head> {
    match NewestOf(done, s)
    case None => None
    case Some(e) => Some(Head(e.genesisHash, e.deviceLedgerSequence, e.acceptedAt))
  }

  ghost predicate Reflects(t: DeviceTables, done: seq<DeviceEvent>) {
    && (forall key :: Lookup(t.states, key) == RowFor(done, key))
    && (forall s :: Lookup(t.heads, s) == HeadFor(done, s))
  }

  lemma {:induction false} FirstIsFirst(done: seq<DeviceEvent>, key: DeviceKey)
    ensures match FirstOf(done, key)
            case None => forall e :: e in done ==> KeyOf(e) != key
            case Some(first) => first in done && KeyOf(first) == key
  {
    if done != [] {
      FirstIsFirst(done[..|done| - 1], key);
      assert done == done[..|done| - 1] + [done[|done| - 1]];
    }
  }

  lemma {:induction false} LatestIsHighest(done: seq<DeviceEvent>, key: DeviceKey)
    ensures match LatestOf(done, key)
            case None => forall e :: e in done ==> KeyOf(e) != key
            case Some(latest) =>
              && latest in done && KeyOf(latest) == key
              && forall e :: e in done && KeyOf(e) == key ==> e.deviceLedgerSequence <= latest.deviceLedgerSequence
  {
    if done != [] {
      LatestIsHighest(done[..|done| - 1], key);
      assert done == done[..|done| - 1] + [done[|done| - 1]];
    }
  }

  lemma {:induction false} NewestIsHighest(done: seq<DeviceEvent>, s: Subject)
    ensures match NewestOf(done, s)
            case None => forall e :: e in done ==> e.subject != s
            case Some(newest) =>
              && newest in done && newest.subject == s
              && forall e :: e in done && e.subject == s ==> e.deviceLedgerSequence <= newest.deviceLedgerSequence
  {
    if done != [] {
      NewestIsHighest(done[..|done| - 1], s);
      assert done == done[..|done| - 1] + [done[|done| - 1]];
    }
  }

  lemma UpsertIsClosedForm(done: seq<DeviceEvent>, e: DeviceEvent)
    requires HonestStream(Members(done) + {e})
    ensures var row := RowFor(done, KeyOf(e));
            RowFor(done + [e], KeyOf(e)) == Some(if row.Some? then Upserted(row.value, Excluded(e)) else Excluded(e))
  {
    var key := KeyOf(e);
    assert (done + [e])[..|done|] == done;
    FirstIsFirst(done, key);
    LatestIsHighest(done, key);
    var latest := LatestOf(done, key);
    if latest.Some? {
      assert latest.value in Members(done) && Compatible(latest.value, e);
    }
  }

  lemma MaterializeReflects(t: DeviceTables, done: seq<DeviceEvent>, e: DeviceEvent)
    requires Reflects(t, done) && HonestStream(Members(done) + {e})
    ensures Reflects(Materialize(t, e), done + [e])
  {
    var t' := Materialize(t, e);
    assert (done + [e])[..|done|] == done;
    forall key
      ensures Lookup(t'.states, key) == RowFor(done + [e], key)
    {
      assert Lookup(t.states, key) == RowFor(done, key);
      if key == KeyOf(e) {
        UpsertIsClosedForm(done, e);
      }
    }
    NewestIsHighest(done, e.subject);
    forall s
      ensures Lookup(t'.heads, s) == HeadFor(done + [e], s)
    {
      assert Lookup(t.heads, s) == HeadFor(done, s);
      var newest := NewestOf(done, s);
      assert newest.Some? && s == e.subject ==> newest.value in Members(done) && Compatible(newest.value, e);
    }
  }

  function MaterializeAll(t: DeviceTables, events: seq<DeviceEvent>): DeviceTables {
    if events == [] then t
    else Materialize(MaterializeAll(t, events[..|events| - 1]), events[|events| - 1])
  }

  lemma {:induction false} MaterializeAllReflects(events: seq<DeviceEvent>)
    requires HonestStream(Members(events))
    ensures Reflects(MaterializeAll(NO_DEVICES, events), events)
  {
    if events != [] {
      var last := |events| - 1;
      assert events == events[..last] + [events[last]];
      assert Members(events[..last]) <= Members(events);
      assert Members(events) == Members(events[..last]) + {events[last]};
      MaterializeAllReflects(events[..last]);
      MaterializeReflects(MaterializeAll(NO_DEVICES, events[..last]), events[..last], events[last]);
    }
  }

  /** The event of a device with the highest ledger sequence, among those materialized. */
  ghost predicate IsLatest(events: seq<DeviceEvent>, key: DeviceKey, e: DeviceEvent) {
    && e in events && KeyOf(e) == key
    && forall f :: f in events && KeyOf(f) == key ==> f.deviceLedgerSequence <= e.deviceLedgerSequence
  }

  /** The event of a subject with the highest ledger sequence, among those materialized. */
  ghost predicate IsNewest(events: seq<DeviceEvent>, s: Subject, e: DeviceEvent) {
    && e in events && e.subject == s
    && forall f :: f in events && f.subject == s ==> f.deviceLedgerSequence <= e.deviceLedgerSequence
  }

  /** The row of a device shows its event `e`, activation time apart. */
  predicate Shows(row: DeviceState, e: DeviceEvent) {
    && row.genesisHash == e.genesisHash && row.authorizationId == e.authorizationId && row.state == e.deviceState
    && row.eventSequence == e.deviceLedgerSequence && row.authorizationExpiresAt == e.authorizationExpiresAt
    && row.revokedAt == (if e.eventType == DeviceRevoked then Some(e.acceptedAt) else None)
    && row.revokedBy == e.revokedBy && row.updatedAt == e.acceptedAt && row.latestEvent == e
  }

  /**
   * Each device row shows, activation time apart, its device's highest-ledger event, and each head the highest
   * ledger sequence of its subject; there are rows and heads for exactly the devices and subjects that had events.
   */
  lemma {:induction false} RowsShowLatest(events: seq<DeviceEvent>, key: DeviceKey)
    requires HonestStream(Members(events))
    ensures var t := MaterializeAll(NO_DEVICES, events);
            && (key in t.states <==> exists e :: e in events && KeyOf(e) == key)
            && (key.subject in t.heads <==> exists e :: e in events && e.subject == key.subject)
            && (forall e :: IsLatest(events, key, e) ==>
                  key in t.states && Shows(t.states[key], e))
            && (forall e :: IsNewest(events, key.subject, e) ==>
                  key.subject in t.heads
                  && t.heads[key.subject] == Head(e.genesisHash, e.deviceLedgerSequence, e.acceptedAt))
  {
    var t := MaterializeAll(NO_DEVICES, events);
    MaterializeAllReflects(events);
    FirstIsFirst(events, key);
    LatestIsHighest(events, key);
    NewestIsHighest(events, key.subject);
    assert Lookup(t.states, key) == RowFor(events, key);
    assert Lookup(t.heads, key.subject) == HeadFor(events, key.subject);
    forall e | IsLatest(events, key, e)
      ensures LatestOf(events, key) == Some(e)
    {
      HighestIsUnique(events, e, LatestOf(events, key).value);
    }
    forall e | IsNewest(events, key.subject, e)
      ensures NewestOf(events, key.subject) == Some(e)
    {
      HighestIsUnique(events, e, NewestOf(events, key.subject).value);
    }
  }

  lemma HighestIsUnique(events: seq<DeviceEvent>, e: DeviceEvent, f: DeviceEvent)
    requires HonestStream(Members(events)) && e in events && f in events
    requires e.subject == f.subject && e.deviceLedgerSequence == f.deviceLedgerSequence
    ensures e == f
  {
    assert e in Members(events) && f in Members(events) && Compatible(e, f);
  }

  /**
   * Order and duplicates do not matter: two sequences of materializations with the same events end in the same
   * heads and, activation times apart, in the same device rows, and these show the highest-ledger events.
   */
  lemma {:induction false} OrderInsensitive(first: seq<DeviceEvent>, second: seq<DeviceEvent>, key: DeviceKey)
    requires HonestStream(Members(first)) && Members(first) == Members(second)
    ensures var a, b := MaterializeAll(NO_DEVICES, first), MaterializeAll(NO_DEVICES, second);
            && (key in a.states <==> key in b.states)
            && (key in a.states ==> a.states[key].(activatedAt := None) == b.states[key].(activatedAt := None))
            && (key.subject in a.heads <==> key.subject in b.heads)
            && (key.subject in a.heads ==> a.heads[key.subject] == b.heads[key.subject])
            && (forall e :: IsLatest(first, key, e) ==>
                  key in a.states && Shows(a.states[key], e))
            && (forall e :: IsNewest(first, key.subject, e) ==>
                  key.subject in a.heads
                  && a.heads[key.subject] == Head(e.genesisHash, e.deviceLedgerSequence, e.acceptedAt))
  {
    RowsShowLatest(first, key);
    SameRowAndHead(first, second, key);
  }

  lemma {:induction false} SameRowAndHead(first: seq<DeviceEvent>, second: seq<DeviceEvent>, key: DeviceKey)
    requires HonestStream(Members(first)) && Members(first) == Members(second)
    ensures var a, b := MaterializeAll(NO_DEVICES, first), MaterializeAll(NO_DEVICES, second);
            && (key in a.states <==> key in b.states)
            && (key in a.states ==> a.states[key].(activatedAt := None) == b.states[key].(activatedAt := None))
            && (key.subject in a.heads <==> key.subject in b.heads)
            && (key.subject in a.heads ==> a.heads[key.subject] == b.heads[key.subject])
  {
    MaterializeAllReflects(first);
    MaterializeAllReflects(second);
    LatestDetermined(first, second, key);
    NewestDetermined(first, second, key.subject);
    FirstIsFirst(first, key);
    FirstIsFirst(second, key);
    LatestIsHighest(first, key);
    var a, b := MaterializeAll(NO_DEVICES, first), MaterializeAll(NO_DEVICES, second);
    assert Lookup(a.states, key) == RowFor(first, key) && Lookup(b.states, key) == RowFor(second, key);
    assert Lookup(a.heads, key.subject) == HeadFor(first, key.subject);
    assert Lookup(b.heads, key.subject) == HeadFor(second, key.subject);
    assert forall e :: e in first <==> e in Members(second);
  }

  lemma {:induction false} LatestDetermined(first: seq<DeviceEvent>, second: seq<DeviceEvent>, key: DeviceKey)
    requires HonestStream(Members(first)) && Members(first) == Members(second)
    ensures LatestOf(first, key) == LatestOf(second, key)
  {
    LatestIsHighest(first, key);
    LatestIsHighest(second, key);
    assert forall e :: e in first <==> e in Members(first);
    assert forall e :: e in second <==> e in Members(second);
    var a, b := LatestOf(first, key), LatestOf(second, key);
    if a.Some? && b.Some? {
      assert Compatible(a.value, b.value);
    }
  }

  lemma {:induction false} NewestDetermined(first: seq<DeviceEvent>, second: seq<DeviceEvent>, s: Subject)
    requires HonestStream(Members(first)) && Members(first) == Members(second)
    ensures NewestOf(first, s) == NewestOf(second, s)
  {
    NewestIsHighest(first, s);
    NewestIsHighest(second, s);
    assert forall e :: e in first <==> e in Members(first);
    assert forall e :: e in second <==> e in Members(second);
    var a, b := NewestOf(first, s), NewestOf(second, s);
    if a.Some? && b.Some? {
      assert Compatible(a.value, b.value);
    }
  }

  /**
   * The activation time is lost exactly when the revocation was materialized first. A row with an activation
   * time has the time of the activation, and every row meets the constraint of its table.
   */
  lemma {:induction false} ActivatedAtIff(events: seq<DeviceEvent>, key: DeviceKey)
    requires HonestStream(Members(events)) && FirstOf(events, key).Some?
    ensures var t := MaterializeAll(NO_DEVICES, events);
            && key in t.states && RowCheck(t.states[key])
            && (t.states[key].activatedAt.Some? <==> FirstOf(events, key).value.eventType == Activated)
            && (forall e ::
                  e in events && KeyOf(e) == key && e.eventType == Activated && t.states[key].activatedAt.Some? ==>
                    t.states[key].activatedAt == Some(e.acceptedAt))
  {
    var t := MaterializeAll(NO_DEVICES, events);
    MaterializeAllReflects(events);
    assert Lookup(t.states, key) == RowFor(events, key);
    FirstIsFirst(events, key);
    LatestIsHighest(events, key);
    var first, latest := FirstOf(events, key).value, LatestOf(events, key).value;
    assert first in Members(events) && latest in Members(events);
    assert Compatible(first, latest);
    forall e | e in events && KeyOf(e) == key && e.eventType == Activated && first.eventType == Activated
      ensures e == first
    {
      assert e in Members(events) && Compatible(e, first) && Compatible(first, e);
    }
  }

  // ----- The handlers, statement by statement

  /** The stored events of a subject in the order of the query. */
  ghost predicate InLedgerOrder(rows: seq<DeviceEvent>, stored: set<DeviceEvent>, s: Subject) {
    && (forall e :: e in rows <==> e in stored && e.subject == s)
    && (forall i, j :: 0 <= i < j < |rows| ==> rows[i].deviceLedgerSequence < rows[j].deviceLedgerSequence)
  }

  class DeviceDatabase {
    var identities: map<Subject, IdentityEntry>
    var stored: set<DeviceEvent>
    var states: map<DeviceKey, DeviceState>
    var heads: map<Subject, Head>

    constructor (identities: map<Subject, IdentityEntry>)
      ensures this.identities == identities && Snapshot() == NO_DEVICES
    {
      this.identities := identities;
      stored, states, heads := {}, map[], map[];
    }

    function Snapshot(): DeviceTables
      reads this
    {
      DeviceTables(stored, states, heads)
    }

    /** Two statements; the identity has been read before. */
    method MaterializeDeviceEvent(e: DeviceEvent) returns (ok: bool)
      modifies this`states, this`heads
      ensures ok <==> (e.subject in identities ==> identities[e.subject].genesisHash == e.genesisHash)
      ensures Snapshot() == if ok && e.subject in identities then Materialize(old(Snapshot()), e) else old(Snapshot())
    {
      if e.subject !in identities {
        return true;
      }
      if identities[e.subject].genesisHash != e.genesisHash {
        return false;
      }
      var key, excluded := KeyOf(e), Excluded(e);
      if key !in states {
        states := states[key := excluded];
      } else if states[key].eventSequence < excluded.eventSequence && states[key].state != Revoked {
        var row := states[key];
        states := states[key :=
          DeviceState(row.genesisHash, Coalesce(excluded.authorizationId, row.authorizationId), excluded.state,
                      excluded.eventSequence, Coalesce(excluded.authorizationExpiresAt, row.authorizationExpiresAt),
                      Coalesce(row.activatedAt, excluded.activatedAt), excluded.revokedAt, excluded.revokedBy,
                      excluded.updatedAt, excluded.latestEvent)];
      }
      if e.subject !in heads {
        heads := heads[e.subject := Head(e.genesisHash, e.deviceLedgerSequence, e.acceptedAt)];
      } else if heads[e.subject].maxLedgerSequence < e.deviceLedgerSequence {
        heads := heads[e.subject := Head(heads[e.subject].genesisHash, e.deviceLedgerSequence, e.acceptedAt)];
      }
      return true;
    }

    /** `applyDeviceRegistryEvent`, undisturbed. */
    method ApplyDeviceRegistryEvent(e: DeviceEvent) returns (ok: bool)
      requires HonestStream(stored)
      modifies this
      ensures identities == old(identities)
      // an event of another genesis than the projected identity changes nothing
      ensures e.subject in identities && identities[e.subject].genesisHash != e.genesisHash ==>
                !ok && Snapshot() == old(Snapshot())
      // neither does an event that takes another's operation or ledger sequence
      ensures (exists f :: f in old(stored) && f.subject == e.subject && f != e
                           && (f.operation == e.operation || f.deviceLedgerSequence == e.deviceLedgerSequence)) ==>
                !ok && Snapshot() == old(Snapshot())
      // an honest event is stored, and materialized if its identity is projected
      ensures (e.subject in identities ==> identities[e.subject].genesisHash == e.genesisHash)
              && HonestStream(old(stored) + {e}) ==>
                ok && var t := old(Snapshot()).(stored := old(stored) + {e});
                      Snapshot() == if e.subject in identities then Materialize(t, e) else t
    {
      if e.subject in identities && identities[e.subject].genesisHash != e.genesisHash {
        return false;
      }
      if exists f :: f in stored && f.subject == e.subject {
        var prior :| prior in stored && prior.subject == e.subject;
        assert HonestStream(old(stored) + {e}) ==> Compatible(prior, e);
        if prior.genesisHash != e.genesisHash {
          return false;
        }
      }
      if e !in stored {
        if exists f :: f in stored && f.subject == e.subject
                       && (f.operation == e.operation || f.deviceLedgerSequence == e.deviceLedgerSequence) {
          assert HonestStream(old(stored) + {e}) ==> forall f :: f in stored ==> Compatible(f, e) && Compatible(e, f);
          return false;
        }
      }
      stored := stored + {e};
      ok := MaterializeDeviceEvent(e);
    }

    /** The query of `reconcileDeviceEventsForIdentity`. */
    method StoredInLedgerOrder(s: Subject) returns (rows: seq<DeviceEvent>)
      requires HonestStream(stored)
      ensures InLedgerOrder(rows, stored, s)
    {
      var rest := set e | e in stored && e.subject == s;
      rows := [];
      while rest != {}
        invariant Taken(rows, rest, stored, s)
        decreases rest
      {
        var e := PickLowest(rest);
        TakeLowest(rows, rest, stored, s, e);
        rest := rest - {e};
        rows := rows + [e];
      }
    }

    /** `reconcileDeviceEventsForIdentity`, undisturbed: the stored events of the subject in ledger order. */
    method ReconcileDeviceEventsForIdentity(s: Subject) returns (ok: bool, ghost done: seq<DeviceEvent>)
      requires HonestStream(stored)
      requires s in identities
      requires forall e :: e in stored && e.subject == s ==> e.genesisHash == identities[s].genesisHash
      modifies this`states, this`heads
      ensures ok && InLedgerOrder(done, stored, s)
      ensures Snapshot() == MaterializeAll(old(Snapshot()), done)
    {
      var rows := StoredInLedgerOrder(s);
      done := rows;
      for i := 0 to |rows|
        invariant Snapshot() == MaterializeAll(old(Snapshot()), rows[..i])
      {
        assert rows[i] in rows;
        ok := MaterializeDeviceEvent(rows[i]);
        MaterializeAllSnoc(old(Snapshot()), rows[..i], rows[i]);
        assert rows[..i + 1] == rows[..i] + [rows[i]];
      }
      assert rows[..|rows|] == rows;
      ok := true;
    }
  }

  lemma MaterializeAllSnoc(t: DeviceTables, events: seq<DeviceEvent>, e: DeviceEvent)
    ensures MaterializeAll(t, events + [e]) == Materialize(MaterializeAll(t, events), e)
  {
    assert (events + [e])[..|events|] == events;
  }

  method PickLowest(events: set<DeviceEvent>) returns (lowest: DeviceEvent)
    requires events != {}
    ensures lowest in events && IsLowest(lowest, events)
  {
    ghost var witnessed := LowestOf(events);
    lowest :| lowest in events && IsLowest(lowest, events);
  }

  predicate IsLowest(e: DeviceEvent, events: set<DeviceEvent>) {
    forall f :: f in events ==> e.deviceLedgerSequence <= f.deviceLedgerSequence
  }

  /** `done` is the part of the query's result that precedes `rest`. */
  ghost predicate Taken(done: seq<DeviceEvent>, rest: set<DeviceEvent>, stored: set<DeviceEvent>, s: Subject) {
    && (forall e :: e in done || e in rest <==> e in stored && e.subject == s)
    && (forall e, f :: e in done && f in rest ==> e.deviceLedgerSequence < f.deviceLedgerSequence)
    && (forall i, j :: 0 <= i < j < |done| ==> done[i].deviceLedgerSequence < done[j].deviceLedgerSequence)
  }

  lemma TakeLowest(done: seq<DeviceEvent>, rest: set<DeviceEvent>, stored: set<DeviceEvent>, s: Subject, e: DeviceEvent)
    requires HonestStream(stored) && Taken(done, rest, stored, s) && e in rest && IsLowest(e, rest)
    ensures Taken(done + [e], rest - {e}, stored, s)
  {
    forall f | f in rest - {e}
      ensures e.deviceLedgerSequence < f.deviceLedgerSequence
    {
      assert Compatible(e, f);
    }
  }

  lemma {:induction false} LowestOf(events: set<DeviceEvent>) returns (lowest: DeviceEvent)
    requires events != {}
    ensures lowest in events && IsLowest(lowest, events)
    decreases events
  {
    lowest :| lowest in events;
    var first, rest := lowest, events - {lowest};
    if rest != {} {
      var other := LowestOf(rest);
      if other.deviceLedgerSequence < lowest.deviceLedgerSequence {
        lowest := other;
      }
    }
    forall e | e in events
      ensures lowest.deviceLedgerSequence <= e.deviceLedgerSequence
    {
      assert e == first || e in rest;
    }
  }
}
