/**
 * The identity tables of the D1 projection (workers/projector/src/projection.ts,
 * migrations/d1/0001_initial.sql). The constraints of the schema make each table a map: an identity per subject,
 * a registry event per subject and sequence, and, since only sequence 1 may be parked, a pending event per
 * subject. A batch is atomic; one that violates a constraint changes nothing and the delivery fails.
 */
module IdentityProjection {
  import opened Common
  import opened RegistryEvents

  type Subject = string

  datatype Slot = Slot(subject: Subject, sequence: nat)

  datatype IdentityEntry = IdentityEntry(
    genesisHash: string,
    state: LifecycleState,
    sequence: nat,
    registeredAt: nat,
    revokedAt: Option<nat>,
    updatedAt: nat)

  datatype Projection = Projection(
    identities: map<Subject, IdentityEntry>,
    events: map<Slot, IdentityEvent>,
    pending: map<Subject, IdentityEvent>)

  const EMPTY := Projection(map[], map[], map[])

  function Lookup<K, V>(table: map<K, V>, key: K): Option<V> {
    if key in table then Some(table[key]) else None
  }

  function SlotOf(e: IdentityEvent): Slot {
    Slot(e.subject, e.sequence)
  }

  /** INSERT ... ON CONFLICT(event_id) DO NOTHING; None when another event holds the unique (subject, sequence). */
  function Insert(events: map<Slot, IdentityEvent>, e: IdentityEvent): Option<map<Slot, IdentityEvent>> {
    if SlotOf(e) !in events then Some(events[SlotOf(e) := e])
    else if events[SlotOf(e)] == e then Some(events)
    else None
  }

  function RevokedEntry(row: IdentityEntry, e: IdentityEvent): IdentityEntry {
    row.(state := Revoked, sequence := e.sequence, revokedAt := Some(e.acceptedAt), updatedAt := e.acceptedAt)
  }

  /** The parked revocation that fits the identity row, if any. */
  function Due(p: Projection, s: Subject, row: IdentityEntry): Option<IdentityEvent> {
    var parked := Lookup(p.pending, s);
    if parked.Some? && parked.value.genesisHash == row.genesisHash && parked.value.sequence == row.sequence + 1
    then parked else None
  }

  /** The last three statements of `applyRegistration`: the parked revocation, if due, is applied and recorded. */
  function Drain(p: Projection, s: Subject): Option<Projection>
    requires s in p.identities
  {
    var row := p.identities[s];
    var due := if row.state == Active then Due(p, s, row) else None;
    var drained := if due.Some? then RevokedEntry(row, due.value) else row;
    var parked := Lookup(p.pending, s);
    var reached := parked.Some? && parked.value.genesisHash == drained.genesisHash
                   && drained.sequence >= parked.value.sequence;
    match if reached then Insert(p.events, parked.value) else Some(p.events)
    case None => None
    case Some(events) =>
      var pending :=
        if parked.Some? && Lookup(events, SlotOf(parked.value)) == parked then p.pending - {s} else p.pending;
      Some(Projection(p.identities[s := drained], events, pending))
  }

  /** The batch of `applyRegistration`. */
  function RegistrationBatch(p: Projection, e: IdentityEvent): Option<Projection> {
    var row :=
      Lookup(p.identities, e.subject).GetOr(IdentityEntry(e.genesisHash, Active, 0, e.acceptedAt, None, e.acceptedAt));
    match if row.genesisHash == e.genesisHash then Insert(p.events, e) else Some(p.events)
    case None => None
    case Some(recorded) => Drain(Projection(p.identities[e.subject := row], recorded, p.pending), e.subject)
  }

  /** The last statement of `applyRevocation`: what is recorded is no longer parked. */
  function Unpark(p: Projection, e: IdentityEvent): Projection {
    if Lookup(p.pending, e.subject) == Some(e) && Lookup(p.events, SlotOf(e)) == Some(e)
    then p.(pending := p.pending - {e.subject}) else p
  }

  /** The batch of `applyRevocation`. */
  function RevocationBatch(p: Projection, e: IdentityEvent): Option<Projection> {
    match Lookup(p.identities, e.subject)
    case None =>
      (match Lookup(p.pending, e.subject)
       case None => Some(Unpark(p.(pending := p.pending[e.subject := e]), e))
       case Some(parked) => if parked == e then Some(Unpark(p, e)) else None)
    case Some(row) =>
      var matches := row.genesisHash == e.genesisHash;
      var updated :=
        if matches && row.state == Active && row.sequence + 1 == e.sequence then RevokedEntry(row, e) else row;
      (match if matches && updated.sequence >= e.sequence then Insert(p.events, e) else Some(p.events)
       case None => None
       case Some(events) => Some(Unpark(Projection(p.identities[e.subject := updated], events, p.pending), e)))
  }

  /** `assertIdentityGenesis` */
  predicate GenesisMatches(p: Projection, e: IdentityEvent) {
    e.subject in p.identities ==> p.identities[e.subject].genesisHash == e.genesisHash
  }

  function Batch(p: Projection, e: IdentityEvent): Option<Projection> {
    if e.eventType == Registered then RegistrationBatch(p, e) else RevocationBatch(p, e)
  }

  /** `applyRegistryEvent` without its device part; None when it throws. */
  function Deliver(p: Projection, e: IdentityEvent): Option<Projection> {
    if GenesisMatches(p, e) then Batch(p, e) else None
  }

  function DeliverAll(p: Projection, events: seq<IdentityEvent>): Option<Projection>
    decreases |events|
  {
    if events == [] then Some(p)
    else
      match Deliver(p, events[0])
      case None => None
      case Some(p') => DeliverAll(p', events[1..])
  }

  // ----- The closed form

  /** What registry objects emit: per subject at most one registration and one revocation, of one genesis. */
  ghost predicate Consistent(delivered: set<IdentityEvent>) {
    && (forall e :: e in delivered ==> IdentityEventValid(e))
    && (forall e, f :: e in delivered && f in delivered && e.subject == f.subject ==>
          e.genesisHash == f.genesisHash && (e.eventType == f.eventType ==> e == f))
  }

  ghost function Find(delivered: set<IdentityEvent>, s: Subject, t: IdentityEventType): (found: Option<IdentityEvent>)
    ensures found.Some? ==> found.value in delivered && found.value.subject == s && found.value.eventType == t
    ensures found.None? ==> forall e :: e in delivered && e.subject == s ==> e.eventType != t
  {
    if exists e :: e in delivered && e.subject == s && e.eventType == t then
      var e :| e in delivered && e.subject == s && e.eventType == t; Some(e)
    else None
  }

  function EntryFor(registration: IdentityEvent, revocation: Option<IdentityEvent>): IdentityEntry {
    match revocation
    case None =>
      IdentityEntry(registration.genesisHash, Active, 0, registration.acceptedAt, None, registration.acceptedAt)
    case Some(e) =>
      IdentityEntry(registration.genesisHash, Revoked, 1, registration.acceptedAt, Some(e.acceptedAt), e.acceptedAt)
  }

  ghost function IdentityIn(delivered: set<IdentityEvent>, s: Subject): Option<IdentityEntry> {
    match Find(delivered, s, Registered)
    case None => None
    case Some(registration) => Some(EntryFor(registration, Find(delivered, s, IdentityRevoked)))
  }

  ghost function EventIn(delivered: set<IdentityEvent>, slot: Slot): Option<IdentityEvent> {
    if Find(delivered, slot.subject, Registered).None? || slot.sequence > 1 then None
    else Find(delivered, slot.subject, if slot.sequence == 0 then Registered else IdentityRevoked)
  }

  /** Exactly the revocations whose registration has not arrived. */
  ghost function PendingIn(delivered: set<IdentityEvent>, s: Subject): Option<IdentityEvent> {
    if Find(delivered, s, Registered).Some? then None else Find(delivered, s, IdentityRevoked)
  }

  ghost predicate Represents(p: Projection, delivered: set<IdentityEvent>) {
    forall s :: RepresentsAt(p, delivered, s)
  }

  ghost predicate RepresentsAt(p: Projection, delivered: set<IdentityEvent>, s: Subject) {
    && Lookup(p.identities, s) == IdentityIn(delivered, s)
    && (forall n: nat :: Lookup(p.events, Slot(s, n)) == EventIn(delivered, Slot(s, n)))
    && Lookup(p.pending, s) == PendingIn(delivered, s)
  }

  lemma FindAfter(delivered: set<IdentityEvent>, e: IdentityEvent, s: Subject, t: IdentityEventType)
    requires Consistent(delivered + {e})
    ensures Find(delivered + {e}, s, t) == if e.subject == s && e.eventType == t then Some(e) else Find(delivered, s, t)
  {
  }

  lemma ClosedFormAfter(delivered: set<IdentityEvent>, e: IdentityEvent, s: Subject)
    requires Consistent(delivered + {e}) && s != e.subject
    ensures IdentityIn(delivered + {e}, s) == IdentityIn(delivered, s)
    ensures forall n: nat :: EventIn(delivered + {e}, Slot(s, n)) == EventIn(delivered, Slot(s, n))
    ensures PendingIn(delivered + {e}, s) == PendingIn(delivered, s)
  {
    FindAfter(delivered, e, s, Registered);
    FindAfter(delivered, e, s, IdentityRevoked);
  }

  /** A batch touches the rows of its own subject only. */
  lemma BatchIsLocal(p: Projection, e: IdentityEvent, s: Subject)
    requires s != e.subject && Batch(p, e).Some?
    requires Lookup(p.pending, e.subject).Some? ==> p.pending[e.subject].subject == e.subject
    ensures var p' := Batch(p, e).value;
            && Lookup(p'.identities, s) == Lookup(p.identities, s) && Lookup(p'.pending, s) == Lookup(p.pending, s)
            && forall n: nat :: Lookup(p'.events, Slot(s, n)) == Lookup(p.events, Slot(s, n))
  {
    if e.eventType == Registered {
      RegistrationIsLocal(p, e, s);
    } else {
      RevocationIsLocal(p, e, s);
    }
  }

  lemma RegistrationIsLocal(p: Projection, e: IdentityEvent, s: Subject)
    requires s != e.subject && RegistrationBatch(p, e).Some?
    requires Lookup(p.pending, e.subject).Some? ==> p.pending[e.subject].subject == e.subject
    ensures var p' := RegistrationBatch(p, e).value;
            && Lookup(p'.identities, s) == Lookup(p.identities, s) && Lookup(p'.pending, s) == Lookup(p.pending, s)
            && forall n: nat :: Lookup(p'.events, Slot(s, n)) == Lookup(p.events, Slot(s, n))
  {
  }

  lemma RevocationIsLocal(p: Projection, e: IdentityEvent, s: Subject)
    requires s != e.subject && RevocationBatch(p, e).Some?
    ensures var p' := RevocationBatch(p, e).value;
            && Lookup(p'.identities, s) == Lookup(p.identities, s) && Lookup(p'.pending, s) == Lookup(p.pending, s)
            && forall n: nat :: Lookup(p'.events, Slot(s, n)) == Lookup(p.events, Slot(s, n))
  {
  }

  lemma RegistrationRepresents(p: Projection, delivered: set<IdentityEvent>, e: IdentityEvent)
    requires Consistent(delivered + {e}) && e.eventType == Registered && RepresentsAt(p, delivered, e.subject)
    ensures GenesisMatches(p, e) && Batch(p, e).Some? && RepresentsAt(Batch(p, e).value, delivered + {e}, e.subject)
  {
    FindAfter(delivered, e, e.subject, Registered);
    FindAfter(delivered, e, e.subject, IdentityRevoked);
    assert Lookup(p.events, Slot(e.subject, 0)) == EventIn(delivered, Slot(e.subject, 0));
    assert Lookup(p.events, Slot(e.subject, 1)) == EventIn(delivered, Slot(e.subject, 1));
  }

  lemma RevocationRepresents(p: Projection, delivered: set<IdentityEvent>, e: IdentityEvent)
    requires Consistent(delivered + {e}) && e.eventType == IdentityRevoked && RepresentsAt(p, delivered, e.subject)
    ensures GenesisMatches(p, e) && Batch(p, e).Some? && RepresentsAt(Batch(p, e).value, delivered + {e}, e.subject)
  {
    FindAfter(delivered, e, e.subject, Registered);
    FindAfter(delivered, e, e.subject, IdentityRevoked);
    assert Lookup(p.events, Slot(e.subject, 1)) == EventIn(delivered, Slot(e.subject, 1));
  }

  lemma DeliverRepresents(p: Projection, delivered: set<IdentityEvent>, e: IdentityEvent)
    requires Represents(p, delivered) && Consistent(delivered + {e})
    ensures Deliver(p, e).Some? && Represents(Deliver(p, e).value, delivered + {e})
  {
    assert RepresentsAt(p, delivered, e.subject);
    if e.eventType == Registered {
      RegistrationRepresents(p, delivered, e);
    } else {
      RevocationRepresents(p, delivered, e);
    }
    forall s | s != e.subject
      ensures RepresentsAt(Batch(p, e).value, delivered + {e}, s)
    {
      assert RepresentsAt(p, delivered, s);
      ClosedFormAfter(delivered, e, s);
      BatchIsLocal(p, e, s);
    }
  }

  ghost function SetOf(events: seq<IdentityEvent>): set<IdentityEvent> {
    set e | e in events
  }

  lemma {:induction false} DeliverAllRepresents(p: Projection, delivered: set<IdentityEvent>,
                                                events: seq<IdentityEvent>)
    requires Represents(p, delivered) && Consistent(delivered + SetOf(events))
    ensures DeliverAll(p, events).Some? && Represents(DeliverAll(p, events).value, delivered + SetOf(events))
    decreases |events|
  {
    if events == [] {
      assert delivered + SetOf(events) == delivered;
    } else {
      assert events[0] in SetOf(events);
      assert delivered + {events[0]} <= delivered + SetOf(events);
      assert delivered + SetOf(events) == (delivered + {events[0]}) + SetOf(events[1..]);
      DeliverRepresents(p, delivered, events[0]);
      DeliverAllRepresents(Deliver(p, events[0]).value, delivered + {events[0]}, events[1..]);
    }
  }

  /**
   * Whatever registrations and revocations are delivered, of any number of subjects, in any order and any number
   * of times: no delivery fails and the three tables are the closed form of the set delivered.
   */
  lemma {:induction false} ProjectionIsClosedForm(events: seq<IdentityEvent>)
    requires Consistent(SetOf(events))
    ensures DeliverAll(EMPTY, events).Some? && Represents(DeliverAll(EMPTY, events).value, SetOf(events))
  {
    assert {} + SetOf(events) == SetOf(events);
    DeliverAllRepresents(EMPTY, {}, events);
  }

  /** The slot of an event is taken by another one. */
  predicate SlotTaken(p: Projection, e: IdentityEvent) {
    SlotOf(e) in p.events && p.events[SlotOf(e)] != e
  }

  predicate OtherParked(p: Projection, e: IdentityEvent) {
    e.subject !in p.identities && e.subject in p.pending && p.pending[e.subject] != e
  }

  predicate AlreadyReached(p: Projection, e: IdentityEvent) {
    e.subject in p.identities && p.identities[e.subject].sequence >= e.sequence
  }

  /**
   * A revocation that is delivered to a known identity, whatever the tables hold: it takes effect on an active row of
   * its genesis and of the sequence before it, is recorded once the row has reached it, and is then not parked.
   */
  lemma RevocationTakesEffect(p: Projection, e: IdentityEvent)
    requires e.subject in p.identities && RevocationBatch(p, e).Some?
    ensures var q, row := RevocationBatch(p, e).value, p.identities[e.subject];
            var fits := row.genesisHash == e.genesisHash && row.state == Active && row.sequence + 1 == e.sequence;
            var reached := row.genesisHash == e.genesisHash && (fits || row.sequence >= e.sequence);
            && q.identities == p.identities[e.subject := if fits then
                 IdentityEntry(row.genesisHash, Revoked, e.sequence, row.registeredAt, Some(e.acceptedAt), e.acceptedAt)
                 else row]
            && q.events == (if reached then p.events[Slot(e.subject, e.sequence) := e] else p.events)
            && q.pending == if e.subject in p.pending && p.pending[e.subject] == e
                               && SlotOf(e) in q.events && q.events[SlotOf(e)] == e then p.pending - {e.subject}
                            else p.pending
  {
  }

  /** A delivery that contradicts what the tables hold fails, and by that changes nothing. */
  lemma ConflictsFail(p: Projection, e: IdentityEvent)
    ensures e.subject in p.identities && p.identities[e.subject].genesisHash != e.genesisHash ==> Deliver(p, e).None?
    ensures e.eventType == Registered && SlotTaken(p, e) ==> Deliver(p, e).None?
    ensures e.eventType == IdentityRevoked && OtherParked(p, e) ==> Deliver(p, e).None?
    ensures e.eventType == IdentityRevoked && AlreadyReached(p, e) && SlotTaken(p, e) ==> Deliver(p, e).None?
  {
  }

  lemma RepresentationUnique(p: Projection, q: Projection, delivered: set<IdentityEvent>)
    requires Represents(p, delivered) && Represents(q, delivered)
    ensures p == q
  {
    forall s
      ensures Lookup(p.identities, s) == Lookup(q.identities, s) && Lookup(p.pending, s) == Lookup(q.pending, s)
    {
      assert RepresentsAt(p, delivered, s) && RepresentsAt(q, delivered, s);
    }
    forall slot: Slot
      ensures Lookup(p.events, slot) == Lookup(q.events, slot)
    {
      assert RepresentsAt(p, delivered, slot.subject) && RepresentsAt(q, delivered, slot.subject);
      assert slot == Slot(slot.subject, slot.sequence);
    }
    SameLookups(p.identities, q.identities);
    SameLookups(p.events, q.events);
    SameLookups(p.pending, q.pending);
  }

  lemma SameLookups<K(!new), V>(a: map<K, V>, b: map<K, V>)
    requires forall key :: Lookup(a, key) == Lookup(b, key)
    ensures a == b
  {
    forall key
      ensures key in a <==> key in b
      ensures key in a ==> a[key] == b[key]
    {
      assert Lookup(a, key) == Lookup(b, key);
    }
  }

  /** Order and duplicates do not matter. */
  lemma {:induction false} SameSetSameTables(first: seq<IdentityEvent>, second: seq<IdentityEvent>)
    requires Consistent(SetOf(first)) && SetOf(first) == SetOf(second)
    ensures DeliverAll(EMPTY, first) == DeliverAll(EMPTY, second)
  {
    ProjectionIsClosedForm(first);
    ProjectionIsClosedForm(second);
    RepresentationUnique(DeliverAll(EMPTY, first).value, DeliverAll(EMPTY, second).value, SetOf(first));
  }

  // ----- The handlers, statement by statement

  class Database {
    var identities: map<Subject, IdentityEntry>
    var events: map<Slot, IdentityEvent>
    var pending: map<Subject, IdentityEvent>

    constructor ()
      ensures Snapshot() == EMPTY
    {
      identities, events, pending := map[], map[], map[];
    }

    function Snapshot(): Projection
      reads this
    {
      Projection(identities, events, pending)
    }

    method Rollback(p: Projection)
      modifies this
      ensures Snapshot() == p
    {
      identities, events, pending := p.identities, p.events, p.pending;
    }

    method InsertEvent(e: IdentityEvent) returns (ok: bool)
      modifies this`events
      ensures ok <==> Insert(old(events), e).Some?
      ensures events == if ok then Insert(old(events), e).value else old(events)
    {
      if SlotOf(e) in events {
        return events[SlotOf(e)] == e;
      }
      events := events[SlotOf(e) := e];
      return true;
    }

    method ApplyRegistration(e: IdentityEvent) returns (ok: bool)
      requires e.eventType == Registered
      modifies this
      ensures ok <==> Deliver(old(Snapshot()), e).Some?
      ensures Snapshot() == if ok then Deliver(old(Snapshot()), e).value else old(Snapshot())
    {
      if e.subject in identities && identities[e.subject].genesisHash != e.genesisHash {
        return false;
      }
      var before := Snapshot();
      if e.subject !in identities {
        identities :=
          identities[e.subject := IdentityEntry(e.genesisHash, Active, 0, e.acceptedAt, None, e.acceptedAt)];
      }
      ok := InsertEvent(e);
      if ok {
        ok := DrainPending(e.subject);
      }
      if !ok {
        Rollback(before);
      }
    }

    method DrainPending(s: Subject) returns (ok: bool)
      requires s in identities
      modifies this
      ensures ok <==> Drain(old(Snapshot()), s).Some?
      ensures ok ==> Snapshot() == Drain(old(Snapshot()), s).value
    {
      ok := true;
      var row := identities[s];
      if row.state == Active && s in pending && pending[s].genesisHash == row.genesisHash
         && pending[s].sequence == row.sequence + 1 {
        identities := identities[s := RevokedEntry(row, pending[s])];
      }
      row := identities[s];
      if s in pending && pending[s].genesisHash == row.genesisHash && row.sequence >= pending[s].sequence {
        ok := InsertEvent(pending[s]);
      }
      if s in pending && SlotOf(pending[s]) in events && events[SlotOf(pending[s])] == pending[s] {
        pending := pending - {s};
      }
    }

    method ApplyRevocation(e: IdentityEvent) returns (ok: bool)
      requires e.eventType == IdentityRevoked
      modifies this
      ensures ok <==> Deliver(old(Snapshot()), e).Some?
      ensures Snapshot() == if ok then Deliver(old(Snapshot()), e).value else old(Snapshot())
    {
      if e.subject in identities && identities[e.subject].genesisHash != e.genesisHash {
        return false;
      }
      var before := Snapshot();
      ok := true;
      if e.subject in identities {
        var row := identities[e.subject];
        if row.genesisHash == e.genesisHash && row.state == Active && row.sequence + 1 == e.sequence {
          identities := identities[e.subject := RevokedEntry(row, e)];
        }
        if row.genesisHash == e.genesisHash && identities[e.subject].sequence >= e.sequence {
          ok := InsertEvent(e);
        }
      } else if e.subject !in pending {
        pending := pending[e.subject := e];
      } else {
        ok := pending[e.subject] == e;
      }
      if e.subject in pending && pending[e.subject] == e && SlotOf(e) in events && events[SlotOf(e)] == e {
        pending := pending - {e.subject};
      }
      if !ok {
        Rollback(before);
      }
    }
  }
}
