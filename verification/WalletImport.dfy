/**
 * Crash-safe import of a device key (packages/wallet-core/src/wallet-core.ts) as a transition system: any
 * number of importers, recovery passes and activations in different tabs share the identity store and the
 * key vault, one step per IndexedDB transaction. Any transaction may abort, any of them may commit and still
 * be reported as failed, and any process may die at any point.
 */
module WalletImport {
  import opened Common
  import opened KeyVault
  import opened IdentityStore

  const DEVICE_IMPORT_RECOVERY_LEASE_SECONDS: nat := 300

  // ----- Mutations passed to `update`

  predicate HasDeviceAt(record: Record, state: DeviceLocalState, ref: Option<KeyRef>) {
    record.deviceV2.Some? && record.deviceV2.value.localState == state
    && record.deviceV2.value.signingPrivateKeyRef == ref
  }

  function WithState(record: Record, state: DeviceLocalState, startedAt: Option<nat>): Record
    requires record.deviceV2.Some?
  {
    record.(deviceV2 := Some(record.deviceV2.value.(localState := state, importStartedAt := startedAt)))
  }

  /** The importer's last update. */
  function Finalize(ref: KeyRef): Mutation {
    (record: Record) =>
      if record.deviceV2.None? || record.deviceV2.value.signingPrivateKeyRef != Some(ref) then None
      else if record.deviceV2.value.localState == PendingActivation then Some(record)
      else if record.deviceV2.value.localState != PendingImport then None
      else Some(WithState(record, PendingActivation, None))
  }

  /** Recovery of an import whose key is present. */
  function Promote(ref: KeyRef): Mutation {
    (record: Record) =>
      if HasDeviceAt(record, PendingImport, Some(ref)) then Some(WithState(record, PendingActivation, None))
      else Some(record)
  }

  /** Claiming a still pending reservation for cleanup. */
  function Claim(ref: Option<KeyRef>): Mutation {
    (record: Record) =>
      if HasDeviceAt(record, PendingImport, ref) then Some(WithState(record, ImportCleanupPending, Some(0)))
      else Some(record)
  }

  /** Recording the activation receipt. */
  function Activate(record: Record): Option<Record> {
    if record.deviceV2.None? || record.deviceV2.value.localState == Revoked then Some(record)
    else Some(WithState(record, Active, record.deviceV2.value.importStartedAt))
  }

  // ----- Processes

  datatype Shared = Shared(records: Records, vault: VaultRecords)

  /** How a transaction ends for the process that issued it. */
  datatype Outcome = Committed | CommittedButReportedFailed | Aborted

  datatype Import = Import(id: LocalId, ref: KeyRef, subject: string, deviceId: string, startedAt: nat)

  function Reservation(imp: Import): Record {
    Record(imp.subject, Some(Device(imp.deviceId, Some(imp.ref), PendingImport, Some(imp.startedAt))))
  }

  datatype ImporterPc =
    | AddingKey | Finalizing | Succeeded
    | CatchReading | CatchClaiming | CatchCancelling | CatchDeleting | Failed

  datatype Snapshot = Snapshot(id: LocalId, record: Record)

  datatype RecoveryPc =
    | Next
    | CheckingKey(id: LocalId, ref: KeyRef)
    | Promoting(id: LocalId, ref: KeyRef)
    | Claiming(id: LocalId, cref: Option<KeyRef>)
    | Cancelling(id: LocalId, ref: KeyRef)
    | Deleting(id: LocalId)
    | Finished
    | Thrown

  datatype ActivatorPc = Reading | Recording | ActivationDone | ActivationFailed

  datatype Process =
    | Importer(imp: Import, ipc: ImporterPc)
    | Recovery(now: nat, todo: seq<Snapshot>, rpc: RecoveryPc)
    | Activator(id: LocalId, apc: ActivatorPc)

  /** Everything after the reservation of `#importDeviceTransfer`, with `#claimImportedKeyCleanup` inlined. */
  function ImporterStep(s: Shared, imp: Import, pc: ImporterPc, outcome: Outcome): (Shared, ImporterPc) {
    var Import(id, ref, _, _, _) := imp;
    match pc
    case AddingKey =>
      if outcome.Aborted? then (s, CatchReading)
      else
        (s.(vault := Added(s.vault, ref, DeviceSigningKey)),
         if outcome.Committed? && ref !in s.vault then Finalizing else CatchReading)
    case Finalizing =>
      if outcome.Aborted? then (s, CatchReading)
      else
        (s.(records := Updated(s.records, id, Finalize(ref))),
         if outcome.Committed? && id in s.records && Finalize(ref)(s.records[id]).Some? then Succeeded
         else CatchReading)
    case CatchReading =>
      (s,
       if !outcome.Committed? then Failed
       else if id !in s.records || HasDeviceAt(s.records[id], ImportCleanupPending, Some(ref)) then CatchCancelling
       else if HasDeviceAt(s.records[id], PendingImport, Some(ref)) then CatchClaiming
       else Failed)
    case CatchClaiming =>
      if outcome.Aborted? then (s, Failed)
      else
        var records := Updated(s.records, id, Claim(Some(ref)));
        (s.(records := records),
         if outcome.Committed? && (id !in records || HasDeviceAt(records[id], ImportCleanupPending, Some(ref)))
         then CatchCancelling else Failed)
    case CatchCancelling =>
      if outcome.Aborted? then (s, Failed)
      else
        (s.(vault := Cancelled(s.vault, ref)),
         if outcome.Committed? && CanCancel(s.vault, ref) then CatchDeleting else Failed)
    case CatchDeleting =>
      (if outcome.Aborted? then s else s.(records := s.records - {id}), Failed)
    case _ => (s, pc)
  }

  /** What a pass does with one listed record, from its snapshot alone. */
  function Triage(now: nat, item: Snapshot): RecoveryPc {
    if item.record.deviceV2.None? then Next
    else
      var device := item.record.deviceV2.value;
      var ref := device.signingPrivateKeyRef;
      if device.localState == ImportCleanupPending then
        if ref.Some? then Cancelling(item.id, ref.value) else Deleting(item.id)
      else if device.localState != PendingImport then Next
      else if now < device.importStartedAt.GetOr(0) + DEVICE_IMPORT_RECOVERY_LEASE_SECONDS then Next
      else if ref.Some? then CheckingKey(item.id, ref.value)
      else Claiming(item.id, None)
  }

  /** The loop of `#recoverPendingDeviceImports` after its `list`. */
  function RecoveryStep(s: Shared, now: nat, todo: seq<Snapshot>, pc: RecoveryPc, outcome: Outcome)
    : (Shared, seq<Snapshot>, RecoveryPc)
  {
    match pc
    case Next =>
      if todo == [] then (s, todo, Finished) else (s, todo[1..], Triage(now, todo[0]))
    case CheckingKey(id, ref) =>
      (s, todo,
       if !outcome.Committed? then Thrown
       else if HoldsKey(s.vault, ref) then Promoting(id, ref) else Claiming(id, Some(ref)))
    case Promoting(id, ref) =>
      if outcome.Aborted? then (s, todo, Thrown)
      else
        (s.(records := Updated(s.records, id, Promote(ref))), todo,
         if outcome.Committed? && id in s.records then Next else Thrown)
    case Claiming(id, ref) =>
      if outcome.Aborted? then (s, todo, Thrown)
      else
        var records := Updated(s.records, id, Claim(ref));
        (s.(records := records), todo,
         if !outcome.Committed? || id !in records then Thrown
         else if !HasDeviceAt(records[id], ImportCleanupPending, ref) then Next
         else if ref.Some? then Cancelling(id, ref.value)
         else Deleting(id))
    case Cancelling(id, ref) =>
      if outcome.Aborted? then (s, todo, Thrown)
      else
        (s.(vault := Cancelled(s.vault, ref)), todo,
         if outcome.Committed? && CanCancel(s.vault, ref) then Deleting(id) else Thrown)
    case Deleting(id) =>
      if outcome.Aborted? then (s, todo, Thrown)
      else (s.(records := s.records - {id}), todo, if outcome.Committed? then Next else Thrown)
    case _ => (s, todo, pc)
  }

  /** `activateDevice`: read the record, ask the registry, record the receipt. */
  function ActivatorStep(s: Shared, id: LocalId, pc: ActivatorPc, outcome: Outcome): (Shared, ActivatorPc) {
    match pc
    case Reading =>
      (s,
       if outcome.Committed? && id in s.records && s.records[id].deviceV2.Some?
          && s.records[id].deviceV2.value.localState in {PendingActivation, Active}
          && s.records[id].deviceV2.value.signingPrivateKeyRef.Some?
       then Recording else ActivationFailed)
    case Recording =>
      if outcome.Aborted? then (s, ActivationFailed)
      else
        (s.(records := Updated(s.records, id, Activate)),
         if outcome.Committed? && id in s.records then ActivationDone else ActivationFailed)
    case _ => (s, pc)
  }

  // ----- The whole wallet

  datatype World = World(shared: Shared, processes: map<nat, Process>, reserved: map<LocalId, KeyRef>)

  const INITIAL := World(Shared(map[], map[]), map[], map[])

  datatype Action =
    | PutRootIdentity(id: LocalId, subject: string)
    | PutOtherKey(ref: KeyRef, entry: VaultRecord)
    | StartImport(pid: nat, imp: Import, outcome: Outcome)
    | StartRecovery(pid: nat, now: nat, order: seq<LocalId>)
    | StartActivation(pid: nat, id: LocalId)
    | Step(pid: nat, outcome: Outcome)
    | Crash(pid: nat)

  function Listing(order: seq<LocalId>, records: Records): seq<Snapshot>
    requires forall id :: id in order ==> id in records
  {
    seq(|order|, i requires 0 <= i < |order| => Snapshot(order[i], records[order[i]]))
  }

  /** References and local ids are fresh random values: they were never used before. */
  ghost predicate Enabled(w: World, action: Action) {
    match action
    case PutRootIdentity(id, _) => id !in w.shared.records && id !in w.reserved
    case PutOtherKey(ref, entry) => ref !in w.shared.vault && ref !in w.reserved.Values
    case StartImport(pid, imp, _) =>
      pid !in w.processes && imp.id !in w.shared.records && imp.id !in w.reserved
      && imp.ref !in w.shared.vault && imp.ref !in w.reserved.Values
    case StartRecovery(pid, _, order) => pid !in w.processes && Lists(order, w.shared.records)
    case StartActivation(pid, _) => pid !in w.processes
    case Step(pid, _) => pid in w.processes
    case Crash(pid) => pid in w.processes
  }

  ghost function Apply(w: World, action: Action): World {
    if !Enabled(w, action) then w
    else
      match action
      case PutRootIdentity(id, subject) =>
        w.(shared := w.shared.(records := w.shared.records[id := Record(subject, None)]))
      case PutOtherKey(ref, entry) =>
        w.(shared := w.shared.(vault := w.shared.vault[ref := entry]))
      case StartImport(pid, imp, outcome) =>
        if outcome.Aborted? || !CanReserve(w.shared.records, imp.id, Reservation(imp)) then w
        else
          w.(shared := w.shared.(records := Reserved(w.shared.records, imp.id, Reservation(imp))),
             reserved := w.reserved[imp.id := imp.ref],
             processes := if outcome.Committed? then w.processes[pid := Importer(imp, AddingKey)] else w.processes)
      case StartRecovery(pid, now, order) =>
        w.(processes := w.processes[pid := Recovery(now, Listing(order, w.shared.records), Next)])
      case StartActivation(pid, id) =>
        w.(processes := w.processes[pid := Activator(id, Reading)])
      case Step(pid, outcome) =>
        (match w.processes[pid]
         case Importer(imp, pc) =>
           var (s, pc') := ImporterStep(w.shared, imp, pc, outcome);
           w.(shared := s, processes := w.processes[pid := Importer(imp, pc')])
         case Recovery(now, todo, pc) =>
           var (s, todo', pc') := RecoveryStep(w.shared, now, todo, pc, outcome);
           w.(shared := s, processes := w.processes[pid := Recovery(now, todo', pc')])
         case Activator(id, pc) =>
           var (s, pc') := ActivatorStep(w.shared, id, pc, outcome);
           w.(shared := s, processes := w.processes[pid := Activator(id, pc')]))
      case Crash(pid) =>
        w.(processes := w.processes - {pid})
  }

  /** A run: any sequence of actions; one that is not enabled does nothing. */
  ghost function Run(w: World, actions: seq<Action>): World
    decreases |actions|
  {
    if actions == [] then w else Run(Apply(w, actions[0]), actions[1..])
  }

  // ----- Phases of one import

  datatype Phase = Gone | Pending | CleaningUp | Usable

  function PhaseOf(s: Shared, id: LocalId): Phase {
    if id !in s.records || s.records[id].deviceV2.None? then Gone
    else match s.records[id].deviceV2.value.localState
      case PendingImport => Pending
      case ImportCleanupPending => CleaningUp
      case _ => Usable
  }

  /** What holds of a reserved import's record and reference at every moment. */
  predicate ImportOk(s: Shared, id: LocalId, ref: KeyRef) {
    && (id in s.records ==> s.records[id].deviceV2.Some?
                            && s.records[id].deviceV2.value.signingPrivateKeyRef == Some(ref)
                            && s.records[id].deviceV2.value.localState != Revoked)
    && CanCancel(s.vault, ref)
    && match PhaseOf(s, id)
       case Gone => IsCancelled(s.vault, ref)
       case Pending => !IsCancelled(s.vault, ref)
       case CleaningUp => true
       case Usable => ref in s.vault && s.vault[ref] == DeviceSigningKey
  }

  ghost predicate SharedOk(s: Shared, reserved: map<LocalId, KeyRef>) {
    && (forall id :: id in reserved ==> ImportOk(s, id, reserved[id]))
    && (forall id :: id in s.records && s.records[id].deviceV2.Some? ==> id in reserved)
    && (forall a, b :: a in reserved && b in reserved && a != b ==> reserved[a] != reserved[b])
    && (forall a, b ::
          a in s.records && b in s.records && a != b && s.records[a].deviceV2.Some? && s.records[b].deviceV2.Some? ==>
            s.records[a].deviceV2.value.deviceId != s.records[b].deviceV2.value.deviceId)
  }

  predicate Owned(w: World, id: LocalId, ref: KeyRef) {
    id in w.reserved && w.reserved[id] == ref
  }

  predicate Abandoned(w: World, id: LocalId) {
    PhaseOf(w.shared, id) in {Gone, CleaningUp}
  }

  predicate SnapshotOk(w: World, item: Snapshot) {
    item.record.deviceV2.Some? ==>
      var device := item.record.deviceV2.value;
      device.signingPrivateKeyRef.Some? && Owned(w, item.id, device.signingPrivateKeyRef.value)
      && (device.localState == ImportCleanupPending ==> Abandoned(w, item.id))
  }

  /** What a process may rely on between two of its transactions, whatever the others do. */
  ghost predicate ProcessOk(w: World, p: Process) {
    match p
    case Importer(imp, pc) =>
      && Owned(w, imp.id, imp.ref)
      && (pc == Finalizing ==> imp.ref in w.shared.vault)
      && (pc in {CatchCancelling, CatchDeleting} ==> Abandoned(w, imp.id))
      && (pc == CatchDeleting ==> IsCancelled(w.shared.vault, imp.ref))
    case Recovery(now, todo, pc) =>
      && (forall item :: item in todo ==> SnapshotOk(w, item))
      && (match pc
          case CheckingKey(id, ref) => Owned(w, id, ref)
          case Promoting(id, ref) => Owned(w, id, ref) && ref in w.shared.vault
          case Claiming(id, ref) => ref.Some? && Owned(w, id, ref.value)
          case Cancelling(id, ref) => Owned(w, id, ref) && Abandoned(w, id)
          case Deleting(id) => id in w.reserved && Abandoned(w, id) && IsCancelled(w.shared.vault, w.reserved[id])
          case _ => true)
    case Activator(id, pc) =>
      pc == Recording ==> id in w.reserved && PhaseOf(w.shared, id) == Usable
  }

  ghost predicate Inv(w: World) {
    SharedOk(w.shared, w.reserved)
    && forall pid :: pid in w.processes ==> ProcessOk(w, w.processes[pid])
  }

  /** How the record and the reference of one import may change. */
  predicate EvolvesAt(s: Shared, s': Shared, id: LocalId, ref: KeyRef) {
    && (PhaseOf(s, id) == Usable ==> PhaseOf(s', id) == Usable)
    && (PhaseOf(s, id) in {Gone, CleaningUp} ==> PhaseOf(s', id) in {Gone, CleaningUp})
    && (PhaseOf(s, id) == Gone ==> PhaseOf(s', id) == Gone)
    && (ref in s.vault ==> ref in s'.vault)
    && (IsCancelled(s.vault, ref) ==> IsCancelled(s'.vault, ref))
  }

  /** What no step ever takes back. */
  ghost predicate Evolves(w: World, w': World) {
    forall id :: id in w.reserved ==>
      id in w'.reserved && w'.reserved[id] == w.reserved[id] && EvolvesAt(w.shared, w'.shared, id, w.reserved[id])
  }

  /** The states differ at most in one record and one vault entry. */
  ghost predicate DiffersOnlyAt(s: Shared, s': Shared, id: LocalId, ref: KeyRef) {
    && (forall other :: other != id ==> (other in s.records <==> other in s'.records))
    && (forall other :: other != id && other in s.records ==> s'.records[other] == s.records[other])
    && (forall other :: other != ref ==> (other in s.vault <==> other in s'.vault))
    && (forall other :: other != ref && other in s.vault ==> s'.vault[other] == s.vault[other])
    && (id in s'.records ==> id in s.records && SameDevice(s.records[id], s'.records[id]))
  }

  predicate SameDevice(a: Record, b: Record) {
    a.deviceV2.Some? && b.deviceV2.Some? && a.deviceV2.value.deviceId == b.deviceV2.value.deviceId
  }

  /** A sound change of one import keeps all imports sound. */
  lemma LocalChange(w: World, s': Shared, id: LocalId)
    requires SharedOk(w.shared, w.reserved) && id in w.reserved
    requires DiffersOnlyAt(w.shared, s', id, w.reserved[id])
    requires ImportOk(s', id, w.reserved[id]) && EvolvesAt(w.shared, s', id, w.reserved[id])
    ensures SharedOk(s', w.reserved) && Evolves(w, w.(shared := s'))
  {
    forall other | other in w.reserved && other != id
      ensures ImportOk(s', other, w.reserved[other]) && EvolvesAt(w.shared, s', other, w.reserved[other])
    {
      ElsewhereSound(w.shared, s', id, w.reserved[id], other, w.reserved[other]);
    }
  }

  lemma ElsewhereSound(s: Shared, s': Shared, id: LocalId, ref: KeyRef, other: LocalId, otherRef: KeyRef)
    requires DiffersOnlyAt(s, s', id, ref) && other != id && otherRef != ref && ImportOk(s, other, otherRef)
    ensures ImportOk(s', other, otherRef) && EvolvesAt(s, s', other, otherRef)
  {
  }

  lemma ProcessOkStable(w: World, w': World, p: Process)
    requires ProcessOk(w, p) && Evolves(w, w')
    ensures ProcessOk(w', p)
  {
  }

  lemma EvolvesTransitive(a: World, b: World, c: World)
    requires Evolves(a, b) && Evolves(b, c)
    ensures Evolves(a, c)
  {
  }

  /** A change of the shared state that keeps every import sound keeps all processes sound. */
  lemma ProcessesStable(w: World, w': World)
    requires Inv(w) && Evolves(w, w')
    requires SharedOk(w'.shared, w'.reserved)
    requires forall pid :: pid in w'.processes ==>
               (pid in w.processes && w'.processes[pid] == w.processes[pid]) || ProcessOk(w', w'.processes[pid])
    ensures Inv(w')
  {
    forall pid | pid in w'.processes
      ensures ProcessOk(w', w'.processes[pid])
    {
      if pid in w.processes && w'.processes[pid] == w.processes[pid] {
        ProcessOkStable(w, w', w.processes[pid]);
      }
    }
  }

  /** One process takes a sound step. */
  lemma StepKeeps(w: World, pid: nat, s: Shared, p: Process)
    requires Inv(w) && pid in w.processes
    requires SharedOk(s, w.reserved) && Evolves(w, w.(shared := s)) && ProcessOk(w.(shared := s), p)
    ensures var w' := w.(shared := s, processes := w.processes[pid := p]); Inv(w') && Evolves(w, w')
  {
    var w' := w.(shared := s, processes := w.processes[pid := p]);
    ProcessesStable(w, w');
  }

  lemma ImporterStepKeeps(w: World, pid: nat, outcome: Outcome)
    requires Inv(w) && pid in w.processes && w.processes[pid].Importer?
    ensures var w' := Apply(w, Step(pid, outcome)); Inv(w') && Evolves(w, w')
  {
    var Importer(imp, pc) := w.processes[pid];
    var (s, pc') := ImporterStep(w.shared, imp, pc, outcome);
    assert ProcessOk(w, Importer(imp, pc));
    ImporterLocal(w, imp, pc, outcome);
    LocalChange(w, s, imp.id);
    StepKeeps(w, pid, s, Importer(imp, pc'));
  }

  lemma ImporterLocal(w: World, imp: Import, pc: ImporterPc, outcome: Outcome)
    requires ProcessOk(w, Importer(imp, pc)) && ImportOk(w.shared, imp.id, imp.ref)
    ensures var (s, pc') := ImporterStep(w.shared, imp, pc, outcome);
            && DiffersOnlyAt(w.shared, s, imp.id, imp.ref)
            && ImportOk(s, imp.id, imp.ref) && EvolvesAt(w.shared, s, imp.id, imp.ref)
            && ProcessOk(w.(shared := s), Importer(imp, pc'))
  {
  }

  lemma RecoveryStepKeeps(w: World, pid: nat, outcome: Outcome)
    requires Inv(w) && pid in w.processes && w.processes[pid].Recovery?
    ensures var w' := Apply(w, Step(pid, outcome)); Inv(w') && Evolves(w, w')
  {
    var Recovery(now, todo, pc) := w.processes[pid];
    assert ProcessOk(w, Recovery(now, todo, pc));
    var (s, todo', pc') := RecoveryStep(w.shared, now, todo, pc, outcome);
    if Target(pc).Some? {
      RecoveryTargets(w, now, todo, pc, outcome);
    } else {
      RecoveryPick(w, now, todo, pc, outcome);
      assert w.(shared := s) == w;
    }
    StepKeeps(w, pid, s, Recovery(now, todo', pc'));
  }

  lemma RecoveryTargets(w: World, now: nat, todo: seq<Snapshot>, pc: RecoveryPc, outcome: Outcome)
    requires SharedOk(w.shared, w.reserved) && Target(pc).Some? && ProcessOk(w, Recovery(now, todo, pc))
    ensures var (s, todo', pc') := RecoveryStep(w.shared, now, todo, pc, outcome);
            SharedOk(s, w.reserved) && Evolves(w, w.(shared := s))
            && ProcessOk(w.(shared := s), Recovery(now, todo', pc'))
  {
    var id := Target(pc).value;
    var (s, todo', pc') := RecoveryStep(w.shared, now, todo, pc, outcome);
    assert ImportOk(w.shared, id, w.reserved[id]);
    RecoveryLocal(w, id, now, todo, pc, outcome);
    LocalChange(w, s, id);
    ProcessOkStable(w, w.(shared := s), Recovery(now, todo, Next));
  }

  function Target(pc: RecoveryPc): Option<LocalId> {
    match pc
    case CheckingKey(id, _) => Some(id)
    case Promoting(id, _) => Some(id)
    case Claiming(id, _) => Some(id)
    case Cancelling(id, _) => Some(id)
    case Deleting(id) => Some(id)
    case _ => None
  }

  /** A step on one record; what the pass still has to do is left to ProcessOkStable. */
  lemma RecoveryLocal(w: World, id: LocalId, now: nat, todo: seq<Snapshot>, pc: RecoveryPc, outcome: Outcome)
    requires Target(pc) == Some(id) && id in w.reserved
    requires ProcessOk(w, Recovery(now, [], pc)) && ImportOk(w.shared, id, w.reserved[id])
    ensures var (s, todo', pc') := RecoveryStep(w.shared, now, todo, pc, outcome);
            && DiffersOnlyAt(w.shared, s, id, w.reserved[id])
            && ImportOk(s, id, w.reserved[id]) && EvolvesAt(w.shared, s, id, w.reserved[id])
            && ProcessOk(w.(shared := s), Recovery(now, [], pc')) && todo' == todo
  {
  }

  lemma RecoveryPick(w: World, now: nat, todo: seq<Snapshot>, pc: RecoveryPc, outcome: Outcome)
    requires Target(pc).None? && ProcessOk(w, Recovery(now, todo, pc))
    ensures var (s, todo', pc') := RecoveryStep(w.shared, now, todo, pc, outcome);
            s == w.shared && ProcessOk(w, Recovery(now, todo', pc'))
  {
    if pc == Next && todo != [] {
      assert SnapshotOk(w, todo[0]);
    }
  }

  lemma ActivatorStepKeeps(w: World, pid: nat, outcome: Outcome)
    requires Inv(w) && pid in w.processes && w.processes[pid].Activator?
    ensures var w' := Apply(w, Step(pid, outcome)); Inv(w') && Evolves(w, w')
  {
    var Activator(id, pc) := w.processes[pid];
    var (s, pc') := ActivatorStep(w.shared, id, pc, outcome);
    assert ProcessOk(w, Activator(id, pc));
    if pc == Recording {
      assert ImportOk(w.shared, id, w.reserved[id]);
      ActivatorRecords(w.shared, id, w.reserved[id], outcome);
      LocalChange(w, s, id);
    } else {
      ActivatorReads(w, id, pc, outcome);
      assert w.(shared := s) == w;
    }
    StepKeeps(w, pid, s, Activator(id, pc'));
  }

  lemma ActivatorRecords(s: Shared, id: LocalId, ref: KeyRef, outcome: Outcome)
    requires ImportOk(s, id, ref) && PhaseOf(s, id) == Usable
    ensures var (s', pc') := ActivatorStep(s, id, Recording, outcome);
            DiffersOnlyAt(s, s', id, ref) && ImportOk(s', id, ref) && EvolvesAt(s, s', id, ref) && pc' != Recording
  {
  }

  lemma ActivatorReads(w: World, id: LocalId, pc: ActivatorPc, outcome: Outcome)
    requires SharedOk(w.shared, w.reserved) && pc != Recording
    ensures var (s', pc') := ActivatorStep(w.shared, id, pc, outcome);
            s' == w.shared && ProcessOk(w, Activator(id, pc'))
  {
  }

  /** A reservation under a new local id and a new reference leaves the other imports alone. */
  lemma ReservationSound(w: World, imp: Import)
    requires SharedOk(w.shared, w.reserved) && imp.id !in w.shared.records && imp.id !in w.reserved
    requires imp.ref !in w.shared.vault && imp.ref !in w.reserved.Values
    requires CanReserve(w.shared.records, imp.id, Reservation(imp))
    ensures var s' := w.shared.(records := w.shared.records[imp.id := Reservation(imp)]);
            SharedOk(s', w.reserved[imp.id := imp.ref])
            && forall other :: other in w.reserved ==> EvolvesAt(w.shared, s', other, w.reserved[other])
  {
    var s' := w.shared.(records := w.shared.records[imp.id := Reservation(imp)]);
    assert ImportOk(s', imp.id, imp.ref);
    forall other | other in w.reserved
      ensures ImportOk(s', other, w.reserved[other]) && EvolvesAt(w.shared, s', other, w.reserved[other])
    {
      assert ImportOk(w.shared, other, w.reserved[other]);
    }
  }

  lemma ReserveKeeps(w: World, imp: Import, outcome: Outcome, pid: nat)
    requires Inv(w) && Enabled(w, StartImport(pid, imp, outcome))
    ensures var w' := Apply(w, StartImport(pid, imp, outcome)); Inv(w') && Evolves(w, w')
  {
    var w' := Apply(w, StartImport(pid, imp, outcome));
    if w' != w {
      assert w'.shared.records == w.shared.records[imp.id := Reservation(imp)];
      ReservationSound(w, imp);
      ProcessesStable(w, w');
    }
  }

  lemma StartRecoveryKeeps(w: World, pid: nat, now: nat, order: seq<LocalId>)
    requires Inv(w) && Enabled(w, StartRecovery(pid, now, order))
    ensures var w' := Apply(w, StartRecovery(pid, now, order)); Inv(w') && Evolves(w, w')
  {
    var w' := Apply(w, StartRecovery(pid, now, order));
    forall item | item in Listing(order, w.shared.records)
      ensures SnapshotOk(w', item)
    {
      if item.record.deviceV2.Some? {
        assert ImportOk(w.shared, item.id, w.reserved[item.id]);
      }
    }
    ProcessesStable(w, w');
  }

  lemma PutKeeps(w: World, action: Action)
    requires Inv(w) && Enabled(w, action) && (action.PutRootIdentity? || action.PutOtherKey?)
    ensures var w' := Apply(w, action); Inv(w') && Evolves(w, w')
  {
    var w' := Apply(w, action);
    forall id | id in w.reserved
      ensures ImportOk(w'.shared, id, w.reserved[id]) && EvolvesAt(w.shared, w'.shared, id, w.reserved[id])
    {
      assert ImportOk(w.shared, id, w.reserved[id]);
    }
    ProcessesStable(w, w');
  }

  /** Every action keeps the invariant, and takes back nothing that `Evolves` lists. */
  lemma ApplyKeeps(w: World, action: Action)
    requires Inv(w)
    ensures Inv(Apply(w, action)) && Evolves(w, Apply(w, action))
  {
    if Enabled(w, action) {
      match action
      case PutRootIdentity(_, _) => PutKeeps(w, action);
      case PutOtherKey(_, _) => PutKeeps(w, action);
      case StartImport(pid, imp, outcome) => ReserveKeeps(w, imp, outcome, pid);
      case StartRecovery(pid, now, order) => StartRecoveryKeeps(w, pid, now, order);
      case StartActivation(_, _) => ProcessesStable(w, Apply(w, action));
      case Crash(_) => ProcessesStable(w, Apply(w, action));
      case Step(pid, outcome) =>
        match w.processes[pid] {
          case Importer(_, _) => ImporterStepKeeps(w, pid, outcome);
          case Recovery(_, _, _) => RecoveryStepKeeps(w, pid, outcome);
          case Activator(_, _) => ActivatorStepKeeps(w, pid, outcome);
        }
    }
  }

  lemma {:induction false} RunKeeps(w: World, actions: seq<Action>)
    requires Inv(w)
    ensures Inv(Run(w, actions)) && Evolves(w, Run(w, actions))
    decreases |actions|
  {
    if actions != [] {
      ApplyKeeps(w, actions[0]);
      RunKeeps(Apply(w, actions[0]), actions[1..]);
      EvolvesTransitive(w, Apply(w, actions[0]), Run(w, actions));
    }
  }

  // ----- Main results

  /**
   * Import safety, in every interleaving and with crashes anywhere: once reserved, an import without a
   * record has a tombstone, and a usable record has its key.
   */
  lemma {:induction false} ImportSafety(actions: seq<Action>, id: LocalId)
    requires id in Run(INITIAL, actions).reserved
    ensures var w := Run(INITIAL, actions);
            var ref := w.reserved[id];
            && (id !in w.shared.records ==> IsCancelled(w.shared.vault, ref))
            && (id in w.shared.records ==> w.shared.records[id].deviceV2.Some?
                                            && w.shared.records[id].deviceV2.value.signingPrivateKeyRef == Some(ref))
            && (PhaseOf(w.shared, id) == Usable ==> HoldsKey(w.shared.vault, ref))
            && (PhaseOf(w.shared, id) == Pending ==> !IsCancelled(w.shared.vault, ref))
  {
    RunKeeps(INITIAL, actions);
    assert ImportOk(Run(INITIAL, actions).shared, id, Run(INITIAL, actions).reserved[id]);
  }

  predicate Names(record: Record, ref: KeyRef) {
    record.deviceV2.Some? && record.deviceV2.value.signingPrivateKeyRef == Some(ref)
  }

  /** No orphan keys: an import's key in the vault is always named by exactly the record that reserved it. */
  lemma {:induction false} NoKeyWithoutRecord(actions: seq<Action>, id: LocalId)
    requires id in Run(INITIAL, actions).reserved
    requires HoldsKey(Run(INITIAL, actions).shared.vault, Run(INITIAL, actions).reserved[id])
    ensures var w := Run(INITIAL, actions);
            && id in w.shared.records
            && forall other :: other in w.shared.records && Names(w.shared.records[other], w.reserved[id]) ==>
                 other == id
  {
    RunKeeps(INITIAL, actions);
    var w := Run(INITIAL, actions);
    assert ImportOk(w.shared, id, w.reserved[id]);
    forall other | other in w.shared.records && Names(w.shared.records[other], w.reserved[id])
      ensures other == id
    {
      assert ImportOk(w.shared, other, w.reserved[other]);
    }
  }

  /** A device is installed at most once, whatever imports race. */
  lemma {:induction false} OneRecordPerDevice(actions: seq<Action>, a: LocalId, b: LocalId)
    requires var records := Run(INITIAL, actions).shared.records;
             a in records && b in records && records[a].deviceV2.Some? && records[b].deviceV2.Some?
             && records[a].deviceV2.value.deviceId == records[b].deviceV2.value.deviceId
    ensures a == b
  {
    RunKeeps(INITIAL, actions);
  }

  lemma {:induction false} RunConcat(w: World, first: seq<Action>, second: seq<Action>)
    ensures Run(w, first + second) == Run(Run(w, first), second)
    decreases |first|
  {
    if first == [] {
      assert first + second == second;
    } else {
      assert (first + second)[1..] == first[1..] + second;
      RunConcat(Apply(w, first[0]), first[1..], second);
    }
  }

  /**
   * Once usable, always usable: no recovery pass acting on an old listing or an old key check, and no
   * importer's cleanup, ever deletes the record or the key of a promoted import.
   */
  lemma {:induction false} PromotedIsNeverLost(actions: seq<Action>, more: seq<Action>, id: LocalId)
    requires id in Run(INITIAL, actions).reserved && PhaseOf(Run(INITIAL, actions).shared, id) == Usable
    ensures var w := Run(INITIAL, actions + more);
            PhaseOf(w.shared, id) == Usable && id in w.reserved
            && w.reserved[id] == Run(INITIAL, actions).reserved[id] && HoldsKey(w.shared.vault, w.reserved[id])
  {
    RunConcat(INITIAL, actions, more);
    RunKeeps(INITIAL, actions);
    RunKeeps(Run(INITIAL, actions), more);
    ImportSafety(actions + more, id);
  }

  /** A deleted import never comes back, and its reference never holds a key again. */
  lemma {:induction false} DeletedStaysDeleted(actions: seq<Action>, more: seq<Action>, id: LocalId)
    requires id in Run(INITIAL, actions).reserved && id !in Run(INITIAL, actions).shared.records
    ensures var w := Run(INITIAL, actions + more);
            id !in w.shared.records && IsCancelled(w.shared.vault, Run(INITIAL, actions).reserved[id])
  {
    RunConcat(INITIAL, actions, more);
    RunKeeps(INITIAL, actions);
    RunKeeps(Run(INITIAL, actions), more);
    assert PhaseOf(Run(INITIAL, actions).shared, id) == Gone;
    var w := Run(INITIAL, actions + more);
    assert ImportOk(w.shared, id, w.reserved[id]);
  }

  // ----- What a record holds

  /** The record that import `imp` installed, in any of its states. */
  predicate InstalledFor(record: Record, imp: Import) {
    && record.subject == imp.subject && record.deviceV2.Some?
    && var device := record.deviceV2.value;
       && device.deviceId == imp.deviceId && device.signingPrivateKeyRef == Some(imp.ref)
       && match device.localState
          case PendingImport => device.importStartedAt == Some(imp.startedAt)
          case ImportCleanupPending => device.importStartedAt == Some(0)
          case _ => device.importStartedAt.None?
  }

  predicate InstalledByOne(record: Record, id: LocalId, imports: set<Import>) {
    exists imp :: imp in imports && imp.id == id && InstalledFor(record, imp)
  }

  /** Every record with a device part was installed by one of these imports. */
  ghost predicate Traced(w: World, imports: set<Import>) {
    forall id :: id in w.shared.records && w.shared.records[id].deviceV2.Some? ==>
      InstalledByOne(w.shared.records[id], id, imports)
  }

  function Started(actions: seq<Action>): set<Import> {
    set action | action in actions && action.StartImport? :: action.imp
  }

  /** One action on the record of an import. */
  ghost predicate KeptFor(w: World, w': World, id: LocalId) {
    id in w'.shared.records && w'.shared.records[id].deviceV2.Some? ==>
      && id in w.shared.records && w.shared.records[id].deviceV2.Some?
      && forall imp :: InstalledFor(w.shared.records[id], imp) ==> InstalledFor(w'.shared.records[id], imp)
  }

  lemma ImporterKeepsRecord(w: World, imp: Import, pc: ImporterPc, outcome: Outcome, id: LocalId)
    ensures KeptFor(w, w.(shared := ImporterStep(w.shared, imp, pc, outcome).0), id)
  {
  }

  lemma RecoveryKeepsRecord(w: World, now: nat, todo: seq<Snapshot>, pc: RecoveryPc, outcome: Outcome, id: LocalId)
    ensures KeptFor(w, w.(shared := RecoveryStep(w.shared, now, todo, pc, outcome).0), id)
  {
  }

  lemma ActivatorKeepsRecord(w: World, target: LocalId, pc: ActivatorPc, outcome: Outcome, id: LocalId)
    requires pc == Recording ==> PhaseOf(w.shared, target) == Usable
    ensures KeptFor(w, w.(shared := ActivatorStep(w.shared, target, pc, outcome).0), id)
  {
  }

  lemma StepKeepsRecord(w: World, pid: nat, outcome: Outcome, id: LocalId)
    requires Inv(w) && pid in w.processes
    ensures KeptFor(w, Apply(w, Step(pid, outcome)), id)
  {
    match w.processes[pid]
    case Importer(imp, pc) => ImporterKeepsRecord(w, imp, pc, outcome, id);
    case Recovery(now, todo, pc) => RecoveryKeepsRecord(w, now, todo, pc, outcome, id);
    case Activator(target, pc) =>
      assert ProcessOk(w, w.processes[pid]);
      ActivatorKeepsRecord(w, target, pc, outcome, id);
  }

  lemma StartInstalls(w: World, pid: nat, imp: Import, outcome: Outcome)
    requires Enabled(w, StartImport(pid, imp, outcome))
    ensures var w' := Apply(w, StartImport(pid, imp, outcome));
            && (imp.id in w'.shared.records ==> InstalledFor(w'.shared.records[imp.id], imp))
            && forall id :: id != imp.id ==> KeptFor(w, w', id)
  {
  }

  lemma InstalledByMore(record: Record, id: LocalId, imports: set<Import>, more: set<Import>)
    requires InstalledByOne(record, id, imports)
    ensures InstalledByOne(record, id, imports + more)
  {
    var imp :| imp in imports && imp.id == id && InstalledFor(record, imp);
    assert imp in imports + more;
  }

  lemma ActionKeepsRecord(w: World, action: Action, id: LocalId)
    requires Inv(w) && Enabled(w, action) && !(action.StartImport? && action.imp.id == id)
    ensures KeptFor(w, Apply(w, action), id)
  {
    match action
    case StartImport(pid, imp, outcome) => StartInstalls(w, pid, imp, outcome);
    case Step(pid, outcome) => StepKeepsRecord(w, pid, outcome, id);
    case _ =>
  }

  lemma RecordTraced(w: World, action: Action, imports: set<Import>, id: LocalId)
    requires Inv(w) && Traced(w, imports) && Enabled(w, action)
    requires id in Apply(w, action).shared.records && Apply(w, action).shared.records[id].deviceV2.Some?
    ensures InstalledByOne(Apply(w, action).shared.records[id], id, imports + Started([action]))
  {
    var record := Apply(w, action).shared.records[id];
    if action.StartImport? && action.imp.id == id {
      assert action in [action];
      StartInstalls(w, action.pid, action.imp, action.outcome);
    } else {
      ActionKeepsRecord(w, action, id);
      var imp :| imp in imports && imp.id == id && InstalledFor(w.shared.records[id], imp);
      assert InstalledByOne(record, id, imports);
      InstalledByMore(record, id, imports, Started([action]));
    }
  }

  lemma ApplyTraced(w: World, action: Action, imports: set<Import>)
    requires Inv(w) && Traced(w, imports)
    ensures Traced(Apply(w, action), imports + Started([action]))
  {
    var w' := Apply(w, action);
    forall id | id in w'.shared.records && w'.shared.records[id].deviceV2.Some?
      ensures InstalledByOne(w'.shared.records[id], id, imports + Started([action]))
    {
      if Enabled(w, action) {
        RecordTraced(w, action, imports, id);
      } else {
        InstalledByMore(w.shared.records[id], id, imports, Started([action]));
      }
    }
  }

  lemma {:induction false} RunTraced(w: World, actions: seq<Action>, imports: set<Import>)
    requires Inv(w) && Traced(w, imports)
    ensures Traced(Run(w, actions), imports + Started(actions))
    decreases |actions|
  {
    if actions != [] {
      ApplyKeeps(w, actions[0]);
      ApplyTraced(w, actions[0], imports);
      RunTraced(Apply(w, actions[0]), actions[1..], imports + Started([actions[0]]));
      assert imports + Started([actions[0]]) + Started(actions[1..]) <= imports + Started(actions);
    }
  }

  /**
   * In every interleaving, a record with a device part is that of an import of the run: it has the subject, the
   * device and the key reference that the import was started with, and its start time until it is promoted.
   */
  lemma {:induction false} RecordsAreImports(actions: seq<Action>, id: LocalId)
    requires var records := Run(INITIAL, actions).shared.records; id in records && records[id].deviceV2.Some?
    ensures exists imp :: imp in Started(actions) && imp.id == id
                          && InstalledFor(Run(INITIAL, actions).shared.records[id], imp)
  {
    RunTraced(INITIAL, actions, {});
    assert {} + Started(actions) == Started(actions);
  }

  /**
   * An activation goes on exactly when the record has a device that is not pending, cleaned up or revoked, and a key;
   * when it is done the record is active and otherwise as before, unless it was revoked meanwhile.
   */
  lemma ActivationIsRecorded(s: Shared, id: LocalId)
    ensures ActivatorStep(s, id, Reading, Committed)
            == (s, if id in s.records && ReadyToActivate(s.records[id]) then Recording else ActivationFailed)
    ensures id !in s.records ==> ActivatorStep(s, id, Recording, Committed) == (s, ActivationFailed)
    ensures id in s.records && s.records[id].deviceV2.Some? ==>
              var device := s.records[id].deviceV2.value;
              ActivatorStep(s, id, Recording, Committed)
              == (if device.localState == Revoked then s
                  else s.(records := s.records[id := Record(s.records[id].subject,
                                                            Some(Device(device.deviceId, device.signingPrivateKeyRef,
                                                                        Active, device.importStartedAt)))]),
                  ActivationDone)
  {
    if id in s.records && s.records[id].deviceV2.Some? && s.records[id].deviceV2.value.localState == Revoked {
      assert s.records[id := s.records[id]] == s.records;
    }
  }

  predicate ReadyToActivate(record: Record) {
    && record.deviceV2.Some? && record.deviceV2.value.signingPrivateKeyRef.Some?
    && (record.deviceV2.value.localState == PendingActivation || record.deviceV2.value.localState == Active)
  }
}
