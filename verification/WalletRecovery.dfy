/**
 * One import and one recovery pass run to their end without interference: the methods of
 * packages/wallet-core/src/wallet-core.ts on the two stores, tied to the steps of WalletImport, and what an
 * undisturbed pass leaves behind.
 */
module WalletRecovery {
  import opened Common
  import opened KeyVault
  import opened IdentityStore
  import opened WalletImport

  // ----- Undisturbed runs of the step functions

  function ImporterRank(pc: ImporterPc): nat {
    match pc
    case AddingKey => 6
    case Finalizing => 5
    case CatchReading => 4
    case CatchClaiming => 3
    case CatchCancelling => 2
    case CatchDeleting => 1
    case _ => 0
  }

  function SoloImport(s: Shared, imp: Import, pc: ImporterPc): (Shared, ImporterPc)
    decreases ImporterRank(pc)
  {
    if pc.Succeeded? || pc.Failed? then (s, pc)
    else
      var (s', pc') := ImporterStep(s, imp, pc, Committed);
      SoloImport(s', imp, pc')
  }

  /** The device part of a finished import: its device, its key, awaiting activation, no start time left. */
  function Installed(imp: Import): Device {
    Device(imp.deviceId, Some(imp.ref), PendingActivation, None)
  }

  /**
   * An undisturbed import under a fresh local id and a fresh reference ends in one of two ways: installed
   * with its key, or removed again with a tombstone, as its key matches or not.
   */
  lemma UndisturbedImport(s: Shared, imp: Import, keyMatches: bool)
    requires imp.id !in s.records && imp.ref !in s.vault
    ensures var reserved := s.(records := s.records[imp.id := Reservation(imp)]);
            var (s', pc) := SoloImport(reserved, imp, if keyMatches then AddingKey else CatchReading);
            if keyMatches then
              && pc == Succeeded
              && s' == Shared(s.records[imp.id := Record(imp.subject, Some(Installed(imp)))],
                              s.vault[imp.ref := DeviceSigningKey])
            else
              pc == Failed && s' == Shared(s.records, s.vault[imp.ref := CancelledDeviceKeyRef])
  {
    var s1 := s.(records := s.records[imp.id := Reservation(imp)]);
    if keyMatches {
      var s2 := s1.(vault := s1.vault[imp.ref := DeviceSigningKey]);
      assert ImporterStep(s1, imp, AddingKey, Committed) == (s2, Finalizing);
      assert ImporterStep(s2, imp, Finalizing, Committed).1 == Succeeded;
    } else {
      CatchRemoves(s1, imp);
      assert s1.records - {imp.id} == s.records;
    }
  }

  function BeingCleanedUp(record: Record): Record
    requires record.deviceV2.Some?
  {
    var device := record.deviceV2.value;
    Record(record.subject, Some(Device(device.deviceId, device.signingPrivateKeyRef, ImportCleanupPending, Some(0))))
  }

  /**
   * The catch block of an import that is still pending removes it and leaves a tombstone; when its reference holds a
   * key of another role, that key stays and so does the record, marked for cleanup.
   */
  lemma CatchRemoves(s: Shared, imp: Import)
    requires imp.id in s.records && HasDeviceAt(s.records[imp.id], PendingImport, Some(imp.ref))
    ensures var (s', pc) := SoloImport(s, imp, CatchReading);
            && pc == Failed
            && s' == if CanCancel(s.vault, imp.ref) then
                       Shared(s.records - {imp.id}, s.vault[imp.ref := CancelledDeviceKeyRef])
                     else s.(records := s.records[imp.id := BeingCleanedUp(s.records[imp.id])])
  {
    var s2 := s.(records := s.records[imp.id := WithState(s.records[imp.id], ImportCleanupPending, Some(0))]);
    assert ImporterStep(s, imp, CatchReading, Committed) == (s, CatchClaiming);
    assert ImporterStep(s, imp, CatchClaiming, Committed) == (s2, CatchCancelling);
    if CanCancel(s.vault, imp.ref) {
      var s3 := s2.(vault := s2.vault[imp.ref := CancelledDeviceKeyRef]);
      assert ImporterStep(s2, imp, CatchCancelling, Committed) == (s3, CatchDeleting);
      assert s3.records - {imp.id} == s.records - {imp.id};
    }
  }

  /** The record of an import whose reference turned out to hold a key of another role. */
  function Stranded(imp: Import): Record {
    Record(imp.subject, Some(Device(imp.deviceId, Some(imp.ref), ImportCleanupPending, Some(0))))
  }

  /** How an undisturbed import that was reserved ends, also under a used reference. */
  lemma ImportOutcome(s: Shared, imp: Import, keyMatches: bool)
    requires imp.id !in s.records
    ensures var reserved := s.(records := s.records[imp.id := Reservation(imp)]);
            var (s', pc) := SoloImport(reserved, imp, if keyMatches then AddingKey else CatchReading);
            && (pc == Succeeded <==> keyMatches && imp.ref !in s.vault)
            && (pc == Succeeded ==>
                  s' == Shared(s.records[imp.id := Record(imp.subject, Some(Installed(imp)))],
                               s.vault[imp.ref := DeviceSigningKey]))
            && (pc != Succeeded ==>
                  s' == if CanCancel(s.vault, imp.ref) then Shared(s.records, s.vault[imp.ref := CancelledDeviceKeyRef])
                        else s.(records := s.records[imp.id := Stranded(imp)]))
  {
    var s1 := s.(records := s.records[imp.id := Reservation(imp)]);
    if imp.ref !in s.vault {
      UndisturbedImport(s, imp, keyMatches);
    } else {
      CatchRemoves(s1, imp);
      assert s1.records - {imp.id} == s.records;
      if keyMatches {
        assert ImporterStep(s1, imp, AddingKey, Committed) == (s1, CatchReading);
      }
    }
  }

  function RecoveryRank(pc: RecoveryPc): nat {
    match pc
    case CheckingKey(_, _) => 5
    case Promoting(_, _) => 4
    case Claiming(_, _) => 4
    case Cancelling(_, _) => 3
    case Deleting(_) => 2
    case Next => 1
    case _ => 0
  }

  function SoloPass(s: Shared, now: nat, todo: seq<Snapshot>, pc: RecoveryPc): (Shared, RecoveryPc)
    decreases |todo|, RecoveryRank(pc)
  {
    if pc.Finished? || pc.Thrown? then (s, pc)
    else
      var (s', todo', pc') := RecoveryStep(s, now, todo, pc, Committed);
      SoloPass(s', now, todo', pc')
  }

  lemma SoloClaim(s: Shared, now: nat, rest: seq<Snapshot>, id: LocalId, ref: Option<KeyRef>)
    ensures SoloPass(s, now, rest, Claiming(id, ref))
            == if id !in s.records then (s, Thrown)
               else
                 var record := Claim(ref)(s.records[id]).value;
                 SoloPass(s.(records := s.records[id := record]), now, rest,
                          if !HasDeviceAt(record, ImportCleanupPending, ref) then Next
                          else if ref.Some? then Cancelling(id, ref.value) else Deleting(id))
  {
    if id in s.records {
      assert Updated(s.records, id, Claim(ref)) == s.records[id := Claim(ref)(s.records[id]).value];
    } else {
      assert RecoveryStep(s, now, rest, Claiming(id, ref), Committed) == (s, rest, Thrown);
    }
  }

  lemma SoloPromote(s: Shared, now: nat, rest: seq<Snapshot>, id: LocalId, ref: KeyRef)
    ensures SoloPass(s, now, rest, Promoting(id, ref))
            == if id !in s.records then (s, Thrown)
               else SoloPass(s.(records := s.records[id := Promote(ref)(s.records[id]).value]), now, rest, Next)
  {
    if id in s.records {
      assert Updated(s.records, id, Promote(ref)) == s.records[id := Promote(ref)(s.records[id]).value];
    } else {
      assert RecoveryStep(s, now, rest, Promoting(id, ref), Committed) == (s, rest, Thrown);
    }
  }

  class WalletCore {
    const store: Store
    const vault: Vault

    constructor (store: Store, vault: Vault)
      ensures this.store == store && this.vault == vault
    {
      this.store, this.vault := store, vault;
    }

    function Contents(): Shared
      reads store, vault
    {
      Shared(store.records, vault.records)
    }

    /** `#claimImportedKeyCleanup` and the cleanup of the importer's catch block. */
    method CleanUpFailedImport(imp: Import)
      modifies store, vault
      ensures Contents() == SoloImport(old(Contents()), imp, CatchReading).0
    {
      var durable := store.Get(imp.id);
      var ownsCleanup := false;
      if durable.None? {
        ownsCleanup := true;
      } else if HasDeviceAt(durable.value, ImportCleanupPending, Some(imp.ref)) {
        ownsCleanup := true;
      } else if HasDeviceAt(durable.value, PendingImport, Some(imp.ref)) {
        var claimed := store.Update(imp.id, Claim(Some(imp.ref)));
        ownsCleanup := claimed.None? || HasDeviceAt(claimed.value, ImportCleanupPending, Some(imp.ref));
      }
      if ownsCleanup {
        var cancelled := vault.CancelDeviceSigningKeyRef(imp.ref);
        if cancelled {
          store.Delete(imp.id);
        }
      }
    }

    /**
     * `#importDeviceTransfer` for a transfer that decrypts and verifies: reserve, import the key, finalize.
     * `keyMatches` says whether the private key fits its authorized public key.
     */
    method ImportDeviceTransfer(imp: Import, keyMatches: bool) returns (imported: bool)
      modifies store, vault
      ensures !CanReserve(old(store.records), imp.id, Reservation(imp)) ==>
                !imported && Contents() == old(Contents())
      ensures CanReserve(old(store.records), imp.id, Reservation(imp)) ==>
                var reserved := old(Contents()).(records := old(store.records)[imp.id := Reservation(imp)]);
                var (s, pc) := SoloImport(reserved, imp, if keyMatches then AddingKey else CatchReading);
                Contents() == s && (imported <==> pc == Succeeded)
      ensures imported <==>
                && keyMatches && imp.id !in old(store.records) && imp.ref !in old(vault.records)
                && !DeviceInstalled(old(store.records), imp.deviceId)
      ensures imported ==>
                && store.records == old(store.records)[imp.id := Record(imp.subject, Some(Installed(imp)))]
                && vault.records == old(vault.records)[imp.ref := DeviceSigningKey]
      ensures !imported ==>
                if imp.id in old(store.records) || DeviceInstalled(old(store.records), imp.deviceId) then
                  store.records == old(store.records) && vault.records == old(vault.records)
                else if CanCancel(old(vault.records), imp.ref) then
                  && store.records == old(store.records)
                  && vault.records == old(vault.records)[imp.ref := CancelledDeviceKeyRef]
                else store.records == old(store.records)[imp.id := Stranded(imp)] && vault.records == old(vault.records)
    {
      ghost var before := Contents();
      if CanReserve(store.records, imp.id, Reservation(imp)) {
        ImportOutcome(before, imp, keyMatches);
      }
      var reserved := store.ReserveDeviceRecord(imp.id, Reservation(imp));
      if !reserved {
        return false;
      }
      label added:
      var stored := false;
      if keyMatches {
        stored := vault.Add(imp.ref, DeviceSigningKey);
      }
      if stored {
        var finalized := store.Update(imp.id, Finalize(imp.ref));
        if finalized.Some? {
          return true;
        }
      }
      CleanUpFailedImport(imp);
      imported := false;
    }

    /** Tombstone the reference, if there is one, then delete the record; false when the vault refuses. */
    method CancelAndDelete(id: LocalId, ref: Option<KeyRef>, ghost now: nat, ghost rest: seq<Snapshot>)
      returns (deleted: bool)
      modifies store, vault
      ensures SoloPass(old(Contents()), now, rest, if ref.Some? then Cancelling(id, ref.value) else Deleting(id))
              == if deleted then SoloPass(Contents(), now, rest, Next) else (Contents(), Thrown)
      ensures deleted <==> ref.Some? ==> CanCancel(old(vault.records), ref.value)
      ensures store.records == (if deleted then old(store.records) - {id} else old(store.records))
      ensures vault.records
              == if deleted && ref.Some? then old(vault.records)[ref.value := CancelledDeviceKeyRef]
                 else old(vault.records)
    {
      if ref.Some? {
        var cancelled := vault.CancelDeviceSigningKeyRef(ref.value);
        if !cancelled {
          return false;
        }
      }
      store.Delete(id);
      deleted := true;
    }

    /** `#recoverPendingDeviceImports`; false when one of its updates or cancellations throws. */
    method RecoverPendingDeviceImports(now: nat) returns (completed: bool, ghost order: seq<LocalId>)
      modifies store, vault
      ensures Lists(order, old(store.records))
      ensures var (s, pc) := SoloPass(old(Contents()), now, Listing(order, old(store.records)), Next);
              Contents() == s && (completed <==> pc == Finished)
    {
      var ids := store.List();
      order := ids;
      var listed := Listing(ids, store.records);
      ghost var result := SoloPass(Contents(), now, listed, Next);
      assert listed[0..] == listed;
      for i := 0 to |listed|
        invariant SoloPass(Contents(), now, listed[i..], Next) == result
      {
        ghost var rest := listed[i + 1..];
        assert listed[i..][1..] == rest;
        var item := listed[i];
        assert SoloPass(Contents(), now, rest, Triage(now, item)) == result;
        if item.record.deviceV2.None? {
          continue;
        }
        var device := item.record.deviceV2.value;
        var ref := device.signingPrivateKeyRef;
        if device.localState == ImportCleanupPending {
          var deleted := CancelAndDelete(item.id, ref, now, rest);
          if !deleted {
            return false, order;
          }
          continue;
        }
        if device.localState != PendingImport
           || now < device.importStartedAt.GetOr(0) + DEVICE_IMPORT_RECOVERY_LEASE_SECONDS {
          continue;
        }
        var present := false;
        if ref.Some? {
          present := vault.HasKey(ref.value);
        }
        if present {
          SoloPromote(Contents(), now, rest, item.id, ref.value);
          var promoted := store.Update(item.id, Promote(ref.value));
          if promoted.None? {
            return false, order;
          }
        } else {
          SoloClaim(Contents(), now, rest, item.id, ref);
          var claimed := store.Update(item.id, Claim(ref));
          if claimed.None? {
            return false, order;
          }
          if HasDeviceAt(claimed.value, ImportCleanupPending, ref) {
            var deleted := CancelAndDelete(item.id, ref, now, rest);
            if !deleted {
              return false, order;
            }
          }
        }
      }
      assert listed[|listed|..] == [];
      return true, order;
    }
  }

  // ----- What an undisturbed recovery pass leaves behind

  /** Five minutes have passed since the import started. */
  predicate LeaseExpired(record: Record, now: nat)
    requires record.deviceV2.Some?
  {
    now >= record.deviceV2.value.importStartedAt.GetOr(0) + 300
  }

  /** The effect of a pass on one record. */
  function AfterItem(s: Shared, now: nat, id: LocalId): Shared {
    if id !in s.records || s.records[id].deviceV2.None?
       || s.records[id].deviceV2.value.signingPrivateKeyRef.None? then s
    else
      var record := s.records[id];
      var ref := record.deviceV2.value.signingPrivateKeyRef.value;
      var removed := Shared(s.records - {id}, s.vault[ref := CancelledDeviceKeyRef]);
      match PhaseOf(s, id)
      case CleaningUp => removed
      case Pending =>
        if !LeaseExpired(record, now) then s
        else if HoldsKey(s.vault, ref) then
          s.(records := s.records[id := WithState(record, PendingActivation, None)])
        else removed
      case _ => s
  }

  lemma SoloRemoves(s: Shared, now: nat, id: LocalId, ref: KeyRef, rest: seq<Snapshot>)
    requires id in s.records && CanCancel(s.vault, ref)
    ensures SoloPass(s, now, rest, Cancelling(id, ref))
            == SoloPass(Shared(s.records - {id}, s.vault[ref := CancelledDeviceKeyRef]), now, rest, Next)
  {
    var s1 := s.(vault := s.vault[ref := CancelledDeviceKeyRef]);
    assert RecoveryStep(s, now, rest, Cancelling(id, ref), Committed) == (s1, rest, Deleting(id));
  }

  lemma SoloItem(s: Shared, now: nat, todo: seq<Snapshot>, ref: KeyRef)
    requires todo != [] && todo[0].id in s.records && todo[0].record == s.records[todo[0].id]
    requires todo[0].record.deviceV2.None? || ImportOk(s, todo[0].id, ref)
    ensures SoloPass(s, now, todo, Next) == SoloPass(AfterItem(s, now, todo[0].id), now, todo[1..], Next)
  {
    var item, rest := todo[0], todo[1..];
    var id := item.id;
    assert RecoveryStep(s, now, todo, Next, Committed) == (s, rest, Triage(now, item));
    assert SoloPass(s, now, todo, Next) == SoloPass(s, now, rest, Triage(now, item));
    if item.record.deviceV2.Some? {
      if PhaseOf(s, id) == CleaningUp {
        SoloRemoves(s, now, id, ref, rest);
      } else if PhaseOf(s, id) == Pending && LeaseExpired(item.record, now) {
        SoloPending(s, now, id, ref, rest);
      }
    }
  }

  lemma SoloPending(s: Shared, now: nat, id: LocalId, ref: KeyRef, rest: seq<Snapshot>)
    requires id in s.records && ImportOk(s, id, ref) && PhaseOf(s, id) == Pending && LeaseExpired(s.records[id], now)
    ensures SoloPass(s, now, rest, CheckingKey(id, ref)) == SoloPass(AfterItem(s, now, id), now, rest, Next)
  {
    if HoldsKey(s.vault, ref) {
      assert RecoveryStep(s, now, rest, CheckingKey(id, ref), Committed) == (s, rest, Promoting(id, ref));
      assert RecoveryStep(s, now, rest, Promoting(id, ref), Committed) == (AfterItem(s, now, id), rest, Next);
    } else {
      var claimed := s.(records := s.records[id := WithState(s.records[id], ImportCleanupPending, Some(0))]);
      assert RecoveryStep(s, now, rest, CheckingKey(id, ref), Committed) == (s, rest, Claiming(id, Some(ref)));
      assert RecoveryStep(s, now, rest, Claiming(id, Some(ref)), Committed) == (claimed, rest, Cancelling(id, ref));
      SoloRemoves(claimed, now, id, ref, rest);
      assert claimed.records - {id} == s.records - {id};
    }
  }

  /** The listing is up to date and lists no record twice. */
  ghost predicate FreshListing(s: Shared, todo: seq<Snapshot>) {
    && (forall item :: item in todo ==> item.id in s.records && s.records[item.id] == item.record)
    && (forall i, j :: 0 <= i < j < |todo| ==> todo[i].id != todo[j].id)
  }

  predicate ListedIn(id: LocalId, todo: seq<Snapshot>) {
    exists i :: 0 <= i < |todo| && todo[i].id == id
  }

  /** Before and after, at one local id and one reference. */
  ghost predicate AgreeAt(a: Shared, b: Shared, id: LocalId, ref: KeyRef) {
    && (id in a.records <==> id in b.records)
    && (id in a.records ==> a.records[id] == b.records[id])
    && (ref in a.vault <==> ref in b.vault)
    && (ref in a.vault ==> a.vault[ref] == b.vault[ref])
  }

  lemma AfterItemFrame(s: Shared, now: nat, id: LocalId)
    requires id in s.records
    ensures var s' := AfterItem(s, now, id);
            && (forall other :: other != id ==> (other in s.records <==> other in s'.records))
            && (forall other :: other != id && other in s.records ==> s'.records[other] == s.records[other])
  {
  }

  lemma AfterItemSound(s: Shared, now: nat, id: LocalId, ref: KeyRef)
    requires id in s.records && ImportOk(s, id, ref)
    ensures var s' := AfterItem(s, now, id);
            DiffersOnlyAt(s, s', id, ref) && ImportOk(s', id, ref) && EvolvesAt(s, s', id, ref)
  {
  }

  lemma ElsewhereAgrees(a: Shared, b: Shared, id: LocalId, ref: KeyRef, other: LocalId, otherRef: KeyRef)
    requires DiffersOnlyAt(a, b, id, ref) && other != id && otherRef != ref
    ensures AgreeAt(a, b, other, otherRef)
  {
  }

  lemma AfterItemLocal(s: Shared, now: nat, id: LocalId, reserved: map<LocalId, KeyRef>)
    requires SharedOk(s, reserved) && id in s.records
    ensures var s' := AfterItem(s, now, id);
            && SharedOk(s', reserved)
            && forall other :: other in reserved && other != id ==> AgreeAt(s, s', other, reserved[other])
  {
    if s.records[id].deviceV2.Some? {
      var s' := AfterItem(s, now, id);
      assert ImportOk(s, id, reserved[id]);
      AfterItemSound(s, now, id, reserved[id]);
      LocalChange(World(s, map[], reserved), s', id);
      forall other | other in reserved && other != id
        ensures AgreeAt(s, s', other, reserved[other])
      {
        ElsewhereAgrees(s, s', id, reserved[id], other, reserved[other]);
      }
    }
  }

  lemma RestOfListing(s: Shared, now: nat, todo: seq<Snapshot>)
    requires FreshListing(s, todo) && todo != []
    ensures FreshListing(AfterItem(s, now, todo[0].id), todo[1..]) && !ListedIn(todo[0].id, todo[1..])
    ensures forall id :: ListedIn(id, todo) <==> id == todo[0].id || ListedIn(id, todo[1..])
  {
    var rest := todo[1..];
    AfterItemFrame(s, now, todo[0].id);
    forall item | item in rest
      ensures item in todo && item.id != todo[0].id
    {
      var i :| 0 <= i < |rest| && rest[i] == item;
      assert todo[i + 1] == item;
    }
    forall id
      ensures ListedIn(id, todo) <==> id == todo[0].id || ListedIn(id, rest)
    {
      if ListedIn(id, rest) {
        var i :| 0 <= i < |rest| && rest[i].id == id;
        assert todo[i + 1].id == id;
      }
      if ListedIn(id, todo) && id != todo[0].id {
        var i :| 0 <= i < |todo| && todo[i].id == id;
        assert rest[i - 1].id == id;
      }
    }
  }

  lemma SoloFirst(s: Shared, now: nat, todo: seq<Snapshot>, reserved: map<LocalId, KeyRef>)
    requires SharedOk(s, reserved) && FreshListing(s, todo) && todo != []
    ensures SoloPass(s, now, todo, Next) == SoloPass(AfterItem(s, now, todo[0].id), now, todo[1..], Next)
  {
    var item := todo[0];
    if item.record.deviceV2.Some? {
      assert ImportOk(s, item.id, reserved[item.id]);
      SoloItem(s, now, todo, reserved[item.id]);
    } else {
      SoloItem(s, now, todo, "");
    }
  }

  /** A pass over a fresh listing finishes, and does to each record what AfterItem says. */
  lemma {:induction false} SoloPassSpec(s: Shared, now: nat, todo: seq<Snapshot>, reserved: map<LocalId, KeyRef>)
    requires SharedOk(s, reserved) && FreshListing(s, todo)
    ensures var (s', pc) := SoloPass(s, now, todo, Next);
            && pc == Finished && SharedOk(s', reserved)
            && (forall id :: id in reserved ==>
                  AgreeAt(s', if ListedIn(id, todo) then AfterItem(s, now, id) else s, id, reserved[id]))
            && (forall id :: id in s.records && s.records[id].deviceV2.None? ==>
                  id in s'.records && s'.records[id] == s.records[id])
    decreases |todo|
  {
    if todo != [] {
      var first, rest := todo[0].id, todo[1..];
      var s1 := AfterItem(s, now, first);
      SoloFirst(s, now, todo, reserved);
      AfterItemLocal(s, now, first, reserved);
      AfterItemFrame(s, now, first);
      RestOfListing(s, now, todo);
      SoloPassSpec(s1, now, rest, reserved);
      var s' := SoloPass(s, now, todo, Next).0;
      forall id | id in reserved
        ensures AgreeAt(s', if ListedIn(id, todo) then AfterItem(s, now, id) else s, id, reserved[id])
      {
        if id != first {
          AfterItemDependsOnOwnRecord(s, s1, now, id, reserved[id]);
        }
      }
    }
  }

  lemma AfterItemDependsOnOwnRecord(a: Shared, b: Shared, now: nat, id: LocalId, ref: KeyRef)
    requires AgreeAt(a, b, id, ref)
    requires id in a.records ==> ImportOk(a, id, ref)
    ensures AgreeAt(AfterItem(a, now, id), AfterItem(b, now, id), id, ref)
  {
  }

  /** What became of import `id`. */
  ghost predicate Settled(before: Shared, after: Shared, now: nat, id: LocalId, ref: KeyRef) {
    match PhaseOf(before, id)
    case Gone => id !in after.records && IsCancelled(after.vault, ref)
    case CleaningUp => id !in after.records && IsCancelled(after.vault, ref)
    case Usable => AgreeAt(before, after, id, ref) && HoldsKey(after.vault, ref)
    case Pending =>
      if !LeaseExpired(before.records[id], now) then AgreeAt(before, after, id, ref)
      else if HoldsKey(before.vault, ref) then
        && id in after.records && HoldsKey(after.vault, ref)
        && after.records[id] == WithState(before.records[id], PendingActivation, None)
      else id !in after.records && IsCancelled(after.vault, ref)
  }

  lemma SettledAfterItem(s: Shared, s': Shared, now: nat, id: LocalId, ref: KeyRef)
    requires ImportOk(s, id, ref) && AgreeAt(s', AfterItem(s, now, id), id, ref)
    ensures Settled(s, s', now, id, ref)
  {
  }

  lemma ListingIsComplete(order: seq<LocalId>, records: Records, id: LocalId)
    requires Lists(order, records)
    ensures FreshListing(Shared(records, map[]), Listing(order, records))
    ensures ListedIn(id, Listing(order, records)) <==> id in records
  {
    var todo := Listing(order, records);
    if id in records {
      var i :| 0 <= i < |order| && order[i] == id;
      assert todo[i].id == id;
    }
  }

  /** A pass finishes, settles every import and leaves root identities alone. */
  lemma PassSettles(s: Shared, now: nat, order: seq<LocalId>, reserved: map<LocalId, KeyRef>)
    requires SharedOk(s, reserved) && Lists(order, s.records)
    ensures var (s', pc) := SoloPass(s, now, Listing(order, s.records), Next);
            && pc == Finished
            && (forall id :: id in reserved ==> Settled(s, s', now, id, reserved[id]))
            && (forall id :: id in s.records && s.records[id].deviceV2.None? ==>
                  id in s'.records && s'.records[id] == s.records[id])
  {
    var todo := Listing(order, s.records);
    ListingIsComplete(order, s.records, "");
    SoloPassSpec(s, now, todo, reserved);
    var s' := SoloPass(s, now, todo, Next).0;
    forall id | id in reserved
      ensures Settled(s, s', now, id, reserved[id])
    {
      ListingIsComplete(order, s.records, id);
      SettledAfterItem(s, s', now, id, reserved[id]);
    }
  }

  // ----- The same in the transition system

  /** The actions of process `pid` in an undisturbed pass. */
  function SoloSteps(s: Shared, now: nat, todo: seq<Snapshot>, pc: RecoveryPc, pid: nat): seq<Action>
    decreases |todo|, RecoveryRank(pc)
  {
    if pc.Finished? || pc.Thrown? then []
    else
      var (s', todo', pc') := RecoveryStep(s, now, todo, pc, Committed);
      [Step(pid, Committed)] + SoloSteps(s', now, todo', pc', pid)
  }

  lemma {:induction false} SoloStepsRun(w: World, now: nat, todo: seq<Snapshot>, pc: RecoveryPc, pid: nat)
    requires pid in w.processes && w.processes[pid] == Recovery(now, todo, pc)
    ensures var w' := Run(w, SoloSteps(w.shared, now, todo, pc, pid));
            w'.shared == SoloPass(w.shared, now, todo, pc).0 && w'.reserved == w.reserved
    decreases |todo|, RecoveryRank(pc)
  {
    if !pc.Finished? && !pc.Thrown? {
      var (s', todo', pc') := RecoveryStep(w.shared, now, todo, pc, Committed);
      var w1 := Apply(w, Step(pid, Committed));
      var steps := SoloSteps(s', now, todo', pc', pid);
      assert SoloSteps(w.shared, now, todo, pc, pid)[1..] == steps;
      SoloStepsRun(w1, now, todo', pc', pid);
    }
  }

  /** One pass of process `pid`, undisturbed from its start to its end. */
  ghost function RecoveryPass(w: World, pid: nat, now: nat, order: seq<LocalId>): seq<Action>
    requires Enabled(w, StartRecovery(pid, now, order))
  {
    [StartRecovery(pid, now, order)] + SoloSteps(w.shared, now, Listing(order, w.shared.records), Next, pid)
  }

  /**
   * Recovery completes: from every reachable state, one undisturbed pass settles every import. Pending
   * imports whose lease ran out end up awaiting activation with their key, or deleted with a tombstone;
   * imports being cleaned up end deleted with a tombstone; usable ones and root identities are untouched.
   */
  lemma {:induction false} RecoveryCompletes(actions: seq<Action>, pid: nat, now: nat, order: seq<LocalId>)
    requires var w := Run(INITIAL, actions); Enabled(w, StartRecovery(pid, now, order))
    ensures var w := Run(INITIAL, actions);
            var w' := Run(INITIAL, actions + RecoveryPass(w, pid, now, order));
            && w'.reserved == w.reserved
            && (forall id :: id in w.reserved ==> Settled(w.shared, w'.shared, now, id, w.reserved[id]))
            && (forall id :: id in w.shared.records && w.shared.records[id].deviceV2.None? ==>
                  id in w'.shared.records && w'.shared.records[id] == w.shared.records[id])
  {
    var w := Run(INITIAL, actions);
    var todo := Listing(order, w.shared.records);
    var steps := SoloSteps(w.shared, now, todo, Next, pid);
    RunKeeps(INITIAL, actions);
    RunConcat(INITIAL, actions, [StartRecovery(pid, now, order)] + steps);
    var w1 := Apply(w, StartRecovery(pid, now, order));
    assert ([StartRecovery(pid, now, order)] + steps)[1..] == steps;
    SoloStepsRun(w1, now, todo, Next, pid);
    PassSettles(w.shared, now, order, w.reserved);
  }

  lemma SettledIsDone(before: Shared, after: Shared, now: nat, id: LocalId, ref: KeyRef)
    requires ImportOk(before, id, ref) && Settled(before, after, now, id, ref)
    requires PhaseOf(before, id) == Pending ==> LeaseExpired(before.records[id], now)
    ensures if id in after.records then PhaseOf(after, id) == Usable && HoldsKey(after.vault, ref)
            else IsCancelled(after.vault, ref)
  {
  }

  /**
   * Nothing is left half imported: after an undisturbed pass in any reachable state, an import that is not
   * within its lease is usable with its key, or has no record and a tombstone.
   */
  lemma {:induction false} NothingLeftPending(actions: seq<Action>, pid: nat, now: nat, order: seq<LocalId>,
                                              id: LocalId)
    requires var w := Run(INITIAL, actions);
             && Enabled(w, StartRecovery(pid, now, order)) && id in w.reserved
             && (PhaseOf(w.shared, id) == Pending ==> LeaseExpired(w.shared.records[id], now))
    ensures var w := Run(INITIAL, actions);
            var w' := Run(INITIAL, actions + RecoveryPass(w, pid, now, order));
            if id in w'.shared.records then
              PhaseOf(w'.shared, id) == Usable && HoldsKey(w'.shared.vault, w.reserved[id])
            else IsCancelled(w'.shared.vault, w.reserved[id])
  {
    var w := Run(INITIAL, actions);
    RunKeeps(INITIAL, actions);
    RecoveryCompletes(actions, pid, now, order);
    SettledIsDone(w.shared, Run(INITIAL, actions + RecoveryPass(w, pid, now, order)).shared, now, id, w.reserved[id]);
  }
}
