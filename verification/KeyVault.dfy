/**
 * The key vault of the wallet (packages/wallet-core/src/key-vault.ts): one object store from references
 * to stored records, each method one IndexedDB transaction. Key material itself is not modelled.
 */
module KeyVault {
  import opened Common

  type KeyRef = string

  datatype VaultRecord = SigningKey | AgreementKey | DeviceSigningKey | RevocationSecret | CancelledDeviceKeyRef

  type VaultRecords = map<KeyRef, VaultRecord>

  /** `#add`: an object-store `add`, refused when the reference is already used, by a key or by a tombstone. */
  function Added(records: VaultRecords, ref: KeyRef, entry: VaultRecord): VaultRecords {
    if ref in records then records else records[ref := entry]
  }

  predicate CanCancel(records: VaultRecords, ref: KeyRef) {
    ref in records ==> records[ref].DeviceSigningKey? || records[ref].CancelledDeviceKeyRef?
  }

  /** `#cancelDeviceSigningKeyRef`: overwrite with a tombstone, unless another key role lives there. */
  function Cancelled(records: VaultRecords, ref: KeyRef): VaultRecords {
    if CanCancel(records, ref) then records[ref := CancelledDeviceKeyRef] else records
  }

  /** `#deleteUnlessCancelled` */
  function DeletedUnlessCancelled(records: VaultRecords, ref: KeyRef): VaultRecords {
    if IsCancelled(records, ref) then records else records - {ref}
  }

  predicate HoldsKey(records: VaultRecords, ref: KeyRef) {
    ref in records && !records[ref].RevocationSecret? && !records[ref].CancelledDeviceKeyRef?
  }

  predicate IsCancelled(records: VaultRecords, ref: KeyRef) {
    ref in records && records[ref].CancelledDeviceKeyRef?
  }

  class Vault {
    var records: VaultRecords

    constructor ()
      ensures records == map[]
    {
      records := map[];
    }

    /** False is the source's REGISTRY_CONFLICT. */
    method Add(ref: KeyRef, entry: VaultRecord) returns (stored: bool)
      modifies this
      ensures records == Added(old(records), ref, entry)
      ensures stored <==> ref !in old(records)
    {
      stored := ref !in records;
      if stored {
        records := records[ref := entry];
      }
    }

    /** False is the source's STORAGE_ERROR. */
    method CancelDeviceSigningKeyRef(ref: KeyRef) returns (cancelled: bool)
      modifies this
      ensures records == Cancelled(old(records), ref)
      ensures cancelled <==> CanCancel(old(records), ref)
      ensures cancelled ==> IsCancelled(records, ref)
    {
      if ref in records && records[ref] != DeviceSigningKey && records[ref] != CancelledDeviceKeyRef {
        return false;
      }
      records := records[ref := CancelledDeviceKeyRef];
      cancelled := true;
    }

    method DeleteKey(ref: KeyRef)
      modifies this
      ensures records == DeletedUnlessCancelled(old(records), ref)
    {
      if !(ref in records && records[ref] == CancelledDeviceKeyRef) {
        records := records - {ref};
      }
    }

    method HasKey(ref: KeyRef) returns (present: bool)
      ensures present <==> HoldsKey(records, ref)
    {
      present := ref in records && records[ref] != RevocationSecret && records[ref] != CancelledDeviceKeyRef;
    }
  }

  // ----- A cancelled reference stays cancelled, whatever is done to the vault afterwards

  datatype VaultOperation =
    | AddOp(ref: KeyRef, entry: VaultRecord)
    | CancelOp(ref: KeyRef)
    | DeleteOp(ref: KeyRef)

  function Perform(records: VaultRecords, op: VaultOperation): VaultRecords {
    match op
    case AddOp(ref, entry) => Added(records, ref, entry)
    case CancelOp(ref) => Cancelled(records, ref)
    case DeleteOp(ref) => DeletedUnlessCancelled(records, ref)
  }

  function PerformAll(records: VaultRecords, ops: seq<VaultOperation>): VaultRecords
    decreases |ops|
  {
    if ops == [] then records else PerformAll(Perform(records, ops[0]), ops[1..])
  }

  /** No later addition, cancellation or deletion, in any order, revives a tombstoned reference. */
  lemma {:induction false} TombstonesAreForever(records: VaultRecords, ops: seq<VaultOperation>, ref: KeyRef)
    requires IsCancelled(records, ref)
    ensures IsCancelled(PerformAll(records, ops), ref)
    ensures !HoldsKey(PerformAll(records, ops), ref)
    decreases |ops|
  {
    if ops != [] {
      TombstonesAreForever(Perform(records, ops[0]), ops[1..], ref);
    }
  }
}
