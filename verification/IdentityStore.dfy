/**
 * The identity store of the wallet (packages/wallet-core/src/identity-store.ts): records by local id, each
 * method one IndexedDB transaction. A record's content is reduced to its subject and its v2 device part.
 */
module IdentityStore {
  import opened Common
  import opened KeyVault

  type LocalId = string

  datatype DeviceLocalState = PendingImport | ImportCleanupPending | PendingActivation | Active | Revoked

  datatype Device = Device(
    deviceId: string,
    signingPrivateKeyRef: Option<KeyRef>,
    localState: DeviceLocalState,
    importStartedAt: Option<nat>)

  datatype Record = Record(subject: string, deviceV2: Option<Device>)

  type Records = map<LocalId, Record>

  /** None is a mutation that throws. */
  type Mutation = Record -> Option<Record>

  /** `update`: nothing changes when the record is missing or the mutation throws. */
  function Updated(records: Records, id: LocalId, mutate: Mutation): Records {
    if id in records && mutate(records[id]).Some? then records[id := mutate(records[id]).value] else records
  }

  ghost predicate DeviceInstalled(records: Records, deviceId: string) {
    exists id :: id in records && records[id].deviceV2.Some? && records[id].deviceV2.value.deviceId == deviceId
  }

  ghost predicate CanReserve(records: Records, id: LocalId, record: Record) {
    record.deviceV2.Some? && !DeviceInstalled(records, record.deviceV2.value.deviceId) && id !in records
  }

  /** `reserveDeviceRecord`: refused when the device is installed under any local id. */
  ghost function Reserved(records: Records, id: LocalId, record: Record): Records {
    if CanReserve(records, id, record) then records[id := record] else records
  }

  /** An enumeration of the records, in the order that `list` happens to return them. */
  ghost predicate Lists(order: seq<LocalId>, records: Records) {
    && (forall id :: id in order <==> id in records)
    && (forall i, j :: 0 <= i < j < |order| ==> order[i] != order[j])
  }

  class Store {
    var records: Records

    constructor ()
      ensures records == map[]
    {
      records := map[];
    }

    method Get(id: LocalId) returns (record: Option<Record>)
      ensures record == if id in records then Some(records[id]) else None
    {
      record := if id in records then Some(records[id]) else None;
    }

    method List() returns (order: seq<LocalId>)
      ensures Lists(order, records)
    {
      order := [];
      var rest := records.Keys;
      while rest != {}
        invariant rest <= records.Keys
        invariant forall id :: id in order <==> id in records.Keys && id !in rest
        invariant forall i, j :: 0 <= i < j < |order| ==> order[i] != order[j]
        decreases rest
      {
        var id :| id in rest;
        order := order + [id];
        rest := rest - {id};
      }
    }

    /** None when the update throws: the record is missing or the mutation refuses. */
    method Update(id: LocalId, mutate: Mutation) returns (updated: Option<Record>)
      modifies this
      ensures records == Updated(old(records), id, mutate)
      ensures updated == if id in old(records) then mutate(old(records)[id]) else None
    {
      if id !in records {
        return None;
      }
      updated := mutate(records[id]);
      if updated.Some? {
        records := records[id := updated.value];
      }
    }

    method Delete(id: LocalId)
      modifies this
      ensures records == old(records) - {id}
    {
      records := records - {id};
    }

    /** False is the source's REGISTRY_CONFLICT, a failing `add`, or a record without a device part. */
    method ReserveDeviceRecord(id: LocalId, record: Record) returns (reserved: bool)
      modifies this
      ensures records == Reserved(old(records), id, record)
      ensures reserved <==> CanReserve(old(records), id, record)
    {
      if record.deviceV2.None? {
        return false;
      }
      var order := List();
      for i := 0 to |order|
        invariant forall k :: 0 <= k < i ==>
          records[order[k]].deviceV2.Some? ==>
            records[order[k]].deviceV2.value.deviceId != record.deviceV2.value.deviceId
      {
        var existing := records[order[i]];
        if existing.deviceV2.Some? && existing.deviceV2.value.deviceId == record.deviceV2.value.deviceId {
          return false;
        }
      }
      assert !DeviceInstalled(records, record.deviceV2.value.deviceId);
      if id in records {
        return false;
      }
      records := records[id := record];
      reserved := true;
    }
  }
}
