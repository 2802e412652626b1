# Nexus: a verified model

This project models the parts of Nexus that have to be right under concurrency, crashes and hostile
input, and proves what they promise. Nexus is an identity system: a registry object per subject is the
authority on the life cycle of an identity and its devices, a projector copies the registry's events from
two queues into D1, an edge signs status statements, wallets import device keys, a verifier checks Merkle
proofs of a transparency log, and a reference relying party keeps notes behind single-use challenges.

Five components are modelled, each in the form its code has: classes whose methods change tables or a
cursor, loops with invariants, and functions where the code computes.

1. **Merkle inclusion** (`ByteOperations`, `TreeShape`, `MerkleTree`, `InclusionProof`). The verifier's
   bottom-up shift loop agrees with the top-down tree of sections 2.1 and 2.1.1 of RFC 6962 on every
   path. Soundness is stated by exhibiting a hash collision; completeness holds exactly up to 2^31 leaves,
   because the loop shifts 32-bit integers.
2. **Device-key import in the wallet** (`KeyVault`, `IdentityStore`, `WalletImport`, `WalletRecovery`).
   Importers, recovery passes and activations in any number of tabs, one step per IndexedDB transaction,
   with aborts, lost confirmations and crashes anywhere.
3. **The registry object** (`RegistryEvents`, `Registry`, `RegistryObject`, `RegistryRuns`,
   `RegistryTheorems`, `RegistryAuthority`, `RegistryAnswers`, `DeviceStatus`, `StatusPipeline`, `Outbox`,
   `OutboxRuns`). Device handlers are serialized, registration and identity revocation are not and may commit
   between a device handler's reads and its transaction. The outbox loop runs beside kicks, alarms and
   crashes.
4. **The projector** (`IdentityProjection`, `DeviceProjection`, `ProjectorRuns`, `ProjectorProgress`,
   `EndToEnd`). Handlers of both queues interleave statement by statement; messages are repeated and
   reordered. `EndToEnd` composes the registry with the projector.
5. **Strict JSON, base64url and the relying party** (`StrictJson`, `JsonText`, `JsonGrammar`, `Base64Url`,
   `Challenges`, `Notes`).

What the models take as given: signatures and hash comparisons are boolean inputs; `hash` is a function
that may reject (`None` is a rejected promise), and only the theorems about trees need it to return 32
bytes; an event or an operation stands for its own identifier, which is a hash of its content together
with the subject; a database transaction or batch is one step and rolls back when it throws; clocks are
inputs; freshly generated random identifiers do not repeat.

Where the code does less than one might expect, the exact condition is proved:

- Honest inclusion proofs are all accepted if and only if the tree has at most 2^31 leaves:
  `InclusionProof.CompleteExactlyUpToTwo31`.
- The constant-time comparison is exact if and only if the two lengths are equal or differ as 32-bit words:
  `ByteOperations.ComparisonExactIff`.
- Under interleaving, the edge can reject a status that the registry itself computed: a revocation that
  reads the clock, yields, and commits after a later activation leaves a revocation time before the
  activation time. `DeviceStatus.PipelineAcceptsIff` gives the condition,
  `StatusPipeline.StatusRaceIsReachable` a run, `StatusPipeline.HonestRegistryNeverRejected` the
  guarantee when calls are served one at a time.
- The projected activation time is lost exactly when a device's revocation is materialized before its
  activation: `DeviceProjection.ActivatedAtIff`, `EndToEnd.ActivationTimeLost`.
- A crash loses an outbox wake-up, until the next request, exactly when rows are unpublished and no alarm
  is set or running: `OutboxRuns.CrashLosesWakeUpIff`.

Run `dafny verify dfyconfig.toml` to check everything.

## Model

| member | source | states |
|---|---|---|
| ByteOperations.ConcatBytes | packages/verifier/src/transparency.ts:17-26 | The buffer filled by moving an offset holds the parts one after the other and nothing else. |
| ByteOperations.ConstantTimeEqual | packages/crypto/src/bytes.ts:32-43 | The accumulated difference is zero exactly when the lengths agree as 32-bit words and the bytes agree up to zero padding: for lengths below 2^32, exactly when the byte strings are equal. |
| ByteOperations.ComparisonExactIff | packages/crypto/src/bytes.ts:32-43 | For two lengths the answer is equality of contents, whatever the bytes, if and only if the lengths are equal or differ as 32-bit words. |
| TreeShape.SplitIsLargestPowerOfTwo | packages/verifier/src/transparency.ts:66-94 | The split point of the recursion is the largest power of two below n, as section 2.1 of RFC 6962 asks. |
| TreeShape.PathLengthBound | packages/verifier/src/transparency.ts:67-98 | The number of proof nodes is fixed by index and size and is at most ceil(log2 n). |
| TreeShape.RootFromLength | packages/verifier/src/transparency.ts:67-98 | The top-down root claim exists only for a path of exactly that number of nodes. |
| TreeShape.JoinSibling | packages/verifier/src/transparency.ts:74-94 | Joining the bottom sibling of a pair turns a claim about a tree into the same claim about the next level up. |
| TreeShape.MoveUpAlone | packages/verifier/src/transparency.ts:79-94 | The last node of an odd level moves up unchanged, for unbalanced trees of any size. |
| MerkleTree.AuditPathGivesRoot | packages/verifier/src/transparency.ts:4-38 | Folding a leaf hash through the audit path of section 2.1.1 of RFC 6962 with the verifier's prefixes gives the tree hash of section 2.1, with its 0x00 and 0x01. |
| MerkleTree.RootBindsEntry | packages/verifier/src/transparency.ts:28-38 | A path that folds an entry into the tree hash shows that leaf's entry, or exhibits two inputs with one hash. |
| InclusionProof.VerifyInclusionProof | packages/verifier/src/transparency.ts:47-102 | The two nested loops with 32-bit shifts terminate on every input and answer what `Accepts` says. |
| InclusionProof.ToInt32IsSignedWord | packages/verifier/src/transparency.ts:79-94 | The operands of the bitwise operators are signed 32-bit words, congruent modulo 2^32. |
| InclusionProof.AcceptedInput | packages/verifier/src/transparency.ts:55-78 | Whatever the hash function, only 32-byte values are accepted, at a position inside a tree of safe size. |
| InclusionProof.OnlyDigestsCount | packages/verifier/src/transparency.ts:64-92 | A hash of any other length than 32 bytes is refused wherever it turns up, like a rejected one. |
| InclusionProof.FoldIsRootFrom | packages/verifier/src/transparency.ts:67-98 | For every position in every tree of at most 2^31 leaves and every path, honest or not, the bottom-up loop computes the top-down root claim. |
| InclusionProof.Soundness | packages/verifier/src/transparency.ts:47-102 | An accepted proof against the tree hash shows the entry at that index, or gives away a collision computed from the proof. |
| InclusionProof.Completeness | packages/verifier/src/transparency.ts:47-102 | The honest audit path of every leaf of every tree of at most 2^31 leaves is accepted. |
| InclusionProof.LeftmostProofRejected | packages/verifier/src/transparency.ts:80-94 | Above 2^31 leaves the honest proof of the first leaf is rejected, whatever the hash. |
| InclusionProof.CompleteExactlyUpToTwo31 | packages/verifier/src/transparency.ts:80-94 | All honest proofs are accepted if and only if the tree has at most 2^31 leaves. |
| KeyVault.Vault.Add | packages/wallet-core/src/key-vault.ts:381-399 | Adds under an unused reference only; a used one, key or tombstone, is refused and kept. |
| KeyVault.Vault.CancelDeviceSigningKeyRef | packages/wallet-core/src/key-vault.ts:261-290 | Leaves a tombstone at a free or device-key reference, and refuses every other key role. |
| KeyVault.Vault.DeleteKey | packages/wallet-core/src/key-vault.ts:414-428 | Deletes anything but a tombstone. |
| KeyVault.Vault.HasKey | packages/wallet-core/src/key-vault.ts:348-355 | Says whether a usable key is stored; neither secrets nor tombstones count. |
| KeyVault.TombstonesAreForever | packages/wallet-core/src/key-vault.ts:261-428 | No sequence of additions, cancellations and deletions revives a tombstoned reference. |
| IdentityStore.Store.Update | packages/wallet-core/src/identity-store.ts:97-131 | Applies the mutation to the stored record atomically and reports what was stored, or changes nothing. |
| IdentityStore.Store.ReserveDeviceRecord | packages/wallet-core/src/identity-store.ts:141-167 | Inserts a reservation only if neither the local id nor the device is taken. |
| IdentityStore.Store.List | packages/wallet-core/src/identity-store.ts:46-57 | Lists every record exactly once. |
| WalletImport.ApplyKeeps | packages/wallet-core/src/wallet-core.ts:828-988 | Every transaction of every process, and every crash, keeps the import invariant and takes nothing back. |
| WalletImport.ImportSafety | packages/wallet-core/src/wallet-core.ts:922-988 | In every interleaving and with crashes anywhere, a reserved import without a record is tombstoned and a usable record has its key. |
| WalletImport.NoKeyWithoutRecord | packages/wallet-core/src/wallet-core.ts:922-988 | A stored import key is named by its own record and by no other. |
| WalletImport.OneRecordPerDevice | packages/wallet-core/src/identity-store.ts:141-167 | However imports race, a device is installed at most once. |
| WalletImport.PromotedIsNeverLost | packages/wallet-core/src/wallet-core.ts:1513-1620 | Once an import is usable, no recovery pass acting on a stale listing or key check, and no cleanup, deletes its record or key. |
| WalletImport.DeletedStaysDeleted | packages/wallet-core/src/wallet-core.ts:1513-1630 | A deleted import never comes back and its reference never holds a key again. |
| WalletImport.RecordsAreImports | packages/wallet-core/src/wallet-core.ts:922-960 | In every interleaving a record with a device part has the subject, device and key reference its import was started with, and its start time until it is promoted. |
| WalletImport.ActivationIsRecorded | packages/wallet-core/src/wallet-core.ts:1033-1059 | An activation goes on exactly for a record with a key that is usable, and ends with the record active and otherwise as it was. |
| WalletRecovery.WalletCore.ImportDeviceTransfer | packages/wallet-core/src/wallet-core.ts:922-988 | Undisturbed, an import succeeds exactly for a matching key under unused ids and an uninstalled device; the record then names its subject, device and key and awaits activation. Otherwise nothing is left but a tombstone, or a record marked for cleanup where another role holds the reference. |
| WalletRecovery.WalletCore.CleanUpFailedImport | packages/wallet-core/src/wallet-core.ts:969-988 | Undisturbed, the catch block claims, tombstones and deletes as its steps do. |
| WalletRecovery.WalletCore.RecoverPendingDeviceImports | packages/wallet-core/src/wallet-core.ts:1513-1572 | The loop over a listing of all records has the effect of an undisturbed pass of the transition system, and reports whether it threw. |
| WalletRecovery.UndisturbedImport | packages/wallet-core/src/wallet-core.ts:922-988 | Under fresh references an import ends installed with its key, or removed with a tombstone and the records as before. |
| WalletRecovery.PassSettles | packages/wallet-core/src/wallet-core.ts:1513-1572 | A pass over a sound wallet finishes and settles every import according to its phase, lease and key. |
| WalletRecovery.RecoveryCompletes | packages/wallet-core/src/wallet-core.ts:1513-1572 | From every reachable state one undisturbed pass settles every import and touches nothing else. |
| WalletRecovery.NothingLeftPending | packages/wallet-core/src/wallet-core.ts:1513-1572 | After an undisturbed pass in any reachable state, every import that is not within its lease is usable with its key, or deleted with a tombstone. |
| RegistryObject.IdentityState.Register | workers/registry/src/identity-state-do.ts:138-223 | The handler, undisturbed, is its preparation followed by its transaction; on an empty object it leaves and answers the registered row and its event. |
| RegistryObject.IdentityState.RegisterTransaction | workers/registry/src/identity-state-do.ts:175-216 | Inserts row, action and outbox event, or answers for the row that won the race; a refused insert rolls back. |
| RegistryObject.IdentityState.Revoke | workers/registry/src/identity-state-do.ts:533-623 | Both revocation handlers, undisturbed. |
| RegistryObject.IdentityState.RevokeTransaction | workers/registry/src/identity-state-do.ts:640-695 | Revokes an active row at its sequence and journals the event, or answers for the row as it is. |
| RegistryObject.IdentityState.ActivateDevice | workers/registry/src/identity-state-do.ts:277-426 | The handler's statements, undisturbed, are its preparation followed by its transaction. |
| RegistryObject.IdentityState.RevokeDeviceSelf | workers/registry/src/identity-state-do.ts:428-482 | The same for a revocation signed by the device. |
| RegistryObject.IdentityState.RevokeDeviceRoot | workers/registry/src/identity-state-do.ts:484-531 | The same for a revocation signed by the root key. |
| RegistryObject.IdentityState.FinishDeviceRevocation | workers/registry/src/identity-state-do.ts:742-871 | The shared second half reads the device, the journal and the ledger, then commits, or answers for the row or the journalled event. |
| RegistryObject.IdentityState.ActivationTransaction | workers/registry/src/identity-state-do.ts:370-420 | Re-reads identity, device and ledger, then inserts device, ledger value, operation and event together or not at all. |
| RegistryObject.IdentityState.DeviceRevocationTransaction | workers/registry/src/identity-state-do.ts:800-868 | The same for a revocation, which inserts a revoked row or revokes an active one. |
| RegistryObject.IdentityState.InsertActionAndOutbox | workers/registry/src/identity-state-do.ts:1048-1072 | Inserts the action and its outbox row, refused by either key. |
| RegistryObject.IdentityState.InsertDeviceOperationAndOutbox | workers/registry/src/identity-state-do.ts:1074-1103 | Inserts the operation and its outbox row, refused by either key. |
| RegistryRuns.RowReflectsEvents | workers/registry/src/identity-state-do.ts:389-413 | The fold of a device's events in ledger order has exactly the fields of its activation and revocation events. |
| RegistryRuns.ApplyKeeps | workers/registry/src/identity-state-do.ts:138-871 | Every handler step, in any interleaving and across restarts, keeps the registry invariant. |
| RegistryTheorems.EventSourcing | workers/registry/src/identity-state-do.ts:1074-1103 | The ledger value counts operations and outbox rows, events carry 1..n once each, and every device row is the fold of its events. |
| RegistryTheorems.DeviceHistories | workers/registry/src/identity-state-do.ts:742-871 | A device has at most one activation and one revocation, in that order and for one authorization. |
| RegistryTheorems.Terminality | workers/registry/src/identity-state-do.ts:657-691 | Whatever happens later, nothing revoked becomes active and no committed row or event is rewritten. |
| RegistryTheorems.RevocationFreezesDevices | workers/registry/src/identity-state-do.ts:370-374 | After an identity revocation no device event commits, even when it lands between a device handler's reads and its transaction. |
| RegistryTheorems.RootRevokedNeverActivated | workers/registry/src/identity-state-do.ts:308-313 | A device revoked before its activation is never activated. |
| RegistryTheorems.DeviceHandlersNeverThrow | workers/registry/src/identity-state-do.ts:315-321 | On reachable states no device handler misses a row or event or has an insert refused. |
| RegistryTheorems.ReplayAnswersOriginal | workers/registry/src/identity-state-do.ts:308-321 | An operation that was carried out and is sent again, at any later time, changes nothing: once the identity is revoked it is refused, so is an activation of a revoked device, and otherwise the answer is its original event. |
| RegistryTheorems.IdentityHandlersIdempotent | workers/registry/src/identity-state-do.ts:138-664 | Registering again and revoking again, planned before or not, answer with the one event of the current state and change nothing. |
| RegistryAnswers.FirstRegistration | workers/registry/src/identity-state-do.ts:138-223 | While there is no identity, each planned registration commits its own row, journal entry and outbox event and answers with them; a rejected one is refused with its code. |
| RegistryAnswers.RevocationAnswers | workers/registry/src/identity-state-do.ts:533-695 | An identity revocation is refused for an unknown subject, a sequence other than 0 or a failed verification, and otherwise answers with the revoked row and its event. |
| RegistryAnswers.ActivationAnswers | workers/registry/src/identity-state-do.ts:277-368 | On reachable states, every answer of an activation and when it is given: each refusal, the device's activation event, or a plan of an event with exactly the request's data. |
| RegistryAnswers.DeviceRevocationAnswers | workers/registry/src/identity-state-do.ts:428-798 | The same for both device revocations; a planned event names the row's authorization, or else the request's. |
| RegistryAnswers.DeviceCommitAnswers | workers/registry/src/identity-state-do.ts:370-420 | A planned device event commits with its row, journal entry, ledger value and outbox row and is the answer, or the identity was revoked meanwhile and nothing changes. |
| RegistryAnswers.ActivationCommitRefusals | workers/registry/src/identity-state-do.ts:370-400 | Whatever the tables hold when an activation commits, each refusal and answer of its transaction and when it is given. |
| RegistryAnswers.DeviceRevocationCommitRefusals | workers/registry/src/identity-state-do.ts:800-822 | The same for the transaction of a device revocation. |
| RegistryAnswers.IdentityCommitRefusals | workers/registry/src/identity-state-do.ts:175-216 | The same for the refusals of registration and identity revocation, and a missing event is an internal error. |
| RegistryAnswers.CommitsAreAtomic | workers/registry/src/identity-state-do.ts:175-216 | Whatever the tables hold, a transaction that answers with an error leaves them as they were. |
| RegistryAuthority.NothingWithoutAuthority | workers/registry/src/identity-state-do.ts:277-531 | In every interleaving, every committed device event goes back to a request with all its signatures verified, timely when its handler read the clock; the identity's registration and revocation go back to verified requests too. |
| RegistryAuthority.CarriedOutIff | workers/registry/src/identity-state-do.ts:277-420 | An undisturbed device request is carried out if and only if it is signed, timely, well proportioned and admissible; otherwise nothing changes. |
| RegistryAuthority.PlannedIff | workers/registry/src/identity-state-do.ts:280-349 | The ladder of refusals lets through exactly those requests. |
| DeviceStatus.ActiveMeans | workers/registry/src/identity-state-do.ts:972-1007 | A status is active exactly when the history holds an unexpired activation under that authorization, no revocation of the device, and the identity is active. |
| DeviceStatus.AcceptedIsSigned | workers/edge-api/src/index.ts:1079-1126 | What the edge accepts is about the device it asked for and is signed as it stands, except that a lapsed authorization is shown as expired; it satisfies the wire schema and lasts for the configured time, cut off at an active authorization's expiry. |
| DeviceStatus.SchemaAgreesWithEdge | packages/protocol/src/schemas.ts:804-885 | Of a status, the schema of the statement checks just what the edge checks. |
| DeviceStatus.StatusMeans | workers/registry/src/identity-state-do.ts:972-1007 | A status names its identity, device, authorization and the current ledger; its state and each of its times are those of the events in the history. |
| DeviceStatus.StatusAcceptedIff | workers/edge-api/src/index.ts:904-950 | For rows whose times are in order the edge check fails only on an activation after the identity's revocation. |
| DeviceStatus.RunClocked | workers/registry/src/identity-state-do.ts:774-775 | Serialized device handlers commit events in the order of their clock readings. |
| DeviceStatus.PipelineAcceptsIff | workers/edge-api/src/index.ts:904-950 | In every interleaving the edge accepts a status if and only if the identity was not revoked at a time before the shown activation. |
| StatusPipeline.HonestRegistryNeverRejected | packages/protocol/src/schemas.ts:804-885 | With calls one at a time and a clock that never goes back, every status passes the edge and the wire schema and is conveyed under its own identifiers, and active statements respect the expiry. |
| StatusPipeline.LateRevocationRejected | workers/registry/src/identity-state-do.ts:644-675 | A revocation whose clock reading precedes a committed activation makes every later status of that device unacceptable. |
| StatusPipeline.StatusRaceIsReachable | workers/registry/src/identity-state-do.ts:644-675 | Such a run exists. |
| Outbox.RetryDelays | workers/registry/src/identity-state-do.ts:1197-1198 | The delay starts at 2 s, doubles through the eighth attempt, is 300 s from the ninth, and never decreases. |
| Outbox.OldestIs | workers/registry/src/identity-state-do.ts:1136-1151 | The row sent next is unpublished and the oldest, with the lowest event id among equals. |
| Outbox.Flusher.FlushPendingOutbox | workers/registry/src/identity-state-do.ts:1135-1216 | Publishes only delivered rows, returns drained with no alarm or with the alarm of the failed attempt, and with deliveries and no arrivals ends after sending every unpublished row exactly once. |
| Outbox.Flusher.Attempt | workers/registry/src/identity-state-do.ts:1172-1214 | Counts an attempt on the oldest unpublished row, then marks it or sets the alarm; no other row changes. |
| Outbox.Flusher.EnsureAlarm | workers/registry/src/identity-state-do.ts:1218-1223 | An alarm no later than the given time is set afterwards, and an earlier one is kept. |
| OutboxRuns.RunHonest | workers/registry/src/identity-state-do.ts:1126-1216 | Over every run with failures, crashes and arrivals: published rows were accepted by the queue, no row is lost or unpublished again, sends are at most the counted attempts. |
| OutboxRuns.NoLostWakeUp | workers/registry/src/identity-state-do.ts:1117-1168 | When nothing runs any more, unpublished rows have an alarm, provided crashes found one. |
| OutboxRuns.CrashLosesWakeUpIff | workers/registry/src/identity-state-do.ts:1117-1168 | A crash loses the wake-up exactly when rows are unpublished and no alarm is set or running, which needs a kick or the loop to be about to set one; the next request restores it. |
| OutboxRuns.CrashCanLoseWakeUp | workers/registry/src/identity-state-do.ts:1117-1124 | Such a crash exists: between a commit and its kick's alarm. |
| OutboxRuns.KickGoesThrough | workers/registry/src/identity-state-do.ts:1117-1133 | An undisturbed kick sees to an alarm by its time, keeps an earlier one, and has the loop running. |
| OutboxRuns.AlarmWakesLoop | workers/registry/src/identity-state-do.ts:626-638 | An alarm that fires is used up and has the loop running. |
| OutboxRuns.LateRowIsNoticed | workers/registry/src/identity-state-do.ts:1154-1169 | A row committed while the alarm is being deleted gets an alarm within two seconds, and the loop goes on. |
| OutboxRuns.UndisturbedFlush | workers/registry/src/identity-state-do.ts:1135-1216 | With accepted sends and nothing else happening, every flush can go on until it has taken three steps for each unpublished row and three more, and has then returned with every row published and sent exactly once, and no alarm. |
| OutboxRuns.AttemptAccepted | workers/registry/src/identity-state-do.ts:1172-1214 | Selecting, sending and marking, with commits while the send is pending, do to rows, alarm and sends what `Flusher.Attempt` promises for a delivered send. |
| OutboxRuns.AttemptRejected | workers/registry/src/identity-state-do.ts:1172-1201 | A failed send does what `Flusher.Attempt` promises for it: the loop ends with the alarm at the retry delay of the counted attempts. |
| IdentityProjection.Database.ApplyRegistration | workers/projector/src/projection.ts:32-138 | The five statements in order are one batch: applied as a whole, or not at all when a constraint refuses or the genesis differs. |
| IdentityProjection.Database.DrainPending | workers/projector/src/projection.ts:75-137 | Applies the parked revocation that fits, records it and removes it from the parking table. |
| IdentityProjection.Database.ApplyRevocation | workers/projector/src/projection.ts:145-225 | The same for a revocation, which is parked while its identity is unknown. |
| IdentityProjection.DeliverRepresents | workers/projector/src/projection.ts:32-225 | One more delivery keeps the three tables at the closed form of the set delivered, and does not fail. |
| IdentityProjection.ProjectionIsClosedForm | workers/projector/src/projection.ts:32-225 | For every sequence of deliveries of any number of subjects the tables are a closed form of the set; the parking table holds exactly the revocations whose registration has not arrived. |
| IdentityProjection.SameSetSameTables | workers/projector/src/projection.ts:32-225 | Order and duplicates make no difference to any of the three tables. |
| IdentityProjection.RevocationTakesEffect | workers/projector/src/projection.ts:145-225 | Whatever the tables hold, a revocation of a known identity applies to an active row of its genesis and preceding sequence, is recorded once reached, and is then no longer parked. |
| IdentityProjection.ConflictsFail | workers/projector/src/projection.ts:32-225 | A delivery of another genesis, or of another event for a taken slot or parking place, fails. |
| DeviceProjection.DeviceDatabase.MaterializeDeviceEvent | workers/projector/src/device-projection.ts:117-186 | The two upserts are the materialization; nothing happens without the identity, and a differing genesis fails. |
| DeviceProjection.DeviceDatabase.ApplyDeviceRegistryEvent | workers/projector/src/device-projection.ts:188-195 | An honest event is stored, and materialized if its identity is projected; one of another genesis, or that takes another's operation or ledger sequence, fails and changes nothing. |
| DeviceProjection.DeviceDatabase.ReconcileDeviceEventsForIdentity | workers/projector/src/device-projection.ts:198-218 | Materializes exactly the subject's stored events, in ledger order. |
| DeviceProjection.MaterializeReflects | workers/projector/src/device-projection.ts:135-185 | Rows and heads stay the closed form of the events materialized so far. |
| DeviceProjection.OrderInsensitive | workers/projector/src/device-projection.ts:135-185 | The same events in any order and number give the same heads and, activation time apart, the same rows; each row has every field from its highest-ledger event, and so has each head. |
| DeviceProjection.StoredIff | workers/projector/src/device-projection.ts:85-115 | Storing fails exactly for a new event that takes the operation or the ledger sequence of another one. |
| DeviceProjection.UpsertKeepsTheRest | workers/projector/src/device-projection.ts:135-157 | A later event leaves genesis and activation time and what it does not tell; an earlier event, or any on a revoked row, changes nothing. |
| DeviceProjection.ActivatedAtIff | workers/projector/src/device-projection.ts:143-157 | A row has an activation time, and then the right one, exactly when the activation was materialized first; every row meets the table's constraint. |
| ProjectorRuns.ApplyKeeps | workers/projector/src/device-projection.ts:117-218 | Every database step of every handler keeps the projector's invariant. |
| ProjectorRuns.NoLostDeviceEvent | workers/projector/src/device-projection.ts:188-217 | In every interleaving, once a device event and its subject's registration have each had a completed handler, the event is materialized. |
| ProjectorRuns.IdentitiesAreClosedForm | workers/projector/src/projection.ts:36-142 | In every interleaving the identity tables are the closed form of the batches applied, and completed messages were applied. |
| ProjectorRuns.HandlersNeverThrow | workers/projector/src/device-projection.ts:41-115 | No honest delivery fails a check or violates a constraint, foreign keys included. |
| ProjectorRuns.ForeignGenesisRefused | workers/projector/src/device-projection.ts:41-83 | A message of another genesis than the projected identity or a stored device event has no effect. |
| ProjectorProgress.CanCatchUp | workers/projector/src/device-projection.ts:188-217 | From every reachable state, whatever handlers stopped half way, some deliveries and steps complete every message the objects emitted. |
| EndToEnd.SourcesAreHonest | workers/registry/src/identity-state-do.ts:1048-1103 | What registry objects put into their outboxes is what the projector's theorems ask of its queues. |
| EndToEnd.ProjectionAgrees | workers/projector/src/device-projection.ts:117-186 | After every outbox row of an object has had one completed handler, in any order and number, D1 shows its identity, every device with genesis and last change, the head of its ledger and all its events, activation times apart. |
| EndToEnd.ActivationTimeLost | workers/projector/src/device-projection.ts:151-151 | The same two events in the two orders differ in exactly the activation time. |
| StrictJson.Scanner.ReadStringLiteral | workers/edge-api/src/index.ts:547-568 | The cursor loop finds the closing quote and unescapes what is between, or fails. |
| StrictJson.Scanner.ScanValueAtCursor | workers/edge-api/src/index.ts:570-632 | The recursive cursor scanner terminates on every text and agrees with the scan of the text that is left. |
| StrictJson.Scanner.ScanText | apps/reference-rp/worker/reference-rp-state.ts:1330-1332 | Accepts exactly when the scan ends at the end of the text. |
| StrictJson.Scanner.ScanNonEmptyText | workers/edge-api/src/index.ts:537-636 | The copy that refuses the empty text up front accepts the same texts. |
| JsonText.CharactersAreThoseOfJson | workers/edge-api/src/index.ts:540-627 | Structural characters, white space, token ends and two-character escapes are those of RFC 8259. |
| JsonText.HexDigitsAreThoseOfJson | workers/edge-api/src/index.ts:558-562 | Hexadecimal escapes, in either case, name the unit with that number. |
| JsonText.ReadPrinted | workers/edge-api/src/index.ts:547-568 | A string written with any legal escapes is read back as its value. |
| JsonText.ScanMembersPrinted | workers/edge-api/src/index.ts:576-597 | The member loop of a printed object fails exactly on a repeated key or a failing value. |
| JsonText.ScanPrinted | workers/edge-api/src/index.ts:570-632 | The scan of a printed value stops right behind it, or fails exactly when some object in it repeats a key. |
| JsonText.AcceptsExactlyUniqueKeys | apps/reference-rp/worker/reference-rp-state.ts:1245-1334 | For every JSON text, with any white space and escapes, acceptance is equivalent to pairwise distinct unescaped keys at every depth. |
| JsonGrammar.ParseValue | apps/reference-rp/worker/reference-rp-state.ts:1266-1328 | What the scanner consumes is always white space and one printed value. |
| JsonGrammar.AcceptsExactlyUniqueJson | apps/reference-rp/worker/reference-rp-state.ts:1245-1334 | A text is accepted if and only if it is a JSON text, with literals and numbers read as plain tokens, whose objects repeat no key at any depth; anything behind the value is refused. |
| Challenges.SessionState.IssueChallenge | apps/reference-rp/worker/reference-rp-state.ts:209-262 | Drops expired challenges and adds one, or is refused at capacity and rolled back. |
| Challenges.IssuedIff | apps/reference-rp/worker/reference-rp-state.ts:227-247 | A challenge is issued exactly when fewer than 2048 have not expired, fewer than 512 of them are unused, and none has its id or nonce. |
| Challenges.IssuedAdds | apps/reference-rp/worker/reference-rp-state.ts:228-260 | Then it is there for a minute, expired ones are gone, and nothing else changes. |
| Challenges.SessionState.CommitStartedSession | apps/reference-rp/worker/reference-rp-state.ts:398-490 | Consumes a usable, unchanged challenge and adds receipt and session, or changes nothing. |
| Challenges.SingleUse | apps/reference-rp/worker/reference-rp-state.ts:411-489 | Over every interleaving each challenge starts at most one session with one receipt, before its expiry; the table keeps both limits. |
| Challenges.NoSessionWithoutProof | apps/reference-rp/worker/reference-rp-state.ts:264-490 | Every session and every receipt is that of a start whose proof was verified on an issued challenge, and carries its subject, proof and signer, and the challenge's action and resource. |
| Challenges.SecondCommitRefused | apps/reference-rp/worker/reference-rp-state.ts:412-446 | Of two starts prepared on one challenge the second is refused, whatever its clock reads. |
| Challenges.UsableStartCommits | apps/reference-rp/worker/reference-rp-state.ts:411-489 | A start goes through exactly while its challenge is there, unused, unexpired and bound as expected and its receipt and token are new; then all three tables change as stated and nothing else does. |
| Challenges.ChallengeStartsSession | apps/reference-rp/worker/reference-rp-state.ts:209-490 | A challenge that is issued, then proved and committed within its minute, starts a session of five minutes. |
| Notes.NotesState.CommitSessionOperation | apps/reference-rp/worker/reference-rp-state.ts:589-776 | All branches of the transaction, with their refusals, against the specification. |
| Notes.StateFollowsLog | apps/reference-rp/worker/reference-rp-state.ts:589-776 | Over all runs every note, reply and profile is what the accepted requests made of it, field by field; replies and likes refer to notes, a version is 1 plus the accepted edits, and a lower-cased name belongs to one subject. |
| Notes.RefusedIff | apps/reference-rp/worker/reference-rp-state.ts:594-767 | When a request is refused and with which error, and that the receipt quotes the version of the note as it then is. |
| Notes.AcceptedIsLogged | apps/reference-rp/worker/reference-rp-state.ts:589-776 | An accepted request takes effect, provided that the identifier generated for it is new. |
| Notes.ShownIff | apps/reference-rp/worker/reference-rp-state.ts:840-910 | A note is shown as it is, with its replies, to everyone if public and to its author if private. |
| Notes.OneChangePerVersion | apps/reference-rp/worker/reference-rp-state.ts:657-693 | Two edits or deletions that quote the same version of a note cannot both succeed. |
| Notes.LikeCount | apps/reference-rp/worker/reference-rp-state.ts:869-910 | A view counts the subjects whose last like or unlike is a like, and tells the viewer's own. |
| Notes.IdentityIsImmutable | apps/reference-rp/worker/reference-rp-state.ts:589-776 | Authors, creation times and replies never change, versions never fall, and what is deleted stays deleted. |
| Notes.ChangesAreAuthorized | apps/reference-rp/worker/reference-rp-state.ts:589-824 | Only authors change or delete a note, at its current version; replies are removed by their author or the note's; names and likes change only by their own subject, or with the note; nothing else changes. |
| Notes.PrivateNotesAreClosed | apps/reference-rp/worker/reference-rp-state.ts:795-846 | A private note cannot be seen, answered, liked or changed by anyone but its author. |
| Base64Url.BytesToBinary | packages/protocol/src/base64url.ts:10-16 | The loop writes one character per byte, with that code. |
| Base64Url.EncodeBase64Url | packages/protocol/src/base64url.ts:18-20 | The text holds the bytes' groups of six bits in the URL alphabet, unpadded, and decoding it returns the bytes. |
| Base64Url.EncodeWritesSextets | packages/protocol/src/base64url.ts:18-20 | `btoa`, the replacements and the stripping together write the six-bit groups in the alphabet of section 5 of RFC 4648, unpadded. |
| Base64Url.GroupsHoldTheBits | packages/protocol/src/base64url.ts:18-20 | Each four groups hold the 24-bit number of three octets, most significant bits first, as section 4 of RFC 4648 has it. |
| Base64Url.DecodeIs | packages/protocol/src/base64url.ts:22-42 | Decoding succeeds exactly on canonical texts and yields their octets. |
| Base64Url.DecodeEncode | packages/protocol/src/base64url.ts:18-42 | Decoding an encoding returns the bytes. |
| Base64Url.AcceptedAreEncodings | packages/protocol/src/base64url.ts:22-42 | The accepted strings are exactly the encodings: alphabet only, length not 1 modulo 4, zero bits at the end; encoding what was decoded returns the string. |

## Left out

- The cryptography (Ed25519, SHA-256, HKDF, AES-GCM) and the canonicalization of RFC 8785: boolean inputs
  and collision-free identifiers stand for them.
- The transparency shard and its tree builder are not part of this model; the trees of RFC 6962 stand for
  them. Sparse `auditPath` arrays, which JavaScript allows, are not modelled.
- WalletImport.ImportSafety: does not model wallet-side revocation, rotation and `removeLocalIdentity`, which delete
  record and key by other steps; parsing and decrypting a transfer happen before the first transaction.
- WalletRecovery.WalletCore.ImportDeviceTransfer: models one undisturbed tab; interleavings are in WalletImport.
- RegistryObject.IdentityState.Register: models the undisturbed handler, as do Revoke, ActivateDevice, RevokeDeviceSelf
  and RevokeDeviceRoot; interleavings are in RegistryRuns. The columns that hold documents and public keys are not modelled.
- OutboxRuns.NoLostWakeUp: assumes that an alarm whose handler dies is fired again (the platform stops after six
  attempts) and that an alarm set by the loop does not fire before the loop's promise has settled.
- EndToEnd.ProjectionAgrees: excludes `activated_at`, which order does affect; see the two lemmas named above.
- ProjectorRuns.NoLostDeviceEvent: covers the D1 steps; the append to the transparency service that follows them,
  and the acknowledgement and retry of queue messages, are not modelled.
- StrictJson.Scanner.ScanText: covers the scan; decoding UTF-8, the size limit and the JSON.parse of the whole text
  that follows it are not modelled. Literals and numbers are any characters that do not end a token.
- Challenges.SingleUse: takes proof verification and the lifecycle check between read and commit as a boolean input;
  reading a session back and its cookie are not modelled.
- Notes.StateFollowsLog: takes the session check as an input and starts from any seeded notes at version 1; schema
  migration, listing order, parsing of requests and, apart from the version it quotes, the receipt are not modelled.
- The wallet's plain `put` and the catalogue of devices a root identity has issued (`appendIssuedDevice`).
- HTTP routing, rate limits, metrics, user interface, configuration and scripts.
- Field-by-field receipt and proof checks of the verifier package: each is settled by reading one branch.
