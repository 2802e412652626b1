/** What holds in every run of the registry object. */
module RegistryTheorems {
  import opened Common
  import opened RegistryEvents
  import opened Registry
  import opened RegistryRuns

  function Reach(actions: seq<Action>): World {
    Run(INITIAL, actions)
  }

  lemma {:induction false} ReachInv(actions: seq<Action>)
    ensures Inv(Reach(actions))
  {
    RunKeeps(INITIAL, actions);
  }

  lemma {:induction false} ElementsOfDistinct<T>(s: seq<T>)
    requires forall i, j :: 0 <= i < j < |s| ==> s[i] != s[j]
    ensures |set x | x in s| == |s|
  {
    if s != [] {
      var last := |s| - 1;
      ElementsOfDistinct(s[..last]);
      assert (set x | x in s) == (set x | x in s[..last]) + {s[last]};
    }
  }

  /**
   * Event sourcing: the ledger value is the number of journalled operations and of outbox rows, the outbox
   * events carry the sequences 1..n once each, and every device row is the fold of its events in that order.
   */
  lemma {:induction false} EventSourcing(actions: seq<Action>)
    ensures EventSourced(Reach(actions).tables, Reach(actions).log)
  {
    ReachInv(actions);
    var w := Reach(actions);
    JournalCounts(w);
    OutboxInLedgerOrder(w);
    assert DevicesOk(w.tables, w.log);
  }

  ghost predicate EventSourced(t: Tables, log: seq<DeviceEvent>) {
    && |t.deviceOutbox| == |t.operations| == |log| == t.deviceLedger
    && OutboxIsLedger(t, log)
    && (forall d :: DeviceOf(t, d) == FoldDevice(log, d))
    && (forall op :: op in t.operations ==> t.operations[op] in t.deviceOutbox && t.operations[op].operation == op)
  }

  /** The outbox holds the events of `log`, whose k-th event has ledger sequence k. */
  ghost predicate OutboxIsLedger(t: Tables, log: seq<DeviceEvent>) {
    && (forall i :: 0 <= i < |log| ==> log[i] in t.deviceOutbox && log[i].deviceLedgerSequence == i + 1)
    && (forall e :: e in t.deviceOutbox ==>
          1 <= e.deviceLedgerSequence <= |log| && log[e.deviceLedgerSequence - 1] == e)
  }

  lemma OutboxInLedgerOrder(w: World)
    requires HistoryOk(w.log) && JournalOk(w.tables, w.log)
    ensures OutboxIsLedger(w.tables, w.log)
  {
    forall e | e in w.tables.deviceOutbox
      ensures 1 <= e.deviceLedgerSequence <= |w.log| && w.log[e.deviceLedgerSequence - 1] == e
    {
      var i :| 0 <= i < |w.log| && w.log[i] == e;
    }
  }

  lemma JournalCounts(w: World)
    requires HistoryOk(w.log) && JournalOk(w.tables, w.log)
    ensures |w.tables.deviceOutbox| == |w.tables.operations| == |w.log|
  {
    ElementsOfDistinct(w.log);
    assert w.tables.deviceOutbox == set e | e in w.log;
    var operations := seq(|w.log|, i requires 0 <= i < |w.log| => w.log[i].operation);
    forall i, j | 0 <= i < j < |w.log|
      ensures operations[i] != operations[j]
    {
      assert w.tables.operations[operations[i]] == w.log[i];
    }
    ElementsOfDistinct(operations);
    assert w.tables.operations.Keys == set op | op in operations by {
      forall op | op in w.tables.operations
        ensures op in operations
      {
        var i :| 0 <= i < |w.log| && w.log[i] == w.tables.operations[op];
        assert operations[i] == op;
      }
    }
  }

  /**
   * Terminality of devices: in ledger order every device has at most one activation and one revocation, the
   * revocation comes last and names the same authorization, so a device revoked first is never activated.
   */
  lemma {:induction false} DeviceHistories(actions: seq<Action>, i: nat, j: nat)
    requires i < j < |Reach(actions).log| && Reach(actions).log[i].deviceId == Reach(actions).log[j].deviceId
    ensures var first, second := Reach(actions).log[i], Reach(actions).log[j];
            && first.eventType == Activated && second.eventType == DeviceRevoked
            && second.authorizationId == first.authorizationId
            && second.authorizationExpiresAt == first.authorizationExpiresAt
            && forall k :: 0 <= k < |Reach(actions).log| && Reach(actions).log[k].deviceId == first.deviceId ==>
                 k == i || k == j
  {
    ReachInv(actions);
    var log := Reach(actions).log;
    assert MayFollow(log[i], log[j]);
    forall k | 0 <= k < |log| && log[k].deviceId == log[i].deviceId
      ensures k == i || k == j
    {
      assert k <= i || MayFollow(log[i], log[k]);
      assert k >= i || MayFollow(log[k], log[i]);
      assert k <= j || MayFollow(log[j], log[k]);
      assert k >= j || MayFollow(log[k], log[j]);
    }
  }

  /** Terminality over time: whatever happens later, nothing revoked becomes active and no row is rewritten. */
  lemma {:induction false} Terminality(actions: seq<Action>, more: seq<Action>)
    ensures Evolves(Reach(actions), Reach(actions + more))
  {
    RunConcat(INITIAL, actions, more);
    ReachInv(actions);
    RunKeeps(Reach(actions), more);
  }

  /**
   * No device event commits after the identity is revoked, even when the revocation lands between the reads
   * of a device handler and its transaction: the log and all device rows are frozen.
   */
  lemma {:induction false} RevocationFreezesDevices(actions: seq<Action>, more: seq<Action>)
    requires var t := Reach(actions).tables; t.identity.Some? && t.identity.value.state == Revoked
    ensures var t, t' := Reach(actions).tables, Reach(actions + more).tables;
            t'.identity == t.identity && t'.devices == t.devices && t'.deviceLedger == t.deviceLedger
            && t'.deviceOutbox == t.deviceOutbox && t'.outbox == t.outbox
  {
    Terminality(actions, more);
    ReachInv(actions);
    ReachInv(actions + more);
  }

  /** A device root-revoked before its activation can never be activated. */
  lemma {:induction false} RootRevokedNeverActivated(actions: seq<Action>, more: seq<Action>, d: DeviceId)
    requires var row := DeviceOf(Reach(actions).tables, d);
             row.Some? && row.value.state == Revoked && row.value.activatedAt.None?
    ensures forall e :: e in Reach(actions + more).log && e.deviceId == d ==> e.eventType == DeviceRevoked
    ensures DeviceOf(Reach(actions + more).tables, d) == DeviceOf(Reach(actions).tables, d)
  {
    Terminality(actions, more);
    ReachInv(actions + more);
    RowOf(Reach(actions + more), d);
    RowReflectsEvents(Reach(actions + more).log, d);
  }

  // ----- Handlers on reachable states

  /** No handler hits a missing row, a missing event or a refused insert: none of them answers INTERNAL_ERROR. */
  lemma {:induction false} DeviceHandlersNeverThrow(actions: seq<Action>, request: DeviceRequest, now: nat,
                                                    acceptedAt: nat)
    ensures var w := Reach(actions);
            && PrepareDevice(w.tables, request, now, acceptedAt) != Answer(Fault(InternalError))
            && (w.slot.Some? ==> CommitDevice(w.tables, w.slot.value).1 != Fault(InternalError))
  {
    ReachInv(actions);
    var w := Reach(actions);
    PreparationNeverThrows(w, request, now, acceptedAt);
    if w.slot.Some? {
      var e := w.slot.value.event;
      if w.tables.identity.value.state == Active {
        PlannedCommit(w);
      }
    }
  }

  lemma PreparationNeverThrows(w: World, request: DeviceRequest, now: nat, acceptedAt: nat)
    requires Inv(w)
    ensures PrepareDevice(w.tables, request, now, acceptedAt) != Answer(Fault(InternalError))
  {
    var op := OperationOf(request);
    if op in w.tables.operations {
      ReplayFindsRow(w, op, request);
    }
    RowsAnswer(w, TargetDevice(request));
    if request.ActivateRequest? {
      ActivationNeverThrows(w.tables, request, now);
    } else {
      RevocationNeverThrows(w.tables, request, now, acceptedAt);
    }
  }

  /** The events that a row can be asked for are still in the outbox. */
  predicate RowAnswers(t: Tables, d: DeviceId) {
    d in t.devices ==>
      if t.devices[d].state == Active then
        t.devices[d].activationEvent.Some? && t.devices[d].activationEvent.value in t.deviceOutbox
      else t.devices[d].revocationEvent.Some? && t.devices[d].revocationEvent.value in t.deviceOutbox
  }

  lemma RowsAnswer(w: World, d: DeviceId)
    requires Inv(w)
    ensures RowAnswers(w.tables, d)
  {
    RowOf(w, d);
    RowReflectsEvents(w.log, d);
  }

  predicate ReplayAnswers(t: Tables, request: DeviceRequest) {
    OperationOf(request) in t.operations ==>
      TargetDevice(request) in t.devices && t.operations[OperationOf(request)] in t.deviceOutbox
  }

  lemma ActivationNeverThrows(t: Tables, request: DeviceRequest, now: nat)
    requires request.ActivateRequest? && RowAnswers(t, TargetDevice(request)) && ReplayAnswers(t, request)
    ensures PrepareActivation(t, request, now) != Answer(Fault(InternalError))
  {
  }

  lemma RevocationNeverThrows(t: Tables, request: DeviceRequest, now: nat, acceptedAt: nat)
    requires !request.ActivateRequest? && RowAnswers(t, TargetDevice(request)) && ReplayAnswers(t, request)
    ensures PrepareDeviceRevocation(t, request, now, acceptedAt) != Answer(Fault(InternalError))
  {
  }

  /** The journalled event of an operation concerns the device that the operation names. */
  lemma ReplayFindsRow(w: World, op: Operation, request: DeviceRequest)
    requires Inv(w) && op in w.tables.operations && op == OperationOf(request)
    ensures var e := w.tables.operations[op];
            e.deviceId == TargetDevice(request) && TargetDevice(request) in w.tables.devices
              && e in w.tables.deviceOutbox
  {
    var e := w.tables.operations[op];
    RowOf(w, e.deviceId);
    RowReflectsEvents(w.log, e.deviceId);
  }

  predicate AllPass(checks: Checks) {
    checks.wellFormed && checks.authorizationMatches && checks.rootSignatureValid && checks.payloadMatches
    && checks.deviceSignatureValid
  }

  /**
   * Exactly once: an operation that was carried out and is sent again, at any later time, changes nothing. Once the
   * identity is revoked it is refused; so is an activation once its device is revoked; otherwise the answer is the
   * operation's original event.
   */
  lemma {:induction false} ReplayAnswersOriginal(actions: seq<Action>, request: DeviceRequest, now: nat,
                                                 acceptedAt: nat)
    requires OperationOf(request) in Reach(actions).tables.operations && AllPass(request.checks)
    ensures var t := Reach(actions).tables;
            var e, d := t.operations[OperationOf(request)], TargetDevice(request);
            && t.identity.Some? && e in t.deviceOutbox && CarriesOut(e) && d in t.devices
            && PrepareDevice(t, request, now, acceptedAt)
               == Answer(if t.identity.value.state == Revoked then Fault(IdentityIsRevoked)
                         else if request.ActivateRequest? then
                           if t.devices[d].state == Revoked then Fault(DeviceIsRevoked)
                           else DeviceReply(e, Some(e.acceptedAt), None)
                         else DeviceReply(e, t.devices[d].activatedAt, Some(e.acceptedAt)))
  {
    ReachInv(actions);
    var w := Reach(actions);
    var e, d := w.tables.operations[OperationOf(request)], TargetDevice(request);
    assert e in w.log && e.operation == OperationOf(request);
    ReplayFindsRow(w, OperationOf(request), request);
    RowOf(w, d);
    RowReflectsEvents(w.log, d);
  }

  /** The answer for an identity row: the event that brought it into its state. */
  function AnswerFor(t: Tables): Reply
    requires t.identity.Some? && t.identity.value.sequence in t.actions
  {
    IdentityReply(t.identity.value, t.actions[t.identity.value.sequence])
  }

  /**
   * Registering again answers with the current state and changes nothing unless the genesis differs; once the
   * identity is revoked every further revocation, planned before or not, answers with the one revocation event.
   */
  lemma {:induction false} IdentityHandlersIdempotent(actions: seq<Action>, registration: Registration,
                                                      command: RevokeCommand, now: nat)
    requires Reach(actions).tables.identity.Some? && registration.rejection.None?
    ensures var w := Reach(actions);
            var t, row := w.tables, w.tables.identity.value;
            && row.sequence in t.actions && t.actions[row.sequence].sequence == row.sequence
            && t.actions[row.sequence].state == row.state
            && PrepareRegistration(t, registration, now)
               == Answer(if registration.genesis == row.genesis then AnswerFor(t) else Fault(SubjectGenesisConflict))
            && (forall plan :: plan in w.registrations ==>
                  CommitRegistration(t, plan)
                  == (t, if plan.registration.genesis == row.genesis then AnswerFor(t)
                      else Fault(SubjectGenesisConflict)))
            && (row.state == Revoked ==>
                  && PrepareRevocation(t, command, now) == Answer(AnswerFor(t))
                  && Some(t.actions[row.sequence]) == row.revocationEvent
                  && forall plan :: plan in w.revocations ==> CommitRevocation(t, plan) == (t, AnswerFor(t)))
            && (row.state == Active ==>
                  forall plan :: plan in w.revocations ==>
                    var (t', reply) := CommitRevocation(t, plan);
                    t'.identity.Some? && t'.identity.value.state == Revoked
                    && reply == IdentityReply(t'.identity.value, plan.event) && plan.event in t'.outbox)
  {
    ReachInv(actions);
    var w := Reach(actions);
    forall plan | plan in w.revocations
      ensures RevocationPlanOk(w.tables, plan)
    {
    }
  }
}
