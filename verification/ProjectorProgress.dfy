/**
 * The projector can always catch up: in every reachable state, whatever handlers were left half way, delivering the
 * outstanding messages once more and letting their handlers run completes all of them.
 */
module ProjectorProgress {
  import opened Common
  import opened RegistryEvents
  import opened IdentityProjection
  import opened DeviceProjection
  import opened ProjectorRuns

  predicate Grows(w: World, w': World) {
    w.completedDevice <= w'.completedDevice && w.completedIdentity <= w'.completedIdentity
  }

  lemma {:induction false} RunGrows(w: World, actions: seq<Action>)
    ensures Grows(w, Run(w, actions))
    decreases |actions|
  {
    if actions != [] {
      RunGrows(Apply(w, actions[0]), actions[1..]);
    }
  }

  lemma {:induction false} RunConcat(w: World, first: seq<Action>, second: seq<Action>)
    ensures Run(w, first + second) == Run(Run(w, first), second)
    decreases |first|
  {
    if first == [] {
      assert first + second == second;
    } else {
      assert (first + second)[1..] == first[1..] + second;
      RunConcat(Apply(w, first[0]), first[1..], second);
    }
  }

  /** One more action in front of a continuation. */
  lemma RunCons(w: World, action: Action, rest: seq<Action>)
    ensures Run(w, [action] + rest) == Run(Apply(w, action), rest)
  {
    assert ([action] + rest)[1..] == rest;
  }

  lemma DeliversCons(src: Sources, action: Action, rest: seq<Action>)
    requires Delivers(src, action) && DeliversAll(src, rest)
    ensures DeliversAll(src, [action] + rest)
  {
  }

  lemma OneAction(w: World, action: Action)
    ensures Run(w, [action]) == Apply(w, action)
  {
    assert Run(w, [action]) == Run(Apply(w, action), [action][1..]);
  }

  // ----- Device messages

  lemma DeviceDelivered(w: World, src: Sources, e: DeviceEvent)
    requires Inv(w, src) && HonestSources(src) && e in src.devices
    ensures Apply(w, DeliverDevice(e)) == Spawn(w, DeviceChecked(e))
  {
    AnchorGenesis(w, src, e);
    forall f | f in w.devices.stored && f.subject == e.subject
      ensures f.genesisHash == e.genesisHash
    {
      assert Compatible(f, e);
    }
  }

  /** The handler of a device message, from its delivery to its end. */
  lemma CompleteDevice(w: World, src: Sources, e: DeviceEvent) returns (more: seq<Action>)
    requires Inv(w, src) && HonestSources(src) && e in src.devices
    ensures DeliversAll(src, more) && e in Run(w, more).completedDevice
  {
    var deliver, store := DeliverDevice(e), Advance(DeviceChecked(e), []);
    var read, write := Advance(DeviceStored(e), []), Advance(DeviceAnchored(e), []);
    var w1 := Apply(w, deliver);
    DeviceDelivered(w, src, e);
    ApplyKeeps(w, src, deliver);
    StoreAccepts(w1, src, e);
    var w2 := Apply(w1, store);
    ApplyKeeps(w1, src, store);
    AnchorGenesis(w2, src, e);
    var w3 := Apply(w2, read);
    if e.subject in w2.projection.identities {
      OneAction(w3, write);
      RunCons(w2, read, [write]);
      RunCons(w1, store, [read] + [write]);
      RunCons(w, deliver, [store] + ([read] + [write]));
      more := [deliver] + ([store] + ([read] + [write]));
    } else {
      OneAction(w2, read);
      RunCons(w1, store, [read]);
      RunCons(w, deliver, [store] + [read]);
      more := [deliver] + ([store] + [read]);
    }
  }

  // ----- Identity messages

  /** What the query of the reconciliation returns. */
  lemma {:induction false} SelectFrom(stored: set<DeviceEvent>, s: Subject, done: seq<DeviceEvent>,
                                      rest: set<DeviceEvent>)
    returns (rows: seq<DeviceEvent>)
    requires HonestStream(stored) && Taken(done, rest, stored, s)
    ensures IsSelection(rows, stored, s)
    decreases rest
  {
    if rest == {} {
      rows := done;
    } else {
      var e := LowestOf(rest);
      TakeLowest(done, rest, stored, s, e);
      rows := SelectFrom(stored, s, done + [e], rest - {e});
    }
  }

  lemma IdentityDelivered(w: World, src: Sources, r: IdentityEvent)
    requires Inv(w, src) && HonestSources(src) && r in src.identities
    ensures Apply(w, DeliverIdentity(r)) == Spawn(w, IdentityChecked(r))
  {
    BatchAccepts(w, src, r);
  }

  /** A registration handler that has read the stored events, to its end. */
  lemma {:induction false} CompleteReconciling(w: World, src: Sources, r: IdentityEvent, todo: seq<DeviceEvent>)
    returns (more: seq<Action>)
    requires Inv(w, src) && HonestSources(src) && Reconciling(r, todo) in w.threads
    ensures DeliversAll(src, more) && r in Run(w, more).completedIdentity
    decreases |todo|
  {
    var read := Advance(Reconciling(r, todo), []);
    if todo == [] {
      OneAction(w, read);
      more := [read];
    } else {
      assert ThreadOk(w, src, Reconciling(r, todo));
      var write := Advance(ReconcilingAnchored(r, todo), []);
      Anchored(w, src, r.subject);
      AnchorGenesis(w, src, todo[0]);
      var w1 := Apply(w, read);
      ApplyKeeps(w, src, read);
      var w2 := Apply(w1, write);
      ApplyKeeps(w1, src, write);
      var rest := CompleteReconciling(w2, src, r, todo[1..]);
      RunCons(w1, write, rest);
      RunCons(w, read, [write] + rest);
      more := [read] + ([write] + rest);
    }
  }

  /** The handler of an identity message, from its delivery to its end. */
  lemma CompleteIdentity(w: World, src: Sources, r: IdentityEvent) returns (more: seq<Action>)
    requires Inv(w, src) && HonestSources(src) && r in src.identities
    ensures DeliversAll(src, more) && r in Run(w, more).completedIdentity
  {
    var deliver, apply := DeliverIdentity(r), Advance(IdentityChecked(r), []);
    var w1 := Apply(w, deliver);
    IdentityDelivered(w, src, r);
    ApplyKeeps(w, src, deliver);
    BatchAccepts(w1, src, r);
    var w2 := Apply(w1, apply);
    ApplyKeeps(w1, src, apply);
    if r.eventType == Registered {
      var stored := w2.devices.stored;
      var rows := SelectFrom(stored, r.subject, [], set e | e in stored && e.subject == r.subject);
      var select := Advance(RegistrationApplied(r), rows);
      var w3 := Apply(w2, select);
      ApplyKeeps(w2, src, select);
      var rest := CompleteReconciling(w3, src, r, rows);
      RunCons(w2, select, rest);
      RunCons(w1, apply, [select] + rest);
      RunCons(w, deliver, [apply] + ([select] + rest));
      more := [deliver] + ([apply] + ([select] + rest));
    } else {
      OneAction(w1, apply);
      RunCons(w, deliver, [apply]);
      more := [deliver] + [apply];
    }
  }

  // ----- All of them

  /** The messages that have no completed handler yet. */
  function Outstanding(w: World, src: Sources): nat {
    |src.devices - w.completedDevice| + |src.identities - w.completedIdentity|
  }

  lemma SmallerSet<T>(a: set<T>, b: set<T>)
    requires a <= b
    ensures |a| <= |b|
  {
    assert a + (b - a) == b;
  }

  lemma FewerOutstanding(w: World, w': World, src: Sources)
    requires Grows(w, w')
    requires (exists e :: e in src.devices - w.completedDevice && e in w'.completedDevice)
             || exists r :: r in src.identities - w.completedIdentity && r in w'.completedIdentity
    ensures Outstanding(w', src) < Outstanding(w, src)
  {
    var devices, devices' := src.devices - w.completedDevice, src.devices - w'.completedDevice;
    var identities, identities' := src.identities - w.completedIdentity, src.identities - w'.completedIdentity;
    SmallerSet(devices', devices);
    SmallerSet(identities', identities);
    if e :| e in devices && e in w'.completedDevice {
      SmallerSet(devices', devices - {e});
    } else {
      var r :| r in identities && r in w'.completedIdentity;
      SmallerSet(identities', identities - {r});
    }
  }

  lemma {:induction false} CompleteAll(w: World, src: Sources) returns (more: seq<Action>)
    requires Inv(w, src) && HonestSources(src)
    ensures DeliversAll(src, more)
    ensures src.devices <= Run(w, more).completedDevice && src.identities <= Run(w, more).completedIdentity
    decreases Outstanding(w, src)
  {
    var devices, identities := src.devices - w.completedDevice, src.identities - w.completedIdentity;
    if devices == {} && identities == {} {
      more := [];
    } else {
      var first: seq<Action>;
      if devices != {} {
        var e :| e in devices;
        first := CompleteDevice(w, src, e);
      } else {
        var r :| r in identities;
        first := CompleteIdentity(w, src, r);
      }
      RunGrows(w, first);
      RunKeeps(w, src, first);
      FewerOutstanding(w, Run(w, first), src);
      var rest := CompleteAll(Run(w, first), src);
      RunConcat(w, first, rest);
      more := first + rest;
    }
  }

  /** From every reachable state some deliveries and steps complete every message that the objects emitted. */
  lemma {:induction false} CanCatchUp(src: Sources, actions: seq<Action>)
    requires HonestSources(src) && DeliversAll(src, actions)
    ensures exists more ::
              DeliversAll(src, actions + more)
              && src.devices <= Run(INITIAL, actions + more).completedDevice
              && src.identities <= Run(INITIAL, actions + more).completedIdentity
  {
    ReachInv(src, actions);
    var more := CompleteAll(Run(INITIAL, actions), src);
    RunConcat(INITIAL, actions, more);
    assert DeliversAll(src, actions + more);
  }
}
