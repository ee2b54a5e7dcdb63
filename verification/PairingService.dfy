/** The pairing service itself: its maps, its attempts, and the sections that
    update them in place. Pointers are positions in `attempts`, which only grows. */
module PairingService {
  import opened Wrappers
  import opened PairingAttempts

  /** The loop over the discovered devices: it stops at the first invalid or repeated one. */
  method ScanDevices(devices: seq<Device>) returns (seen: set<string>, usable: bool)
    ensures usable <==> UsableDevices(devices)
    ensures seen == DeviceIDs(devices[..UsableCount(devices)])
  {
    seen := {};
    for k := 0 to |devices|
      invariant seen == DeviceIDs(devices[..k])
      invariant UsableDevices(devices[..k]) && UsableCount(devices) == UsableCount(devices, k)
    {
      if !ValidDevice(devices[k]) || devices[k].id in seen {
        return seen, false;
      }
      assert devices[..k + 1] == devices[..k] + [devices[k]];
      seen := seen + {devices[k].id};
    }
    assert devices[..|devices|] == devices;
    usable := true;
  }

  class Service {
    var attempts: seq<Attempt>
    var byKey: map<AttemptKey, nat>
    var byID: map<string, nat>

    function Model(): Registry
      reads this
    {
      Registry(attempts, byKey, byID)
    }

    ghost predicate Valid()
      reads this
    {
      Model().IndexesAgree()
    }

    constructor ()
      ensures Valid() && Model() == Registry([], map[], map[])
    {
      attempts, byKey, byID := [], map[], map[];
    }

    /** Start publishes a new attempt, already reserved, unless the key or the ID is taken. */
    method Insert(key: AttemptKey, id: string) returns (inserted: Option<nat>)
      requires Valid()
      modifies this
      ensures Valid()
      ensures inserted.Some? <==> old(Model()).CanInsert(key, id)
      ensures Model() == if inserted.Some? then old(Model()).Insert(key, id) else old(Model())
      ensures inserted.Some? ==> inserted.value == |old(attempts)| && Model().IsCurrent(inserted.value)
    {
      if key in byKey || id in byID {
        return None;
      }
      InsertKeepsIndexes(Model(), key, id);
      inserted := Some(|attempts|);
      attempts := attempts + [NewAttempt(key, id)];
      byKey, byID := byKey[key := inserted.value], byID[id := inserted.value];
    }

    method RemoveLocked(a: nat)
      requires Valid() && a < |attempts|
      modifies this
      ensures Valid() && !Model().IsCurrent(a)
      ensures Model() == old(Model()).Remove(a)
    {
      RemoveKeepsIndexes(Model(), a);
      if attempts[a].id in byID && byID[attempts[a].id] == a {
        byID := byID - {attempts[a].id};
      }
      if attempts[a].key in byKey && byKey[attempts[a].key] == a {
        byKey := byKey - {attempts[a].key};
      }
    }

    /** Writes the fields of one attempt, which keeps its place in the maps. */
    method Write(a: nat, attempt: Attempt)
      requires Valid() && a < |attempts| && attempt.id == attempts[a].id && attempt.key == attempts[a].key
      modifies this`attempts
      ensures Valid() && attempts == old(attempts)[a := attempt]
      ensures forall b: nat :: Model().IsCurrent(b) == old(Model().IsCurrent(b))
    {
      ApplyKeepsIndexes(Model(), a, attempt, false);
      attempts := attempts[a := attempt];
    }

    method SetOperation(a: nat, operation: Operation, bump: bool)
      requires Valid() && a < |attempts|
      modifies this`attempts
      ensures Valid()
      ensures attempts == old(attempts)[a := if bump then old(attempts[a]).Reserve(operation)
                                             else old(attempts[a]).(operation := operation)]
    {
      Write(a, attempts[a].(operation := operation));
      if bump {
        Write(a, attempts[a].(generation := attempts[a].generation + 1));
      }
    }

    /** The first locked section of SelectDevice, Complete, Cancel, lookup, retryCleanup and one sweep step. */
    method Admit(a: nat, intent: Intent, expired: bool) returns (admission: Admission)
      requires Valid() && a < |attempts|
      modifies this`attempts
      ensures Valid()
      ensures var (next, result) := old(attempts[a].Admit(Model().IsCurrent(a), intent, expired));
              admission == result && attempts == old(attempts)[a := next]
      ensures admission == Reserved && intent.Select? ==>
                && old(Model().IsCurrent(a)) && !expired && old(attempts[a].operation) == OpIdle
                && old(attempts[a].state) == StateAwaitingDeviceSelection
                && intent.deviceID in old(attempts[a].deviceIDs)
    {
      if !Model().IsCurrent(a) {
        return if intent.Retry? then Gone else Refused(AttemptNotFound);
      }
      if intent.Retry? && !attempts[a].cleanupPending {
        return Untouched;
      }
      if attempts[a].operation != OpIdle {
        return Refused(AttemptBusy);
      }
      var cleaning := attempts[a].cleanupPending;
      match intent {
        case Select(deviceID) =>
          if !expired {
            if attempts[a].state != StateAwaitingDeviceSelection || deviceID !in attempts[a].deviceIDs {
              return Refused(UnknownDevice);
            }
            SetOperation(a, OpSelect, true);
            return Reserved;
          }
          admission := Cleaning(StateExpired, true);
        case Complete =>
          if !expired {
            if attempts[a].state != StateAwaitingPhoneApproval {
              return Refused(AttemptNotFound);
            }
            SetOperation(a, OpComplete, true);
            return Reserved;
          }
          admission := Cleaning(StateExpired, true);
        case Cancel =>
          admission := Cleaning(StateCancelled, true);
        case Lookup =>
          if !expired {
            return Untouched;
          }
          admission := Cleaning(StateExpired, true);
        case Retry =>
          admission := Cleaning(attempts[a].state, attempts[a].cleanupCancel);
        case Sweep =>
          if !cleaning && !expired {
            return Untouched;
          }
          admission := if cleaning then Cleaning(attempts[a].state, attempts[a].cleanupCancel)
                       else Cleaning(StateExpired, true);
      }
      SetOperation(a, OpCleanup, true);
    }

    /** The device loop of Start: reads devices until one is malformed or repeats an ID. */
    method AcceptDevices(a: nat, found: Option<Handle>, devices: seq<Device>) returns (discovery: Discovery)
      requires Valid() && a < |attempts|
      modifies this`attempts
      ensures Valid()
      ensures var (next, result) := old(attempts[a].AcceptDevices(Model().IsCurrent(a), found, devices));
              discovery == result && attempts == old(attempts)[a := next]
    {
      if !attempts[a].Owned(Model().IsCurrent(a), OpStart, 1) {
        return LostOwnership;
      }
      var seen, usable := ScanDevices(devices);
      discovery := if usable then AcceptedDevices else InvalidDevices;
      Write(a, attempts[a].(handle := found, deviceIDs := seen));
    }

    method TakeApproval(a: nat) returns (taken: bool)
      requires Valid() && a < |attempts|
      modifies this`attempts
      ensures Valid()
      ensures var (next, result) := old(attempts[a].TakeApproval());
              taken == result && attempts == old(attempts)[a := next]
    {
      taken := attempts[a].operation == OpIdle;
      if taken {
        SetOperation(a, OpSelect, true);
      }
    }

    method Approve(a: nat, generation: nat) returns (owned: bool)
      requires Valid() && a < |attempts|
      modifies this`attempts
      ensures Valid()
      ensures var (next, result) := old(attempts[a].Approve(Model().IsCurrent(a), generation));
              owned == result && attempts == old(attempts)[a := next]
      ensures owned ==> attempts[a].state == StateAwaitingPhoneApproval && attempts[a].operation == OpIdle
    {
      hide Registry.IndexesAgree, Registry.IsCurrent;
      owned := attempts[a].Owned(Model().IsCurrent(a), OpSelect, generation);
      if owned {
        Write(a, attempts[a].(state := StateAwaitingPhoneApproval));
        SetOperation(a, OpIdle, false);
      }
    }

    method StorePending(a: nat, generation: nat) returns (owned: bool)
      requires Valid() && a < |attempts|
      modifies this`attempts
      ensures Valid()
      ensures var (next, result) := old(attempts[a].StorePending(Model().IsCurrent(a), generation));
              owned == result && attempts == old(attempts)[a := next]
    {
      owned := attempts[a].Owned(Model().IsCurrent(a), OpComplete, generation);
      if owned {
        Write(a, attempts[a].(pending := true, handle := None));
      }
    }

    /** The locked section after CommitPairedSession has answered. */
    method FinishCommit(a: nat, generation: nat, failed: bool, superseded: bool) returns (removed: bool)
      requires Valid() && a < |attempts|
      modifies this
      ensures Valid()
      ensures var (attempt, gone) := if failed then old(attempts[a]).CommitFailed(generation, superseded)
                                     else old(attempts[a].CommitSucceeded(Model().IsCurrent(a), generation));
              removed == gone && Model() == old(Model()).Apply(a, attempt, gone)
      ensures removed ==> attempts[a].state == (if failed then StateFailed else StateComplete) && !attempts[a].pending
      ensures !removed && attempts != old(attempts) ==> attempts[a] == old(attempts[a]).(operation := OpIdle)
    {
      hide Registry.IndexesAgree, Registry.IsCurrent;
      removed := false;
      if attempts[a].operation != OpComplete || attempts[a].generation != generation ||
         (!failed && !Model().IsCurrent(a)) {
        return;
      }
      var attempt := attempts[a].(operation := OpIdle);
      if !failed || superseded {
        attempt := attempt.(pending := false, state := if failed then StateFailed else StateComplete);
        removed := true;
      }
      Write(a, attempt);
      if removed {
        RemoveLocked(a);
      }
    }

    /** The first locked section of finishReserved. */
    method BeginFinish(a: nat, generation: nat, outcome: State, cancel: bool) returns (finish: Finish)
      requires Valid() && a < |attempts|
      modifies this`attempts
      ensures Valid()
      ensures var (next, result) := old(attempts[a]).BeginFinish(generation, outcome, cancel);
              finish == result && attempts == old(attempts)[a := next]
      ensures finish != FinishBusy ==>
                && finish == FinishOwned(old(attempts[a].handle), old(attempts[a].persisted))
                && attempts[a].handle == None && !attempts[a].pending
                && attempts[a].cleanupPending && attempts[a].state == outcome
                && (attempts[a].cleanupCancel <==> cancel && !old(attempts[a].pending))
    {
      if attempts[a].generation != generation || attempts[a].operation == OpIdle {
        return FinishBusy;
      }
      var attempt := attempts[a].(operation := OpCleanup, cleanupPending := true);
      var cancelProvider := attempt.pending == false;
      if !cancel {
        cancelProvider := false;
      }
      finish := FinishOwned(attempt.handle, attempt.persisted);
      attempt := attempt.(handle := None, pending := false, state := outcome, cleanupCancel := cancelProvider);
      Write(a, attempt);
    }

    /** The last locked section of finishReserved, when the pairing is settled. */
    method Settle(a: nat)
      requires Valid() && a < |attempts|
      modifies this
      ensures Valid() && !Model().IsCurrent(a)
      ensures Model() == old(Model()).Apply(a, old(attempts[a]).Settle(), true)
      ensures attempts[a] ==
                old(attempts[a]).(cleanupPending := false, persisted := false, operation := OpIdle)
    {
      Write(a, attempts[a].(cleanupPending := false, persisted := false));
      Write(a, attempts[a].(operation := OpIdle));
      RemoveLocked(a);
    }
  }
}
