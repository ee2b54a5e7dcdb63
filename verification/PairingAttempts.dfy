/** Pairing attempts and the lock-protected sections that change them.

    A section is what the service does between taking and releasing an attempt's
    mutex. Each one is a function of the attempt and of whether the attempt is
    still current, so that the class in PairingService.dfy can be proved to perform
    it in place and the interleavings in PairingRuns.dfy can be built from it. */
module PairingAttempts {
  import opened Wrappers

  datatype AttemptKey = AttemptKey(tenantID: string, connectionID: string)

  datatype State =
    | StateNew
    | StateAwaitingDeviceSelection
    | StateAwaitingPhoneApproval
    | StateComplete
    | StateExpired
    | StateCancelled
    | StateFailed

  datatype Operation = OpIdle | OpStart | OpSelect | OpComplete | OpCleanup

  datatype Error = AttemptNotFound | AttemptBusy | UnknownDevice

  datatype Device = Device(id: string, caption: string)

  type Handle = nat

  /** What a caller that found an attempt wants to do with it. */
  datatype Intent =
    | Select(deviceID: string)
    | Complete
    | Cancel
    | Lookup
    | Retry
    | Sweep

  datatype Admission =
    | Refused(error: Error)
    | Gone                                  // nothing left to clean
    | Untouched                             // no reservation was needed
    | Reserved                              // select or complete may proceed
    | Cleaning(state: State, cancel: bool)  // cleanup was reserved

  datatype Discovery = LostOwnership | InvalidDevices | AcceptedDevices

  datatype Finish = FinishBusy | FinishOwned(handle: Option<Handle>, persisted: bool)

  const PAIRING_ID_MIN := 8
  const PAIRING_ID_MAX := 128
  const DEVICE_ID_MAX := 256
  const CAPTION_MAX := 128

  predicate PairingIDChar(c: char) {
    'a' <= c <= 'z' || 'A' <= c <= 'Z' || '0' <= c <= '9' || c == '-' || c == '_'
  }

  predicate ValidPairingID(id: string) {
    PAIRING_ID_MIN <= |id| <= PAIRING_ID_MAX && forall i :: 0 <= i < |id| ==> PairingIDChar(id[i])
  }

  predicate ValidDevice(device: Device) {
    && 0 < |device.id| <= DEVICE_ID_MAX
    && (forall i :: 0 <= i < |device.id| ==> '!' <= device.id[i] <= '~')
    && 0 < |device.caption| <= CAPTION_MAX
  }

  /** The provider's device list is usable: every entry is well formed and no ID repeats. */
  predicate UsableDevices(devices: seq<Device>) {
    && (forall i :: 0 <= i < |devices| ==> ValidDevice(devices[i]))
    && (forall i, j :: 0 <= i < j < |devices| ==> devices[i].id != devices[j].id)
  }

  /** The same by lengths and character codes. */
  lemma UsableListsExactly(devices: seq<Device>)
    ensures UsableDevices(devices) <==>
              && (forall i | 0 <= i < |devices| ::
                    && 1 <= |devices[i].id| <= 256 && 1 <= |devices[i].caption| <= 128
                    && forall k | 0 <= k < |devices[i].id| :: 0x21 <= devices[i].id[k] as int <= 0x7e)
              && forall i, j | 0 <= i < j < |devices| :: devices[i].id != devices[j].id
  {
  }

  function DeviceIDs(devices: seq<Device>): set<string> {
    set device | device in devices :: device.id
  }

  /** How many leading devices are read before one that must be rejected. */
  function UsableCount(devices: seq<Device>, k: nat := 0): (n: nat)
    requires k <= |devices|
    ensures k <= n <= |devices|
    decreases |devices| - k
  {
    if k == |devices| || !ValidDevice(devices[k]) || devices[k].id in DeviceIDs(devices[..k]) then k
    else UsableCount(devices, k + 1)
  }

  datatype Attempt = Attempt(
    id: string,
    key: AttemptKey,
    state: State,
    operation: Operation,
    generation: nat,
    deviceIDs: set<string>,
    handle: Option<Handle>,
    pending: bool,          // a sealed session is waiting to be committed
    persisted: bool,        // BeginPairing succeeded and was not yet restored
    cleanupPending: bool,
    cleanupCancel: bool)
  {
    function Reserve(op: Operation): Attempt {
      this.(operation := op, generation := generation + 1)
    }

    predicate Owned(current: bool, op: Operation, gen: nat) {
      operation == op && generation == gen && current
    }

    /** Discover returned without an error: keep the handle, then judge the devices. */
    function AcceptDevices(current: bool, found: Option<Handle>, devices: seq<Device>): (Attempt, Discovery) {
      if !Owned(current, OpStart, 1) then (this, LostOwnership)
      else (this.(handle := found, deviceIDs := DeviceIDs(devices[..UsableCount(devices)])),
            if UsableDevices(devices) then AcceptedDevices else InvalidDevices)
    }

    /** Start re-takes its own reservation; note that it does not ask whether the attempt is current. */
    function TakeApproval(): (Attempt, bool) {
      if operation != OpIdle then (this, false) else (Reserve(OpSelect), true)
    }

    function Approve(current: bool, gen: nat): (Attempt, bool) {
      if !Owned(current, OpSelect, gen) then (this, false)
      else (this.(state := StateAwaitingPhoneApproval, operation := OpIdle), true)
    }

    function Expire(): (Attempt, Admission) { (Reserve(OpCleanup), Cleaning(StateExpired, true)) }

    /** The first locked section of SelectDevice, Complete, Cancel, lookup, retryCleanup and one sweep step. */
    function Admit(current: bool, intent: Intent, expired: bool): (Attempt, Admission) {
      if !current then
        (this, if intent.Retry? then Gone else Refused(AttemptNotFound))
      else if intent.Retry? && !cleanupPending then
        (this, Untouched)
      else if operation != OpIdle then
        (this, Refused(AttemptBusy))
      else
        match intent
        case Select(deviceID) =>
          if expired then Expire()
          else if state != StateAwaitingDeviceSelection || deviceID !in deviceIDs then (this, Refused(UnknownDevice))
          else (Reserve(OpSelect), Reserved)
        case Complete =>
          if expired then Expire()
          else if state != StateAwaitingPhoneApproval then (this, Refused(AttemptNotFound))
          else (Reserve(OpComplete), Reserved)
        case Cancel => (Reserve(OpCleanup), Cleaning(StateCancelled, true))
        case Lookup => if expired then Expire() else (this, Untouched)
        case Retry => (Reserve(OpCleanup), Cleaning(state, cleanupCancel))
        case Sweep =>
          if cleanupPending then (Reserve(OpCleanup), Cleaning(state, cleanupCancel))
          else if expired then Expire()
          else (this, Untouched)
    }

    function StorePending(current: bool, gen: nat): (Attempt, bool) {
      if !Owned(current, OpComplete, gen) then (this, false)
      else (this.(pending := true, handle := None), true)
    }

    /** The second component says whether the attempt leaves the maps. */
    function CommitFailed(gen: nat, superseded: bool): (Attempt, bool) {
      if operation != OpComplete || generation != gen then (this, false)
      else if superseded then (this.(pending := false, state := StateFailed, operation := OpIdle), true)
      else (this.(operation := OpIdle), false)
    }

    /** As CommitFailed: a commit that is still owned takes the attempt out of the maps. */
    function CommitSucceeded(current: bool, gen: nat): (Attempt, bool) {
      if !Owned(current, OpComplete, gen) then (this, false)
      else (this.(pending := false, state := StateComplete, operation := OpIdle), true)
    }

    function BeginFinish(gen: nat, outcome: State, cancel: bool): (Attempt, Finish) {
      if generation != gen || operation == OpIdle then (this, FinishBusy)
      else
        (this.(operation := OpCleanup, cleanupPending := true, handle := None, pending := false,
               state := outcome, cleanupCancel := cancel && !pending),
         FinishOwned(handle, persisted))
    }

    /** The cleanup is over; the attempt leaves the maps in the same section. */
    function Settle(): Attempt {
      this.(cleanupPending := false, persisted := false, operation := OpIdle)
    }
  }

  /** Admission, answer by answer. A selection or completion goes ahead only on a current, idle attempt that
      is in time and in the right state, a selection only for a known device; cleanup starts on a current,
      idle attempt that is cancelled, due, or left over from a cleanup that failed, which it then repeats;
      and only these change the attempt, by its tag and one generation. */
  lemma AdmissionCases(attempt: Attempt, current: bool, intent: Intent, expired: bool)
    ensures var (next, admission) := attempt.Admit(current, intent, expired);
            var idle := current && attempt.operation == OpIdle;
            var overdue := expired && (intent.Select? || intent.Complete? || intent.Lookup? || intent.Sweep?);
            var repeats := attempt.cleanupPending && (intent.Retry? || intent.Sweep?);
            var known := attempt.state == StateAwaitingDeviceSelection
                         && intent.Select? && intent.deviceID in attempt.deviceIDs;
            var ready := intent.Complete? && attempt.state == StateAwaitingPhoneApproval;
            && (admission == Reserved <==> idle && !overdue && (known || ready))
            && (admission.Cleaning? <==> idle && (intent.Cancel? || overdue || repeats))
            && (admission.Cleaning? ==>
                  admission == if intent.Cancel? then Cleaning(StateCancelled, true)
                               else if repeats then Cleaning(attempt.state, attempt.cleanupCancel)
                               else Cleaning(StateExpired, true))
            && (admission == Gone <==> !current && intent.Retry?)
            && (admission == Refused(AttemptBusy) <==>
                  current && !idle && (intent.Retry? ==> attempt.cleanupPending))
            && (admission == Refused(UnknownDevice) <==> idle && !overdue && intent.Select? && !known)
            && (admission == Refused(AttemptNotFound) <==>
                  (!current && !intent.Retry?) || (idle && !overdue && intent.Complete? && !ready))
            && next == if admission.Reserved? || admission.Cleaning?
                       then attempt.(generation := attempt.generation + 1,
                                     operation := if admission.Cleaning? then OpCleanup
                                                  else if known then OpSelect else OpComplete)
                       else attempt
  {
  }

  function NewAttempt(key: AttemptKey, id: string): Attempt {
    Attempt(id, key, StateNew, OpStart, 1, {}, None, false, false, false, false)
  }

  /** The service's two indexes. A pointer to an attempt is its position in `attempts`. */
  datatype Registry = Registry(attempts: seq<Attempt>, byKey: map<AttemptKey, nat>, byID: map<string, nat>) {

    predicate IsCurrent(a: nat) {
      && a < |attempts|
      && attempts[a].id in byID && byID[attempts[a].id] == a
      && attempts[a].key in byKey && byKey[attempts[a].key] == a
    }

    /** The two indexes name the same attempts, each under its own key and ID. */
    ghost predicate IndexesAgree() {
      && (forall key <- byKey :: IsCurrent(byKey[key]) && attempts[byKey[key]].key == key)
      && (forall id <- byID :: IsCurrent(byID[id]) && attempts[byID[id]].id == id)
    }

    predicate CanInsert(key: AttemptKey, id: string) {
      key !in byKey && id !in byID
    }

    function Insert(key: AttemptKey, id: string): Registry {
      Registry(attempts + [NewAttempt(key, id)], byKey[key := |attempts|], byID[id := |attempts|])
    }

    function Remove(a: nat): Registry
      requires a < |attempts|
    {
      var attempt := attempts[a];
      Registry(attempts,
               if attempt.key in byKey && byKey[attempt.key] == a then byKey - {attempt.key} else byKey,
               if attempt.id in byID && byID[attempt.id] == a then byID - {attempt.id} else byID)
    }

    /** The result of a section on attempt `a`. */
    function Apply(a: nat, attempt: Attempt, removed: bool): Registry
      requires a < |attempts|
    {
      var updated := this.(attempts := attempts[a := attempt]);
      if removed then updated.Remove(a) else updated
    }
  }

  lemma ApplyKeepsIndexes(r: Registry, a: nat, attempt: Attempt, removed: bool)
    requires r.IndexesAgree() && a < |r.attempts|
    requires attempt.id == r.attempts[a].id && attempt.key == r.attempts[a].key
    ensures r.Apply(a, attempt, removed).IndexesAgree()
    ensures forall b: nat :: r.Apply(a, attempt, removed).IsCurrent(b) == (r.IsCurrent(b) && !(removed && b == a))
  {
    var updated := r.(attempts := r.attempts[a := attempt]);
    assert forall b: nat :: updated.IsCurrent(b) == r.IsCurrent(b);
    assert updated.IndexesAgree();
    if removed { RemoveKeepsIndexes(updated, a); }
  }

  lemma RemoveKeepsIndexes(r: Registry, a: nat)
    requires r.IndexesAgree() && a < |r.attempts|
    ensures r.Remove(a).IndexesAgree()
    ensures forall b: nat :: r.Remove(a).IsCurrent(b) == (r.IsCurrent(b) && b != a)
  {
  }

  lemma InsertKeepsIndexes(r: Registry, key: AttemptKey, id: string)
    requires r.IndexesAgree() && r.CanInsert(key, id)
    ensures r.Insert(key, id).IndexesAgree()
    ensures forall b: nat :: r.Insert(key, id).IsCurrent(b) == (r.IsCurrent(b) || b == |r.attempts|)
  {
  }
}
