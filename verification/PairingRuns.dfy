/** Every interleaving of Start, SelectDevice, Complete, Cancel, sweeps and
    cleanup retries. One move lets one call run through one locked section or
    one provider or repository call, whose answer is part of the move. */
module PairingRuns {
  import opened Wrappers
  import opened PairingAttempts

  /** Where a call stands: each constructor is the point before the section or
      external call named in its comment. `resume` is the key a Start goes on
      with once a stale attempt has been cleaned up for it, `caller` the key
      under which the attempt was asked for. */
  datatype Call =
    | Returned
    | StartEntered(key: AttemptKey)                                  // read byKey
    | StartPrepared(key: AttemptKey)                                 // GetConnection, then insert
    | LookingUp(a: nat, key: AttemptKey)                             // get inside lookup
    | Found(a: nat, intent: Intent, resume: Option<AttemptKey>, caller: Option<AttemptKey>) // Admit
    | Beginning(a: nat)                                              // BeginPairing
    | BeginFailed(a: nat)                                            // remove
    | BeginSucceeded(a: nat)                                         // record persisted
    | Discovering(a: nat)                                            // Discover
    | DiscoverFailed(a: nat, found: Option<Handle>)                  // keep handle, then finish
    | Discovered(a: nat, found: Option<Handle>, devices: seq<Device>) // AcceptDevices
    | RejectingDevices(a: nat)                                       // fail
    | Releasing(a: nat, only: Option<string>)                        // operation := idle; the device, if it is one
    | Publishing(a: nat)                                             // show the device list
    | Approving(a: nat, deviceID: string)                            // TakeApproval
    | AwaitingEmoji(a: nat, generation: nat, taken: Taken)           // StartApproval
    | Approved(a: nat, generation: nat, taken: Taken)                // Approve
    | AwaitingPhone(a: nat, generation: nat, found: Option<Handle>)  // provider Complete and Seal
    | Sealed(a: nat, generation: nat, found: Option<Handle>)         // StorePending
    | DisposingSealed(a: nat, generation: nat, found: Option<Handle>) // Dispose after sealing
    | Committing(a: nat, generation: nat)                            // CommitPairedSession
    | CommitRefused(a: nat, generation: nat, superseded: bool)       // CommitFailed
    | Committed(a: nat, generation: nat)                             // CommitSucceeded
    | Finishing(a: nat, generation: nat, state: State, cancel: bool, resume: Option<AttemptKey>) // BeginFinish
    | Disposing(a: nat, generation: nat, found: Option<Handle>, persisted: bool, resume: Option<AttemptKey>) // Dispose
    | Restoring(a: nat, generation: nat, resume: Option<AttemptKey>) // RestorePairing
    | Settling(a: nat, generation: nat, ok: bool, resume: Option<AttemptKey>) // Settle
    | Retaining(a: nat, generation: nat)                             // restore failed, release

  /** How an approval took its reservation: on behalf of SelectDevice or of Start, whether the attempt
      was current at that moment, for which device, and for SelectDevice under which key. */
  datatype Taken = Taken(selected: bool, current: bool, deviceID: string, caller: Option<AttemptKey>)

  /** How a new call enters the service. */
  datatype Entry =
    | EnterStart(key: AttemptKey)
    | EnterWith(key: AttemptKey, id: string, intent: Intent)
    | EnterSweep(a: nat)

  /** The answers of the outside world during one move. */
  datatype Answer = Answer(
    entry: Entry,
    ok: bool,             // the external call succeeded
    superseded: bool,     // its error says that another attempt took over
    sealFailed: bool,     // Complete succeeded but sealing its session did not
    expired: bool,        // the clock is past the attempt's deadline
    id: string,           // a new pairing ID
    hasHandle: bool,      // Discover returned a non-nil handle
    devices: seq<Device>)

  datatype Move = Move(call: nat, answer: Answer)

  /** The service, its calls, and what the outside world has seen so far. */
  datatype System = System(
    registry: Registry,
    calls: seq<Call>,
    begun: multiset<nat>,             // successful BeginPairing, by attempt
    commits: multiset<nat>,           // successful CommitPairedSession
    restores: multiset<nat>,          // successful RestorePairing
    superseded: set<nat>,             // a commit or restore was answered "superseded"
    issued: set<Handle>,              // handles returned by Discover; a fresh handle is named by its attempt
    disposed: multiset<Handle>,
    grants: multiset<(nat, nat)>,     // every reservation ever granted: attempt and generation
    discovered: set<(nat, string)>,   // device IDs that Discover returned, by attempt
    approved: set<(nat, string)>)     // devices for which StartApproval succeeded, by attempt

  const Init := System(Registry([], map[], map[]), [], multiset{}, multiset{}, multiset{}, {}, {}, multiset{},
      multiset{}, {}, {})

  /** The attempt a call refers to. */
  function Target(call: Call): Option<nat> {
    if call.Returned? || call.StartEntered? || call.StartPrepared? || call.LookingUp? then None else Some(call.a)
  }

  function Enter(registry: Registry, entry: Entry): Call {
    match entry
    case EnterStart(key) =>
      if key.tenantID == "" || key.connectionID == "" then Returned else StartEntered(key)
    case EnterWith(key, id, intent) =>
      if ValidPairingID(id) && id in registry.byID && registry.byID[id] < |registry.attempts| &&
         registry.attempts[registry.byID[id]].key == key
      then Found(registry.byID[id], intent, None, Some(key)) else Returned
    case EnterSweep(a) =>
      if a < |registry.attempts| && a in registry.byKey.Values then Found(a, Sweep, None, None) else Returned
  }

  /** The moves of a call that holds no pointer to an attempt, or only its ID. */
  function Search(s: System, call: Call, answer: Answer): Call
    requires Target(call).None?
  {
    var r := s.registry;
    match call
    case StartEntered(key) =>
      if key in r.byKey && r.byKey[key] < |r.attempts| then Found(r.byKey[key], Retry, Some(key), Some(key))
          else StartPrepared(key)
    case LookingUp(a, key) =>
      if a < |r.attempts| && r.attempts[a].id in r.byID && r.byID[r.attempts[a].id] < |r.attempts| &&
         r.attempts[r.byID[r.attempts[a].id]].key == key
      then Found(r.byID[r.attempts[a].id], Lookup, Some(key), Some(key)) else Returned
    case _ => Returned
  }

  /** What a move does to its call, to the attempt, and to the outside world. */
  datatype Effect = Effect(
    call: Call,
    attempt: Attempt,
    removed: bool := false,
    granted: bool := false,
    begun: bool := false,
    committed: bool := false,
    restored: bool := false,
    superseded: bool := false,
    issued: bool := false,
    disposed: Option<Handle> := None,
    discovered: seq<Device> := [],
    approved: Option<string> := None)

  function Admitting(call: Call, attempt: Attempt, current: bool, answer: Answer): Effect
    requires call.Found?
  {
    var Found(a, intent, resume, caller) := call;
    var (next, admission) := attempt.Admit(current, intent, answer.expired);
    match admission
    case Refused(_) => Effect(Returned, next)
    case Gone => Effect(if resume.Some? then StartPrepared(resume.value) else Returned, next)
    case Untouched =>
      Effect(if intent.Retry? && resume.Some? then LookingUp(a, resume.value) else Returned, next)
    case Reserved =>
      Effect(if intent.Select? then AwaitingEmoji(a, next.generation, Taken(true, current, intent.deviceID, caller))
             else if next.pending then Committing(a, next.generation)
             else AwaitingPhone(a, next.generation, next.handle),
             next, granted := true)
    case Cleaning(state, cancel) =>
      Effect(Finishing(a, next.generation, state, cancel, resume), next, granted := true)
  }

  /** The rest of Start, and the approval that SelectDevice shares with it. */
  function Opening(call: Call, attempt: Attempt, current: bool, answer: Answer): Effect
    requires Target(call).Some?
  {
    var a := call.a;
    match call
    case Beginning(_) =>
      if answer.ok then Effect(BeginSucceeded(a), attempt, begun := true) else Effect(BeginFailed(a), attempt)
    case BeginFailed(_) => Effect(Returned, attempt, removed := true)
    case BeginSucceeded(_) => Effect(Discovering(a), attempt.(persisted := true))
    case Discovering(_) =>
      var found := if answer.hasHandle then Some(a) else None;
      Effect(if answer.ok then Discovered(a, found, answer.devices) else DiscoverFailed(a, found),
             attempt, issued := answer.hasHandle, discovered := if answer.ok then answer.devices else [])
    case DiscoverFailed(_, found) =>
      Effect(Finishing(a, 1, StateFailed, true, None), attempt.(handle := found))
    case Discovered(_, found, devices) =>
      var (next, discovery) := attempt.AcceptDevices(current, found, devices);
      if discovery.LostOwnership? then Effect(Returned, next, disposed := found)
      else if discovery.InvalidDevices? || devices == [] then Effect(RejectingDevices(a), next)
      else Effect(Releasing(a, if |devices| == 1 then Some(devices[0].id) else None), next)
    case RejectingDevices(_) =>
      var next := attempt.Reserve(OpCleanup);
      Effect(Finishing(a, next.generation, StateFailed, true, None), next, granted := true)
    case Releasing(_, only) =>
      Effect(if only.Some? then Approving(a, only.value) else Publishing(a), attempt.(operation := OpIdle))
    case Publishing(_) => Effect(Returned, attempt.(state := StateAwaitingDeviceSelection))
    case Approving(_, deviceID) =>
      var (next, taken) := attempt.TakeApproval();
      if taken
      then Effect(AwaitingEmoji(a, next.generation, Taken(false, current, deviceID, None)), next, granted := true)
      else Effect(Returned, next)
    case AwaitingEmoji(_, generation, taken) =>
      if answer.ok then Effect(Approved(a, generation, taken), attempt, approved := Some(taken.deviceID))
      else Effect(Finishing(a, generation, StateFailed, true, None), attempt)
    case Approved(_, generation, _) => Effect(Returned, attempt.Approve(current, generation).0)
    case _ => Effect(call, attempt)
  }

  /** The rest of Complete, and finishReserved. */
  function Closing(call: Call, attempt: Attempt, current: bool, answer: Answer): Effect
    requires Target(call).Some?
  {
    var a := call.a;
    match call
    case AwaitingPhone(_, generation, found) =>
      Effect(if answer.ok && !answer.sealFailed then Sealed(a, generation, found)
             else Finishing(a, generation, StateFailed, !answer.ok, None), attempt)
    case Sealed(_, generation, found) =>
      var (next, owned) := attempt.StorePending(current, generation);
      Effect(if owned then DisposingSealed(a, generation, found) else Returned, next)
    case DisposingSealed(_, generation, found) => Effect(Committing(a, generation), attempt, disposed := found)
    case Committing(_, generation) =>
      if answer.ok then Effect(Committed(a, generation), attempt, committed := true)
      else Effect(CommitRefused(a, generation, answer.superseded), attempt, superseded := answer.superseded)
    case CommitRefused(_, generation, superseded) =>
      var (next, removed) := attempt.CommitFailed(generation, superseded);
      Effect(Returned, next, removed := removed)
    case Committed(_, generation) =>
      var (next, removed) := attempt.CommitSucceeded(current, generation);
      Effect(Returned, next, removed := removed)
    case Finishing(_, generation, state, cancel, resume) =>
      var (next, finish) := attempt.BeginFinish(generation, state, cancel);
      Effect(if finish.FinishBusy? then Returned
             else Disposing(a, generation, finish.handle, finish.persisted, resume), next)
    case Disposing(_, generation, found, persisted, resume) =>
      Effect(if persisted then Restoring(a, generation, resume) else Settling(a, generation, true, resume),
             attempt, disposed := found)
    case Restoring(_, generation, resume) =>
      if answer.ok then Effect(Settling(a, generation, true, resume), attempt, restored := true)
      else Effect(if answer.superseded then Settling(a, generation, false, resume) else Retaining(a, generation),
                  attempt, superseded := answer.superseded)
    case Settling(_, _, ok, resume) =>
      Effect(if ok && resume.Some? then StartPrepared(resume.value) else Returned, attempt.Settle(), removed := true)
    case Retaining(_, _) => Effect(Returned, attempt.(operation := OpIdle))
    case _ => Effect(call, attempt)
  }

  predicate IsClosing(call: Call) {
    || call.AwaitingPhone? || call.Sealed? || call.DisposingSealed? || call.Committing? || call.CommitRefused?
    || call.Committed? || call.Finishing? || call.Disposing? || call.Restoring? || call.Settling? || call.Retaining?
  }

  function Act(call: Call, attempt: Attempt, current: bool, answer: Answer): Effect
    requires Target(call).Some?
  {
    if call.Found? then Admitting(call, attempt, current, answer)
    else if IsClosing(call) then Closing(call, attempt, current, answer)
    else Opening(call, attempt, current, answer)
  }

  function Seen(a: nat, happened: bool): multiset<nat> {
    if happened then multiset{a} else multiset{}
  }

  /** The state after call `c` has had its effect on attempt `a`. */
  function After(s: System, c: nat, a: nat, e: Effect): System
    requires c < |s.calls| && a < |s.registry.attempts|
  {
    System(
      s.registry.Apply(a, e.attempt, e.removed),
      s.calls[c := e.call],
      s.begun + Seen(a, e.begun),
      s.commits + Seen(a, e.committed),
      s.restores + Seen(a, e.restored),
      s.superseded + (if e.superseded then {a} else {}),
      s.issued + (if e.issued then {a} else {}),
      s.disposed + (if e.disposed.Some? then multiset{e.disposed.value} else multiset{}),
      s.grants + (if e.granted then multiset{(a, e.attempt.generation)} else multiset{}),
      s.discovered + (set device | device in e.discovered :: (a, device.id)),
      s.approved + (if e.approved.Some? then {(a, e.approved.value)} else {}))
  }

  function Step(s: System, move: Move): System {
    var c, answer, r := move.call, move.answer, s.registry;
    if c > |s.calls| then s
    else if c == |s.calls| then s.(calls := s.calls + [Enter(r, answer.entry)])
    else if s.calls[c].StartPrepared? && answer.ok && ValidPairingID(answer.id)
        && r.CanInsert(s.calls[c].key, answer.id) then
      s.(registry := r.Insert(s.calls[c].key, answer.id), calls := s.calls[c := Beginning(|r.attempts|)],
         grants := s.grants + multiset{(|r.attempts|, 1)})
    else if Target(s.calls[c]).None? then s.(calls := s.calls[c := Search(s, s.calls[c], answer)])
    else if s.calls[c].a < |r.attempts| then
      var a := s.calls[c].a;
      After(s, c, a, Act(s.calls[c], r.attempts[a], r.IsCurrent(a), answer))
    else s
  }

  /** The state after a whole run. */
  function Exec(moves: seq<Move>): System {
    if moves == [] then Init else Step(Exec(moves[..|moves| - 1]), moves[|moves| - 1])
  }
}
