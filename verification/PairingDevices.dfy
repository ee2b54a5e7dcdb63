/** Whom an approval is for. Every attempt is followed together with the devices
    that Discover returned for it and the devices whose approval the provider has
    started: nothing is approved, completed or committed for any other device, and
    nobody acts on an attempt under a key that is not its own. */
module PairingDevices {
  import opened Wrappers
  import opened PairingAttempts
  import opened PairingRuns
  import opened PairingSafety

  // ----- The invariant ------------------------------------------------------

  function Of(pairs: set<(nat, string)>, a: nat): set<string> {
    set pair | pair in pairs && pair.0 == a :: pair.1
  }

  /** An attempt and what the provider has said about its devices. */
  datatype Trace = Trace(attempt: Attempt, discovered: set<string>, approved: set<string>, committed: bool)

  function TraceOf(s: System, a: nat): Trace
    requires a < |s.registry.attempts|
  {
    Trace(s.registry.attempts[a], Of(s.discovered, a), Of(s.approved, a), s.commits[a] > 0)
  }

  /** What an attempt shown in this state has behind it. */
  predicate StateFits(state: State, t: Trace) {
    && (state.StateAwaitingDeviceSelection? ==> t.attempt.deviceIDs == t.discovered)
    && (state.StateAwaitingPhoneApproval? ==> t.approved != {})
  }

  predicate TraceFits(t: Trace) {
    && t.attempt.deviceIDs <= t.discovered && t.approved <= t.discovered
    && StateFits(t.attempt.state, t) && (t.committed ==> t.approved != {})
  }

  /** The approval is for a device of this attempt: for SelectDevice one that was discovered, asked for
      under the attempt's own key; for Start the only one. */
  predicate ApprovalFits(taken: Taken, t: Trace) {
    && taken.deviceID in t.discovered
    && if taken.selected then taken.caller == Some(t.attempt.key) else t.discovered == {taken.deviceID}
  }

  predicate CallTraced(call: Call, t: Trace) {
    var attempt := t.attempt;
    match call
    case Found(_, intent, _, caller) => caller == Some(attempt.key) || (caller.None? && intent.Sweep?)
    case Beginning(_) => t.discovered == {} == attempt.deviceIDs
    case BeginFailed(_) => t.discovered == {} == attempt.deviceIDs
    case BeginSucceeded(_) => t.discovered == {} == attempt.deviceIDs
    case Discovering(_) => t.discovered == {} == attempt.deviceIDs
    case Discovered(_, _, devices) => t.discovered == DeviceIDs(devices) && attempt.deviceIDs == {}
    case Releasing(_, only) =>
      attempt.deviceIDs == t.discovered && (only.Some? ==> t.discovered == {only.value})
    case Publishing(_) => attempt.deviceIDs == t.discovered
    case Approving(_, deviceID) => t.discovered == {deviceID}
    case AwaitingEmoji(_, _, taken) => ApprovalFits(taken, t)
    case Approved(_, _, taken) => ApprovalFits(taken, t) && taken.deviceID in t.approved
    case Finishing(_, _, state, _, _) => StateFits(state, t)
    case _ => HoldsComplete(call) ==> t.approved != {}
  }

  ghost predicate Traced(s: System) {
    && (forall pair <- s.discovered :: pair.0 < |s.registry.attempts|)
    && (forall pair <- s.approved :: pair.0 < |s.registry.attempts|)
    && (forall a | 0 <= a < |s.registry.attempts| :: TraceFits(TraceOf(s, a)))
    && (forall c | 0 <= c < |s.calls| && Target(s.calls[c]).Some? ::
          s.calls[c].a < |s.registry.attempts| && CallTraced(s.calls[c], TraceOf(s, s.calls[c].a)))
  }

  // ----- One move ---------------------------------------------------------------

  function TraceAfter(t: Trace, e: Effect): Trace {
    Trace(e.attempt, t.discovered + DeviceIDs(e.discovered),
          t.approved + (if e.approved.Some? then {e.approved.value} else {}), t.committed || e.committed)
  }

  lemma {:induction false} UsableListIsReadWhole(devices: seq<Device>, k: nat)
    requires UsableDevices(devices) && k <= |devices|
    ensures UsableCount(devices, k) == |devices|
    decreases |devices| - k
  {
    if k < |devices| {
      assert devices[k].id !in DeviceIDs(devices[..k]);
      UsableListIsReadWhole(devices, k + 1);
    }
  }

  lemma PrefixIDs(devices: seq<Device>, n: nat, id: string)
    requires n <= |devices| && id in DeviceIDs(devices[..n])
    ensures id in DeviceIDs(devices)
  {
    var device :| device in devices[..n] && device.id == id;
    assert device in devices;
  }

  /** The IDs kept from a device list were all in it, and all of them are kept from a usable list. */
  lemma KeptIDs(devices: seq<Device>)
    ensures DeviceIDs(devices[..UsableCount(devices)]) <= DeviceIDs(devices)
    ensures UsableDevices(devices) ==> DeviceIDs(devices[..UsableCount(devices)]) == DeviceIDs(devices)
    ensures |devices| == 1 ==> DeviceIDs(devices) == {devices[0].id}
  {
    var n := UsableCount(devices);
    forall id | id in DeviceIDs(devices[..n]) ensures id in DeviceIDs(devices) { PrefixIDs(devices, n, id); }
    if UsableDevices(devices) {
      UsableListIsReadWhole(devices, 0);
      assert devices[..|devices|] == devices;
    }
    hide UsableDevices, UsableCount, ValidDevice;
  }

  /** The move leaves its call and its attempt in order. */
  predicate MoveTraced(t: Trace, e: Effect) {
    TraceFits(TraceAfter(t, e)) && (Target(e.call).Some? ==> CallTraced(e.call, TraceAfter(t, e)))
  }

  lemma AdmittingTraced(p: Call, t: Trace, current: bool, answer: Answer)
    requires p.Found? && TraceFits(t) && CallTraced(p, t)
    ensures MoveTraced(t, Admitting(p, t.attempt, current, answer))
  {
    AdmissionCases(t.attempt, current, p.intent, answer.expired);
    NoDevices();
    hide Attempt.Admit, DeviceIDs;
    var (next, admission) := t.attempt.Admit(current, p.intent, answer.expired);
    var e := Admitting(p, t.attempt, current, answer);
    assert e.attempt == next && TraceAfter(t, e) == t.(attempt := next);
    match admission
    case Reserved =>
    case Cleaning(_, _) =>
    case Refused(_) => assert e.call == Returned;
    case Gone =>
    case Untouched =>
  }

  lemma NoDevices()
    ensures DeviceIDs([]) == {}
  {
  }

  lemma SetupTraced(p: Call, t: Trace, v: View, answer: Answer)
    requires p.Beginning? || p.BeginFailed? || p.BeginSucceeded? || p.Discovering? || p.DiscoverFailed?
    requires v.attempt == t.attempt && CallFits(p, v) && TraceFits(t) && CallTraced(p, t)
    ensures MoveTraced(t, Opening(p, t.attempt, v.current, answer))
  {
    NoDevices();
    hide DeviceIDs, Live, Open, Reservable;
  }

  lemma DiscoveredTraced(p: Call, t: Trace, v: View, answer: Answer)
    requires p.Discovered? && v.attempt == t.attempt && CallFits(p, v) && TraceFits(t) && CallTraced(p, t)
    ensures MoveTraced(t, Opening(p, t.attempt, v.current, answer))
  {
    NoDevices();
    KeptIDs(p.devices);
    ReadingGives(p, t.attempt, v.current, answer);
    hide DeviceIDs, UsableDevices, UsableCount, Live, Open, Reservable, Opening;
    var e := Opening(p, t.attempt, v.current, answer);
    assert TraceAfter(t, e) == t.(attempt := e.attempt);
  }

  lemma ReleaseTraced(p: Call, t: Trace, current: bool, answer: Answer)
    requires p.RejectingDevices? || p.Releasing?
    requires TraceFits(t) && CallTraced(p, t)
    ensures MoveTraced(t, Opening(p, t.attempt, current, answer))
  {
    NoDevices();
    hide DeviceIDs;
  }

  lemma PublishTraced(p: Call, t: Trace, current: bool, answer: Answer)
    requires p.Publishing? && TraceFits(t) && CallTraced(p, t)
    ensures MoveTraced(t, Opening(p, t.attempt, current, answer))
  {
    NoDevices();
    hide DeviceIDs;
  }

  lemma TakingTraced(p: Call, t: Trace, current: bool, answer: Answer)
    requires p.Approving? && TraceFits(t) && CallTraced(p, t)
    ensures MoveTraced(t, Opening(p, t.attempt, current, answer))
  {
    NoDevices();
    TakingGives(p, t.attempt, current, answer);
    hide DeviceIDs, Opening;
    var e := Opening(p, t.attempt, current, answer);
    assert TraceAfter(t, e) == t.(attempt := e.attempt);
  }

  lemma TakingGives(p: Call, attempt: Attempt, current: bool, answer: Answer)
    requires p.Approving?
    ensures var e := Opening(p, attempt, current, answer);
            && e.discovered == [] && e.approved == None && !e.committed
            && e.attempt == attempt.(operation := e.attempt.operation, generation := e.attempt.generation)
            && (e.call == Returned || (e.call.AwaitingEmoji?
                                       && e.call.taken == Taken(false, current, p.deviceID, None)))
  {
  }

  lemma ReadingGives(p: Call, attempt: Attempt, current: bool, answer: Answer)
    requires p.Discovered?
    ensures var e, devices := Opening(p, attempt, current, answer), p.devices;
            && e.discovered == [] && e.approved == None && !e.committed && e.attempt.state == attempt.state
            && (e.attempt.deviceIDs == attempt.deviceIDs
                || e.attempt.deviceIDs == DeviceIDs(devices[..UsableCount(devices)]))
            && (e.call == Returned || e.call == RejectingDevices(p.a) ||
                (e.call == Releasing(p.a, if |devices| == 1 then Some(devices[0].id) else None)
                 && UsableDevices(devices) && e.attempt.deviceIDs == DeviceIDs(devices[..UsableCount(devices)])))
  {
    hide UsableDevices, UsableCount, DeviceIDs;
  }

  lemma ApprovalTraced(p: Call, t: Trace, current: bool, answer: Answer)
    requires p.AwaitingEmoji? || p.Approved?
    requires TraceFits(t) && CallTraced(p, t)
    ensures MoveTraced(t, Opening(p, t.attempt, current, answer))
  {
    NoDevices();
    hide DeviceIDs;
  }

  lemma CommitTraced(p: Call, t: Trace, current: bool, answer: Answer)
    requires HoldsComplete(p) && TraceFits(t) && CallTraced(p, t)
    ensures MoveTraced(t, Closing(p, t.attempt, current, answer))
  {
    NoDevices();
    hide DeviceIDs;
  }

  lemma CleanupTraced(p: Call, t: Trace, current: bool, answer: Answer)
    requires IsClosing(p) && !HoldsComplete(p) && TraceFits(t) && CallTraced(p, t)
    ensures MoveTraced(t, Closing(p, t.attempt, current, answer))
  {
    NoDevices();
    hide DeviceIDs;
  }

  lemma ActTraced(p: Call, t: Trace, v: View, answer: Answer)
    requires Target(p).Some? && v.attempt == t.attempt && CallFits(p, v) && TraceFits(t) && CallTraced(p, t)
    ensures MoveTraced(t, Act(p, t.attempt, v.current, answer))
  {
    hide CallFits, TraceFits, CallTraced, MoveTraced, Admitting, Opening, Closing;
    if p.Found? { AdmittingTraced(p, t, v.current, answer); }
    else if HoldsComplete(p) { CommitTraced(p, t, v.current, answer); }
    else if IsClosing(p) { CleanupTraced(p, t, v.current, answer); }
    else if p.AwaitingEmoji? || p.Approved? { ApprovalTraced(p, t, v.current, answer); }
    else if p.Publishing? { PublishTraced(p, t, v.current, answer); }
    else if p.Approving? { TakingTraced(p, t, v.current, answer); }
    else if p.RejectingDevices? || p.Releasing? { ReleaseTraced(p, t, v.current, answer); }
    else if p.Discovered? { DiscoveredTraced(p, t, v, answer); }
    else { SetupTraced(p, t, v, answer); }
  }

  /** Only Discover adds devices, and only reading its answer changes the IDs that may be selected. */
  predicate KeepsDevices(p: Call, attempt: Attempt, e: Effect) {
    && e.attempt.key == attempt.key
    && (e.attempt.deviceIDs != attempt.deviceIDs ==> p.Discovered?)
    && (e.discovered != [] ==> p.Discovering?)
  }

  lemma AdmittingKeepsDevices(p: Call, attempt: Attempt, current: bool, answer: Answer)
    requires p.Found?
    ensures KeepsDevices(p, attempt, Admitting(p, attempt, current, answer))
  {
    AdmissionCases(attempt, current, p.intent, answer.expired);
    hide Attempt.Admit;
  }

  lemma SetupKeepsDevices(p: Call, attempt: Attempt, current: bool, answer: Answer)
    requires HoldsStart(p)
    ensures KeepsDevices(p, attempt, Opening(p, attempt, current, answer))
  {
    hide UsableDevices, UsableCount, DeviceIDs;
  }

  lemma OpeningKeepsDevices(p: Call, attempt: Attempt, current: bool, answer: Answer)
    requires Target(p).Some? && !HoldsStart(p)
    ensures KeepsDevices(p, attempt, Opening(p, attempt, current, answer))
  {
    hide UsableDevices, UsableCount, DeviceIDs;
  }

  lemma ClosingKeepsDevices(p: Call, attempt: Attempt, current: bool, answer: Answer)
    requires Target(p).Some?
    ensures KeepsDevices(p, attempt, Closing(p, attempt, current, answer))
  {
  }

  lemma ActKeepsDevices(p: Call, attempt: Attempt, current: bool, answer: Answer)
    requires Target(p).Some?
    ensures KeepsDevices(p, attempt, Act(p, attempt, current, answer))
  {
    hide KeepsDevices, Admitting, Opening, Closing;
    if p.Found? { AdmittingKeepsDevices(p, attempt, current, answer); }
    else if IsClosing(p) { ClosingKeepsDevices(p, attempt, current, answer); }
    else if HoldsStart(p) { SetupKeepsDevices(p, attempt, current, answer); }
    else { OpeningKeepsDevices(p, attempt, current, answer); }
  }

  /** So the other calls on the attempt do not notice. */
  lemma OtherTraced(p: Call, t: Trace, current: bool, answer: Answer, o: Call)
    requires Target(p).Some? && Target(o) == Some(p.a) && Compatible(p, o) && CallTraced(o, t)
    ensures CallTraced(o, TraceAfter(t, Act(p, t.attempt, current, answer)))
  {
    ActKeepsDevices(p, t.attempt, current, answer);
    NoDevices();
    hide Act, Tame, DeviceIDs;
    var e := Act(p, t.attempt, current, answer);
    assert e.discovered == [] ==> TraceAfter(t, e).discovered == t.discovered;
    assert t.approved <= TraceAfter(t, e).approved;
  }

  // ----- Every move keeps the invariant ---------------------------------------------

  lemma OfAfter(s: System, c: nat, a: nat, e: Effect, b: nat)
    requires c < |s.calls| && a < |s.registry.attempts|
    ensures Of(After(s, c, a, e).discovered, b) ==
            Of(s.discovered, b) + if b == a then DeviceIDs(e.discovered) else {}
    ensures Of(After(s, c, a, e).approved, b) ==
            Of(s.approved, b) + if b == a && e.approved.Some? then {e.approved.value} else {}
  {
    hide Registry.Apply;
    var t := After(s, c, a, e);
    forall d | d in Of(s.discovered, b) ensures d in Of(t.discovered, b) { assert (b, d) in t.discovered; }
    if b == a {
      forall d | d in DeviceIDs(e.discovered) ensures d in Of(t.discovered, b) { assert (b, d) in t.discovered; }
    }
    forall d | d in Of(s.approved, b) ensures d in Of(t.approved, b) { assert (b, d) in t.approved; }
    if b == a && e.approved.Some? { assert (a, e.approved.value) in t.approved; }
  }

  lemma TraceOfAfter(s: System, c: nat, a: nat, e: Effect, b: nat)
    requires c < |s.calls| && a < |s.registry.attempts| && b < |s.registry.attempts|
    requires e.disposed.Some? ==> e.disposed.value == a
    ensures var t := After(s, c, a, e);
            && |t.registry.attempts| == |s.registry.attempts|
            && TraceOf(t, b) == if b == a then TraceAfter(TraceOf(s, a), e) else TraceOf(s, b)
  {
    hide After, Registry.Apply, Of, DeviceIDs;
    AfterCounts(s, c, a, e, b);
    ApplyReplaces(s.registry, a, e.attempt, e.removed);
    OfAfter(s, c, a, e, b);
  }

  lemma ActKeepsTraced(s: System, c: nat, answer: Answer)
    requires Inv(s) && Traced(s) && c < |s.calls| && Target(s.calls[c]).Some?
    ensures s.calls[c].a < |s.registry.attempts|
    ensures var a := s.calls[c].a;
            Traced(After(s, c, a, Act(s.calls[c], s.registry.attempts[a], s.registry.IsCurrent(a), answer)))
  {
    hide TraceFits, CallTraced, CallFits, AttemptFits, Act, Compatible, TraceAfter, Registry.IndexesAgree, GrantsOk,
      HistoryOk, AttemptsOk, TraceOf, Registry.Apply;
    var p, a := s.calls[c], s.calls[c].a;
    var v, t := ViewOf(s, a), TraceOf(s, a);
    var e := Act(p, v.attempt, v.current, answer);
    assert CallOk(s, p);
    MoveIsOwn(s, c, answer);
    ViewAndTrace(s, a);
    ActTraced(p, t, v, answer);
    var next := After(s, c, a, e);
    forall b | 0 <= b < |s.registry.attempts|
      ensures |next.registry.attempts| == |s.registry.attempts|
      ensures TraceOf(next, b) == if b == a then TraceAfter(t, e) else TraceOf(s, b)
    {
      TraceOfAfter(s, c, a, e, b);
    }
    forall d | 0 <= d < |next.calls| && Target(next.calls[d]).Some?
      ensures next.calls[d].a < |next.registry.attempts| && CallTraced(next.calls[d], TraceOf(next, next.calls[d].a))
    {
      if d != c {
        TargetIsA(s.calls[d]);
        if s.calls[d].a == a { OtherTraced(p, t, v.current, answer, s.calls[d]); }
      } else {
        TargetIsA(e.call);
      }
    }
  }

  lemma ViewAndTrace(s: System, a: nat)
    requires a < |s.registry.attempts|
    ensures ViewOf(s, a).attempt == TraceOf(s, a).attempt == s.registry.attempts[a]
    ensures ViewOf(s, a).current == s.registry.IsCurrent(a)
  {
  }

  /** A move stays on its attempt and disposes of no other handle. */
  lemma MoveIsOwn(s: System, c: nat, answer: Answer)
    requires Inv(s) && c < |s.calls| && Target(s.calls[c]).Some?
    ensures s.calls[c].a < |s.registry.attempts|
    ensures var a := s.calls[c].a;
            var e := Act(s.calls[c], s.registry.attempts[a], s.registry.IsCurrent(a), answer);
            && (e.disposed.Some? ==> e.disposed.value == a)
            && (Target(e.call).Some? ==> Target(e.call) == Some(a))
  {
    hide AttemptFits, CallFits, Act, Registry.IndexesAgree, GrantsOk, HistoryOk, Compatible;
    assert CallOk(s, s.calls[c]);
    ActFits(s.calls[c], ViewOf(s, s.calls[c].a), answer);
  }

  /** A call that has just found an attempt found one of its own key. */
  lemma EnterIsTraced(s: System, entry: Entry)
    ensures var call := Enter(s.registry, entry);
            Target(call).Some? ==>
              call.a < |s.registry.attempts| && CallTraced(call, TraceOf(s, call.a))
  {
    hide ValidPairingID, Of;
  }

  lemma SearchIsTraced(s: System, call: Call, answer: Answer)
    requires Target(call).None? && s.registry.IndexesAgree()
    ensures var q := Search(s, call, answer);
            Target(q).Some? ==> q.a < |s.registry.attempts| && CallTraced(q, TraceOf(s, q.a))
  {
    hide Of;
  }

  lemma CallsChangeTraced(s: System, t: System, c: nat)
    requires Traced(s) && t == s.(calls := t.calls) && c < |t.calls|
    requires forall d | 0 <= d < |t.calls| && d != c :: d < |s.calls| && t.calls[d] == s.calls[d]
    requires Target(t.calls[c]).Some? ==>
               t.calls[c].a < |s.registry.attempts| && CallTraced(t.calls[c], TraceOf(s, t.calls[c].a))
    ensures Traced(t)
  {
    hide TraceFits, CallTraced, Of;
    assert forall a | 0 <= a < |s.registry.attempts| :: TraceOf(t, a) == TraceOf(s, a);
  }

  lemma InsertKeepsTraced(s: System, t: System, c: nat, key: AttemptKey, id: string)
    requires Inv(s) && Traced(s) && c < |s.calls|
    requires t == s.(registry := s.registry.Insert(key, id), calls := s.calls[c := Beginning(|s.registry.attempts|)],
                     grants := s.grants + multiset{(|s.registry.attempts|, 1)})
    ensures Traced(t)
  {
    hide TraceFits, CallTraced, Registry.IndexesAgree, GrantsOk, AttemptsOk, CallsOk, Target;
    var n := |s.registry.attempts|;
    assert TraceOf(t, n) == Trace(NewAttempt(key, id), {}, {}, false);
    assert forall a | 0 <= a < n :: TraceOf(t, a) == TraceOf(s, a);
    NewIsTraced(n, key, id);
  }

  lemma NewIsTraced(n: nat, key: AttemptKey, id: string)
    ensures var t := Trace(NewAttempt(key, id), {}, {}, false); TraceFits(t) && CallTraced(Beginning(n), t)
  {
  }

  lemma StepKeepsTraced(s: System, move: Move)
    requires Inv(s) && Traced(s)
    ensures Traced(Step(s, move))
  {
    hide Inv, Traced, Act, After, Enter, Search, CallTraced, ValidPairingID, TraceOf;
    var c, answer, t := move.call, move.answer, Step(s, move);
    if c > |s.calls| {
    } else if c == |s.calls| {
      EnterIsTraced(s, answer.entry);
      CallsChangeTraced(s, t, c);
    } else if s.calls[c].StartPrepared? && answer.ok && ValidPairingID(answer.id) &&
              s.registry.CanInsert(s.calls[c].key, answer.id) {
      InsertKeepsTraced(s, t, c, s.calls[c].key, answer.id);
    } else if Target(s.calls[c]).None? {
      IndexesAgree(s);
      SearchIsTraced(s, s.calls[c], answer);
      CallsChangeTraced(s, t, c);
    } else {
      ActKeepsTraced(s, c, answer);
    }
  }

  lemma IndexesAgree(s: System)
    requires Inv(s)
    ensures s.registry.IndexesAgree()
  {
  }

  lemma {:induction false} RunsAreTraced(moves: seq<Move>)
    ensures Traced(Exec(moves))
  {
    if moves != [] {
      var before := moves[..|moves| - 1];
      RunsAreTraced(before);
      RunsKeepInv(before);
      StepKeepsTraced(Exec(before), moves[|moves| - 1]);
    }
  }

  // ----- What every run promises ------------------------------------------------

  /** In every run the provider is asked to approve only a device that Discover returned for that very
      attempt: for SelectDevice the one the caller named, under the attempt's own key; for Start the
      only one there is. */
  lemma ApprovalsAreForDiscoveredDevices(moves: seq<Move>, c: nat)
    requires c < |Exec(moves).calls| && HoldsSelect(Exec(moves).calls[c])
    ensures var s := Exec(moves);
            var a, taken := s.calls[c].a, s.calls[c].taken;
            && a < |s.registry.attempts| && (a, taken.deviceID) in s.discovered
            && (taken.selected ==> taken.caller == Some(s.registry.attempts[a].key))
            && (!taken.selected ==> forall d :: (a, d) in s.discovered ==> d == taken.deviceID)
  {
    RunsAreTraced(moves);
    var s := Exec(moves);
    var a, taken := s.calls[c].a, s.calls[c].taken;
    assert taken.deviceID in Of(s.discovered, a);
    forall d | (a, d) in s.discovered ensures d in Of(s.discovered, a) { assert (a, d).0 == a; }
  }

  /** A selection goes ahead exactly when the attempt is current, idle, in time, waiting for a selection,
      and Discover returned that device for it; and whoever selects, completes or cancels named the
      attempt's own key. */
  lemma SelectionIsExact(moves: seq<Move>, c: nat, answer: Answer)
    requires c < |Exec(moves).calls| && Exec(moves).calls[c].Found?
    ensures var s := Exec(moves);
            var Found(a, intent, _, caller) := s.calls[c];
            && a < |s.registry.attempts|
            && (!intent.Sweep? ==> caller == Some(s.registry.attempts[a].key))
            && (intent.Select? ==>
                  (Act(s.calls[c], s.registry.attempts[a], s.registry.IsCurrent(a), answer).call.AwaitingEmoji? <==>
                     && s.registry.IsCurrent(a) && s.registry.attempts[a].operation.OpIdle? && !answer.expired
                     && s.registry.attempts[a].state.StateAwaitingDeviceSelection?
                     && (a, intent.deviceID) in s.discovered))
  {
    RunsAreTraced(moves);
    var s := Exec(moves);
    var a, intent := s.calls[c].a, s.calls[c].intent;
    assert CallTraced(s.calls[c], TraceOf(s, a)) && TraceFits(TraceOf(s, a));
    hide Exec, Traced;
    if intent.Select? && (a, intent.deviceID) in s.discovered {
      assert (a, intent.deviceID).0 == a;
      assert intent.deviceID in Of(s.discovered, a);
    }
  }

  /** No pairing is completed on a phone, sealed or committed unless the provider had started the approval
      of a device that it had itself listed for that attempt. */
  lemma CompletionFollowsApproval(moves: seq<Move>, a: nat)
    requires a < |Exec(moves).registry.attempts|
    requires var s := Exec(moves);
             || s.commits[a] > 0
             || exists c :: 0 <= c < |s.calls| && Target(s.calls[c]) == Some(a) && HoldsComplete(s.calls[c])
    ensures exists d :: (a, d) in Exec(moves).approved && (a, d) in Exec(moves).discovered
  {
    RunsAreTraced(moves);
    var s := Exec(moves);
    hide Exec;
    assert TraceFits(TraceOf(s, a));
    if s.commits[a] == 0 {
      var c :| 0 <= c < |s.calls| && Target(s.calls[c]) == Some(a) && HoldsComplete(s.calls[c]);
      assert CallTraced(s.calls[c], TraceOf(s, a));
    }
    var d :| d in Of(s.approved, a);
    assert d in Of(s.discovered, a);
  }
}
