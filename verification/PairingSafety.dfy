/** What every interleaving of pairing calls keeps. */
module PairingSafety {
  import opened Wrappers
  import opened PairingAttempts
  import opened PairingRuns

  // ----- The invariant ------------------------------------------------------

  predicate HoldsStart(call: Call) {
    || call.Beginning? || call.BeginFailed? || call.BeginSucceeded? || call.Discovering? || call.DiscoverFailed?
    || call.Discovered? || call.RejectingDevices? || call.Releasing?
  }

  predicate HoldsSelect(call: Call) { call.AwaitingEmoji? || call.Approved? }

  predicate HoldsComplete(call: Call) {
    || call.AwaitingPhone? || call.Sealed? || call.DisposingSealed? || call.Committing? || call.CommitRefused?
    || call.Committed?
  }

  /** The attempt whose reservation a call holds. */
  function HeldBy(call: Call): Option<nat> {
    if Target(call).None? || call.Found? || call.Publishing? || call.Approving? then None
    else Some(call.a)
  }

  /** The attempt a Start created and has not yet finished setting up. */
  function StartedBy(call: Call): Option<nat> {
    if HoldsStart(call) || call.Publishing? || call.Approving? then Some(call.a) else None
  }

  /** The attempt carries the tag and the generation its holder believes in. */
  predicate Tagged(call: Call, attempt: Attempt)
    requires HeldBy(call).Some?
  {
    if HoldsStart(call) then attempt.operation == OpStart && attempt.generation == 1
    else
      && attempt.generation == call.generation
      && if HoldsSelect(call) then attempt.operation == OpSelect
         else if HoldsComplete(call) then attempt.operation == OpComplete
         else if call.Finishing? then attempt.operation != OpIdle
         else attempt.operation == OpCleanup
  }

  predicate Unapproved(state: State) {
    !state.StateAwaitingDeviceSelection? && !state.StateAwaitingPhoneApproval? && !state.StateComplete?
  }

  /** All that the invariant says about an attempt: its fields, and what the
      outside world has seen of it. */
  datatype View = View(
    attempt: Attempt, current: bool, begun: nat, settled: nat, superseded: bool, issued: bool, disposed: nat)

  function ViewOf(s: System, a: nat): View
    requires a < |s.registry.attempts|
  {
    View(s.registry.attempts[a], s.registry.IsCurrent(a), s.begun[a], s.commits[a] + s.restores[a],
         a in s.superseded, a in s.issued, s.disposed[a])
  }

  /** BeginPairing succeeded and neither a commit nor a restore has. */
  predicate Open(v: View) { v.attempt.persisted && v.begun == 1 && v.settled == 0 && !v.superseded }

  /** A successful BeginPairing has been answered by a commit, by a restore, or by "superseded". */
  predicate Resolved(v: View) { v.begun == 1 ==> v.settled == 1 || v.superseded }

  predicate OpenIfPersisted(v: View) { v.attempt.persisted ==> Open(v) }

  /** What a reservation finds: a current attempt is open, and one that a sweep has settled is not touched again. */
  predicate Reservable(v: View) { OpenIfPersisted(v) && (v.current ==> v.attempt.persisted) }

  /** `handle` is the attempt's own handle and still has to be disposed, or nothing is left to dispose. */
  predicate Live(a: nat, v: View, handle: Option<Handle>) {
    if handle.Some? then handle.value == a && v.issued && v.disposed == 0
    else v.issued ==> v.disposed == 1
  }

  predicate Disposed(a: nat, v: View) { v.attempt.handle.None? && Live(a, v, None) }

  predicate Approvable(a: nat, v: View) {
    Reservable(v) && Live(a, v, v.attempt.handle) && (v.attempt.pending ==> v.attempt.handle.None?)
  }

  /** While an approval holds its reservation the attempt stays in the maps, or stays out of them. */
  predicate TakenFits(taken: Taken, v: View) { v.current == taken.current && (taken.selected ==> taken.current) }

  /** The invariant of a call, in terms of the attempt it refers to. */
  predicate CallFits(call: Call, v: View)
    requires Target(call).Some?
  {
    var a, attempt := call.a, v.attempt;
    && (HeldBy(call).Some? ==> Tagged(call, attempt))
    && (HoldsStart(call) ==> attempt.state.StateNew? && !attempt.pending)
    && (HoldsStart(call) || HoldsComplete(call) ==> v.current)
    && match call
       case Beginning(_) => !attempt.persisted && v.begun == 0 && !v.superseded && !v.issued && attempt.handle.None?
       case BeginFailed(_) => !attempt.persisted && v.begun == 0 && !v.issued && attempt.handle.None?
       case BeginSucceeded(_) => v.begun == 1 && v.settled == 0 && !v.superseded && !v.issued && attempt.handle.None?
       case Discovering(_) => Open(v) && !v.issued && attempt.handle.None?
       case DiscoverFailed(_, found) => Open(v) && Live(a, v, found) && attempt.handle.None?
       case Discovered(_, found, _) => Open(v) && Live(a, v, found) && attempt.handle.None?
       case RejectingDevices(_) => Open(v) && Live(a, v, attempt.handle)
       case Releasing(_, _) => Open(v) && Live(a, v, attempt.handle)
       case Approving(_, _) => Unapproved(attempt.state) && (attempt.operation.OpIdle? ==> OpenIfPersisted(v))
       case AwaitingEmoji(_, _, taken) => Approvable(a, v) && TakenFits(taken, v)
       case Approved(_, _, taken) => Approvable(a, v) && TakenFits(taken, v)
       case AwaitingPhone(_, _, found) => Open(v) && Live(a, v, found) && found == attempt.handle && !attempt.pending
       case Sealed(_, _, found) => Open(v) && Live(a, v, found) && found == attempt.handle && !attempt.pending
       case DisposingSealed(_, _, found) => Open(v) && Live(a, v, found) && attempt.handle.None? && attempt.pending
       case Committing(_, _) => Open(v) && Disposed(a, v) && attempt.pending
       case CommitRefused(_, _, superseded) =>
         Open(v.(superseded := false)) && v.superseded == superseded && Disposed(a, v) && attempt.pending
       case Committed(_, _) => v.settled == 1 && Disposed(a, v)
       case Finishing(_, _, _, _, _) => Reservable(v) && Live(a, v, attempt.handle)
       case Disposing(_, _, found, persisted, _) =>
         Reservable(v) && persisted == attempt.persisted && Live(a, v, found) && attempt.handle.None?
       case Restoring(_, _, _) => Open(v) && Disposed(a, v)
       case Settling(_, _, _, _) => Resolved(v) && Disposed(a, v)
       case Retaining(_, _) => Reservable(v) && Disposed(a, v)
       case _ => true
  }

  predicate AttemptFits(a: nat, v: View) {
    && v.begun <= 1 && v.settled + (if v.superseded then 1 else 0) <= v.begun
    && v.disposed <= 1 && (v.disposed > 0 ==> v.issued)
    && (!v.current ==> Disposed(a, v) && Resolved(v))
    && (v.current && v.attempt.operation.OpIdle? ==>
          Open(v) && Live(a, v, v.attempt.handle) && (v.attempt.pending ==> v.attempt.handle.None?))
  }

  /** What a call must not be doing with attempt `a` while a Start stands before startApproval on it. */
  predicate Tame(call: Call, a: nat) {
    Target(call) == Some(a) ==>
      && !HoldsSelect(call) && !HoldsComplete(call)
      && (call.Finishing? ==> Unapproved(call.state))
  }

  predicate Compatible(p: Call, q: Call) {
    && (HeldBy(p).Some? ==> HeldBy(q) != HeldBy(p))
    && (StartedBy(p).Some? ==> StartedBy(q) != StartedBy(p))
    && (p.Approving? ==> Tame(q, p.a))
    && (q.Approving? ==> Tame(p, q.a))
  }

  ghost predicate CallOk(s: System, call: Call) {
    Target(call).Some? ==> call.a < |s.registry.attempts| && CallFits(call, ViewOf(s, call.a))
  }

  ghost predicate AttemptsOk(s: System) {
    forall a | 0 <= a < |s.registry.attempts| :: AttemptFits(a, ViewOf(s, a))
  }

  ghost predicate CallsOk(s: System) {
    && (forall c | 0 <= c < |s.calls| :: CallOk(s, s.calls[c]))
    && (forall c, d | 0 <= c < |s.calls| && 0 <= d < |s.calls| && c != d :: Compatible(s.calls[c], s.calls[d]))
  }

  ghost predicate GrantsOk(s: System) {
    && (forall g :: s.grants[g] <= 1)
    && (forall g <- s.grants :: g.0 < |s.registry.attempts| && g.1 <= s.registry.attempts[g.0].generation)
  }

  /** History never runs ahead of the attempts that exist. */
  ghost predicate HistoryOk(s: System) {
    forall a :: a >= |s.registry.attempts| ==>
      s.begun[a] == s.commits[a] == s.restores[a] == s.disposed[a] == 0 && a !in s.issued && a !in s.superseded
  }

  ghost predicate Inv(s: System) {
    s.registry.IndexesAgree() && GrantsOk(s) && HistoryOk(s) && AttemptsOk(s) && CallsOk(s)
  }

  // ----- Framing ------------------------------------------------------------

  /** The move of call `c` changes the view of no existing attempt but `a`. */
  ghost predicate Confined(s: System, t: System, c: nat, a: nat) {
    && c < |s.calls| == |t.calls| && t.calls == s.calls[c := t.calls[c]]
    && a < |t.registry.attempts|
    && (forall b | 0 <= b < |t.registry.attempts| && b != a ::
          b < |s.registry.attempts| && ViewOf(t, b) == ViewOf(s, b))
    && |s.registry.attempts| <= |t.registry.attempts|
  }

  lemma Frame(s: System, t: System, c: nat, a: nat)
    requires AttemptsOk(s) && CallsOk(s) && Confined(s, t, c, a)
    requires AttemptFits(a, ViewOf(t, a)) && CallOk(t, t.calls[c])
    requires forall d | 0 <= d < |s.calls| && d != c ::
               && (Target(s.calls[d]) == Some(a) ==> CallFits(s.calls[d], ViewOf(t, a)))
               && Compatible(t.calls[c], s.calls[d]) && Compatible(s.calls[d], t.calls[c])
    ensures AttemptsOk(t) && CallsOk(t)
  {
    hide AttemptFits, Compatible, ViewOf, CallFits, Target;
    forall d | 0 <= d < |t.calls|
      ensures CallOk(t, t.calls[d])
    {
      if d != c {
        assert CallOk(s, s.calls[d]);
        TargetIsA(s.calls[d]);
      }
    }
  }

  lemma TargetIsA(call: Call)
    ensures Target(call).Some? ==> Target(call) == Some(call.a)
  {
  }

  lemma CompatibleSymmetric(p: Call, q: Call)
    ensures Compatible(p, q) == Compatible(q, p)
  {
    hide HeldBy, StartedBy, Tame;
  }

  // ----- Moves, as their own attempt sees them --------------------------------

  function ViewAfter(v: View, a: nat, e: Effect): View {
    View(e.attempt, v.current && !e.removed,
         v.begun + (if e.begun then 1 else 0),
         v.settled + (if e.committed then 1 else 0) + (if e.restored then 1 else 0),
         v.superseded || e.superseded,
         v.issued || e.issued,
         v.disposed + (if e.disposed == Some(a) then 1 else 0))
  }

  /** A move leaves its call and its attempt in order. */
  predicate MoveFits(a: nat, v: View, e: Effect) {
    && e.attempt.id == v.attempt.id && e.attempt.key == v.attempt.key
    && (e.disposed.Some? ==> e.disposed.value == a)
    && e.attempt.generation == (if e.granted then v.attempt.generation + 1 else v.attempt.generation)
    && AttemptFits(a, ViewAfter(v, a, e))
    && (Target(e.call).Some? ==> Target(e.call) == Some(a) && CallFits(e.call, ViewAfter(v, a, e)))
  }

  /** Admission reserves a current, idle attempt or changes nothing. */
  lemma AdmitShape(attempt: Attempt, current: bool, intent: Intent, expired: bool)
    ensures var (next, admission) := attempt.Admit(current, intent, expired);
            if admission.Reserved? then
              && current && attempt.operation.OpIdle? && !Unapproved(attempt.state)
              && (intent.Select? || intent.Complete?)
              && next == attempt.Reserve(if intent.Select? then OpSelect else OpComplete)
            else if admission.Cleaning? then
              && current && attempt.operation.OpIdle?
              && (Unapproved(attempt.state) ==> Unapproved(admission.state))
              && next == attempt.Reserve(OpCleanup)
            else next == attempt
  {
  }

  lemma AdmittingFits(p: Call, v: View, answer: Answer)
    requires p.Found? && AttemptFits(p.a, v)
    ensures MoveFits(p.a, v, Admitting(p, v.attempt, v.current, answer))
  {
    AdmitShape(v.attempt, v.current, p.intent, answer.expired);
    hide Attempt.Admit;
    var (next, admission) := v.attempt.Admit(v.current, p.intent, answer.expired);
    var e := Admitting(p, v.attempt, v.current, answer);
    assert e.attempt == next;
    match admission
    case Reserved => assert e.call.generation == v.attempt.generation + 1;
    case Cleaning(_, _) =>
    case Refused(_) => assert e == Effect(Returned, v.attempt);
    case Gone =>
    case Untouched =>
  }

  lemma SetupFits(p: Call, v: View, answer: Answer)
    requires p.Beginning? || p.BeginFailed? || p.BeginSucceeded? || p.Discovering? || p.DiscoverFailed? || p.Discovered?
    requires AttemptFits(p.a, v) && CallFits(p, v)
    ensures MoveFits(p.a, v, Opening(p, v.attempt, v.current, answer))
  {
    hide UsableDevices, UsableCount, DeviceIDs;
  }

  lemma RejectingDevicesFits(p: Call, v: View, answer: Answer)
    requires p.RejectingDevices? && AttemptFits(p.a, v) && CallFits(p, v)
    ensures MoveFits(p.a, v, Opening(p, v.attempt, v.current, answer))
  {
  }

  lemma ReleasingFits(p: Call, v: View, answer: Answer)
    requires p.Releasing? && AttemptFits(p.a, v) && CallFits(p, v)
    ensures MoveFits(p.a, v, Opening(p, v.attempt, v.current, answer))
  {
  }

  lemma PublishingFits(p: Call, v: View, answer: Answer)
    requires p.Publishing? && AttemptFits(p.a, v) && CallFits(p, v)
    ensures MoveFits(p.a, v, Opening(p, v.attempt, v.current, answer))
  {
  }

  lemma ApprovingFits(p: Call, v: View, answer: Answer)
    requires p.Approving? && AttemptFits(p.a, v) && CallFits(p, v)
    ensures MoveFits(p.a, v, Opening(p, v.attempt, v.current, answer))
  {
  }

  lemma AwaitingEmojiFits(p: Call, v: View, answer: Answer)
    requires p.AwaitingEmoji? && AttemptFits(p.a, v) && CallFits(p, v)
    ensures MoveFits(p.a, v, Opening(p, v.attempt, v.current, answer))
  {
  }

  lemma ApprovedFits(p: Call, v: View, answer: Answer)
    requires p.Approved? && AttemptFits(p.a, v) && CallFits(p, v)
    ensures MoveFits(p.a, v, Opening(p, v.attempt, v.current, answer))
  {
  }

  lemma AwaitingPhoneFits(p: Call, v: View, answer: Answer)
    requires p.AwaitingPhone? && AttemptFits(p.a, v) && CallFits(p, v)
    ensures MoveFits(p.a, v, Closing(p, v.attempt, v.current, answer))
  {
  }

  lemma SealedFits(p: Call, v: View, answer: Answer)
    requires p.Sealed? && AttemptFits(p.a, v) && CallFits(p, v)
    ensures MoveFits(p.a, v, Closing(p, v.attempt, v.current, answer))
  {
  }

  lemma DisposingSealedFits(p: Call, v: View, answer: Answer)
    requires p.DisposingSealed? && AttemptFits(p.a, v) && CallFits(p, v)
    ensures MoveFits(p.a, v, Closing(p, v.attempt, v.current, answer))
  {
  }

  lemma CommittingFits(p: Call, v: View, answer: Answer)
    requires p.Committing? && AttemptFits(p.a, v) && CallFits(p, v)
    ensures MoveFits(p.a, v, Closing(p, v.attempt, v.current, answer))
  {
  }

  lemma CommitRefusedFits(p: Call, v: View, answer: Answer)
    requires p.CommitRefused? && AttemptFits(p.a, v) && CallFits(p, v)
    ensures MoveFits(p.a, v, Closing(p, v.attempt, v.current, answer))
  {
  }

  lemma CommittedFits(p: Call, v: View, answer: Answer)
    requires p.Committed? && AttemptFits(p.a, v) && CallFits(p, v)
    ensures MoveFits(p.a, v, Closing(p, v.attempt, v.current, answer))
  {
  }

  lemma FinishingFits(p: Call, v: View, answer: Answer)
    requires p.Finishing? && AttemptFits(p.a, v) && CallFits(p, v)
    ensures MoveFits(p.a, v, Closing(p, v.attempt, v.current, answer))
  {
  }

  lemma DisposingFits(p: Call, v: View, answer: Answer)
    requires p.Disposing? && AttemptFits(p.a, v) && CallFits(p, v)
    ensures MoveFits(p.a, v, Closing(p, v.attempt, v.current, answer))
  {
  }

  lemma RestoringFits(p: Call, v: View, answer: Answer)
    requires p.Restoring? && AttemptFits(p.a, v) && CallFits(p, v)
    ensures MoveFits(p.a, v, Closing(p, v.attempt, v.current, answer))
  {
  }

  lemma SettlingFits(p: Call, v: View, answer: Answer)
    requires p.Settling? && AttemptFits(p.a, v) && CallFits(p, v)
    ensures MoveFits(p.a, v, Closing(p, v.attempt, v.current, answer))
  {
  }

  lemma RetainingFits(p: Call, v: View, answer: Answer)
    requires p.Retaining? && AttemptFits(p.a, v) && CallFits(p, v)
    ensures MoveFits(p.a, v, Closing(p, v.attempt, v.current, answer))
  {
  }

  lemma OpeningFits(p: Call, v: View, answer: Answer)
    requires Target(p).Some? && !IsClosing(p) && !p.Found? && AttemptFits(p.a, v) && CallFits(p, v)
    ensures MoveFits(p.a, v, Opening(p, v.attempt, v.current, answer))
  {
    hide MoveFits, AttemptFits, CallFits, Opening;
    if p.RejectingDevices? { RejectingDevicesFits(p, v, answer); }
    else if p.Releasing? { ReleasingFits(p, v, answer); }
    else if p.Publishing? { PublishingFits(p, v, answer); }
    else if p.Approving? { ApprovingFits(p, v, answer); }
    else if p.AwaitingEmoji? { AwaitingEmojiFits(p, v, answer); }
    else if p.Approved? { ApprovedFits(p, v, answer); }
    else { SetupFits(p, v, answer); }
  }

  lemma ClosingFits(p: Call, v: View, answer: Answer)
    requires Target(p).Some? && IsClosing(p) && AttemptFits(p.a, v) && CallFits(p, v)
    ensures MoveFits(p.a, v, Closing(p, v.attempt, v.current, answer))
  {
    hide MoveFits, AttemptFits, CallFits, Closing;
    if p.AwaitingPhone? { AwaitingPhoneFits(p, v, answer); }
    else if p.Sealed? { SealedFits(p, v, answer); }
    else if p.DisposingSealed? { DisposingSealedFits(p, v, answer); }
    else if p.Committing? { CommittingFits(p, v, answer); }
    else if p.CommitRefused? { CommitRefusedFits(p, v, answer); }
    else if p.Committed? { CommittedFits(p, v, answer); }
    else if p.Finishing? { FinishingFits(p, v, answer); }
    else if p.Disposing? { DisposingFits(p, v, answer); }
    else if p.Restoring? { RestoringFits(p, v, answer); }
    else if p.Settling? { SettlingFits(p, v, answer); }
    else { RetainingFits(p, v, answer); }
  }

  lemma ActFits(p: Call, v: View, answer: Answer)
    requires Target(p).Some? && AttemptFits(p.a, v) && CallFits(p, v)
    ensures MoveFits(p.a, v, Act(p, v.attempt, v.current, answer))
  {
    hide MoveFits, AttemptFits, CallFits, Admitting, Opening, Closing;
    if p.Found? { AdmittingFits(p, v, answer); }
    else if IsClosing(p) { ClosingFits(p, v, answer); }
    else { OpeningFits(p, v, answer); }
  }

  // ----- Moves, as other calls on the same attempt see them --------------------

  predicate StaysStart(p: Call, v: View, e: Effect) {
    && (StartedBy(e.call).None? || StartedBy(e.call) == StartedBy(p))
    && (e.call.Approving? ==> p.Releasing? || e == Effect(p, v.attempt))
  }

  lemma AdmittingStaysStart(p: Call, v: View, answer: Answer)
    requires p.Found?
    ensures StaysStart(p, v, Admitting(p, v.attempt, v.current, answer))
  {
    hide Attempt.Admit;
    AdmitShape(v.attempt, v.current, p.intent, answer.expired);
  }

  lemma ClosingStaysStart(p: Call, v: View, answer: Answer)
    requires Target(p).Some? && IsClosing(p)
    ensures StaysStart(p, v, Closing(p, v.attempt, v.current, answer))
  {
  }

  lemma OpeningStaysStart(p: Call, v: View, answer: Answer)
    requires Target(p).Some? && !IsClosing(p) && !p.Found?
    ensures StaysStart(p, v, Opening(p, v.attempt, v.current, answer))
  {
    hide UsableDevices, UsableCount, DeviceIDs;
  }

  lemma StartStaysStart(p: Call, v: View, answer: Answer)
    requires Target(p).Some?
    ensures StaysStart(p, v, Act(p, v.attempt, v.current, answer))
  {
    hide StaysStart, Admitting, Opening, Closing;
    if p.Found? { AdmittingStaysStart(p, v, answer); }
    else if IsClosing(p) { ClosingStaysStart(p, v, answer); }
    else { OpeningStaysStart(p, v, answer); }
  }

  /** At most the state shown to the user changes, and nothing is reserved. */
  predicate LeavesAlone(p: Call, v: View, e: Effect)
    requires Target(p).Some?
  {
    && HeldBy(e.call).None?
    && ViewAfter(v, p.a, e) ==
       if p.Publishing? then v.(attempt := v.attempt.(state := StateAwaitingDeviceSelection)) else v
  }

  lemma BusyIsLeftAlone(p: Call, v: View, answer: Answer)
    requires Target(p).Some? && HeldBy(p).None? && !v.attempt.operation.OpIdle?
    ensures LeavesAlone(p, v, Act(p, v.attempt, v.current, answer))
  {
    hide UsableDevices, UsableCount, DeviceIDs;
    if p.Found? {
      hide Attempt.Admit;
      AdmitShape(v.attempt, v.current, p.intent, answer.expired);
    }
  }

  /** A call takes a reservation only from an idle attempt, and a call that
      holds none changes at most the state shown to the user. */
  lemma ActShape(p: Call, v: View, answer: Answer)
    requires Target(p).Some?
    ensures var e := Act(p, v.attempt, v.current, answer);
            && StaysStart(p, v, e)
            && (HeldBy(p).None? && !v.attempt.operation.OpIdle? ==> LeavesAlone(p, v, e))
  {
    hide Act, ViewAfter;
    StartStaysStart(p, v, answer);
    if HeldBy(p).None? && !v.attempt.operation.OpIdle? { BusyIsLeftAlone(p, v, answer); }
  }

  lemma TameUnlessHeld(call: Call, a: nat)
    requires HeldBy(call) != Some(a) || Target(call) != Some(a)
    ensures Tame(call, a)
  {
  }

  predicate Survives(p: Call, v: View, e: Effect, start: Call)
    requires Target(p).Some? && start.Approving?
  {
    CallFits(start, ViewAfter(v, p.a, e)) && Tame(e.call, p.a)
  }

  lemma SurvivesAdmitting(p: Call, v: View, answer: Answer, start: Call)
    requires p.Found? && CallFits(p, v) && start.Approving? && start.a == p.a && CallFits(start, v)
    ensures Survives(p, v, Admitting(p, v.attempt, v.current, answer), start)
  {
    hide Attempt.Admit;
    AdmitShape(v.attempt, v.current, p.intent, answer.expired);
    var (next, admission) := v.attempt.Admit(v.current, p.intent, answer.expired);
    var e := Admitting(p, v.attempt, v.current, answer);
    assert e.attempt == next;
    match admission
    case Reserved =>
    case Cleaning(_, _) => assert e.call.Finishing?;
    case Refused(_) => assert e == Effect(Returned, v.attempt);
    case Gone =>
    case Untouched =>
  }

  /** Of the closing calls only cleanup may share the attempt with a Start that stands before its approval. */
  lemma SurvivesFinishing(p: Call, v: View, answer: Answer, start: Call)
    requires p.Finishing? && CallFits(p, v) && start.Approving? && start.a == p.a && CallFits(start, v) && Tame(p, p.a)
    ensures Survives(p, v, Closing(p, v.attempt, v.current, answer), start)
  {
  }

  lemma SurvivesRestore(p: Call, v: View, answer: Answer, start: Call)
    requires (p.Disposing? || p.Restoring?) && CallFits(p, v)
    requires start.Approving? && start.a == p.a && CallFits(start, v)
    ensures Survives(p, v, Closing(p, v.attempt, v.current, answer), start)
  {
  }

  lemma SurvivesRelease(p: Call, v: View, answer: Answer, start: Call)
    requires (p.Settling? || p.Retaining?) && CallFits(p, v) && start.Approving? && start.a == p.a && CallFits(start, v)
    ensures Survives(p, v, Closing(p, v.attempt, v.current, answer), start)
  {
  }

  lemma SurvivesClosing(p: Call, v: View, answer: Answer, start: Call)
    requires Target(p).Some? && CallFits(p, v) && start.Approving? && start.a == p.a && CallFits(start, v)
    requires IsClosing(p) && Tame(p, p.a)
    ensures Survives(p, v, Closing(p, v.attempt, v.current, answer), start)
  {
    hide Survives, CallFits, Closing;
    if p.Finishing? { SurvivesFinishing(p, v, answer, start); }
    else if p.Disposing? || p.Restoring? { SurvivesRestore(p, v, answer, start); }
    else { SurvivesRelease(p, v, answer, start); }
  }

  /** A Start standing before startApproval survives whatever cleanup does to its attempt. */
  lemma ApprovingSurvives(p: Call, v: View, answer: Answer, start: Call)
    requires Target(p).Some? && CallFits(p, v) && start.Approving? && start.a == p.a && CallFits(start, v)
    requires Tame(p, p.a) && StartedBy(p).None?
    ensures Survives(p, v, Act(p, v.attempt, v.current, answer), start)
  {
    hide Survives, CallFits, Admitting, Opening, Closing;
    if p.Found? { SurvivesAdmitting(p, v, answer, start); }
    else if IsClosing(p) { SurvivesClosing(p, v, answer, start); }
    else { assert false; }
  }

  lemma StateIsNotRelevant(o: Call, v: View, state: State)
    requires Target(o).Some? && CallFits(o, v) && StartedBy(o) != Some(o.a)
    ensures CallFits(o, v.(attempt := v.attempt.(state := state)))
  {
  }

  lemma BystanderFits(o: Call, v: View)
    requires o.Found? || o.Publishing?
    ensures CallFits(o, v)
  {
  }

  lemma HolderIsBusy(o: Call, v: View)
    requires HeldBy(o).Some? && CallFits(o, v)
    ensures !v.attempt.operation.OpIdle?
  {
  }

  lemma OtherViewFits(p: Call, v: View, answer: Answer, o: Call)
    requires Target(p).Some? && Target(o) == Some(p.a)
    requires CallFits(p, v) && CallFits(o, v) && Compatible(p, o)
    ensures CallFits(o, ViewAfter(v, p.a, Act(p, v.attempt, v.current, answer)))
  {
    hide CallFits, Act, ViewAfter, Tame;
    if o.Approving? {
      ApprovingSurvives(p, v, answer, o);
    } else if HeldBy(o).None? {
      BystanderFits(o, ViewAfter(v, p.a, Act(p, v.attempt, v.current, answer)));
    } else {
      HolderIsBusy(o, v);
      ActShape(p, v, answer);
      if p.Publishing? { StateIsNotRelevant(o, v, StateAwaitingDeviceSelection); }
    }
  }

  lemma OtherStaysApart(p: Call, v: View, answer: Answer, o: Call)
    requires Target(p).Some? && CallFits(p, v) && Compatible(p, o)
    requires Target(o) == Some(p.a) ==> CallFits(o, v)
    requires MoveFits(p.a, v, Act(p, v.attempt, v.current, answer))
    ensures var q := Act(p, v.attempt, v.current, answer).call;
            && (HeldBy(q).Some? ==> HeldBy(o) != HeldBy(q)) && (StartedBy(q).Some? ==> StartedBy(o) != StartedBy(q))
  {
    hide CallFits, Act, ViewAfter, Tame, AttemptFits, HoldsStart, HoldsSelect, HoldsComplete;
    ActShape(p, v, answer);
    if HeldBy(o) == Some(p.a) { HolderIsBusy(o, v); }
  }

  lemma OtherStaysTame(p: Call, v: View, answer: Answer, o: Call)
    requires Target(p).Some? && CallFits(p, v) && Compatible(p, o)
    requires Target(o) == Some(p.a) ==> CallFits(o, v)
    requires MoveFits(p.a, v, Act(p, v.attempt, v.current, answer))
    ensures var q := Act(p, v.attempt, v.current, answer).call;
            (q.Approving? ==> Tame(o, q.a)) && (o.Approving? ==> Tame(q, o.a))
  {
    hide CallFits, Act, ViewAfter, Tame, AttemptFits, HoldsStart, HoldsSelect, HoldsComplete;
    var a, q := p.a, Act(p, v.attempt, v.current, answer).call;
    ActShape(p, v, answer);
    if HeldBy(o) == Some(a) { HolderIsBusy(o, v); } else { TameUnlessHeld(o, a); }
    if o.Approving? {
      if o.a == a { ApprovingSurvives(p, v, answer, o); } else { TameUnlessHeld(q, o.a); }
    }
  }

  lemma OtherStaysCompatible(p: Call, v: View, answer: Answer, o: Call)
    requires Target(p).Some? && CallFits(p, v) && Compatible(p, o)
    requires Target(o) == Some(p.a) ==> CallFits(o, v)
    requires MoveFits(p.a, v, Act(p, v.attempt, v.current, answer))
    ensures Compatible(Act(p, v.attempt, v.current, answer).call, o)
  {
    hide CallFits, Act, ViewAfter, Tame, MoveFits, HeldBy, StartedBy;
    OtherStaysApart(p, v, answer, o);
    OtherStaysTame(p, v, answer, o);
  }

  // ----- Every move keeps the invariant ---------------------------------------

  predicate Passive(call: Call) { HeldBy(call).None? && StartedBy(call).None? }

  lemma PassiveFits(s: System, call: Call, o: Call)
    requires Passive(call) && (Target(call).Some? ==> call.a < |s.registry.attempts|)
    ensures CallOk(s, call) && Compatible(o, call) && Compatible(call, o)
  {
    if o.Approving? { TameUnlessHeld(call, o.a); }
  }

  /** Calls change, attempts do not. */
  lemma CallsChange(s: System, t: System, c: nat)
    requires Inv(s) && t == s.(calls := t.calls) && c < |t.calls| && |s.calls| <= |t.calls| <= |s.calls| + 1
    requires forall d | 0 <= d < |t.calls| && d != c :: d < |s.calls| && t.calls[d] == s.calls[d]
    requires Passive(t.calls[c]) && (Target(t.calls[c]).Some? ==> t.calls[c].a < |s.registry.attempts|)
    ensures Inv(t)
  {
    hide CallFits, AttemptFits, Compatible, GrantsOk, HistoryOk, Registry.IndexesAgree, Passive, ViewOf, Target;
    assert GrantsOk(t) && HistoryOk(t) by { GrantsAndHistory(s, t); }
    forall a | 0 <= a < |t.registry.attempts| ensures ViewOf(t, a) == ViewOf(s, a) { SameView(s, t, a); }
    forall d | 0 <= d < |t.calls|
      ensures CallOk(t, t.calls[d])
      ensures d != c ==> Compatible(t.calls[c], t.calls[d]) && Compatible(t.calls[d], t.calls[c])
    {
      PassiveFits(t, t.calls[c], t.calls[d]);
      if d != c { assert CallOk(s, s.calls[d]); TargetIsA(s.calls[d]); }
    }
  }

  lemma GrantsAndHistory(s: System, t: System)
    requires GrantsOk(s) && HistoryOk(s) && t == s.(calls := t.calls)
    ensures GrantsOk(t) && HistoryOk(t)
  {
  }

  lemma SameView(s: System, t: System, a: nat)
    requires t == s.(calls := t.calls) && a < |s.registry.attempts|
    ensures ViewOf(t, a) == ViewOf(s, a)
  {
  }

  lemma EnterIsPassive(r: Registry, entry: Entry)
    ensures Passive(Enter(r, entry)) && (Target(Enter(r, entry)).Some? ==> Enter(r, entry).a < |r.attempts|)
  {
    hide ValidPairingID;
  }

  lemma SearchIsPassive(s: System, call: Call, answer: Answer)
    requires Target(call).None?
    ensures var q := Search(s, call, answer); Passive(q) && (Target(q).Some? ==> q.a < |s.registry.attempts|)
  {
  }

  lemma BeginningFits(n: nat, key: AttemptKey, id: string)
    ensures var v := View(NewAttempt(key, id), true, 0, 0, false, false, 0);
            CallFits(Beginning(n), v) && AttemptFits(n, v)
  {
  }

  lemma NewcomerCompatible(o: Call, n: nat)
    requires Target(o).Some? ==> o.a < n
    ensures Target(o) != Some(n) && Compatible(Beginning(n), o) && Compatible(o, Beginning(n))
  {
  }

  lemma InsertKeepsInv(s: System, t: System, c: nat, key: AttemptKey, id: string)
    requires Inv(s) && c < |s.calls| && s.registry.CanInsert(key, id)
    requires t == s.(registry := s.registry.Insert(key, id), calls := s.calls[c := Beginning(|s.registry.attempts|)],
                     grants := s.grants + multiset{(|s.registry.attempts|, 1)})
    ensures Inv(t)
  {
    hide CallFits, AttemptFits, Compatible, Registry.IndexesAgree;
    var n := |s.registry.attempts|;
    InsertKeepsIndexes(s.registry, key, id);
    BeginningFits(n, key, id);
    assert ViewOf(t, n) == View(NewAttempt(key, id), true, 0, 0, false, false, 0);
    forall d | 0 <= d < |s.calls| && d != c
      ensures Target(s.calls[d]) != Some(n)
      ensures Compatible(t.calls[c], s.calls[d]) && Compatible(s.calls[d], t.calls[c])
    {
      assert CallOk(s, s.calls[d]);
      NewcomerCompatible(s.calls[d], n);
    }
    Frame(s, t, c, n);
    assert (n, 1) !in s.grants;
  }

  lemma AfterHistory(s: System, c: nat, a: nat, e: Effect)
    requires HistoryOk(s) && c < |s.calls| && a < |s.registry.attempts|
    requires e.disposed.Some? ==> e.disposed.value == a
    ensures HistoryOk(After(s, c, a, e))
  {
    hide Registry.IsCurrent;
    assert |After(s, c, a, e).registry.attempts| == |s.registry.attempts|;
  }

  /** A granted generation is larger than every generation granted before. */
  lemma AfterGrants(s: System, c: nat, a: nat, e: Effect)
    requires GrantsOk(s) && c < |s.calls| && a < |s.registry.attempts|
    requires e.attempt.generation ==
             s.registry.attempts[a].generation + (if e.granted then 1 else 0)
    ensures GrantsOk(After(s, c, a, e))
  {
    hide Registry.IsCurrent;
    assert e.granted ==> (a, e.attempt.generation) !in s.grants;
    assert After(s, c, a, e).registry.attempts == s.registry.attempts[a := e.attempt];
  }

  lemma AfterCounts(s: System, c: nat, a: nat, e: Effect, b: nat)
    requires c < |s.calls| && a < |s.registry.attempts|
    requires e.disposed.Some? ==> e.disposed.value == a
    ensures var t := After(s, c, a, e);
            && t.begun[b] == s.begun[b] + (if e.begun && a == b then 1 else 0)
            && t.commits[b] == s.commits[b] + (if e.committed && a == b then 1 else 0)
            && t.restores[b] == s.restores[b] + (if e.restored && a == b then 1 else 0)
            && t.disposed[b] == s.disposed[b] + (if e.disposed.Some? && a == b then 1 else 0)
            && (b in t.issued <==> b in s.issued || (e.issued && a == b))
            && (b in t.superseded <==> b in s.superseded || (e.superseded && a == b))
            && t.registry == s.registry.Apply(a, e.attempt, e.removed)
  {
    hide Registry.Apply;
  }

  lemma ApplyReplaces(r: Registry, a: nat, attempt: Attempt, removed: bool)
    requires a < |r.attempts|
    ensures r.Apply(a, attempt, removed).attempts == r.attempts[a := attempt]
  {
  }

  /** What a move does to the view of each attempt. */
  lemma AfterView(s: System, c: nat, a: nat, e: Effect, b: nat)
    requires s.registry.IndexesAgree()
    requires c < |s.calls| && a < |s.registry.attempts| && b < |s.registry.attempts|
    requires e.attempt.id == s.registry.attempts[a].id && e.attempt.key == s.registry.attempts[a].key
    requires e.disposed.Some? ==> e.disposed.value == a
    ensures var t := After(s, c, a, e);
            && t.registry.IndexesAgree() && |t.registry.attempts| == |s.registry.attempts|
            && ViewOf(t, b) == if b == a then ViewAfter(ViewOf(s, a), a, e) else ViewOf(s, b)
  {
    hide Registry.IndexesAgree, Registry.IsCurrent, Registry.Apply, After;
    ApplyKeepsIndexes(s.registry, a, e.attempt, e.removed);
    ApplyReplaces(s.registry, a, e.attempt, e.removed);
    AfterCounts(s, c, a, e, b);
  }

  lemma AfterFrames(s: System, c: nat, a: nat, e: Effect)
    requires s.registry.IndexesAgree() && GrantsOk(s) && HistoryOk(s)
    requires c < |s.calls| && a < |s.registry.attempts| && MoveFits(a, ViewOf(s, a), e)
    ensures var t := After(s, c, a, e);
            && Confined(s, t, c, a) && t.registry.IndexesAgree() && GrantsOk(t) && HistoryOk(t)
            && t.calls[c] == e.call && ViewOf(t, a) == ViewAfter(ViewOf(s, a), a, e)
  {
    hide AttemptFits, CallFits, Registry.IndexesAgree, Registry.Apply, GrantsOk, HistoryOk;
    var t := After(s, c, a, e);
    AfterHistory(s, c, a, e);
    AfterGrants(s, c, a, e);
    AfterView(s, c, a, e, a);
    forall b | 0 <= b < |t.registry.attempts| && b != a
      ensures b < |s.registry.attempts| && ViewOf(t, b) == ViewOf(s, b)
    {
      AfterView(s, c, a, e, b);
    }
  }

  lemma ActKeepsInv(s: System, c: nat, answer: Answer)
    requires Inv(s) && c < |s.calls| && Target(s.calls[c]).Some?
    requires s.calls[c].a < |s.registry.attempts|
    ensures var a := s.calls[c].a;
            Inv(After(s, c, a, Act(s.calls[c], s.registry.attempts[a], s.registry.IsCurrent(a), answer)))
  {
    hide AttemptFits, CallFits, Registry.IndexesAgree, GrantsOk, HistoryOk, Act, Compatible, ViewAfter, After;
    var p, a := s.calls[c], s.calls[c].a;
    var v := ViewOf(s, a);
    var e := Act(p, v.attempt, v.current, answer);
    var t := After(s, c, a, e);
    assert CallOk(s, p);
    ActFits(p, v, answer);
    AfterFrames(s, c, a, e);
    forall d | 0 <= d < |s.calls| && d != c
      ensures Target(s.calls[d]) == Some(a) ==> CallFits(s.calls[d], ViewOf(t, a))
      ensures Compatible(t.calls[c], s.calls[d]) && Compatible(s.calls[d], t.calls[c])
    {
      assert CallOk(s, s.calls[d]);
      OtherStaysCompatible(p, v, answer, s.calls[d]);
      CompatibleSymmetric(e.call, s.calls[d]);
      if Target(s.calls[d]) == Some(a) { OtherViewFits(p, v, answer, s.calls[d]); }
    }
    Frame(s, t, c, a);
  }

  lemma StepKeepsInv(s: System, move: Move)
    requires Inv(s)
    ensures Inv(Step(s, move))
  {
    hide Inv, Act, After, Enter, Search, Passive, ValidPairingID;
    var c, answer, t := move.call, move.answer, Step(s, move);
    if c > |s.calls| {
    } else if c == |s.calls| {
      EnterIsPassive(s.registry, answer.entry);
      CallsChange(s, t, c);
    } else if s.calls[c].StartPrepared? && answer.ok && ValidPairingID(answer.id) &&
              s.registry.CanInsert(s.calls[c].key, answer.id) {
      InsertKeepsInv(s, t, c, s.calls[c].key, answer.id);
    } else if Target(s.calls[c]).None? {
      SearchIsPassive(s, s.calls[c], answer);
      CallsChange(s, t, c);
    } else if s.calls[c].a < |s.registry.attempts| {
      ActKeepsInv(s, c, answer);
    }
  }

  lemma {:induction false} RunsKeepInv(moves: seq<Move>)
    ensures Inv(Exec(moves))
  {
    if moves != [] {
      RunsKeepInv(moves[..|moves| - 1]);
      StepKeepsInv(Exec(moves[..|moves| - 1]), moves[|moves| - 1]);
    }
  }

  // ----- What every run promises ------------------------------------------------

  /** byKey and byID hold the same attempts, and no generation is ever granted twice. */
  lemma IndexesAgreeAndGenerationsAreFresh(moves: seq<Move>)
    ensures var s := Exec(moves);
            && s.registry.byKey.Values == s.registry.byID.Values
            && (forall key <- s.registry.byKey :: s.registry.IsCurrent(s.registry.byKey[key]))
            && forall grant :: s.grants[grant] <= 1
  {
    RunsKeepInv(moves);
    hide AttemptsOk, CallsOk;
    var r := Exec(moves).registry;
    forall a | a in r.byKey.Values ensures a in r.byID.Values { assert r.byID[r.attempts[a].id] == a; }
    forall a | a in r.byID.Values ensures a in r.byKey.Values { assert r.byKey[r.attempts[a].key] == a; }
  }

  /** At most one call holds the reservation of an attempt. */
  lemma OneHolder(moves: seq<Move>, c: nat, d: nat)
    requires c < |Exec(moves).calls| && d < |Exec(moves).calls|
    requires HeldBy(Exec(moves).calls[c]).Some? && HeldBy(Exec(moves).calls[c]) == HeldBy(Exec(moves).calls[d])
    ensures c == d
  {
    RunsKeepInv(moves);
    hide CallFits, AttemptFits, Exec;
    assert c != d ==> Compatible(Exec(moves).calls[c], Exec(moves).calls[d]);
  }

  /** The lost-ownership branches after Discover, after Seal and after a commit,
      and the busy guard of finishReserved, are never taken. */
  lemma OwnershipIsNeverLost(moves: seq<Move>, c: nat)
    requires var s := Exec(moves);
             && c < |s.calls| && Target(s.calls[c]).Some? && s.calls[c].a < |s.registry.attempts|
    ensures var s := Exec(moves);
            var attempt, current := s.registry.attempts[s.calls[c].a], s.registry.IsCurrent(s.calls[c].a);
            match s.calls[c]
            case Discovered(_, found, devices) => !attempt.AcceptDevices(current, found, devices).1.LostOwnership?
            case Sealed(_, generation, _) => attempt.StorePending(current, generation).1
            case CommitRefused(_, generation, _) => attempt.Owned(current, OpComplete, generation)
            case Committed(_, generation) => attempt.CommitSucceeded(current, generation).1
            case Finishing(_, generation, state, cancel, _) => !attempt.BeginFinish(generation, state,
                cancel).1.FinishBusy?
            case _ => true
  {
    RunsKeepInv(moves);
    hide Exec, UsableDevices, UsableCount, DeviceIDs;
    assert CallOk(Exec(moves), Exec(moves).calls[c]);
  }

  /** A handle returned by Discover is disposed at most once, and exactly once
      as soon as its attempt has left the maps. */
  lemma HandlesAreDisposedOnce(moves: seq<Move>, a: nat)
    ensures var s := Exec(moves);
            && s.disposed[a] <= 1
            && (s.disposed[a] == 1 ==> a in s.issued)
            && (a in s.issued && !s.registry.IsCurrent(a) ==> s.disposed[a] == 1)
  {
    RunsKeepInv(moves);
    hide Exec, CallsOk;
    if a < |Exec(moves).registry.attempts| { assert AttemptFits(a, ViewOf(Exec(moves), a)); }
  }

  /** Each successful BeginPairing is followed by at most one success among commit and restore, so a
      commit never follows a restore; and when the attempt has left the maps it was settled exactly
      once, unless the repository answered that another attempt took over. */
  lemma PairingIsSettledOnce(moves: seq<Move>, a: nat)
    ensures var s := Exec(moves);
            && s.commits[a] + s.restores[a] <= s.begun[a] <= 1
            && (s.begun[a] == 1 && !s.registry.IsCurrent(a) ==>
                  (s.commits[a] + s.restores[a] == 1 <==> a !in s.superseded))
  {
    RunsKeepInv(moves);
    hide Exec, CallsOk;
    if a < |Exec(moves).registry.attempts| { assert AttemptFits(a, ViewOf(Exec(moves), a)); }
  }

  /** An approval that the provider has answered finds its reservation gone exactly when the attempt had
      already left the maps at the moment the reservation was taken; one begun by SelectDevice never does.
      Then nothing changes; otherwise the attempt is released to wait for the phone. */
  lemma ApprovalIsLostExactly(moves: seq<Move>, c: nat)
    requires c < |Exec(moves).calls| && Exec(moves).calls[c].Approved?
    ensures var s := Exec(moves);
            var Approved(a, generation, taken) := s.calls[c];
            && a < |s.registry.attempts|
            && s.registry.IsCurrent(a) == taken.current
            && (s.registry.attempts[a].Approve(s.registry.IsCurrent(a), generation).1 <==> taken.current)
            && s.registry.attempts[a].Approve(s.registry.IsCurrent(a), generation).0 ==
               (if taken.current then s.registry.attempts[a].(state := StateAwaitingPhoneApproval, operation := OpIdle)
                else s.registry.attempts[a])
            && (taken.selected ==> taken.current)
  {
    RunsKeepInv(moves);
    hide Exec, Compatible, AttemptFits;
    assert CallOk(Exec(moves), Exec(moves).calls[c]);
  }

  /** A commit refused for any reason but a successor keeps the sealed session: the attempt stays where it is,
      idle and in the same state, and the next Complete in time commits again without asking the phone. */
  lemma RefusedCommitIsRepeated(moves: seq<Move>, c: nat, answer: Answer)
    requires c < |Exec(moves).calls| && Exec(moves).calls[c].CommitRefused? && !Exec(moves).calls[c].superseded
    ensures var s, t, a := Exec(moves), Step(Exec(moves), Move(c, answer)), Exec(moves).calls[c].a;
            && a < |s.registry.attempts| == |t.registry.attempts| && t.registry.IsCurrent(a)
            && var before, after := s.registry.attempts[a], t.registry.attempts[a];
            && after.operation == OpIdle && after.pending && after.state == before.state
            && (after.state == StateAwaitingPhoneApproval ==>
                  forall again: Answer, caller | !again.expired ::
                    Act(Found(a, Complete, None, caller), after, true, again).call
                      == Committing(a, after.generation + 1))
  {
    hide Exec, Step, Act, After, Inv, CallFits, AttemptFits, Registry.IsCurrent, Registry.IndexesAgree;
    RunsKeepInv(moves);
    var s, a := Exec(moves), Exec(moves).calls[c].a;
    InvGives(s, c);
    StepActs(s, c, answer);
    var v := ViewOf(s, a);
    RefusalKeepsSession(s.calls[c], v, answer);
    AfterView(s, c, a, Effect(Returned, v.attempt.(operation := OpIdle)), a);
    forall again: Answer, caller | !again.expired && v.attempt.state == StateAwaitingPhoneApproval
      ensures Act(Found(a, Complete, None, caller), v.attempt.(operation := OpIdle), true, again).call
              == Committing(a, v.attempt.generation + 1)
    {
      SealedIsCommitted(a, v.attempt.(operation := OpIdle), caller, again);
    }
  }

  lemma InvGives(s: System, c: nat)
    requires Inv(s) && c < |s.calls| && Target(s.calls[c]).Some?
    ensures s.registry.IndexesAgree() && s.calls[c].a < |s.registry.attempts|
    ensures CallFits(s.calls[c], ViewOf(s, s.calls[c].a))
  {
    hide CallFits, AttemptFits, Compatible;
    assert CallOk(s, s.calls[c]);
  }

  lemma StepActs(s: System, c: nat, answer: Answer)
    requires c < |s.calls| && Target(s.calls[c]).Some? && s.calls[c].a < |s.registry.attempts|
    ensures var a := s.calls[c].a;
            Step(s, Move(c, answer)) ==
              After(s, c, a, Act(s.calls[c], s.registry.attempts[a], s.registry.IsCurrent(a), answer))
  {
    hide Act, After, Search, Enter, ValidPairingID;
  }

  lemma RefusalKeepsSession(p: Call, v: View, answer: Answer)
    requires p.CommitRefused? && !p.superseded && CallFits(p, v)
    ensures Act(p, v.attempt, v.current, answer) == Effect(Returned, v.attempt.(operation := OpIdle))
    ensures v.current && v.attempt.pending
  {
    hide Open, Disposed, Admitting, Opening;
  }

  lemma SealedIsCommitted(a: nat, attempt: Attempt, caller: Option<AttemptKey>, answer: Answer)
    requires attempt.operation.OpIdle? && attempt.pending && attempt.state.StateAwaitingPhoneApproval?
    requires !answer.expired
    ensures Act(Found(a, Complete, None, caller), attempt, true, answer).call == Committing(a, attempt.generation + 1)
  {
    hide Opening, Closing;
  }

  /** While a call holds a reservation, the move of any other call leaves the attempt in the maps or out of them. */
  lemma HeldAttemptStaysPut(moves: seq<Move>, c: nat, move: Move)
    requires c < |Exec(moves).calls| && HeldBy(Exec(moves).calls[c]).Some? && move.call != c
    ensures var a := Exec(moves).calls[c].a;
            Step(Exec(moves), move).registry.IsCurrent(a) == Exec(moves).registry.IsCurrent(a)
  {
    RunsKeepInv(moves);
    var s, d := Exec(moves), move.call;
    hide Exec, AttemptFits, CallFits, Act, After, Enter, Search, ValidPairingID, Compatible;
    assert CallOk(s, s.calls[c]);
    if d < |s.calls| && Target(s.calls[d]).Some? {
      assert CallOk(s, s.calls[d]);
      OtherMoveKeepsCurrency(s, c, d, move.answer);
    } else if d < |s.calls| && s.calls[d].StartPrepared? && s.registry.CanInsert(s.calls[d].key, move.answer.id) {
      InsertKeepsIndexes(s.registry, s.calls[d].key, move.answer.id);
    }
  }

  lemma OtherMoveKeepsCurrency(s: System, c: nat, d: nat, answer: Answer)
    requires Inv(s) && c < |s.calls| && d < |s.calls| && c != d && HeldBy(s.calls[c]).Some? && Target(s.calls[d]).Some?
    requires s.calls[c].a < |s.registry.attempts| && s.calls[d].a < |s.registry.attempts|
    ensures var b := s.calls[d].a;
            After(s, d, b, Act(s.calls[d], s.registry.attempts[b], s.registry.IsCurrent(b), answer))
              .registry.IsCurrent(s.calls[c].a) == s.registry.IsCurrent(s.calls[c].a)
  {
    hide AttemptFits, CallFits, Act, After, ViewAfter, Registry.IsCurrent, Registry.IndexesAgree;
    var p, o, a, b := s.calls[d], s.calls[c], s.calls[c].a, s.calls[d].a;
    var v := ViewOf(s, b);
    var e := Act(p, v.attempt, v.current, answer);
    assert CallOk(s, o) && CallOk(s, p) && Compatible(p, o);
    ActFits(p, v, answer);
    AfterView(s, d, b, e, a);
    if a == b {
      HolderIsBusy(o, v);
      BusyIsLeftAlone(p, v, answer);
    }
  }
}
