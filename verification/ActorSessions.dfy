/** Session changes on their way from provider callbacks to the durable store:
    a one-slot, latest-wins channel, a debounced compare-and-swap, and the
    final flush of a generation. */
module ActorSessions {
  import opened Wrappers

  type Session = seq<nat>       // plaintext bytes

  datatype Swap = Swapped | Refused | Failed   // CompareAndSwapFenced: true, false, error

  /** What the session mutex protects: a one-slot channel and whether it still accepts. */
  datatype Box<T> = Box(slot: Option<T>, active: bool) {
    function Drained(): Box<T> { this.(slot := None) }

    function Filled(session: T): Box<T> { this.(slot := Some(session)) }

    function Stopped(): Box<T> { this.(active := false) }

    /** replaceSession as a whole. */
    function Replaced(session: T): Box<T> { if active then Drained().Filled(session) else this }
  }

  /** What flushPendingSession works on. */
  datatype Buffer<T> = Buffer(snapshot: Option<T>, revision: nat, pending: Option<T>) {
    /** The latest session replaces the pending one only if it is not empty. */
    function Takes(latest: Option<T>, nonempty: bool): Buffer<T> { if nonempty then this.(pending := latest) else this }

    /** One flush: nothing to do, a successful swap, or a pending session thrown away. */
    function Flushed(nonempty: bool, swapped: bool): (Buffer<T>, bool) {
      if !nonempty then (this, true)
      else if swapped then (Buffer(pending, revision + 1, None), true)
      else (this.(pending := None), false)
    }
  }

  predicate Filling(session: Option<Session>) { session.Some? && |session.value| > 0 }

  /** providerCallbacks: what the mutex protects. */
  class Callbacks {
    var sessions: Option<Session>
    var active: bool

    function Model(): Box<Session>
      reads this
    {
      Box(sessions, active)
    }

    constructor ()
      ensures Model() == Box(None, true)
    {
      sessions, active := None, true;
    }

    /** replaceSession: drops a stale session to make room, so that the send finds the slot empty. */
    method ReplaceSession(plaintext: Session)
      modifies this
      ensures Model() == old(Model()).Replaced(plaintext)
      ensures active == old(active) && sessions == if active then Some(plaintext) else old(sessions)
    {
      if !active {
        return;
      }
      if sessions.Some? {
        sessions := None;
      }
      assert sessions.None?;
      sessions := Some(plaintext);
    }

    method TakeLatest() returns (latest: Option<Session>)
      modifies this
      ensures latest == old(Model()).slot && Model() == old(Model()).Drained()
    {
      latest := sessions;
      sessions := None;
    }

    method StopAcceptingAndTakeLatest() returns (latest: Option<Session>)
      modifies this
      ensures latest == old(Model()).slot && Model() == old(Model()).Stopped().Drained()
    {
      active := false;
      latest := TakeLatest();
    }
  }

  /** The part of the actor's loop that flushPendingSession works on. */
  class Flusher {
    var snapshot: Option<Session>
    var revision: nat
    var pending: Option<Session>

    function Model(): Buffer<Session>
      reads this
    {
      Buffer(snapshot, revision, pending)
    }

    constructor (revision: nat)
      ensures Model() == Buffer(None, revision, None)
    {
      this.snapshot, this.revision, pending := None, revision, None;
    }

    /** Before a flush: the latest session of the callbacks, taken out of the slot. */
    method Take(callbacks: Callbacks)
      modifies this, callbacks
      ensures callbacks.Model() == old(callbacks.Model()).Drained()
      ensures Model() == old(Model()).Takes(old(callbacks.Model()).slot, Filling(old(callbacks.Model()).slot))
      ensures pending == if old(callbacks.sessions).Some? && |old(callbacks.sessions).value| > 0
                         then old(callbacks.sessions) else old(pending)
    {
      var latest := callbacks.TakeLatest();
      if latest.Some? && |latest.value| > 0 {
        pending := latest;
      }
    }

    /** flushPendingSession, given what the store answers if it is asked. */
    method Flush(answer: Swap) returns (ok: bool)
      modifies this
      ensures (Model(), ok) == old(Model()).Flushed(Filling(old(pending)), answer.Swapped?)
      ensures old(pending).None? || |old(pending).value| == 0 ==> ok && Model() == old(Model())
    {
      if pending.None? || |pending.value| == 0 {
        return true;
      }
      if !answer.Swapped? {
        pending := None;
        return false;
      }
      snapshot, revision := pending, revision + 1;
      pending := None;
      ok := true;
    }
  }

  // ----- Runs -------------------------------------------------------------------

  /** A callback that holds the session mutex. */
  datatype Holder =
    | Entered(session: Session)    // before the active check
    | Draining(session: Session)   // before the non-blocking receive
    | Sending(session: Session)    // before the send

  datatype Phase =
    | Looping
    | Flushing                     // debounce fired, latest session taken, swap not yet answered
    | Leaving(conflict: bool)      // out of the loop; conflict: a debounced flush failed
    | FinalFlushing(conflict: bool)
    | Over(conflict: bool, flushed: bool)

  /** One Run of the actor. Sessions are named by their position in `accepted`.
      `store` is what the durable row holds: a revision and the writes made by this Run. */
  datatype System = System(
    accepted: seq<Session>,
    slot: Option<nat>,
    active: bool,
    mutex: Option<Holder>,
    pending: Option<nat>,
    debounce: bool,
    snapshot: Option<nat>,         // None: still the session that was loaded
    revision: nat,                 // snapshot.Revision
    phase: Phase,
    durable: seq<nat>,
    storeRevision: nat,
    swaps: nat,                    // successful swaps
    dropped: Option<nat>)          // the session a failed debounced flush threw away, if any

  datatype Move =
    | CallbackEnters(session: Session)
    | CallbackSteps
    | LoopReceives
    | DebounceFires
    | SwapAnswers(swap: Swap, applied: bool)   // applied: an error that still reached the row
    | LoopLeaves
    | StopAccepting
    | NextGeneration

  function Init(revision: nat): System {
    System([], None, true, None, None, false, None, revision, Looping, [], revision, 0, None)
  }

  predicate Nonempty(s: System, i: Option<nat>) {
    i.Some? && i.value < |s.accepted| && s.accepted[i.value] != []
  }

  function BoxOf(s: System): Box<nat> { Box(s.slot, s.active) }

  function WithBox(s: System, box: Box<nat>): System { s.(slot := box.slot, active := box.active) }

  function BufferOf(s: System): Buffer<nat> { Buffer(s.snapshot, s.revision, s.pending) }

  function WithBuffer(s: System, buffer: Buffer<nat>): System {
    s.(snapshot := buffer.snapshot, revision := buffer.revision, pending := buffer.pending)
  }

  function TakeLatest(s: System): System {
    WithBuffer(WithBox(s, BoxOf(s).Drained()), BufferOf(s).Takes(s.slot, Nonempty(s, s.slot)))
  }

  /** CompareAndSwapFenced against the row, then flushPendingSession's bookkeeping. */
  function AnswerSwap(s: System, swap: Swap, applied: bool, good: Phase, bad: Phase): System {
    var nonempty, matches := Nonempty(s, s.pending), s.storeRevision == s.revision;
    var written := nonempty && matches && (swap.Swapped? || (swap.Failed? && applied));
    var swapped := matches && swap.Swapped?;
    var t := if written then s.(durable := s.durable + [s.pending.value], storeRevision := s.storeRevision + 1) else s;
    var (buffer, ok) := BufferOf(s).Flushed(nonempty, swapped);
    WithBuffer(t, buffer).(swaps := if nonempty && swapped then s.swaps + 1 else s.swaps,
                          phase := if ok then good else bad)
  }

  function CallbackStep(s: System): System {
    if s.mutex.None? then s
    else
      match s.mutex.value
      case Entered(session) => s.(mutex := if s.active then Some(Draining(session)) else None)
      case Draining(session) => WithBox(s, BoxOf(s).Drained()).(mutex := Some(Sending(session)))
      case Sending(session) =>
        if s.slot.Some? then s   // the send would block
        else WithBox(s, BoxOf(s).Filled(|s.accepted|)).(accepted := s.accepted + [session], mutex := None)
  }

  /** The steps of a callback that is alone with the mutex are replaceSession as a whole. */
  lemma CallbackReplaces(s: System)
    requires s.mutex.Some? && s.mutex.value.Entered?
    ensures var t := CallbackStep(CallbackStep(CallbackStep(s)));
            && t.mutex.None? && BoxOf(t) == BoxOf(s).Replaced(|s.accepted|)
            && t.accepted == s.accepted + if s.active then [s.mutex.value.session] else []
  {
    var first := CallbackStep(s);
    var second := CallbackStep(first);
    assert s.active ==> second.slot.None? && second.mutex == Some(Sending(s.mutex.value.session));
  }

  function Step(s: System, move: Move): System {
    match move
    case CallbackEnters(session) => if s.mutex.None? then s.(mutex := Some(Entered(session))) else s
    case CallbackSteps => CallbackStep(s)
    case LoopReceives =>
      if s.phase.Looping? && s.slot.Some? then s.(pending := s.slot, slot := None, debounce := true) else s
    case DebounceFires =>
      if s.phase.Looping? && s.debounce && s.mutex.None? then TakeLatest(s).(debounce := false, phase := Flushing)
          else s
    case SwapAnswers(swap, applied) =>
      if s.phase.Flushing? then
        var t := AnswerSwap(s, swap, applied, Looping, Leaving(true));
        t.(dropped := if t.phase.Leaving? then s.pending else s.dropped)
      else if s.phase.FinalFlushing? then
        AnswerSwap(s, swap, applied, Over(s.phase.conflict, true), Over(s.phase.conflict, false))
      else s
    case LoopLeaves =>
      // Any other end of the loop, including a shutdown noticed when the debounce fired.
      if s.phase.Looping? || s.phase.Flushing? then s.(phase := Leaving(false)) else s
    case StopAccepting =>
      if s.phase.Leaving? && s.mutex.None? then
        TakeLatest(WithBox(s, BoxOf(s).Stopped())).(phase := FinalFlushing(s.phase.conflict))
      else s
    case NextGeneration =>
      // Only a provider exit with a successful flush is retried; the new generation restores `snapshot`.
      if s.phase == Over(false, true) then
        s.(slot := None, active := true, mutex := None, pending := None, debounce := false, phase := Looping)
      else s
  }

  function Exec(revision: nat, moves: seq<Move>): System {
    if moves == [] then Init(revision) else Step(Exec(revision, moves[..|moves| - 1]), moves[|moves| - 1])
  }

  // ----- What every run keeps ---------------------------------------------------

  ghost predicate Increasing(indexes: seq<nat>) {
    forall i, j | 0 <= i < j < |indexes| :: indexes[i] < indexes[j]
  }

  ghost predicate AllBelow(indexes: seq<nat>, bound: nat) {
    forall i | 0 <= i < |indexes| :: indexes[i] < bound
  }

  /** Nothing has gone wrong with the store in this Run. */
  predicate Healthy(phase: Phase) {
    phase.Looping? || phase.Flushing? || phase == Leaving(false) || phase == FinalFlushing(false)
        || phase == Over(false, true)
  }

  /** A session is newer than everything that reached the row before it. */
  ghost predicate Newer(s: System, i: Option<nat>) {
    i.Some? ==> i.value < |s.accepted| && AllBelow(s.durable, i.value)
  }

  predicate NewestNonempty(s: System) { |s.accepted| > 0 && s.accepted[|s.accepted| - 1] != [] }

  /** Only sessions that say something reach the row. */
  ghost predicate DurableNonempty(s: System) {
    forall i | 0 <= i < |s.durable| :: s.durable[i] < |s.accepted| ==> s.accepted[s.durable[i]] != []
  }

  /** The newest accepted session, if it is not empty, is somewhere: not lost, unless a failed flush
      dropped it or a newer one is just about to take its place. */
  predicate NewestKept(s: System) {
    var newest := Some(|s.accepted| - 1);
    NewestNonempty(s) ==>
      || s.slot == newest || s.pending == newest || s.snapshot == newest || s.dropped == newest
      || (s.mutex.Some? && s.mutex.value.Sending?)
      || s.phase.Over?
  }

  ghost predicate Inv(s: System, loaded: nat) {
    && (s.mutex.Some? && s.mutex.value.Sending? ==> s.slot.None?)
    && (s.slot.Some? ==> s.slot.value == |s.accepted| - 1)
    && (s.slot.Some? && s.pending.Some? ==> s.pending.value < s.slot.value)
    && Increasing(s.durable) && AllBelow(s.durable, |s.accepted|)
    && Newer(s, s.slot) && Newer(s, s.pending)
    && s.revision == loaded + s.swaps && s.storeRevision == loaded + |s.durable|
    && (s.snapshot.Some? ==> s.snapshot.value in s.durable)
    && (s.dropped.Some? ==> s.dropped.value < |s.accepted| && s.dropped != s.snapshot)
    && (s.dropped.Some? && s.slot.Some? ==> s.dropped.value < s.slot.value)
    && (s.dropped.Some? && s.pending.Some? ==> s.dropped.value < s.pending.value)
    && (Healthy(s.phase) ==>
          && s.dropped.None? && s.storeRevision == s.revision
          && (s.durable == [] <==> s.snapshot.None?)
          && (s.durable != [] ==> s.snapshot == Some(s.durable[|s.durable| - 1])))
    && (s.phase.FinalFlushing? || s.phase.Over? ==>
          !s.active && s.slot.None? && (s.mutex.Some? ==> s.mutex.value.Entered?))
    && (s.phase.Over? ==> !Nonempty(s, s.pending))
    && NewestKept(s) && DurableNonempty(s)
    && (s.phase.Over? && s.phase.flushed && NewestNonempty(s) ==>
          s.snapshot == Some(|s.accepted| - 1) || s.dropped == Some(|s.accepted| - 1))
  }

  lemma AllBelowGrows(indexes: seq<nat>, bound: nat, higher: nat)
    requires AllBelow(indexes, bound) && bound <= higher
    ensures AllBelow(indexes, higher)
  {
  }

  lemma AppendKeepsOrder(indexes: seq<nat>, next: nat)
    requires Increasing(indexes) && AllBelow(indexes, next)
    ensures Increasing(indexes + [next])
    ensures forall bound :: next < bound ==> AllBelow(indexes + [next], bound)
  {
  }

  lemma MemberIsBelow(indexes: seq<nat>, i: nat, bound: nat)
    requires i in indexes && AllBelow(indexes, bound)
    ensures i < bound
  {
  }

  lemma CallbackKeepsInv(s: System, loaded: nat)
    requires Inv(s, loaded)
    ensures Inv(CallbackStep(s), loaded)
  {
    hide Inv;
    if s.mutex.Some? {
      match s.mutex.value
      case Entered(_) => EnteredKeepsInv(s, loaded);
      case Draining(_) => DrainKeepsInv(s, loaded);
      case Sending(_) => if s.slot.None? { AcceptKeepsInv(s, loaded); }
    }
  }

  /** The four ways a swap can end, as single updates. */
  lemma SwapCases(s: System, swap: Swap, applied: bool, good: Phase, bad: Phase)
    ensures var t := AnswerSwap(s, swap, applied, good, bad);
            if !Nonempty(s, s.pending) then t == s.(phase := good)
            else if s.storeRevision == s.revision && swap.Swapped? then
              t == s.(durable := s.durable + [s.pending.value], storeRevision := s.storeRevision + 1,
                  snapshot := s.pending,
                      revision := s.revision + 1, swaps := s.swaps + 1, pending := None, phase := good)
            else if s.storeRevision == s.revision && swap.Failed? && applied then
              t == s.(durable := s.durable + [s.pending.value], storeRevision := s.storeRevision + 1,
                  pending := None, phase := bad)
            else t == s.(pending := None, phase := bad)
  {
  }

  lemma TakeCases(s: System)
    ensures TakeLatest(s) == s.(slot := None, pending := if Nonempty(s, s.slot) then s.slot else s.pending)
  {
  }

  lemma EnteredKeepsInv(s: System, loaded: nat)
    requires Inv(s, loaded) && s.mutex.Some? && s.mutex.value.Entered?
    ensures Inv(CallbackStep(s), loaded)
  {
    hide Increasing, AllBelow, DurableNonempty;
    SameDurable(s, CallbackStep(s));
  }

  lemma DrainKeepsInv(s: System, loaded: nat)
    requires Inv(s, loaded) && s.mutex.Some? && s.mutex.value.Draining?
    ensures Inv(CallbackStep(s), loaded)
  {
    hide Increasing, AllBelow, DurableNonempty;
    SameDurable(s, CallbackStep(s));
  }

  lemma AcceptKeepsInv(s: System, loaded: nat)
    requires Inv(s, loaded) && s.mutex.Some? && s.mutex.value.Sending? && s.slot.None?
    ensures Inv(CallbackStep(s), loaded)
  {
    hide Increasing, AllBelow, DurableNonempty;
    AllBelowGrows(s.durable, |s.accepted|, |s.accepted| + 1);
    AcceptKeepsDurable(s, CallbackStep(s));
  }

  lemma AcceptKeepsDurable(s: System, t: System)
    requires DurableNonempty(s) && AllBelow(s.durable, |s.accepted|)
    requires t.durable == s.durable && |t.accepted| == |s.accepted| + 1 && t.accepted[..|s.accepted|] == s.accepted
    ensures DurableNonempty(t)
  {
    forall i | 0 <= i < |t.durable| ensures t.accepted[t.durable[i]] != [] {
      assert t.accepted[..|s.accepted|][s.durable[i]] == s.accepted[s.durable[i]];
    }
  }

  lemma SameDurable(s: System, t: System)
    requires DurableNonempty(s) && t.durable == s.durable && t.accepted == s.accepted
    ensures DurableNonempty(t)
  {
  }

  /** The store is asked, and the newest pending session reaches the row or not. */
  lemma SwapKeepsInv(s: System, loaded: nat, swap: Swap, applied: bool)
    requires Inv(s, loaded)
    ensures Inv(Step(s, SwapAnswers(swap, applied)), loaded)
  {
    if !Nonempty(s, s.pending) {
      VacuousSwapKeepsInv(s, loaded, swap, applied);
    } else {
      hide Increasing, AllBelow, Step, DurableNonempty;
      AppendKeepsOrder(s.durable, s.pending.value);
      if s.snapshot.Some? { MemberIsBelow(s.durable, s.snapshot.value, s.pending.value); }
      if s.phase.Flushing? { DebouncedSwapKeepsInv(s, loaded, swap, applied); }
      else if s.phase.FinalFlushing? { FinalSwapKeepsInv(s, loaded, swap, applied); }
      else { IdleSwap(s, swap, applied); }
    }
  }

  lemma IdleSwap(s: System, swap: Swap, applied: bool)
    requires !s.phase.Flushing? && !s.phase.FinalFlushing?
    ensures Step(s, SwapAnswers(swap, applied)) == s
  {
  }

  lemma VacuousSwapKeepsInv(s: System, loaded: nat, swap: Swap, applied: bool)
    requires Inv(s, loaded) && !Nonempty(s, s.pending)
    ensures Inv(Step(s, SwapAnswers(swap, applied)), loaded)
  {
    hide Increasing, AllBelow, DurableNonempty, AnswerSwap;
    SwapCases(s, swap, applied, Looping, Leaving(true));
    if s.phase.FinalFlushing? {
      SwapCases(s, swap, applied, Over(s.phase.conflict, true), Over(s.phase.conflict, false));
    }
    SameDurable(s, Step(s, SwapAnswers(swap, applied)));
  }

  lemma DebouncedSwapKeepsInv(s: System, loaded: nat, swap: Swap, applied: bool)
    requires Inv(s, loaded) && s.phase.Flushing? && Nonempty(s, s.pending)
    requires Increasing(s.durable + [s.pending.value])
    requires forall bound :: s.pending.value < bound ==> AllBelow(s.durable + [s.pending.value], bound)
    requires s.snapshot.Some? ==> s.snapshot.value < s.pending.value
    ensures Inv(Step(s, SwapAnswers(swap, applied)), loaded)
  {
    hide Increasing, AllBelow, DurableNonempty, AnswerSwap;
    SwapCases(s, swap, applied, Looping, Leaving(true));
    SwapKeepsNonempty(s, Step(s, SwapAnswers(swap, applied)));
  }

  lemma FinalSwapKeepsInv(s: System, loaded: nat, swap: Swap, applied: bool)
    requires Inv(s, loaded) && s.phase.FinalFlushing? && Nonempty(s, s.pending)
    requires Increasing(s.durable + [s.pending.value])
    requires forall bound :: s.pending.value < bound ==> AllBelow(s.durable + [s.pending.value], bound)
    requires s.snapshot.Some? ==> s.snapshot.value < s.pending.value
    ensures Inv(Step(s, SwapAnswers(swap, applied)), loaded)
  {
    hide Increasing, AllBelow, DurableNonempty, AnswerSwap;
    SwapCases(s, swap, applied, Over(s.phase.conflict, true), Over(s.phase.conflict, false));
    SwapKeepsNonempty(s, Step(s, SwapAnswers(swap, applied)));
  }

  lemma SwapKeepsNonempty(s: System, t: System)
    requires DurableNonempty(s) && Nonempty(s, s.pending) && t.accepted == s.accepted
    requires t.durable == s.durable || t.durable == s.durable + [s.pending.value]
    ensures DurableNonempty(t)
  {
  }

  lemma LoopKeepsInv(s: System, loaded: nat, move: Move)
    requires Inv(s, loaded) && (move.CallbackEnters? || move.LoopReceives? || move.LoopLeaves?)
    ensures Inv(Step(s, move), loaded)
  {
    hide Increasing, AllBelow, TakeLatest, AnswerSwap, CallbackStep, DurableNonempty;
    SameDurable(s, Step(s, move));
  }

  lemma DebounceKeepsInv(s: System, loaded: nat)
    requires Inv(s, loaded)
    ensures Inv(Step(s, DebounceFires), loaded)
  {
    hide Increasing, AllBelow, DurableNonempty, TakeLatest;
    TakeCases(s);
    SameDurable(s, Step(s, DebounceFires));
  }

  lemma StoppingKeepsInv(s: System, loaded: nat)
    requires Inv(s, loaded)
    ensures Inv(Step(s, StopAccepting), loaded)
  {
    hide Increasing, AllBelow, DurableNonempty, TakeLatest;
    TakeCases(WithBox(s, BoxOf(s).Stopped()));
    SameDurable(s, Step(s, StopAccepting));
  }

  lemma RetryKeepsInv(s: System, loaded: nat)
    requires Inv(s, loaded)
    ensures Inv(Step(s, NextGeneration), loaded)
  {
    hide Increasing, AllBelow, DurableNonempty;
    SameDurable(s, Step(s, NextGeneration));
  }

  lemma StepKeepsInv(s: System, loaded: nat, move: Move)
    requires Inv(s, loaded)
    ensures Inv(Step(s, move), loaded)
  {
    hide Inv, Step;
    match move
    case CallbackSteps => CallbackMoveKeepsInv(s, loaded);
    case SwapAnswers(swap, applied) => SwapKeepsInv(s, loaded, swap, applied);
    case CallbackEnters(_) => LoopKeepsInv(s, loaded, move);
    case LoopReceives => LoopKeepsInv(s, loaded, move);
    case LoopLeaves => LoopKeepsInv(s, loaded, move);
    case DebounceFires => DebounceKeepsInv(s, loaded);
    case StopAccepting => StoppingKeepsInv(s, loaded);
    case NextGeneration => RetryKeepsInv(s, loaded);
  }

  lemma CallbackMoveKeepsInv(s: System, loaded: nat)
    requires Inv(s, loaded)
    ensures Inv(Step(s, CallbackSteps), loaded)
  {
    hide Inv;
    CallbackKeepsInv(s, loaded);
  }

  lemma {:induction false} RunsKeepInv(loaded: nat, moves: seq<Move>)
    ensures Inv(Exec(loaded, moves), loaded)
  {
    if moves != [] {
      var s, move := Exec(loaded, moves[..|moves| - 1]), moves[|moves| - 1];
      RunsKeepInv(loaded, moves[..|moves| - 1]);
      StepKeepsInv(s, loaded, move);
    }
  }

  // ----- What every run promises --------------------------------------------------

  predicate RoomToSend(s: System) { s.mutex.Some? && s.mutex.value.Sending? ==> s.slot.None? }

  lemma StepLeavesRoom(s: System, move: Move)
    requires RoomToSend(s)
    ensures RoomToSend(Step(s, move))
  {
    hide Nonempty, AnswerSwap;
    if move.SwapAnswers? {
      SwapLeavesCallbacks(s, move.swap, move.applied, Looping, Leaving(true));
      if s.phase.FinalFlushing? {
        SwapLeavesCallbacks(s, move.swap, move.applied, Over(s.phase.conflict, true), Over(s.phase.conflict, false));
      }
    }
  }

  lemma SwapLeavesCallbacks(s: System, swap: Swap, applied: bool, good: Phase, bad: Phase)
    ensures var t := AnswerSwap(s, swap, applied, good, bad);
            t.mutex == s.mutex && t.slot == s.slot && t.accepted == s.accepted
  {
    hide Nonempty;
  }

  /** replaceSession never blocks: whoever is about to send finds the slot empty. */
  lemma {:induction false} SendNeverBlocks(loaded: nat, moves: seq<Move>)
    ensures RoomToSend(Exec(loaded, moves))
  {
    if moves != [] {
      hide Step;
      SendNeverBlocks(loaded, moves[..|moves| - 1]);
      StepLeavesRoom(Exec(loaded, moves[..|moves| - 1]), moves[|moves| - 1]);
    }
  }

  /** What reached the row is an in-order subsequence of what was accepted. */
  lemma DurableSessionsAreInOrder(loaded: nat, moves: seq<Move>)
    ensures var s := Exec(loaded, moves); Increasing(s.durable) && AllBelow(s.durable, |s.accepted|)
  {
    RunsKeepInv(loaded, moves);
  }

  /** When the final flush succeeds, the snapshot the next restore will use is the
      newest accepted session, and durable, unless the debounced flush had
      failed on that very session. The revision counts the successful swaps. */
  lemma FinalFlushKeepsNewest(loaded: nat, moves: seq<Move>)
    requires var s := Exec(loaded, moves); NewestNonempty(s) && s.phase.Over? && s.phase.flushed
    ensures var s := Exec(loaded, moves);
            var newest := |s.accepted| - 1;
            && (s.snapshot == Some(newest) <==> s.dropped != Some(newest))
            && (s.snapshot == Some(newest) ==> s.durable != [] && s.durable[|s.durable| - 1] == newest)
            && s.revision == loaded + s.swaps
            && (!s.phase.conflict ==> s.snapshot == Some(newest) && s.storeRevision == s.revision)
            && (!s.phase.conflict ==>
                  Step(s, NextGeneration).phase.Looping? && Step(s, NextGeneration).snapshot == Some(newest))
  {
    hide Exec, Step;
    RunsKeepInv(loaded, moves);
    var s := Exec(loaded, moves);
    if !s.phase.conflict { RetryKeepsSnapshot(s); }
    if s.snapshot.Some? {
      var k :| 0 <= k < |s.durable| && s.durable[k] == s.snapshot.value;
    }
  }

  lemma RetryKeepsSnapshot(s: System)
    requires s.phase == Over(false, true)
    ensures Step(s, NextGeneration).phase.Looping? && Step(s, NextGeneration).snapshot == s.snapshot
  {
  }

  lemma ExecAppends(loaded: nat, moves: seq<Move>, move: Move)
    ensures Exec(loaded, moves + [move]) == Step(Exec(loaded, moves), move)
  {
    assert (moves + [move])[..|moves|] == moves;
  }

  /** All these sessions accepted, one after another, and none read by the loop yet. */
  function Waiting(loaded: nat, sessions: seq<Session>): System {
    Init(loaded).(accepted := sessions, slot := if sessions == [] then None else Some(|sessions| - 1))
  }

  lemma AcceptNext(loaded: nat, sessions: seq<Session>, session: Session, before: seq<Move>) returns (moves: seq<Move>)
    requires Exec(loaded, before) == Waiting(loaded, sessions)
    ensures Exec(loaded, moves) == Waiting(loaded, sessions + [session])
  {
    hide Exec;
    var s := Waiting(loaded, sessions);
    moves := before;
    for i := 0 to 4
      invariant Exec(loaded, moves) ==
                [s, s.(mutex := Some(Entered(session))), s.(mutex := Some(Draining(session))),
                 s.(mutex := Some(Sending(session)), slot := None), Waiting(loaded, sessions + [session])][i]
    {
      var move := if i == 0 then CallbackEnters(session) else CallbackSteps;
      ExecAppends(loaded, moves, move);
      moves := moves + [move];
    }
  }

  lemma {:induction false} AcceptAll(loaded: nat, sessions: seq<Session>) returns (moves: seq<Move>)
    ensures Exec(loaded, moves) == Waiting(loaded, sessions)
  {
    hide Step;
    if sessions == [] {
      moves := [];
    } else {
      var most := sessions[..|sessions| - 1];
      moves := AcceptAll(loaded, most);
      moves := AcceptNext(loaded, most, sessions[|sessions| - 1], moves);
      assert most + [sessions[|sessions| - 1]] == sessions;
    }
  }

  /** The exception is real: the debounced swap is refused, nothing newer arrives, and
      the final flush succeeds because nothing is left to flush. The only
      accepted session never reached the row. */
  lemma VacuousFlushLosesSession(loaded: nat)
    ensures exists moves ::
              var s := Exec(loaded, moves);
              s.accepted == [[1]] && s.phase == Over(true, true) && s.durable == [] && s.snapshot.None?
  {
    hide Exec;
    var moves := AcceptAll(loaded, [[1]]);
    for i := 0 to 5
      invariant Exec(loaded, moves) ==
                var s := Init(loaded).(accepted := [[1]]);
                [s.(slot := Some(0)),
                 s.(pending := Some(0), debounce := true),
                 s.(pending := Some(0), phase := Flushing),
                 s.(dropped := Some(0), phase := Leaving(true)),
                 s.(dropped := Some(0), active := false, phase := FinalFlushing(true)),
                 s.(dropped := Some(0), active := false, phase := Over(true, true))][i]
    {
      var move := [LoopReceives, DebounceFires, SwapAnswers(Refused, false), StopAccepting,
          SwapAnswers(Refused, false)][i];
      ExecAppends(loaded, moves, move);
      moves := moves + [move];
    }
  }

  function LastNonempty(sessions: seq<Session>): Option<nat> {
    if sessions == [] then None
    else if sessions[|sessions| - 1] != [] then Some(|sessions| - 1)
    else LastNonempty(sessions[..|sessions| - 1])
  }

  /** An empty session takes the slot from the sessions before it and is then ignored, so a clean generation
      can end without any of them. */
  lemma EmptySessionHidesLatest(loaded: nat, sessions: seq<Session>) returns (moves: seq<Move>)
    requires sessions != [] && sessions[|sessions| - 1] == []
    ensures var s := Exec(loaded, moves);
            s.accepted == sessions && s.phase == Over(false, true) && s.durable == [] && s.snapshot.None?
  {
    hide Exec;
    moves := AcceptAll(loaded, sessions);
    var s := Init(loaded).(accepted := sessions);
    for i := 0 to 3
      invariant Exec(loaded, moves) ==
                [Waiting(loaded, sessions), Waiting(loaded, sessions).(phase := Leaving(false)),
                 s.(active := false, phase := FinalFlushing(false)), s.(active := false, phase := Over(false, true))][i]
    {
      var move := [LoopLeaves, StopAccepting, SwapAnswers(Swapped, false)][i];
      ExecAppends(loaded, moves, move);
      moves := moves + [move];
    }
  }

  lemma {:induction false} LastNonemptyFacts(sessions: seq<Session>)
    ensures LastNonempty(sessions).None? <==> forall i | 0 <= i < |sessions| :: sessions[i] == []
  {
    if sessions != [] { LastNonemptyFacts(sessions[..|sessions| - 1]); }
  }

  lemma NothingToKeep(s: System, loaded: nat)
    requires Inv(s, loaded) && s.phase == Over(false, true) && LastNonempty(s.accepted).None?
    ensures s.snapshot.None?
  {
    LastNonemptyFacts(s.accepted);
  }

  /** Every clean end of a generation that accepted exactly these sessions leaves the last non-empty one as the
      snapshot, if and only if there is none or nothing was accepted after it. */
  lemma CleanEndKeepsLastNonempty(loaded: nat, sessions: seq<Session>)
    ensures (forall moves | Exec(loaded, moves).accepted == sessions
        && Exec(loaded, moves).phase == Over(false, true) ::
               Exec(loaded, moves).snapshot == LastNonempty(sessions))
            <==> LastNonempty(sessions).None? || sessions[|sessions| - 1] != []
  {
    hide Exec, Inv;
    if LastNonempty(sessions).None? || sessions[|sessions| - 1] != [] {
      forall moves | Exec(loaded, moves).accepted == sessions && Exec(loaded, moves).phase == Over(false, true)
        ensures Exec(loaded, moves).snapshot == LastNonempty(sessions)
      {
        RunsKeepInv(loaded, moves);
        if LastNonempty(sessions).None? {
          NothingToKeep(Exec(loaded, moves), loaded);
        } else {
          FinalFlushKeepsNewest(loaded, moves);
        }
      }
    } else {
      var moves := EmptySessionHidesLatest(loaded, sessions);
    }
  }
}
