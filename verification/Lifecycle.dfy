/** Session-change signals of one client generation: a one-slot channel that
    coalesces signals, the loop that turns them into hook calls, and the final
    drain before the generation's `done` channel closes. */
module Lifecycle {

  datatype Event = Accepted | HookStarted | Closed

  /** Where the goroutine that owns the slot is; a failed start drains in the caller's goroutine. */
  datatype PC =
    | Starting
    | Selecting
    | Woken        // took a signal, hook not called yet
    | InHook
    | Draining     // saw the cancelled context, or the start failed
    | LastCall     // the drain found a signal, hook not called yet
    | InLastHook
    | Exited

  datatype State = State(
    slot: bool,
    accepting: bool,
    cancelled: bool,
    pc: PC,
    workers: nat,      // the generation's other goroutines
    done: bool,
    log: seq<Event>)

  const Init := State(false, true, false, Starting, 0, false, [])

  datatype Move =
    | Signal           // emitLifecycleActivity with a session change
    | Cancel           // disconnect, the end of the long poll, or the parent context
    | StartFails
    | StartSucceeds(workers: nat)
    | WorkerStarts
    | WorkerExits
    | Receive
    | SeeCancel
    | HookStarts
    | HookReturns
    | Drain
    | CloseDone

  /** What sessionMu protects: the one-slot channel and whether it still accepts. */
  datatype Signals = Signals(slot: bool, accepting: bool) {
    /** A full slot already stands for a further signal. */
    function Signalled(): Signals { if accepting then this.(slot := true) else this }

    /** Refuse further signals and take the pending one. */
    function Finished(): Signals { Signals(false, false) }
  }

  class Generation {
    var sessionChanged: bool
    var acceptSessions: bool

    function Model(): Signals
      reads this
    {
      Signals(sessionChanged, acceptSessions)
    }

    constructor ()
      ensures Model() == Signals(false, true)
    {
      sessionChanged, acceptSessions := false, true;
    }

    /** emitLifecycleActivity for a session change: a non-blocking send while signals are accepted. */
    method EmitSessionChange() returns (accepted: bool)
      modifies this
      ensures accepted == old(Model()).accepting && Model() == old(Model()).Signalled()
    {
      if !acceptSessions {
        return false;
      }
      if !sessionChanged {
        sessionChanged := true;
      }
      accepted := true;
    }

    /** finishLifecycleSessions up to the hook: a non-blocking receive after closing the gate. */
    method FinishLifecycleSessions() returns (pending: bool)
      modifies this
      ensures pending == old(Model()).slot && Model() == old(Model()).Finished()
    {
      acceptSessions := false;
      pending := false;
      if sessionChanged {
        sessionChanged := false;
        pending := true;
      }
    }
  }

  function SignalsOf(s: State): Signals { Signals(s.slot, s.accepting) }

  function WithSignals(s: State, signals: Signals): State { s.(slot := signals.slot, accepting := signals.accepting) }

  function Step(s: State, move: Move): State {
    match move
    case Signal =>
      WithSignals(s, SignalsOf(s).Signalled()).(log := s.log + if s.accepting then [Accepted] else [])
    case Cancel => s.(cancelled := true)
    case StartFails => if s.pc.Starting? then s.(cancelled := true, pc := Draining) else s
    case StartSucceeds(workers) => if s.pc.Starting? && !s.cancelled then s.(pc := Selecting, workers := workers) else s
    case WorkerStarts => if s.pc.Starting? || s.done then s else s.(workers := s.workers + 1)
    case WorkerExits => if s.workers > 0 then s.(workers := s.workers - 1) else s
    case Receive => if s.pc.Selecting? && s.slot then s.(slot := false, pc := Woken) else s
    case SeeCancel => if s.pc.Selecting? && s.cancelled then s.(pc := Draining) else s
    case HookStarts =>
      if s.pc.Woken? then s.(pc := InHook, log := s.log + [HookStarted])
      else if s.pc.LastCall? then s.(pc := InLastHook, log := s.log + [HookStarted])
      else s
    case HookReturns =>
      if s.pc.InHook? then s.(pc := Selecting) else if s.pc.InLastHook? then s.(pc := Exited) else s
    case Drain =>
      if s.pc.Draining? then WithSignals(s, SignalsOf(s).Finished()).(pc := if s.slot then LastCall else Exited) else s
    case CloseDone => if s.pc.Exited? && s.workers == 0 && !s.done then s.(done := true, log := s.log + [Closed]) else s
  }

  function Exec(moves: seq<Move>): State {
    if moves == [] then Init else Step(Exec(moves[..|moves| - 1]), moves[|moves| - 1])
  }

  // ----- What every run keeps -------------------------------------------------------------

  function Count(log: seq<Event>, event: Event): nat {
    if log == [] then 0 else Count(log[..|log| - 1], event) + if log[|log| - 1] == event then 1 else 0
  }

  /** Some accepted signal has no later hook call. */
  ghost predicate Owed(log: seq<Event>) {
    exists i: nat :: i < |log| && log[i] == Accepted && !AnsweredAfter(log, i)
  }

  ghost predicate AnsweredAfter(log: seq<Event>, i: nat) {
    exists j :: i < j < |log| && log[j] == HookStarted
  }

  predicate Claimed(s: State) { s.pc.Woken? || s.pc.LastCall? }

  ghost predicate Inv(s: State) {
    && (Owed(s.log) ==> s.slot || Claimed(s))
    && Count(s.log, HookStarted) + (if s.slot then 1 else 0) + (if Claimed(s) then 1 else 0) <= Count(s.log, Accepted)
    && (s.accepting <==> !(s.pc.LastCall? || s.pc.InLastHook? || s.pc.Exited?))
    && (!s.accepting ==> !s.slot)
    && (s.done ==> s.pc.Exited?)
    && (s.done <==> Closed in s.log)
    && (s.done ==> s.log[|s.log| - 1] == Closed)
  }

  lemma LogAppends(log: seq<Event>, event: Event)
    ensures forall e :: Count(log + [event], e) == Count(log, e) + if e == event then 1 else 0
    ensures event == HookStarted ==> !Owed(log + [event])
    ensures event == Closed && Owed(log + [event]) ==> Owed(log)
  {
    var all := log + [event];
    assert all[..|log|] == log && all[|log|] == event;
    if event == HookStarted {
      forall i | 0 <= i < |all| && all[i] == Accepted ensures AnsweredAfter(all, i) {
        assert i < |log| < |all| && all[|log|] == HookStarted;
      }
    }
    if event == Closed && Owed(all) {
      var i: nat :| i < |all| && all[i] == Accepted && !AnsweredAfter(all, i);
      assert log[i] == Accepted;
      assert forall j | i < j < |log| :: all[j] == log[j];
    }
  }

  lemma StepKeepsInv(s: State, move: Move)
    requires Inv(s)
    ensures Inv(Step(s, move))
  {
    hide Owed, Count;
    assert s.log + [] == s.log;
    LogAppends(s.log, Accepted);
    LogAppends(s.log, HookStarted);
    LogAppends(s.log, Closed);
  }

  lemma {:induction false} RunsKeepInv(moves: seq<Move>)
    ensures Inv(Exec(moves))
  {
    if moves == [] {
      assert !Owed([]);
    } else {
      RunsKeepInv(moves[..|moves| - 1]);
      StepKeepsInv(Exec(moves[..|moves| - 1]), moves[|moves| - 1]);
    }
  }

  // ----- The theorems -----------------------------------------------------------------------

  /** No session change is lost: once `done` is closed, every accepted signal was followed by a hook
      call that started after it and before `done` closed. */
  lemma NoSignalIsLost(moves: seq<Move>, i: nat)
    requires Exec(moves).done && i < |Exec(moves).log| && Exec(moves).log[i] == Accepted
    ensures var log := Exec(moves).log;
            exists j :: i < j < |log| - 1 && log[j] == HookStarted && log[|log| - 1] == Closed
  {
    hide Exec, Count;
    RunsKeepInv(moves);
    var log := Exec(moves).log;
    assert AnsweredAfter(log, i);
    var j :| i < j < |log| && log[j] == HookStarted;
    assert i < j < |log| - 1;
  }

  /** Signals coalesce but hook calls never outnumber them, at any moment of any run. */
  lemma HooksNeverExceedSignals(moves: seq<Move>)
    ensures Count(Exec(moves).log, HookStarted) <= Count(Exec(moves).log, Accepted)
  {
    RunsKeepInv(moves);
  }

  lemma DoneStays(s: State, move: Move)
    requires Inv(s) && s.done
    ensures Step(s, move).done && Step(s, move).log == s.log
  {
  }

  /** After `done` closes nothing is accepted and no hook is called. */
  lemma {:induction false} NothingAfterDone(moves: seq<Move>, more: seq<Move>)
    requires Exec(moves).done
    ensures Exec(moves + more).done && Exec(moves + more).log == Exec(moves).log
    decreases |more|
  {
    hide Step, Inv;
    if more == [] {
      assert moves + more == moves;
    } else {
      var most, last := more[..|more| - 1], more[|more| - 1];
      NothingAfterDone(moves, most);
      RunsKeepInv(moves + most);
      DoneStays(Exec(moves + most), last);
      assert (moves + more)[..|moves + more| - 1] == moves + most && (moves + more)[|moves + more| - 1] == last;
    }
  }
}
