/** How a provider generation ends: which event stopped its loop, what the
    joins reported, and which of several causes decides the final health. */
module Teardown {
  import opened Wrappers
  import opened Faults

  datatype ActorState = ActorConnecting | ActorReady | ActorBackoff | ActorStopped | ActorLeaseLost

  datatype ConnectionState = Connected | Degraded | Disconnected | ReauthorizationRequired

  datatype Reason =
    | ReasonNone
    | ReasonTransientNetwork
    | ReasonProviderAuth
    | ReasonProviderConfig
    | ReasonProviderProtocol
    | ReasonSharedInfrastructure
    | ReasonLeaseLost
    | ReasonSessionConflict
    | ReasonShutdown

  datatype Health = Health(
    actor: ActorState, connection: ConnectionState, reason: Reason, reauthorize: bool, backoff: nat)

  /** The event that made the generation loop stop. A fault of NIL next to a
      failed write means that the fence was refused without an error. */
  datatype LoopEnd =
    | ContextDone
    | RenewFailed(ctxDone: bool, fault: Fault)
    | HealthWriteFailed(ctxDone: bool, fault: Fault)
    | FlushFailed(fault: Fault)
    | ConnectReturned(ctxDone: bool, fault: Fault)

  datatype ExitKind = ExitShutdown | ExitLeaseLost | ExitSessionConflict | ExitProvider

  datatype Exit = Exit(kind: ExitKind, fault: Fault, providerFault: Fault, providerJoined: bool)

  datatype Outcome = Outcome(stop: bool, fault: Fault)

  /** What the outside world answers during the teardown. */
  datatype Joins = Joins(
    operation: Option<bool>,       // an operation was active; did it stop in time?
    disconnected: bool,            // Disconnect returned in time
    connect: Option<Fault>,        // what Connect returned, unless the wait timed out
    flushed: bool, flushFault: Fault,
    reauthorized: bool, reauthorizeFault: Fault)

  /** The class of a terminal cause, strongest first. */
  function ReasonOf(cause: Fault): Reason
    requires Terminal(cause)
  {
    if StaleGeneration in cause then ReasonLeaseLost
    else if SharedInfrastructure in cause then ReasonSharedInfrastructure
    else if ProviderAuthorization in cause then ReasonProviderAuth
    else if PermanentConfig in cause then ReasonProviderConfig
    else ReasonProviderProtocol
  }

  /** The actor state that goes with a final reason. */
  function ActorFor(reason: Reason): ActorState { if reason.ReasonLeaseLost? then ActorLeaseLost else ActorStopped }

  /** The connection state that goes with a final reason; `fenced` says that the reauthorization was written. */
  function ConnectionFor(reason: Reason, fenced: bool): ConnectionState {
    if reason.ReasonLeaseLost? || reason.ReasonShutdown? then Disconnected
    else if reason.ReasonProviderAuth? && fenced then ReauthorizationRequired
    else Degraded
  }

  predicate Shows(health: Health, reason: Reason, fenced: bool) {
    health.reason == reason && health.actor == ActorFor(reason) && health.connection == ConnectionFor(reason, fenced)
  }

  /** The terminal classes, strongest first, and the health each is shown as. */
  const CLASSES: seq<(Sentinel, ActorState, ConnectionState, Reason)> := [
    (StaleGeneration, ActorLeaseLost, Disconnected, ReasonLeaseLost),
    (SharedInfrastructure, ActorStopped, Degraded, ReasonSharedInfrastructure),
    (ProviderAuthorization, ActorStopped, Degraded, ReasonProviderAuth),
    (PermanentConfig, ActorStopped, Degraded, ReasonProviderConfig),
    (PermanentProtocol, ActorStopped, Degraded, ReasonProviderProtocol)]

  /** The strongest terminal class of a cause decides its health; only a fenced reauthorization shows more
      than its class. */
  lemma StrongestClassDecides(cause: Fault, health: Health, fenced: bool, k: nat)
    requires k < |CLASSES| && CLASSES[k].0 in cause && forall j | 0 <= j < k :: CLASSES[j].0 !in cause
    ensures Terminal(cause)
    ensures Shows(health, ReasonOf(cause), fenced) <==>
              && health.actor == CLASSES[k].1 && health.reason == CLASSES[k].3
              && health.connection == if fenced && CLASSES[k].0 == ProviderAuthorization then ReauthorizationRequired
                                      else CLASSES[k].2
  {
    assert k > 0 ==> CLASSES[0].0 !in cause;
    assert k > 1 ==> CLASSES[1].0 !in cause;
    assert k > 2 ==> CLASSES[2].0 !in cause;
    assert k > 3 ==> CLASSES[3].0 !in cause;
  }

  /** And a cause without any of the classes is not terminal. */
  lemma TerminalHasClass(cause: Fault) returns (k: nat)
    requires Terminal(cause)
    ensures k < |CLASSES| && CLASSES[k].0 in cause && forall j | 0 <= j < k :: CLASSES[j].0 !in cause
  {
    k := if CLASSES[0].0 in cause then 0
         else if CLASSES[1].0 in cause then 1
         else if CLASSES[2].0 in cause then 2
         else if CLASSES[3].0 in cause then 3
         else 4;
  }

  predicate OperationJoined(joins: Joins) { joins.operation != Some(false) }

  predicate FlushOk(joins: Joins) { joins.flushed && joins.flushFault == NIL }

  /** The provider error that counts in the end: what Connect returned inside the loop, or,
      if it was still running then, a terminal error that it returned during the join. */
  function Cause(end: LoopEnd, joins: Joins): Fault {
    if end.ConnectReturned? then
      if end.ctxDone || Canceled in end.fault then (if Terminal(end.fault) then end.fault else NIL) else end.fault
    else if joins.connect.Some? && Terminal(joins.connect.value) then joins.connect.value
    else NIL
  }

  /** The same, case by case: a terminal error always counts, even after a shutdown; an ordinary one only when
      Connect came back on its own. */
  lemma CauseCases(end: LoopEnd, joins: Joins)
    ensures end.ConnectReturned? && (Terminal(end.fault) || !(end.ctxDone || Canceled in end.fault)) ==>
              Cause(end, joins) == end.fault
    ensures end.ConnectReturned? && !Terminal(end.fault) && (end.ctxDone || Canceled in end.fault) ==>
              Cause(end, joins) == NIL
    ensures !end.ConnectReturned? ==>
              match joins.connect
              case None => Cause(end, joins) == NIL
              case Some(fault) => if Terminal(fault) then Cause(end, joins) == fault else Cause(end, joins) == NIL
  {
  }

  /** Everything the generation started has stopped. */
  predicate AllJoined(end: LoopEnd, joins: Joins) {
    joins.disconnected && (end.ConnectReturned? || joins.connect.Some?) && OperationJoined(joins)
  }

  /** The error the loop itself left with. */
  function LoopFault(end: LoopEnd): Fault {
    match end
    case FlushFailed(fault) => fault
    case RenewFailed(ctxDone, fault) => if ctxDone then NIL else fault
    case HealthWriteFailed(ctxDone, fault) => if ctxDone then NIL else fault
    case _ => NIL
  }

  /** Nothing tells finalizeGeneration that something may still be running. */
  predicate Clean(end: LoopEnd, joins: Joins) { AllJoined(end, joins) && JoinTimeout !in LoopFault(end) }

  /** The one path that leaves health as it was: the fenced reauthorization write failed or was refused. */
  predicate ReauthorizationLost(end: LoopEnd, joins: Joins) {
    && Terminal(Cause(end, joins)) && ReasonOf(Cause(end, joins)) == ReasonProviderAuth
    && Clean(end, joins) && FlushOk(joins)
    && !(joins.reauthorized && joins.reauthorizeFault == NIL)
  }

  /** The same notions for finalizeGeneration, which sees only an exit. */
  function ExitCause(exit: Exit, joins: Joins): Fault {
    exit.providerFault +
    if !exit.providerJoined && joins.connect.Some? && Terminal(joins.connect.value) then joins.connect.value else NIL
  }

  predicate ExitClean(exit: Exit, joins: Joins) {
    joins.disconnected && (exit.providerJoined || joins.connect.Some?) && JoinTimeout !in exit.fault
  }

  function ExitReason(exit: Exit, joins: Joins): Reason {
    if Terminal(ExitCause(exit, joins)) then ReasonOf(ExitCause(exit, joins))
    else if exit.kind == ExitLeaseLost && (ExitClean(exit, joins) || !FlushOk(joins)) then ReasonLeaseLost
    else if !FlushOk(joins) then ReasonSessionConflict
    else if !ExitClean(exit, joins) then ReasonProviderProtocol
    else if exit.kind == ExitSessionConflict then ReasonSessionConflict
    else ReasonShutdown
  }

  /** Only the provider branch of a clean teardown, apart from a stale generation, leaves the backoff as it was. */
  predicate KeepsBackoff(cause: Fault, clean: bool) { clean && Terminal(cause) && !ReasonOf(cause).ReasonLeaseLost? }

  class Generation {
    var health: Health
    var writes: seq<Health>     // every detached health write of the teardown

    constructor (health: Health)
      ensures this.health == health && writes == []
    {
      this.health, writes := health, [];
    }

    method Set(actor: ActorState, connection: ConnectionState, reason: Reason)
      modifies this`health
      ensures health == old(health).(actor := actor, connection := connection, reason := reason)
    {
      health := health.(actor := actor, connection := connection, reason := reason);
    }

    method WriteDetached()
      modifies this`writes
      ensures writes == old(writes) + [health]
    {
      writes := writes + [health];
    }

    /** applyTerminalProviderHealth. */
    method ApplyTerminal(fault: Fault) returns (applied: bool)
      modifies this`health
      ensures applied == Terminal(fault)
      ensures applied ==> Shows(health, ReasonOf(fault), false) && health.backoff == 0
      ensures health.reauthorize == old(health.reauthorize)
      ensures !applied ==> health == old(health)
    {
      applied := true;
      if StaleGeneration in fault {
        Set(ActorLeaseLost, Disconnected, ReasonLeaseLost);
      } else if SharedInfrastructure in fault {
        Set(ActorStopped, Degraded, ReasonSharedInfrastructure);
      } else if ProviderAuthorization in fault {
        Set(ActorStopped, Degraded, ReasonProviderAuth);
      } else if PermanentConfig in fault {
        Set(ActorStopped, Degraded, ReasonProviderConfig);
      } else if PermanentProtocol in fault {
        Set(ActorStopped, Degraded, ReasonProviderProtocol);
      } else {
        return false;
      }
      health := health.(backoff := 0);
    }

    /** The health of a teardown that could not save the session or join everything. */
    method Degrade(providerFault: Fault, leaseLost: bool, otherwise: Reason)
      modifies this
      ensures if Terminal(providerFault) then Shows(health, ReasonOf(providerFault), false)
              else if leaseLost then Shows(health, ReasonLeaseLost, false)
              else health.reason == otherwise && health.actor.ActorStopped? && health.connection.Degraded?
      ensures health.backoff == 0 && health.reauthorize == old(health.reauthorize) && writes == old(writes) + [health]
    {
      var applied := ApplyTerminal(providerFault);
      if !applied {
        if leaseLost {
          Set(ActorLeaseLost, Disconnected, ReasonLeaseLost);
        } else {
          Set(ActorStopped, Degraded, otherwise);
        }
      }
      health := health.(backoff := 0);
      WriteDetached();
    }

    /** The exit that the loop hands to finalizeGeneration. */
    method LeaveLoop(end: LoopEnd) returns (exit: Exit)
      ensures exit.providerJoined == end.ConnectReturned? && exit.fault == LoopFault(end)
      ensures forall joins :: exit.providerFault == if end.ConnectReturned? then Cause(end, joins) else NIL
      ensures exit.kind == match end
                           case ContextDone => ExitShutdown
                           case FlushFailed(_) => ExitSessionConflict
                           case ConnectReturned(ctxDone, fault) =>
                             if Terminal(fault) || !(ctxDone || Canceled in fault) then ExitProvider else ExitShutdown
                           case _ => if end.ctxDone then ExitShutdown else ExitLeaseLost
    {
      match end {
        case ContextDone =>
          exit := Exit(ExitShutdown, NIL, NIL, false);
        case RenewFailed(ctxDone, fault) =>
          exit := if ctxDone then Exit(ExitShutdown, NIL, NIL, false) else Exit(ExitLeaseLost, fault, NIL, false);
        case HealthWriteFailed(ctxDone, fault) =>
          exit := if ctxDone then Exit(ExitShutdown, NIL, NIL, false) else Exit(ExitLeaseLost, fault, NIL, false);
        case FlushFailed(fault) =>
          exit := Exit(ExitSessionConflict, fault, NIL, false);
        case ConnectReturned(ctxDone, fault) =>
          if Terminal(fault) {
            exit := Exit(ExitProvider, NIL, fault, true);
          } else if ctxDone || Canceled in fault {
            exit := Exit(ExitShutdown, NIL, NIL, true);
          } else {
            exit := Exit(ExitProvider, NIL, fault, true);
          }
      }
    }

    /** The end of runGeneration and all of finalizeGeneration. */
    method TearDown(end: LoopEnd, joins: Joins) returns (outcome: Outcome)
      modifies this
      // A generation is retried exactly when Connect came back on its own with an ordinary
      // error, everything was joined in time and the last session is safe.
      ensures !outcome.stop <==>
              && end.ConnectReturned? && !end.ctxDone && !Terminal(end.fault) && Canceled !in end.fault
              && joins.operation != Some(false) && joins.disconnected
              && joins.flushed && joins.flushFault == NIL
      ensures !outcome.stop ==> outcome.fault == NIL && health == old(health) && writes == old(writes)
      // A terminal provider cause decides the reason by its class, whatever began the teardown.
      ensures Terminal(Cause(end, joins)) && !ReauthorizationLost(end, joins) ==>
              && Shows(health, ReasonOf(Cause(end, joins)), Clean(end, joins) && FlushOk(joins))
              && writes == old(writes) + [health]
      ensures ReauthorizationLost(end, joins) ==> health == old(health) && writes == old(writes)
      // Without one, a lost lease comes first unless something may still be running, then a session that
      // could not be saved, then whatever is still running.
      ensures outcome.stop && !Terminal(Cause(end, joins)) ==>
              && writes == old(writes) + [health]
              && var leaseLost := (end.RenewFailed? || end.HealthWriteFailed?) && !end.ctxDone;
              Shows(health, if leaseLost && (Clean(end, joins) || !FlushOk(joins)) then ReasonLeaseLost
                            else if !FlushOk(joins) then ReasonSessionConflict
                            else if !Clean(end, joins) then ReasonProviderProtocol
                            else if end.FlushFailed? then ReasonSessionConflict
                            else ReasonShutdown, false)
      ensures outcome.stop && !ReauthorizationLost(end, joins) ==>
              health.backoff == if KeepsBackoff(Cause(end, joins), Clean(end, joins) && FlushOk(joins))
                                then old(health.backoff) else 0
      // Reauthorization is asked for only after the fenced write.
      ensures health.reauthorize && !old(health.reauthorize) <==>
              && !old(health.reauthorize) && Terminal(Cause(end, joins))
                  && ReasonOf(Cause(end, joins)) == ReasonProviderAuth
              && Clean(end, joins) && FlushOk(joins) && !ReauthorizationLost(end, joins)
      // Whatever could still be running leaves a join timeout behind, and nothing else
      // does unless one of the answers was itself a join timeout.
      ensures joins.operation == Some(false) || !joins.disconnected
              || (!end.ConnectReturned? && joins.connect.None?) ==>
              outcome.stop && JoinTimeout in outcome.fault
      ensures AllJoined(end, joins) && JoinTimeout in outcome.fault ==>
              JoinTimeout in LoopFault(end) + Cause(end, joins) + joins.flushFault + joins.reauthorizeFault
    {
      var exit := LeaveLoop(end);
      if joins.operation == Some(false) {
        exit := exit.(fault := exit.fault + {JoinTimeout});
      }
      assert ExitCause(exit, joins) == Cause(end, joins) && ExitClean(exit, joins) == Clean(end, joins);
      outcome := FinalizeGeneration(exit, joins);
    }

    /** finalizeGeneration, in terms of the exit it is given. */
    method FinalizeGeneration(exit: Exit, joins: Joins) returns (outcome: Outcome)
      modifies this
      ensures outcome.stop ==
              !(ExitClean(exit, joins) && FlushOk(joins) && exit.kind == ExitProvider
                  && !Terminal(ExitCause(exit, joins)))
      ensures !outcome.stop ==> outcome.fault == NIL
      ensures var cause := ExitCause(exit, joins);
              var tried := ExitClean(exit, joins) && FlushOk(joins) && Terminal(cause)
                  && ReasonOf(cause) == ReasonProviderAuth;
              var refused := tried && !(joins.reauthorized && joins.reauthorizeFault == NIL);
              && (refused || !outcome.stop ==> health == old(health) && writes == old(writes))
              && (!refused && outcome.stop ==>
                    && writes == old(writes) + [health]
                    && health.reauthorize == (old(health.reauthorize) || tried)
                    && Shows(health, ExitReason(exit, joins), tried)
                    && health.backoff == if KeepsBackoff(cause, ExitClean(exit, joins) && FlushOk(joins))
                                         then old(health.backoff) else 0)
      ensures !ExitClean(exit, joins) ==> JoinTimeout in outcome.fault
      ensures ExitClean(exit, joins) && JoinTimeout in outcome.fault ==>
              JoinTimeout in ExitCause(exit, joins) + joins.flushFault + joins.reauthorizeFault
    {
      var exit := exit;
      var connectJoined := exit.providerJoined;
      if !exit.providerJoined && joins.connect.Some? {
        connectJoined := true;
        if Terminal(joins.connect.value) {
          exit := exit.(kind := ExitProvider, providerFault := exit.providerFault + joins.connect.value);
        }
      }
      var joinFault: Fault := if joins.disconnected && connectJoined then NIL else {JoinTimeout};
      if joins.flushFault != NIL || !joins.flushed {
        Degrade(exit.providerFault, exit.kind == ExitLeaseLost, ReasonSessionConflict);
        return Outcome(true, joins.flushFault + exit.fault + exit.providerFault + joinFault);
      }
      if !joins.disconnected || !connectJoined || JoinTimeout in exit.fault {
        Degrade(exit.providerFault, false, ReasonProviderProtocol);
        return Outcome(true, exit.fault + exit.providerFault + joinFault);
      }
      if Terminal(exit.providerFault) {
        exit := exit.(kind := ExitProvider);
      }
      match exit.kind {
        case ExitShutdown =>
          Set(ActorStopped, Disconnected, ReasonShutdown);
          health := health.(backoff := 0);
          WriteDetached();
          outcome := Outcome(true, NIL);
        case ExitLeaseLost =>
          Set(ActorLeaseLost, Disconnected, ReasonLeaseLost);
          health := health.(backoff := 0);
          WriteDetached();
          outcome := Outcome(true, exit.fault);
        case ExitSessionConflict =>
          Set(ActorStopped, Degraded, ReasonSessionConflict);
          health := health.(backoff := 0);
          WriteDetached();
          outcome := Outcome(true, exit.fault);
        case ExitProvider =>
          outcome := FinishProvider(exit.providerFault, joins);
      }
    }

    /** The provider branch of the final switch. */
    method FinishProvider(fault: Fault, joins: Joins) returns (outcome: Outcome)
      modifies this
      ensures outcome.stop == Terminal(fault)
      ensures JoinTimeout !in fault + joins.reauthorizeFault ==> JoinTimeout !in outcome.fault
      ensures var refused := Terminal(fault) && ReasonOf(fault) == ReasonProviderAuth &&
                             !(joins.reauthorized && joins.reauthorizeFault == NIL);
              if refused || !Terminal(fault) then
                health == old(health) && writes == old(writes) && (!Terminal(fault) ==> outcome.fault == NIL)
              else
                && Shows(health, ReasonOf(fault), true) && writes == old(writes) + [health]
                && health.backoff == (if KeepsBackoff(fault, true) then old(health.backoff) else 0)
                && health.reauthorize == (old(health.reauthorize) || ReasonOf(fault) == ReasonProviderAuth)
    {
      if StaleGeneration in fault {
        Set(ActorLeaseLost, Disconnected, ReasonLeaseLost);
        health := health.(backoff := 0);
        WriteDetached();
        return Outcome(true, fault);
      }
      if SharedInfrastructure in fault {
        Set(ActorStopped, Degraded, ReasonSharedInfrastructure);
        WriteDetached();
        return Outcome(true, fault);
      }
      if ProviderAuthorization in fault {
        if joins.reauthorizeFault != NIL || !joins.reauthorized {
          return Outcome(true, joins.reauthorizeFault);
        }
        Set(ActorStopped, ReauthorizationRequired, ReasonProviderAuth);
        health := health.(reauthorize := true);
        WriteDetached();
        return Outcome(true, NIL);
      }
      if PermanentConfig in fault {
        Set(ActorStopped, Degraded, ReasonProviderConfig);
        WriteDetached();
        return Outcome(true, NIL);
      }
      if PermanentProtocol in fault {
        Set(ActorStopped, Degraded, ReasonProviderProtocol);
        WriteDetached();
        return Outcome(true, fault);
      }
      return Outcome(false, NIL);
    }
  }
}
