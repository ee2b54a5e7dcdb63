/** Provider operations: callers admit requests into a bounded queue under a run
    ID, the generation loop executes them one at a time, and every request that
    leaves the queue is answered on its own one-slot result channel. */
module ActorOperations {
  import opened Wrappers

  type Key = string

  datatype Request = Request(run: nat, key: Key)

  /** The fields behind operationMu. */
  datatype GateState = GateState(key: Key, run: nat, active: bool, ready: bool) {
    /** A request of this key may be admitted now. */
    predicate Admits(key: Key) { active && ready && this.key == key }

    function Begun(key: Key): GateState { GateState(key, run + 1, true, false) }

    /** Only the active run changes readiness. */
    function Readied(run: nat, ready: bool): GateState {
      if active && this.run == run then this.(ready := ready) else this
    }

    /** Only the active run closes the gate. */
    function Ended(run: nat): GateState {
      if active && this.run == run then this.(active := false, ready := false) else this
    }
  }

  /** The gate and the queue behind it. */
  class Gate {
    var operations: seq<nat>           // queued requests, by number
    var operationKey: Key
    var operationRunID: nat
    var operationActive: bool
    var operationReady: bool
    var answered: seq<nat>             // requests answered with "unavailable", in order

    function Model(): GateState
      reads this
    {
      GateState(operationKey, operationRunID, operationActive, operationReady)
    }

    constructor ()
      ensures Model() == GateState("", 0, false, false) && operations == [] && answered == []
    {
      operations, operationKey, operationRunID, operationActive, operationReady, answered
        := [], "", 0, false, false, [];
    }

    /** The read-locked section of Execute: the run a new request belongs to, if any. */
    method Capture(key: Key) returns (run: Option<nat>)
      ensures run.Some? <==> operationActive && operationReady && operationKey == key
      ensures run.Some? <==> Model().Admits(key)
      ensures run.Some? ==> run.value == Model().run
    {
      if !operationActive || !operationReady || operationKey != key {
        return None;
      }
      return Some(operationRunID);
    }

    method Drain()
      modifies this`operations, this`answered
      ensures operations == [] && answered == old(answered) + old(operations)
    {
      while operations != []
        invariant answered + operations == old(answered) + old(operations)
        decreases |operations|
      {
        answered := answered + [operations[0]];
        operations := operations[1..];
        assert answered + operations == old(answered) + old(operations);
      }
    }

    /** beginOperationRun: refuses a second run, answers what is left in the queue, opens a new run. */
    method BeginRun(key: Key) returns (run: Option<nat>)
      modifies this
      ensures run.Some? <==> !old(operationActive)
      ensures run.None? ==> Model() == old(Model()) && operations == old(operations) && answered == old(answered)
      ensures run.Some? ==> Model() == old(Model()).Begun(key) && run.value == Model().run
      ensures run.Some? ==> operations == [] && answered == old(answered) + old(operations)
    {
      if operationActive {
        return None;
      }
      Drain();
      operationRunID, operationKey, operationActive, operationReady := operationRunID + 1, key, true, false;
      return Some(operationRunID);
    }

    method SetReady(run: nat, ready: bool)
      modifies this`operationReady
      ensures Model() == old(Model()).Readied(run, ready)
      ensures operationReady == if operationActive && operationRunID == run then ready else old(operationReady)
    {
      if operationActive && operationRunID == run {
        operationReady := ready;
      }
    }

    method EndRun(run: nat)
      modifies this
      ensures Model() == old(Model()).Ended(run)
      ensures old(operationActive) && old(operationRunID) == run ==> !operationActive && !operationReady
      ensures old(operationRunID) != run ==> Model() == old(Model())
      ensures operations == [] && answered == old(answered) + old(operations)
    {
      if operationActive && operationRunID == run {
        operationActive, operationReady := false, false;
      }
      Drain();
    }
  }

  // ----- Runs -------------------------------------------------------------------

  datatype Where =
    | Held          // admitted, not yet in the queue
    | Queued
    | Executing
    | Answered
    | Abandoned     // its caller gave up before it reached the queue

  /** The goroutine inside Run, from beginOperationRun to endOperationRun. */
  datatype Runner = Runner(
    run: nat,
    key: Key,
    generation: nat,
    looping: bool,            // inside the loop of the current generation
    healthReady: bool,        // health.ActorState is "ready"
    gateOpened: bool,         // setOperationReady(true) since this generation became ready
    operation: Option<nat>)   // activeOperation

  datatype Execution = Execution(request: nat, run: nat, key: Key, generation: nat)

  datatype System = System(
    capacity: nat,
    requests: seq<Request>,
    places: seq<Where>,
    results: seq<nat>,                 // how many results each request's channel was sent
    queue: seq<nat>,
    run: nat, key: Key, active: bool, ready: bool,
    runner: Option<Runner>,
    stuck: bool,                       // an operation of this run outlived its join deadline
    running: set<nat>,                 // operations whose goroutine has not returned
    outlived: set<nat>,                // those of them that were answered without being joined
    readyWrites: set<(nat, nat)>,      // run and generation of every successful ready health write
    executions: seq<Execution>)

  datatype Move =
    | Admit(key: Key)
    | Enqueue(i: nat)
    | GiveUp(i: nat)
    | DrainOne
    | Begin(key: Key)
    | ReadyEvent(written: bool, joined: bool)
    | OpenGate
    | Dequeue(cancelled: bool)
    | OperationReturns
    | StragglerReturns(i: nat)
    | LoopEnds(joined: bool)
    | NextGeneration
    | End

  function Init(capacity: nat): System {
    System(capacity, [], [], [], [], 0, "", false, false, None, false, {}, {}, {}, [])
  }

  /** One send on the request's result channel. */
  function Answer(s: System, i: nat): System
    requires i < |s.places| && i < |s.results|
  {
    s.(places := s.places[i := Answered], results := s.results[i := s.results[i] + 1])
  }

  predicate Known(s: System, i: nat) { i < |s.requests| && i < |s.places| && i < |s.results| }

  function GateOf(s: System): GateState { GateState(s.key, s.run, s.active, s.ready) }

  function WithGate(s: System, gate: GateState): System {
    s.(key := gate.key, run := gate.run, active := gate.active, ready := gate.ready)
  }

  function StepCaller(s: System, move: Move): System {
    match move
    case Admit(key) =>
      if GateOf(s).Admits(key) then
        s.(requests := s.requests + [Request(s.run, key)], places := s.places + [Held], results := s.results + [0])
      else s
    case Enqueue(i) =>
      if Known(s, i) && s.places[i].Held? && |s.queue| < s.capacity then
        s.(places := s.places[i := Queued], queue := s.queue + [i])
      else s
    case GiveUp(i) => if Known(s, i) && s.places[i].Held? then s.(places := s.places[i := Abandoned]) else s
    case DrainOne =>
      // beginOperationRun and endOperationRun drain; the latter may go on while the next run has begun.
      if s.queue != [] && Known(s, s.queue[0]) then Answer(s, s.queue[0]).(queue := s.queue[1..]) else s
    case _ => s
  }

  function StepRunner(s: System, move: Move): System {
    match move
    case Begin(key) =>
      if !s.active && s.runner.None? && s.queue == [] then
        WithGate(s, GateOf(s).Begun(key))
        .(runner := Some(Runner(s.run + 1, key, 0, true, false, false, None)), stuck := false)
      else s
    case ReadyEvent(written, joined) =>
      if s.runner.Some? && s.runner.value.looping then
        var r := s.runner.value;
        if written then s.(runner := Some(r.(healthReady := true)),
            readyWrites := s.readyWrites + {(r.run, r.generation)})
        else LeaveLoop(s, joined)   // the fenced write failed or was refused
      else s
    case OpenGate =>
      if s.runner.Some? && s.runner.value.looping && s.runner.value.healthReady
      then
        WithGate(s, GateOf(s).Readied(s.runner.value.run, true))
        .(runner := Some(s.runner.value.(gateOpened := true)))
      else s
    case Dequeue(cancelled) =>
      if s.runner.Some? && s.runner.value.looping && s.runner.value.healthReady && s.runner.value.operation.None? &&
         s.queue != [] && Known(s, s.queue[0]) then
        var i, r := s.queue[0], s.runner.value;
        var t := s.(queue := s.queue[1..]);
        if s.requests[i].run != r.run || s.requests[i].key != r.key || cancelled then Answer(t, i)
        else t.(places := s.places[i := Executing], runner := Some(r.(operation := Some(i))),
                running := s.running + {i}, executions := s.executions + [Execution(i, r.run, r.key, r.generation)])
      else s
    case OperationReturns =>
      if s.runner.Some? && s.runner.value.looping && s.runner.value.operation.Some?
          && Known(s, s.runner.value.operation.value) then
        var i := s.runner.value.operation.value;
        Answer(s, i).(runner := Some(s.runner.value.(operation := None)), running := s.running - {i})
      else s
    case StragglerReturns(i) =>
      if i in s.outlived then s.(running := s.running - {i}, outlived := s.outlived - {i}) else s
    case LoopEnds(joined) => if s.runner.Some? && s.runner.value.looping then LeaveLoop(s, joined) else s
    case NextGeneration =>
      // finalizeGeneration retries only after every join succeeded.
      if s.runner.Some? && !s.runner.value.looping && !s.stuck then
        s.(runner := Some(s.runner.value.(generation := s.runner.value.generation + 1, looping := true,
            healthReady := false, gateOpened := false)))
      else s
    case End =>
      if s.runner.Some? && !s.runner.value.looping then
        WithGate(s, GateOf(s).Ended(s.runner.value.run)).(runner := None)
      else s
    case _ => s
  }

  /** Past the loop: the gate closes, and an operation still active is cancelled and answered either way. */
  function LeaveLoop(s: System, joined: bool): System
    requires s.runner.Some?
  {
    var r := s.runner.value;
    var closed := WithGate(s, GateOf(s).Readied(r.run, false))
                  .(runner := Some(r.(looping := false, healthReady := false, gateOpened := false, operation := None)));
    if r.operation.None? || !Known(s, r.operation.value) then closed
    else
      Answer(closed, r.operation.value)
      .(stuck := s.stuck || !joined,
        running := if joined then s.running - {r.operation.value} else s.running,
        outlived := if joined then s.outlived else s.outlived + {r.operation.value})
  }

  function Step(s: System, move: Move): System {
    if move.Admit? || move.Enqueue? || move.GiveUp? || move.DrainOne? then StepCaller(s, move) else StepRunner(s, move)
  }

  function Exec(capacity: nat, moves: seq<Move>): System {
    if moves == [] then Init(capacity) else Step(Exec(capacity, moves[..|moves| - 1]), moves[|moves| - 1])
  }

  // ----- What every run keeps -----------------------------------------------------

  /** The result channels: sent once if answered, never otherwise. The queue holds exactly the queued requests. */
  ghost predicate PlacesOk(s: System) {
    && |s.requests| == |s.places| == |s.results|
    && (forall i | 0 <= i < |s.places| :: s.results[i] == if s.places[i].Answered? then 1 else 0)
    && (forall k | 0 <= k < |s.queue| :: s.queue[k] < |s.places| && s.places[s.queue[k]].Queued?)
    && (forall i | 0 <= i < |s.places| && s.places[i].Queued? :: i in s.queue)
    && (forall k, l | 0 <= k < l < |s.queue| :: s.queue[k] != s.queue[l])
    && |s.queue| <= s.capacity
  }

  ghost predicate RunnerOk(s: System) {
    && s.active == s.runner.Some?
    && (s.ready <==> s.runner.Some? && s.runner.value.gateOpened)
    && (s.runner.Some? ==>
          && s.runner.value.run == s.run && s.runner.value.key == s.key
          && (s.runner.value.healthReady ==>
                s.runner.value.looping && (s.run, s.runner.value.generation) in s.readyWrites)
          && (s.runner.value.operation.Some? ==> s.runner.value.looping && s.runner.value.healthReady)
          && (s.runner.value.gateOpened ==> s.runner.value.healthReady))
  }

  function Current(s: System): set<nat> {
    if s.runner.Some? && s.runner.value.operation.Some? then {s.runner.value.operation.value} else {}
  }

  /** What runs is the active operation and those that outlived their join, long answered. */
  ghost predicate RunningOk(s: System) {
    && (forall i | 0 <= i < |s.places| ::
          s.places[i].Executing? <==> s.runner.Some? && s.runner.value.operation == Some(i))
    && (s.runner.Some? && s.runner.value.operation.Some? ==> s.runner.value.operation.value < |s.places|)
    && s.running == s.outlived + Current(s)
    && (forall i | i in s.outlived :: i < |s.places| && s.places[i].Answered?)
  }

  ghost predicate ExecutionsOk(s: System) {
    forall e | e in s.executions ::
      && e.request < |s.requests| && s.requests[e.request] == Request(e.run, e.key)
      && (e.run, e.generation) in s.readyWrites
  }

  ghost predicate Inv(s: System) {
    PlacesOk(s) && RunnerOk(s) && RunningOk(s) && ExecutionsOk(s)
  }

  lemma AdmitKeepsInv(s: System, key: Key)
    requires Inv(s)
    ensures Inv(StepCaller(s, Admit(key)))
  {
  }

  lemma EnqueueKeepsInv(s: System, i: nat)
    requires Inv(s)
    ensures Inv(StepCaller(s, Enqueue(i)))
  {
  }

  lemma GiveUpKeepsInv(s: System, i: nat)
    requires Inv(s)
    ensures Inv(StepCaller(s, GiveUp(i)))
  {
  }

  lemma DrainKeepsInv(s: System)
    requires Inv(s)
    ensures Inv(StepCaller(s, DrainOne))
  {
  }

  lemma CallerKeepsInv(s: System, move: Move)
    requires Inv(s) && (move.Admit? || move.Enqueue? || move.GiveUp? || move.DrainOne?)
    ensures Inv(StepCaller(s, move))
  {
    hide Inv, StepCaller;
    match move
    case Admit(key) => AdmitKeepsInv(s, key);
    case DrainOne => DrainKeepsInv(s);
    case Enqueue(i) => EnqueueKeepsInv(s, i);
    case GiveUp(i) => GiveUpKeepsInv(s, i);
  }

  lemma LeaveLoopKeepsPlaces(s: System, joined: bool)
    requires Inv(s) && s.runner.Some?
    ensures PlacesOk(LeaveLoop(s, joined))
  {
    hide ExecutionsOk, RunnerOk;
  }

  lemma LeaveLoopKeepsRunning(s: System, joined: bool)
    requires Inv(s) && s.runner.Some?
    ensures RunningOk(LeaveLoop(s, joined))
  {
    hide ExecutionsOk, RunnerOk;
  }

  lemma LeaveLoopKeepsInv(s: System, joined: bool)
    requires Inv(s) && s.runner.Some?
    ensures Inv(LeaveLoop(s, joined))
  {
    hide PlacesOk, RunningOk;
    LeaveLoopKeepsPlaces(s, joined);
    LeaveLoopKeepsRunning(s, joined);
  }

  predicate Refuses(s: System, cancelled: bool) {
    s.runner.Some? && s.queue != [] && Known(s, s.queue[0]) &&
    (s.requests[s.queue[0]].run != s.runner.value.run || s.requests[s.queue[0]].key != s.runner.value.key || cancelled)
  }

  lemma RefusalKeepsInv(s: System, cancelled: bool)
    requires Inv(s) && Refuses(s, cancelled)
    ensures Inv(StepRunner(s, Dequeue(cancelled)))
  {
  }

  lemma ExecutionKeepsPlaces(s: System, cancelled: bool)
    requires Inv(s) && !Refuses(s, cancelled)
    ensures PlacesOk(StepRunner(s, Dequeue(cancelled)))
  {
    hide ExecutionsOk, RunnerOk, RunningOk, LeaveLoop;
  }

  lemma ExecutionKeepsInv(s: System, cancelled: bool)
    requires Inv(s) && !Refuses(s, cancelled)
    ensures Inv(StepRunner(s, Dequeue(cancelled)))
  {
    ExecutionKeepsPlaces(s, cancelled);
  }

  lemma ReturnKeepsInv(s: System)
    requires Inv(s)
    ensures Inv(StepRunner(s, OperationReturns))
  {
  }

  lemma StragglerKeepsInv(s: System, i: nat)
    requires Inv(s)
    ensures Inv(StepRunner(s, StragglerReturns(i)))
  {
    hide LeaveLoop;
    assert i in s.outlived ==> s.running - {i} == s.outlived - {i} + Current(s);
  }

  lemma LeavingKeepsInv(s: System, move: Move)
    requires Inv(s) && (move.ReadyEvent? || move.LoopEnds?)
    ensures Inv(StepRunner(s, move))
  {
    hide LeaveLoop;
    if s.runner.Some? { LeaveLoopKeepsInv(s, move.joined); }
  }

  lemma RunKeepsInv(s: System, move: Move)
    requires Inv(s) && (move.Begin? || move.OpenGate? || move.NextGeneration? || move.End?)
    ensures Inv(StepRunner(s, move))
  {
  }

  lemma RunnerKeepsInv(s: System, move: Move)
    requires Inv(s) && !(move.Admit? || move.Enqueue? || move.GiveUp? || move.DrainOne?)
    ensures Inv(StepRunner(s, move))
  {
    hide Inv, StepRunner;
    match move
    case ReadyEvent(_, _) => LeavingKeepsInv(s, move);
    case LoopEnds(_) => LeavingKeepsInv(s, move);
    case OperationReturns => ReturnKeepsInv(s);
    case StragglerReturns(i) => StragglerKeepsInv(s, i);
    case Dequeue(cancelled) => if Refuses(s, cancelled) { RefusalKeepsInv(s, cancelled); }
        else { ExecutionKeepsInv(s, cancelled); }
    case Begin(_) => RunKeepsInv(s, move);
    case OpenGate => RunKeepsInv(s, move);
    case NextGeneration => RunKeepsInv(s, move);
    case End => RunKeepsInv(s, move);
  }

  lemma {:induction false} RunsKeepInv(capacity: nat, moves: seq<Move>)
    ensures Inv(Exec(capacity, moves))
  {
    if moves != [] {
      hide Inv, StepCaller, StepRunner;
      var s, move := Exec(capacity, moves[..|moves| - 1]), moves[|moves| - 1];
      RunsKeepInv(capacity, moves[..|moves| - 1]);
      if move.Admit? || move.Enqueue? || move.GiveUp? || move.DrainOne? {
        CallerKeepsInv(s, move);
      } else {
        RunnerKeepsInv(s, move);
      }
    } else {
      InitOk(capacity);
    }
  }

  lemma InitOk(capacity: nat)
    ensures Inv(Init(capacity))
  {
  }

  // ----- What every run promises ----------------------------------------------------

  /** A request is admitted exactly while the run of its key has opened its gate, which it does only in a
      generation whose ready event was written to the fenced health row; and it is admitted into that run. */
  lemma AdmittedExactly(capacity: nat, moves: seq<Move>, key: Key)
    ensures var s, t := Exec(capacity, moves), Step(Exec(capacity, moves), Admit(key));
            && (t != s <==> s.runner.Some? && s.runner.value.key == key && s.runner.value.gateOpened)
            && (t != s ==>
                  && t.requests == s.requests + [Request(s.runner.value.run, key)]
                  && s.runner.value.looping && s.runner.value.healthReady
                  && (s.runner.value.run, s.runner.value.generation) in s.readyWrites)
  {
    hide PlacesOk, RunningOk, ExecutionsOk;
    RunsKeepInv(capacity, moves);
    var s, t := Exec(capacity, moves), Step(Exec(capacity, moves), Admit(key));
    assert GateOf(s).Admits(key) ==> |t.requests| == |s.requests| + 1;
  }

  /** An operation executes in the run, and for the key, that admitted it, in a generation whose ready event
      was written to the fenced health row, and beside no other operation but those that were answered
      without being joined. */
  lemma OperationsRunWhereAdmitted(capacity: nat, moves: seq<Move>)
    ensures var s := Exec(capacity, moves);
            && (forall e | e in s.executions ::
                  && e.request < |s.requests| && s.requests[e.request] == Request(e.run, e.key)
                  && (e.run, e.generation) in s.readyWrites)
            && s.running - s.outlived == Current(s) && |s.running - s.outlived| <= 1
            && (forall i | i in s.outlived :: i < |s.results| && s.results[i] == 1)
  {
    RunsKeepInv(capacity, moves);
    var s := Exec(capacity, moves);
    assert s.running - s.outlived == Current(s);
  }

  /** The request has left its caller's hands and the queue. */
  predicate Dequeued(s: System, i: nat)
    requires i < |s.places|
  {
    !s.places[i].Held? && !s.places[i].Abandoned? && i !in s.queue
  }

  /** Every request that left the queue, whenever it was enqueued, gets exactly one result: it was answered
      once, or it is the active operation and will be; no other request is answered, so that a send
      always finds the result channel empty. */
  lemma RequestsAreAnsweredOnce(capacity: nat, moves: seq<Move>)
    ensures var s := Exec(capacity, moves);
            && |s.places| == |s.results| && |s.queue| <= capacity
            && (forall i | 0 <= i < |s.places| && Dequeued(s, i) :: s.results[i] == if i in Current(s) then 0 else 1)
            && (forall i | 0 <= i < |s.places| && !Dequeued(s, i) :: s.results[i] == 0)
  {
    RunsKeepInv(capacity, moves);
    CapacityIsFixed(capacity, moves);
  }

  lemma StepKeepsCapacity(s: System, move: Move)
    ensures Step(s, move).capacity == s.capacity
  {
    hide LeaveLoop;
    if s.runner.Some? && (move.ReadyEvent? || move.LoopEnds?) { LeavingKeepsCapacity(s, move.joined); }
  }

  lemma LeavingKeepsCapacity(s: System, joined: bool)
    requires s.runner.Some?
    ensures LeaveLoop(s, joined).capacity == s.capacity
  {
  }

  lemma {:induction false} CapacityIsFixed(capacity: nat, moves: seq<Move>)
    ensures Exec(capacity, moves).capacity == capacity
  {
    hide Step;
    if moves != [] {
      CapacityIsFixed(capacity, moves[..|moves| - 1]);
      StepKeepsCapacity(Exec(capacity, moves[..|moves| - 1]), moves[|moves| - 1]);
    }
  }

  /** Once Run has returned, every request that left the queue has its one result. */
  lemma NothingIsLeftExecuting(capacity: nat, moves: seq<Move>, i: nat)
    requires var s := Exec(capacity, moves); s.runner.None? && i < |s.places|
    ensures var s := Exec(capacity, moves);
            i < |s.results| && s.results[i] == if Dequeued(s, i) then 1 else 0
  {
    RequestsAreAnsweredOnce(capacity, moves);
  }
}
