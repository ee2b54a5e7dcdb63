/** Acknowledging provider frames over whole runs: frames are handled durably,
    their IDs enter the bounded window, batches leave it for the provider and
    come back after failures. Every lock-protected section and every outside call
    is one move of one task, so any interleaving of goroutines is a run. */
module AckPipeline {
  import opened AckQueue
  import ResponseWaiters

  type Outcome = ResponseWaiters.Outcome

  datatype Task =
    | Handling(id: ID)              // the durable handler is running
    | Queueing(ids: seq<ID>)        // to be queued one by one
    | Sending(ids: seq<ID>)         // a batch taken from the window, no coordinator
    | Observing(ids: seq<ID>)       // sent, the ACK observer is running
    | Coordinating(batch: seq<ID>)  // a batch given to the durable coordinator
    | Requeueing(ids: seq<ID>)
    | Finished

  datatype System = System(
    queue: seq<ID>,
    tasks: seq<Task>,
    stored: set<ID>,     // the durable handler reported the frame committed or quarantined, without an error
    refilled: set<ID>,   // named in an accepted refill from durable state
    handed: set<ID>,     // named in a request to the provider
    trusted: bool)       // so far the coordinator named only IDs of its batch

  datatype Move =
    | FrameArrives(id: ID, valid: bool, durable: bool)   // `durable`: a durable handler is installed
    | HandlerReturns(t: nat, outcome: Outcome, failed: bool)
    | Refill(ids: seq<ID>, valid: bool)
    | QueueNext(t: nat)
    | TakeBatch(coordinated: bool)
    | Send(t: nat, ok: bool)
    | Observe(t: nat, ok: bool)
    | CoordinatorSends(t: nat, ids: seq<ID>)
    | CoordinatorReturns(t: nat, result: AckQueue.Result, failed: bool)
    | RequeueBatch(t: nat)

  const Init := System([], [], {}, {}, {}, true)

  /** The IDs that go back to the window when a coordination ends. */
  ghost function Retry(batch: seq<ID>, result: AckQueue.Result, failed: bool): seq<ID> {
    if failed || !Acceptable(batch, result) then (if result.retry == [] then batch else result.retry)
    else if result.providerFailed then result.retry
    else []
  }

  ghost function Put(s: System, t: nat, task: Task): System
    requires t < |s.tasks|
  {
    s.(tasks := s.tasks[t := task])
  }

  ghost function Spawn(s: System, task: Task): System { s.(tasks := s.tasks + [task]) }

  ghost function QueueOne(s: System, t: nat): System
    requires t < |s.tasks| && s.tasks[t].Queueing? && s.tasks[t].ids != []
  {
    var ids := s.tasks[t].ids;
    Put(s, t, Queueing(ids[1..])).(queue := Enqueue(s.queue, ids[0]))
  }

  ghost function RequeueAll(s: System, t: nat): System
    requires t < |s.tasks| && s.tasks[t].Requeueing?
  {
    Put(s, t, Finished).(queue := Requeue(s.queue, s.tasks[t].ids))
  }

  ghost function EndCoordination(s: System, t: nat, result: AckQueue.Result, failed: bool): System
    requires t < |s.tasks| && s.tasks[t].Coordinating?
  {
    var batch := s.tasks[t].batch;
    Put(s, t, Requeueing(Retry(batch, result, failed))).(trusted := s.trusted && Within(result.retry, batch))
  }

  ghost function Step(s: System, move: Move): System {
    match move
    case FrameArrives(id, valid, durable) => if valid && durable then Spawn(s, Handling(id)) else s
    case HandlerReturns(t, outcome, failed) =>
      if t < |s.tasks| && s.tasks[t].Handling? then
        var id := s.tasks[t].id;
        Put(s, t, if ResponseWaiters.Ackable(outcome, failed) then Queueing([id]) else Finished)
          .(stored := s.stored +
                if !failed && (outcome.Committed? || outcome.Poisoned? || outcome.DuplicatePoisoned?) then {id}
                else {})
      else s
    case Refill(ids, valid) =>
      if |ids| > 256 || !valid || !NoRepeats(ids) then s
      else Spawn(s, Queueing(ids)).(refilled := s.refilled + Members(ids))
    case QueueNext(t) =>
      if t < |s.tasks| && s.tasks[t].Queueing? && s.tasks[t].ids != [] then QueueOne(s, t) else s
    case TakeBatch(coordinated) =>
      var n := BatchSize(s.queue);
      var batch := s.queue[..n];
      if batch == [] then s
      else Spawn(s, if coordinated then Coordinating(batch) else Sending(batch)).(queue := s.queue[n..])
    case Send(t, ok) =>
      if t < |s.tasks| && s.tasks[t].Sending? && s.tasks[t].ids != [] then
        Put(s, t, if ok then Observing(s.tasks[t].ids) else Requeueing(s.tasks[t].ids))
          .(handed := s.handed + Members(s.tasks[t].ids))
      else s
    case Observe(t, ok) =>
      if t < |s.tasks| && s.tasks[t].Observing? then
        Put(s, t, if ok then Finished else Requeueing(s.tasks[t].ids))
      else s
    case CoordinatorSends(t, ids) =>
      if t < |s.tasks| && s.tasks[t].Coordinating? && 0 < |ids| <= ACK_BATCH_LIMIT then
        s.(handed := s.handed + Members(ids), trusted := s.trusted && Within(ids, s.tasks[t].batch))
      else s
    case CoordinatorReturns(t, result, failed) =>
      if t < |s.tasks| && s.tasks[t].Coordinating? then EndCoordination(s, t, result, failed) else s
    case RequeueBatch(t) =>
      if t < |s.tasks| && s.tasks[t].Requeueing? then RequeueAll(s, t) else s
  }

  ghost function Exec(moves: seq<Move>): System {
    if moves == [] then Init else Step(Exec(moves[..|moves| - 1]), moves[|moves| - 1])
  }

  // ----- The invariant ----------------------------------------------------------------

  /** The IDs a task may still queue or send; a running handler holds none. */
  function Holds(task: Task): seq<ID> {
    match task
    case Handling(_) => []
    case Coordinating(batch) => batch
    case Finished => []
    case _ => task.ids
  }

  ghost predicate AllDurable(ids: seq<ID>, durable: set<ID>) { forall id | id in ids :: id in durable }

  ghost predicate TasksDurable(tasks: seq<Task>, durable: set<ID>) {
    forall t | 0 <= t < |tasks| :: AllDurable(Holds(tasks[t]), durable)
  }

  /** What may be acknowledged: reported durable by the handler or refilled. */
  ghost function Durable(s: System): set<ID> { s.stored + s.refilled }

  ghost predicate Safe(s: System) {
    AllDurable(s.queue, Durable(s)) && TasksDurable(s.tasks, Durable(s)) && s.handed <= Durable(s)
  }

  ghost predicate Inv(s: System) {
    WindowOk(s.queue, Members(s.queue)) && (s.trusted ==> Safe(s))
  }

  lemma PutKeepsDurable(tasks: seq<Task>, t: nat, task: Task, durable: set<ID>, next: set<ID>)
    requires t < |tasks| && TasksDurable(tasks, durable) && durable <= next && AllDurable(Holds(task), next)
    ensures TasksDurable(tasks[t := task], next)
  {
    var all := tasks[t := task];
    forall u | 0 <= u < |all| ensures AllDurable(Holds(all[u]), next) {
      if u != t { assert AllDurable(Holds(tasks[u]), durable); }
    }
  }

  lemma SpawnKeepsDurable(tasks: seq<Task>, task: Task, durable: set<ID>, next: set<ID>)
    requires TasksDurable(tasks, durable) && durable <= next && AllDurable(Holds(task), next)
    ensures TasksDurable(tasks + [task], next)
  {
    var all := tasks + [task];
    forall u | 0 <= u < |all| ensures AllDurable(Holds(all[u]), next) {
      if u < |tasks| { assert AllDurable(Holds(tasks[u]), durable); }
    }
  }

  lemma HandlerKeepsInv(s: System, t: nat, outcome: Outcome, failed: bool)
    requires Inv(s)
    ensures Inv(Step(s, HandlerReturns(t, outcome, failed)))
  {
    var next := Step(s, HandlerReturns(t, outcome, failed));
    if t < |s.tasks| && s.tasks[t].Handling? {
      if s.trusted { PutKeepsDurable(s.tasks, t, next.tasks[t], Durable(s), Durable(next)); }
    }
  }

  lemma QueueKeepsInv(s: System, t: nat)
    requires Inv(s)
    ensures Inv(Step(s, QueueNext(t)))
  {
    var next := Step(s, QueueNext(t));
    if t < |s.tasks| && s.tasks[t].Queueing? && s.tasks[t].ids != [] {
      var ids := s.tasks[t].ids;
      assert ids[0] in ids;
      if s.trusted {
        assert AllDurable(Holds(s.tasks[t]), Durable(s));
        PutKeepsDurable(s.tasks, t, next.tasks[t], Durable(s), Durable(s));
      }
    }
  }

  lemma SpawningKeepsInv(s: System, move: Move)
    requires Inv(s) && (move.FrameArrives? || move.Refill? || move.TakeBatch?)
    ensures Inv(Step(s, move))
  {
    var next := Step(s, move);
    if |next.tasks| > |s.tasks| {
      var task := next.tasks[|s.tasks|];
      if move.TakeBatch? { assert s.queue == s.queue[..BatchSize(s.queue)] + next.queue; }
      if s.trusted { SpawnKeepsDurable(s.tasks, task, Durable(s), Durable(next)); }
    }
  }

  lemma SendingKeepsInv(s: System, move: Move)
    requires Inv(s) && (move.Send? || move.Observe?)
    ensures Inv(Step(s, move))
  {
    var next := Step(s, move);
    if next != s {
      var t := move.t;
      if s.trusted {
        assert AllDurable(Holds(s.tasks[t]), Durable(s));
        PutKeepsDurable(s.tasks, t, next.tasks[t], Durable(s), Durable(s));
      }
    }
  }

  lemma RequeueKeepsInv(s: System, t: nat)
    requires Inv(s)
    ensures Inv(Step(s, RequeueBatch(t)))
  {
    var next := Step(s, RequeueBatch(t));
    if t < |s.tasks| && s.tasks[t].Requeueing? {
      var ids := s.tasks[t].ids;
      RequeueKeepsWindow(s.queue, ids);
      KeptFacts(ids, Members(s.queue), ACK_QUEUE_LIMIT - |s.queue|);
      if s.trusted {
        assert AllDurable(Holds(s.tasks[t]), Durable(s));
        PutKeepsDurable(s.tasks, t, Finished, Durable(s), Durable(s));
      }
    }
  }

  lemma CoordinationKeepsInv(s: System, move: Move)
    requires Inv(s) && (move.CoordinatorSends? || move.CoordinatorReturns?)
    ensures Inv(Step(s, move))
  {
    var next := Step(s, move);
    var t := move.t;
    if t < |s.tasks| && s.tasks[t].Coordinating? {
      if next.trusted {
        assert AllDurable(Holds(s.tasks[t]), Durable(s));
        PutKeepsDurable(s.tasks, t, next.tasks[t], Durable(s), Durable(s));
      }
    }
  }

  lemma StepKeepsInv(s: System, move: Move)
    requires Inv(s)
    ensures Inv(Step(s, move))
  {
    hide Inv, Step;
    match move
    case HandlerReturns(t, outcome, failed) => HandlerKeepsInv(s, t, outcome, failed);
    case QueueNext(t) => QueueKeepsInv(s, t);
    case RequeueBatch(t) => RequeueKeepsInv(s, t);
    case FrameArrives(_, _, _) => SpawningKeepsInv(s, move);
    case Refill(_, _) => SpawningKeepsInv(s, move);
    case TakeBatch(_) => SpawningKeepsInv(s, move);
    case Send(_, _) => SendingKeepsInv(s, move);
    case Observe(_, _) => SendingKeepsInv(s, move);
    case CoordinatorSends(_, _) => CoordinationKeepsInv(s, move);
    case CoordinatorReturns(_, _, _) => CoordinationKeepsInv(s, move);
  }

  lemma {:induction false} RunsKeepInv(moves: seq<Move>)
    ensures Inv(Exec(moves))
  {
    if moves != [] {
      RunsKeepInv(moves[..|moves| - 1]);
      StepKeepsInv(Exec(moves[..|moves| - 1]), moves[|moves| - 1]);
    }
  }

  // ----- The theorems --------------------------------------------------------------------

  /** The move reports this ID durable: the handler answers, without an error, that the envelope is
      committed, quarantined or was quarantined before; or an accepted refill names it. */
  ghost predicate MakesDurable(s: System, move: Move, id: ID) {
    match move
    case HandlerReturns(t, outcome, failed) =>
      && t < |s.tasks| && s.tasks[t].Handling? && s.tasks[t].id == id
      && !failed && (outcome.Committed? || outcome.Poisoned? || outcome.DuplicatePoisoned?)
    case Refill(ids, valid) => |ids| <= 256 && valid && NoRepeats(ids) && id in ids
    case _ => false
  }

  /** What counts as durable was reported by some earlier move of the run. */
  lemma {:induction false} DurableWasReported(moves: seq<Move>, id: ID) returns (k: nat)
    requires id in Durable(Exec(moves))
    ensures k < |moves| && MakesDurable(Exec(moves[..k]), moves[k], id)
  {
    hide MakesDurable, Step;
    var before, move := moves[..|moves| - 1], moves[|moves| - 1];
    OnlyReportsMakeDurable(Exec(before), move, id);
    if MakesDurable(Exec(before), move, id) {
      k := |moves| - 1;
    } else {
      k := DurableWasReported(before, id);
      assert before[..k] == moves[..k];
    }
  }

  lemma OnlyReportsMakeDurable(s: System, move: Move, id: ID)
    ensures id in Durable(Step(s, move)) <==> id in Durable(s) || MakesDurable(s, move, id)
  {
    hide Acceptable, Enqueue, Requeue;
  }

  /** Durable before ACK: whatever a move first hands to the provider was, by an earlier move, reported by
      the handler as committed or quarantined without an error, or refilled from durable state.
      The coordinator is trusted to name only IDs of the batch it was given. */
  lemma DurableBeforeACK(moves: seq<Move>, move: Move, id: ID) returns (k: nat)
    requires Step(Exec(moves), move).trusted
    requires id in Step(Exec(moves), move).handed && id !in Exec(moves).handed
    ensures id in Exec(moves).stored || id in Exec(moves).refilled
    ensures k < |moves| && MakesDurable(Exec(moves[..k]), moves[k], id)
  {
    var s := Exec(moves);
    RunsKeepInv(moves);
    StepKeepsInv(s, move);
    assert Safe(Step(s, move));
    if move.Send? { assert AllDurable(Holds(s.tasks[move.t]), Durable(s)); }
    k := DurableWasReported(moves, id);
  }

  ghost predicate Held(tasks: seq<Task>, id: ID) {
    exists t :: 0 <= t < |tasks| && id in Holds(tasks[t])
  }

  /** The ID waits in the window or is in some task's hands. */
  ghost predicate Pending(s: System, id: ID) { id in s.queue || Held(s.tasks, id) }

  /** The only ways to let go of an ID: its batch was sent and the observer recorded it, the
      coordinator ended well or with a retry list, and the list leaves it out, or it met a window
      that is now full. */
  ghost predicate LetsGo(s: System, move: Move, id: ID) {
    match move
    case Observe(t, ok) => t < |s.tasks| && s.tasks[t].Observing? && id in s.tasks[t].ids && ok
    case CoordinatorReturns(t, result, failed) =>
      && t < |s.tasks| && s.tasks[t].Coordinating? && id in s.tasks[t].batch
      && (if failed || !Acceptable(s.tasks[t].batch, result) then result.retry != [] && id !in result.retry
          else !result.providerFailed || id !in result.retry)
    case QueueNext(t) => t < |s.tasks| && id in Holds(s.tasks[t]) && RefusedByFullWindow(Step(s, move).queue, id)
    case RequeueBatch(t) => t < |s.tasks| && id in Holds(s.tasks[t]) && RefusedByFullWindow(Step(s, move).queue, id)
    case _ => false
  }

  predicate RefusedByFullWindow(queue: seq<ID>, id: ID) { |queue| == ACK_QUEUE_LIMIT && id !in queue }

  lemma PutHolds(tasks: seq<Task>, t: nat, task: Task, id: ID)
    requires t < |tasks|
    ensures id in Holds(task) ==> Held(tasks[t := task], id)
    ensures Held(tasks, id) ==> Held(tasks[t := task], id) || id in Holds(tasks[t])
  {
    if id in Holds(task) { assert id in Holds(tasks[t := task][t]); }
    if Held(tasks, id) {
      var u :| 0 <= u < |tasks| && id in Holds(tasks[u]);
      if u != t { assert tasks[t := task][u] == tasks[u]; }
    }
  }

  lemma SpawnHolds(tasks: seq<Task>, task: Task, id: ID)
    ensures id in Holds(task) || Held(tasks, id) ==> Held(tasks + [task], id)
  {
    var all := tasks + [task];
    assert all[|tasks|] == task;
    if Held(tasks, id) {
      var u :| 0 <= u < |tasks| && id in Holds(tasks[u]);
      assert all[u] == tasks[u];
    }
  }

  lemma RequeueingKeepsPending(s: System, t: nat, id: ID)
    requires Inv(s) && Pending(s, id)
    ensures Pending(Step(s, RequeueBatch(t)), id) || LetsGo(s, RequeueBatch(t), id)
  {
    if t < |s.tasks| && s.tasks[t].Requeueing? {
      RequeueKeepsWindow(s.queue, s.tasks[t].ids);
      PutHolds(s.tasks, t, Finished, id);
    }
  }

  lemma QueueingKeepsPending(s: System, t: nat, id: ID)
    requires Inv(s) && Pending(s, id)
    ensures Pending(Step(s, QueueNext(t)), id) || LetsGo(s, QueueNext(t), id)
  {
    if t < |s.tasks| && s.tasks[t].Queueing? && s.tasks[t].ids != [] {
      var ids := s.tasks[t].ids;
      assert ids == [ids[0]] + ids[1..];
      PutHolds(s.tasks, t, Queueing(ids[1..]), id);
    }
  }

  lemma SpawningKeepsPending(s: System, move: Move, id: ID)
    requires Pending(s, id) && (move.FrameArrives? || move.Refill? || move.TakeBatch?)
    ensures Pending(Step(s, move), id)
  {
    hide Held;
    var next := Step(s, move);
    if |next.tasks| > |s.tasks| {
      SpawnHolds(s.tasks, next.tasks[|s.tasks|], id);
      if move.TakeBatch? { assert s.queue == s.queue[..BatchSize(s.queue)] + next.queue; }
    }
  }

  lemma SendingKeepsPending(s: System, move: Move, id: ID)
    requires Pending(s, id) && (move.HandlerReturns? || move.Send? || move.Observe? || move.CoordinatorReturns?)
    ensures Pending(Step(s, move), id) || LetsGo(s, move, id)
  {
    hide Held;
    var next := Step(s, move);
    if next != s { PutHolds(s.tasks, move.t, next.tasks[move.t], id); }
  }

  /** One move: an ID that was pending still is, unless the move lets go of it. */
  lemma StepKeepsPending(s: System, move: Move, id: ID)
    requires Inv(s) && Pending(s, id)
    ensures Pending(Step(s, move), id) || LetsGo(s, move, id)
  {
    hide Inv, Held, LetsGo, Requeue, Retry, Acceptable;
    if move.RequeueBatch? { RequeueingKeepsPending(s, move.t, id); }
    else if move.QueueNext? { QueueingKeepsPending(s, move.t, id); }
    else if move.FrameArrives? || move.Refill? || move.TakeBatch? { SpawningKeepsPending(s, move, id); }
    else if !move.CoordinatorSends? { SendingKeepsPending(s, move, id); }
  }

  /** Whatever a move reports durable, the first time or again, is pending after it; nothing else becomes durable. */
  lemma DurableBecomesPending(s: System, move: Move, id: ID)
    ensures MakesDurable(s, move, id) ==> Pending(Step(s, move), id)
    ensures id in Durable(Step(s, move)) <==> id in Durable(s) || MakesDurable(s, move, id)
  {
    hide Held;
    var next := Step(s, move);
    OnlyReportsMakeDurable(s, move, id);
    if MakesDurable(s, move, id) {
      if move.Refill? {
        SpawnHolds(s.tasks, next.tasks[|s.tasks|], id);
      } else {
        PutHolds(s.tasks, move.t, next.tasks[move.t], id);
      }
    }
  }

  /** When a coordination ends, exactly the IDs of its batch that it does not let go of stay in hand. */
  lemma CoordinationKeepsTheRest(s: System, t: nat, result: AckQueue.Result, failed: bool, id: ID)
    requires t < |s.tasks| && s.tasks[t].Coordinating? && id in s.tasks[t].batch
    ensures var move := CoordinatorReturns(t, result, failed);
            id in Holds(Step(s, move).tasks[t]) <==> !LetsGo(s, move, id)
  {
    hide Acceptable;
  }

  lemma ExecAppends(moves: seq<Move>, move: Move)
    ensures Exec(moves + [move]) == Step(Exec(moves), move)
  {
    assert (moves + [move])[..|moves|] == moves;
  }

  /** No acknowledgement is lost: between a moment when an ID is pending and a later one when it is
      not, some move, made while it was pending, let go of it. */
  lemma {:induction false} NoACKIsLost(moves: seq<Move>, more: seq<Move>, id: ID) returns (k: nat)
    requires Pending(Exec(moves), id) && !Pending(Exec(moves + more), id)
    ensures k < |more| && Pending(Exec(moves + more[..k]), id) && LetsGo(Exec(moves + more[..k]), more[k], id)
    decreases |more|
  {
    hide Pending, LetsGo, Step;
    assert moves + [] == moves;
    k := |more| - 1;
    var before := moves + more[..k];
    assert moves + more == before + [more[k]];
    ExecAppends(before, more[k]);
    if Pending(Exec(before), id) {
      RunsKeepInv(before);
      StepKeepsPending(Exec(before), more[k], id);
    } else {
      k := NoACKIsLost(moves, more[..k], id);
      assert more[..|more| - 1][..k] == more[..k];
    }
  }

  /** The window is first in, first out: IDs enter at its end, leave from its front, and come back to its front. */
  lemma WindowIsAQueue(s: System, move: Move)
    ensures var next := Step(s, move);
            || next.queue == s.queue
            || (move.QueueNext? && exists id :: next.queue == s.queue + [id])
            || (move.TakeBatch? && |next.tasks| > 0 && Holds(next.tasks[|next.tasks| - 1]) + next.queue == s.queue)
            || (move.RequeueBatch? && exists front :: next.queue == front + s.queue)
  {
    hide Acceptable, Kept;
    var next := Step(s, move);
    if move.QueueNext? && next.queue != s.queue {
      assert next.queue == s.queue + [s.tasks[move.t].ids[0]];
    }
  }

  /** In every run the window is bounded and free of repetitions. */
  lemma WindowIsBounded(moves: seq<Move>)
    ensures NoRepeats(Exec(moves).queue) && |Exec(moves).queue| <= 1024
  {
    RunsKeepInv(moves);
  }

  lemma DistinctWithin(ids: seq<ID>, all: seq<ID>)
    requires NoRepeats(ids) && Within(ids, all)
    ensures |ids| <= |all|
    decreases |all|
  {
    if ids != [] {
      assert ids[0] in ids;
      var k :| 0 <= k < |all| && all[k] == ids[0];
      var rest := all[..k] + all[k + 1..];
      forall id | id in ids[1..] ensures id in rest {
        assert id in ids;
        var l :| 0 <= l < |all| && all[l] == id;
        assert rest[if l < k then l else l - 1] == id;
      }
      DistinctWithin(ids[1..], rest);
    }
  }

  /** When a coordination ends with an error or a rejected result, its retry list goes back unread: a
      list of known IDs queues only known IDs, and with room in the window, or for a list without
      repetitions as far as it fits, only such a list does. */
  lemma RetriesAreRequeuedUnread(queue: seq<ID>, batch: seq<ID>, result: AckQueue.Result, failed: bool)
    requires WindowOk(queue, Members(queue))
    ensures var retry := Retry(batch, result, failed);
            var onlyKnown := Within(Requeue(queue, retry), batch + queue);
            var known := result.retry == [] || Within(result.retry, batch + queue) ||
                         (!failed && Acceptable(batch, result) && !result.providerFailed);
            && (known ==> onlyKnown)
            && (|queue| + |batch| < ACK_QUEUE_LIMIT ==> (onlyKnown <==> known))
            && (NoRepeats(retry) ==>
                  (onlyKnown <==> Within(Front(Unknown(retry, Members(queue)), ACK_QUEUE_LIMIT - |queue|),
                      batch + queue)))
  {
    hide Front, Unknown;
    var ids, room := Retry(batch, result, failed), ACK_QUEUE_LIMIT - |queue|;
    var kept := Kept(ids, Members(queue), room);
    KeptFacts(ids, Members(queue), room);
    if NoRepeats(ids) { RequeueKeepsWindow(queue, ids); }
    if Within(Requeue(queue, ids), batch + queue) && |queue| + |batch| < ACK_QUEUE_LIMIT {
      forall id | id in kept ensures id in batch {
        assert id in Requeue(queue, ids);
      }
      DistinctWithin(kept, batch);
      assert Within(ids, batch + queue);
    }
  }

  /** Seven moves that take an ID nobody made durable from a coordinator's answer to the provider. */
  function Foreign(known: ID, foreign: ID): seq<Move> {
    [Refill([known], true), QueueNext(0), TakeBatch(true),
     CoordinatorReturns(1, AckQueue.Result([], [foreign], false), true),
     RequeueBatch(1), TakeBatch(false), Send(2, true)]
  }

  ghost function ForeignState(known: ID, foreign: ID, i: nat): System {
    var done, s := Queueing([]), Init.(refilled := {known});
    var t := s.(trusted := false);
    if i == 0 then Init
    else if i == 1 then s.(tasks := [Queueing([known])])
    else if i == 2 then s.(tasks := [done], queue := [known])
    else if i == 3 then s.(tasks := [done, Coordinating([known])])
    else if i == 4 then t.(tasks := [done, Requeueing([foreign])])
    else if i == 5 then t.(tasks := [done, Finished], queue := [foreign])
    else if i == 6 then t.(tasks := [done, Finished, Sending([foreign])])
    else t.(tasks := [done, Finished, Observing([foreign])], handed := {foreign})
  }

  lemma KnownIsTaken(known: ID, foreign: ID, i: nat)
    requires i < 3
    ensures Step(ForeignState(known, foreign, i), Foreign(known, foreign)[i]) == ForeignState(known, foreign, i + 1)
  {
    assert Members([known]) == {known};
    if i == 0 {
      assert [] + [Queueing([known])] == [Queueing([known])];
    } else if i == 1 {
      assert [known][1..] == [] && [Queueing([known])][0 := Queueing([])] == [Queueing([])];
      assert [] + [known] == [known];
    } else {
      assert [known][..1] == [known] && [known][1..] == [];
    }
  }

  lemma ForeignComesBack(known: ID, foreign: ID, i: nat)
    requires known != foreign && 3 <= i < 5
    ensures Step(ForeignState(known, foreign, i), Foreign(known, foreign)[i]) == ForeignState(known, foreign, i + 1)
  {
    hide Kept, Acceptable, Requeue;
    var done := Queueing([]);
    if i == 3 {
      assert foreign in [foreign] && foreign !in [known];
      assert [done, Coordinating([known])][1 := Requeueing([foreign])] == [done, Requeueing([foreign])];
    } else {
      ForeignIsQueued(foreign);
      assert [done, Requeueing([foreign])][1 := Finished] == [done, Finished];
    }
  }

  lemma ForeignIsSent(known: ID, foreign: ID, i: nat)
    requires 5 <= i < 7
    ensures Step(ForeignState(known, foreign, i), Foreign(known, foreign)[i]) == ForeignState(known, foreign, i + 1)
  {
    var done := Queueing([]);
    if i == 5 {
      assert [foreign][..1] == [foreign] && [foreign][1..] == [];
      assert [done, Finished] + [Sending([foreign])] == [done, Finished, Sending([foreign])];
    } else {
      assert Members([foreign]) == {foreign};
      assert [done, Finished, Sending([foreign])][2 := Observing([foreign])] == [done, Finished, Observing([foreign])];
    }
  }

  lemma ForeignIsQueued(foreign: ID)
    ensures Requeue([], [foreign]) == [foreign]
  {
    assert [foreign][1..] == [] && Members([]) == {};
    assert Kept([foreign], {}, ACK_QUEUE_LIMIT) == [foreign] + Kept([], {foreign}, ACK_QUEUE_LIMIT - 1);
  }

  /** So the trust in the coordinator is needed: one failed coordination that names an ID nobody made durable
      is enough for that ID to be acknowledged. */
  lemma ForeignRetryReachesProvider(known: ID, foreign: ID)
    requires known != foreign
    ensures var s := Exec(Foreign(known, foreign)); foreign in s.handed && foreign !in Durable(s)
  {
    hide Step;
    var moves := Foreign(known, foreign);
    for i := 0 to 7
      invariant Exec(moves[..i]) == ForeignState(known, foreign, i)
    {
      assert moves[..i + 1] == moves[..i] + [moves[i]];
      ExecAppends(moves[..i], moves[i]);
      if i < 3 { KnownIsTaken(known, foreign, i); }
      else if i < 5 { ForeignComesBack(known, foreign, i); }
      else { ForeignIsSent(known, foreign, i); }
    }
    assert moves[..7] == moves;
  }
}
