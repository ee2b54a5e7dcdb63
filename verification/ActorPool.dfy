/** The actor pool: one entry per connection key, tombstones that outlive their
    actor, and the completion goroutine that records how a Run ended. A pointer
    to an entry is its position in `entries`, which only grows. */
module ActorPool {
  import opened Wrappers
  import opened Faults

  datatype Key = Key(tenantID: string, connectionID: string) {
    predicate Valid() { tenantID != "" && connectionID != "" }
  }

  datatype Entry = Entry(key: Key, hasActor: bool, done: bool, terminalErr: Fault, quarantined: bool)

  datatype PoolState = PoolState(actors: map<Key, nat>, entries: seq<Entry>, closed: bool) {

    predicate WellFormed() {
      forall key <- actors :: actors[key] < |entries|
    }

    predicate CanStart(key: Key) { key.Valid() && !closed && key !in actors }

    function Add(entry: Entry): PoolState {
      PoolState(actors[entry.key := |entries|], entries + [entry], closed)
    }

    function Started(key: Key): PoolState { Add(Entry(key, true, false, NIL, false)) }

    /** What the completion goroutine records about a Run that returned `fault`. */
    function Recorded(i: nat, fault: Fault): PoolState
      requires i < |entries|
    {
      var entry := entries[i];
      if entry.key !in actors || actors[entry.key] != i then
        this.(entries := entries[i := entry.(done := true)])
      else if JoinTimeout in fault then
        this.(entries := entries[i := entry.(done := true, terminalErr := {JoinTimeout})])
      else if SharedInfrastructure in fault || StaleGeneration in fault || PermanentProtocol in fault then
        this.(entries := entries[i := entry.(done := true, terminalErr := fault,
                                             quarantined := entry.quarantined || PermanentProtocol in fault)])
      else
        PoolState(if entry.quarantined then actors else actors - {entry.key},
                  entries[i := entry.(done := true)], closed)
    }

    function Quarantined(key: Key): PoolState
      requires WellFormed()
    {
      if key !in actors then Add(Entry(key, false, true, {ProviderUnavailable}, true))
      else
        var entry := entries[actors[key]];
        this.(entries := entries[actors[key] := entry.(quarantined := true,
                terminalErr := if entry.terminalErr == NIL then {ProviderUnavailable} else entry.terminalErr)])
    }

    predicate CanResume(key: Key)
      requires WellFormed()
    {
      key.Valid() && key in actors && var entry := entries[actors[key]];
      entry.quarantined && JoinTimeout !in entry.terminalErr && entry.done
    }

    /** Execute hands the operation to an actor rather than answering "unavailable". */
    predicate Admits(key: Key)
      requires WellFormed()
    {
      key in actors && var entry := entries[actors[key]];
      !entry.quarantined && entry.terminalErr == NIL && entry.hasActor && !entry.done
    }
  }

  class Pool {
    var actors: map<Key, nat>
    var entries: seq<Entry>
    var closed: bool

    function Model(): PoolState
      reads this
    {
      PoolState(actors, entries, closed)
    }

    constructor ()
      ensures Model() == PoolState(map[], [], false) && Model().WellFormed()
    {
      actors, entries, closed := map[], [], false;
    }

    /** Start, given its context (None for a nil one) and its error: NIL also when a generation is already there and
        has not ended badly. */
    method Start(ctx: Option<Fault>, key: Key, newActor: Fault) returns (fault: Fault, started: bool)
      requires Model().WellFormed()
      modifies this
      ensures Model().WellFormed()
      ensures started <==> ctx == Some(NIL) && old(Model().CanStart(key)) && newActor == NIL
      ensures Model() == if started then old(Model()).Started(key) else old(Model())
      ensures ctx.Some? && ctx.value != NIL ==> fault == ctx.value
      ensures ctx == Some(NIL) && key.Valid() && !old(closed) && key in old(actors)
          ==> fault == old(entries[actors[key]]).terminalErr
    {
      started := false;
      if ctx.None? || ctx.value != NIL || !key.Valid() {
        if ctx.Some? && ctx.value != NIL {
          return ctx.value, false;
        }
        return {Unclassified}, false;
      }
      if closed {
        return {ProviderUnavailable}, false;
      }
      if key in actors {
        return entries[actors[key]].terminalErr, false;
      }
      if newActor != NIL {
        return newActor, false;
      }
      actors := actors[key := |entries|];
      entries := entries + [Entry(key, true, false, NIL, false)];
      return NIL, true;
    }

    /** The locked section of the completion goroutine. */
    method Record(i: nat, fault: Fault)
      requires Model().WellFormed() && i < |entries|
      modifies this
      ensures Model().WellFormed() && Model() == old(Model()).Recorded(i, fault)
    {
      var key := entries[i].key;
      if key in actors && actors[key] == i {
        if JoinTimeout in fault {
          entries := entries[i := entries[i].(terminalErr := {JoinTimeout})];
        } else if SharedInfrastructure in fault || StaleGeneration in fault || PermanentProtocol in fault {
          entries := entries[i := entries[i].(terminalErr := fault)];
          if PermanentProtocol in fault {
            entries := entries[i := entries[i].(quarantined := true)];
          }
        } else if !entries[i].quarantined {
          actors := actors - {key};
        }
      }
      entries := entries[i := entries[i].(done := true)];
    }

    method Quarantine(key: Key)
      requires Model().WellFormed()
      modifies this
      ensures Model().WellFormed() && Model() == if key.Valid() then old(Model()).Quarantined(key) else old(Model())
    {
      if !key.Valid() {
        return;
      }
      if key !in actors {
        actors := actors[key := |entries|];
        entries := entries + [Entry(key, false, true, {ProviderUnavailable}, true)];
        return;
      }
      var i := actors[key];
      entries := entries[i := entries[i].(quarantined := true)];
      if entries[i].terminalErr == NIL {
        entries := entries[i := entries[i].(terminalErr := {ProviderUnavailable})];
      }
    }

    method Resume(key: Key) returns (fault: Fault)
      requires Model().WellFormed()
      modifies this
      ensures Model().WellFormed()
      ensures fault == NIL <==> old(Model().CanResume(key))
      ensures Model() == if fault == NIL then old(Model()).(actors := old(actors) - {key}) else old(Model())
    {
      if !key.Valid() {
        return {Unclassified};
      }
      if key !in actors || !entries[actors[key]].quarantined {
        return {ProviderUnavailable};
      }
      if JoinTimeout in entries[actors[key]].terminalErr || !entries[actors[key]].done {
        return {JoinTimeout};
      }
      actors := actors - {key};
      return NIL;
    }
  }

  // ----- Runs -------------------------------------------------------------------

  /** The life of the goroutine behind an entry. */
  datatype Goroutine =
    | NoActor                  // a bare quarantine tombstone
    | Running                  // inside Actor.Run
    | Exited(fault: Fault)     // Run has returned; the result is not yet recorded
    | Settled(fault: Fault)    // recorded, done is closed

  datatype System = System(
    pool: PoolState,
    goroutines: seq<Goroutine>,
    marked: set<nat>,     // quarantined by a call, or by a recorded permanent protocol failure
    resumed: set<nat>)

  datatype Move =
    | StartKey(key: Key, newActor: Fault)
    | RunReturns(i: nat, fault: Fault)
    | RecordRun(i: nat)
    | QuarantineKey(key: Key)
    | ResumeKey(key: Key)
    | Shutdown

  const Init := System(PoolState(map[], [], false), [], {}, {})

  function Step(s: System, move: Move): (t: System)
    requires s.pool.WellFormed()
    ensures t.pool.WellFormed()
  {
    var p, g := s.pool, s.goroutines;
    match move
    case StartKey(key, newActor) =>
      if p.CanStart(key) && newActor == NIL then s.(pool := p.Started(key), goroutines := g + [Running]) else s
    case RunReturns(i, fault) =>
      if i < |g| && g[i].Running? then s.(goroutines := g[i := Exited(fault)]) else s
    case RecordRun(i) =>
      if i < |g| && i < |p.entries| && g[i].Exited? then
        s.(pool := p.Recorded(i, g[i].fault), goroutines := g[i := Settled(g[i].fault)],
           marked := s.marked + if PermanentProtocol in g[i].fault && JoinTimeout !in g[i].fault then {i} else {})
      else s
    case QuarantineKey(key) =>
      if !key.Valid() then s
      else if key in p.actors then s.(pool := p.Quarantined(key), marked := s.marked + {p.actors[key]})
      else s.(pool := p.Quarantined(key), goroutines := g + [NoActor], marked := s.marked + {|p.entries|})
    case ResumeKey(key) =>
      if p.CanResume(key) then
        s.(pool := p.(actors := p.actors - {key}), resumed := s.resumed + {p.actors[key]})
      else s
    case Shutdown => s.(pool := p.(closed := true))
  }

  /** The state after a whole run. */
  function Exec(moves: seq<Move>): (s: System)
    ensures s.pool.WellFormed()
  {
    if moves == [] then Init else Step(Exec(moves[..|moves| - 1]), moves[|moves| - 1])
  }

  /** An entry is indexed under its key until it is deleted for good. */
  ghost predicate Indexed(s: System, i: nat)
    requires i < |s.pool.entries|
  {
    s.pool.entries[i].key in s.pool.actors && s.pool.actors[s.pool.entries[i].key] == i
  }

  /** Ended in a way that must stay visible to the supervisor. */
  predicate Blocking(fault: Fault) {
    JoinTimeout in fault || SharedInfrastructure in fault || StaleGeneration in fault || PermanentProtocol in fault
  }

  /** The generation still occupies its key: not resumed, and running, ended in a blocking way, or quarantined. */
  predicate Occupies(s: System, i: nat)
    requires i < |s.goroutines|
  {
    i !in s.resumed && (s.goroutines[i].Settled? && !Blocking(s.goroutines[i].fault) ==> i in s.marked)
  }

  /** The error an entry shows, from how its Run ended and whether it was quarantined. */
  function Shown(g: Goroutine, quarantined: bool): Fault {
    if g.Settled? && JoinTimeout in g.fault then {JoinTimeout}
    else if g.Settled? && Blocking(g.fault) then g.fault
    else if quarantined then {ProviderUnavailable}
    else NIL
  }

  ghost predicate EntryOk(s: System, i: nat)
    requires i < |s.pool.entries| == |s.goroutines|
  {
    var entry, g := s.pool.entries[i], s.goroutines[i];
    && (i in s.resumed ==> i in s.marked && !g.Running? && !g.Exited? && !(g.Settled? && JoinTimeout in g.fault))
    && (g.NoActor? ==> i in s.marked)
    && (Indexed(s, i) <==> Occupies(s, i))
    && entry.hasActor == !g.NoActor? && entry.done == (!g.Running? && !g.Exited?)
    && entry.quarantined == (i in s.marked) && entry.terminalErr == Shown(g, i in s.marked)
  }

  ghost predicate Inv(s: System) {
    && s.pool.WellFormed()
    && |s.pool.entries| == |s.goroutines|
    && (forall key <- s.pool.actors :: s.pool.entries[s.pool.actors[key]].key == key)
    && (forall i <- s.resumed :: i < |s.pool.entries|) && (forall i <- s.marked :: i < |s.pool.entries|)
    && (forall i | 0 <= i < |s.pool.entries| :: EntryOk(s, i))
    // An indexed entry is the newest of its key.
    && (forall i, j | 0 <= i < j < |s.pool.entries| && s.pool.entries[i].key == s.pool.entries[j].key :: !Indexed(s, i))
  }

  lemma StartKeepsInv(s: System, key: Key, newActor: Fault)
    requires Inv(s)
    ensures Inv(Step(s, StartKey(key, newActor)))
  {
    var t := Step(s, StartKey(key, newActor));
    forall i | 0 <= i < |t.pool.entries| ensures EntryOk(t, i) {
      if i < |s.pool.entries| { assert EntryOk(s, i); }
    }
  }

  lemma ReturnKeepsInv(s: System, i: nat, fault: Fault)
    requires Inv(s)
    ensures Inv(Step(s, RunReturns(i, fault)))
  {
    var t := Step(s, RunReturns(i, fault));
    forall j | 0 <= j < |t.pool.entries| ensures EntryOk(t, j) { assert EntryOk(s, j); }
  }

  lemma RecordedShape(p: PoolState, i: nat, fault: Fault)
    requires p.WellFormed() && i < |p.entries| && p.entries[i].key in p.actors && p.actors[p.entries[i].key] == i
    ensures var q, entry := p.Recorded(i, fault), p.entries[i];
            && q.WellFormed() && |q.entries| == |p.entries| && q.closed == p.closed
            && (forall j | 0 <= j < |p.entries| && j != i :: q.entries[j] == p.entries[j])
            && q.entries[i].key == entry.key && q.entries[i].done && q.entries[i].hasActor == entry.hasActor
            && q.entries[i].quarantined == (entry.quarantined || (PermanentProtocol in fault && JoinTimeout !in fault))
            && q.entries[i].terminalErr == (if JoinTimeout in fault then {JoinTimeout}
                                            else if Blocking(fault) then fault else entry.terminalErr)
            && q.actors == if Blocking(fault) || entry.quarantined then p.actors else p.actors - {entry.key}
  {
  }

  lemma RecordKeepsEntries(s: System, i: nat, j: nat)
    requires Inv(s) && i < |s.goroutines| && s.goroutines[i].Exited? && j < |s.goroutines|
    ensures var t := Step(s, RecordRun(i)); |t.pool.entries| == |t.goroutines| && EntryOk(t, j)
  {
    hide PoolState.Recorded;
    var t := Step(s, RecordRun(i));
    assert EntryOk(s, i) && EntryOk(s, j);
    RecordedShape(s.pool, i, s.goroutines[i].fault);
    if j == i { hide Inv; }
  }

  lemma RecordKeepsInv(s: System, i: nat)
    requires Inv(s)
    ensures Inv(Step(s, RecordRun(i)))
  {
    hide PoolState.Recorded, EntryOk;
    var t := Step(s, RecordRun(i));
    if i < |s.goroutines| && s.goroutines[i].Exited? {
      ExitedIsIndexed(s, i);
      RecordedShape(s.pool, i, s.goroutines[i].fault);
      assert forall j | 0 <= j < |s.pool.entries| :: t.pool.entries[j].key == s.pool.entries[j].key;
      forall j | 0 <= j < |t.pool.entries| ensures EntryOk(t, j) { RecordKeepsEntries(s, i, j); }
    }
  }

  lemma ExitedIsIndexed(s: System, i: nat)
    requires Inv(s) && i < |s.goroutines| && s.goroutines[i].Exited?
    ensures Indexed(s, i)
  {
    assert EntryOk(s, i);
  }

  lemma MarkKeepsInv(s: System, key: Key)
    requires Inv(s) && key.Valid() && key in s.pool.actors
    ensures Inv(Step(s, QuarantineKey(key)))
  {
    var t := Step(s, QuarantineKey(key));
    forall i | 0 <= i < |t.pool.entries| ensures EntryOk(t, i) { assert EntryOk(s, i); }
  }

  lemma BuryKeepsInv(s: System, key: Key)
    requires Inv(s) && key.Valid() && key !in s.pool.actors
    ensures Inv(Step(s, QuarantineKey(key)))
  {
    var t := Step(s, QuarantineKey(key));
    forall i | 0 <= i < |t.pool.entries| ensures EntryOk(t, i) {
      if i < |s.pool.entries| { assert EntryOk(s, i); }
    }
  }

  lemma QuarantineKeepsInv(s: System, key: Key)
    requires Inv(s)
    ensures Inv(Step(s, QuarantineKey(key)))
  {
    hide Inv;
    if key.Valid() {
      hide Step;
      if key in s.pool.actors { MarkKeepsInv(s, key); } else { BuryKeepsInv(s, key); }
    }
  }

  lemma ResumeKeepsInv(s: System, key: Key)
    requires Inv(s)
    ensures Inv(Step(s, ResumeKey(key)))
  {
    var t := Step(s, ResumeKey(key));
    forall i | 0 <= i < |t.pool.entries| ensures EntryOk(t, i) { assert EntryOk(s, i); }
  }

  lemma {:induction false} RunsKeepInv(moves: seq<Move>)
    ensures Inv(Exec(moves))
  {
    if moves != [] {
      hide Inv, Step;
      var s, move := Exec(moves[..|moves| - 1]), moves[|moves| - 1];
      RunsKeepInv(moves[..|moves| - 1]);
      match move
      case StartKey(key, newActor) => StartKeepsInv(s, key, newActor);
      case RunReturns(i, fault) => ReturnKeepsInv(s, i, fault);
      case RecordRun(i) => RecordKeepsInv(s, i);
      case QuarantineKey(key) => QuarantineKeepsInv(s, key);
      case ResumeKey(key) => ResumeKeepsInv(s, key);
      case Shutdown => ShutdownKeepsInv(s);
    } else {
      InitOk();
    }
  }

  lemma InitOk()
    ensures Inv(Init)
  {
  }

  lemma ShutdownKeepsInv(s: System)
    requires Inv(s)
    ensures Inv(Step(s, Shutdown))
  {
    var t := Step(s, Shutdown);
    forall i | 0 <= i < |t.pool.entries| ensures EntryOk(t, i) { assert EntryOk(s, i); }
  }

  /** Generations of one key never overlap: when a newer entry exists, the older Run has been recorded. */
  lemma GenerationsNeverOverlap(moves: seq<Move>, i: nat, j: nat)
    requires var p := Exec(moves).pool; i < j < |p.entries| && p.entries[i].key == p.entries[j].key
    ensures var g := Exec(moves).goroutines; i < |g| && !g[i].Running? && !g[i].Exited?
  {
    RunsKeepInv(moves);
    assert EntryOk(Exec(moves), i);
  }

  /** The completion goroutine always finds its own entry under its key. */
  lemma CompletionFindsItsEntry(moves: seq<Move>, i: nat)
    requires i < |Exec(moves).goroutines| && Exec(moves).goroutines[i].Exited?
    ensures i < |Exec(moves).pool.entries| && Indexed(Exec(moves), i)
  {
    RunsKeepInv(moves);
    assert EntryOk(Exec(moves), i);
  }

  /** Once a Run ended with a join timeout its key is never started again; after
      any other blocking end, only an explicit Resume makes room for a successor. */
  lemma TombstonesHold(moves: seq<Move>, i: nat, j: nat)
    requires var p := Exec(moves).pool; i < j < |p.entries| && p.entries[i].key == p.entries[j].key
    ensures i < |Exec(moves).goroutines|
    ensures var g := Exec(moves).goroutines[i];
            g.Settled? && Blocking(g.fault) ==> JoinTimeout !in g.fault && i in Exec(moves).resumed
  {
    RunsKeepInv(moves);
    assert EntryOk(Exec(moves), i);
  }

  lemma ExecAppends(moves: seq<Move>, move: Move)
    ensures Exec(moves + [move]) == Step(Exec(moves), move)
  {
    assert (moves + [move])[..|moves|] == moves;
  }

  lemma {:induction false} ClosedExactly(moves: seq<Move>)
    ensures Exec(moves).pool.closed <==> Shutdown in moves
  {
    if moves != [] {
      var before, move := moves[..|moves| - 1], moves[|moves| - 1];
      assert moves == before + [move];
      ClosedExactly(before);
    }
  }

  /** A key is taken exactly while some generation or tombstone of it still occupies it. */
  lemma TakenExactly(moves: seq<Move>, key: Key)
    ensures var s := Exec(moves);
            && |s.pool.entries| == |s.goroutines|
            && (key in s.pool.actors <==>
                  exists i: nat :: i < |s.pool.entries| && s.pool.entries[i].key == key && Occupies(s, i))
  {
    hide Step, Occupies;
    var s := Exec(moves);
    RunsKeepInv(moves);
    if key in s.pool.actors {
      assert EntryOk(s, s.pool.actors[key]);
    } else {
      forall i: nat | i < |s.pool.entries| && s.pool.entries[i].key == key ensures !Occupies(s, i) {
        assert EntryOk(s, i);
      }
    }
  }

  /** A Start makes a new generation exactly when the key is valid, the pool was never shut down, its actor
      could be built, and every earlier generation of the key has ended without a blocking error and
      unquarantined, or was resumed. */
  lemma StartsExactly(moves: seq<Move>, key: Key, newActor: Fault)
    ensures var s := Exec(moves); |s.pool.entries| == |s.goroutines|
    ensures var s, t := Exec(moves), Step(Exec(moves), StartKey(key, newActor));
            |t.goroutines| > |s.goroutines| <==>
              && key.Valid() && Shutdown !in moves && newActor == NIL
              && forall i: nat | i < |s.pool.entries| && s.pool.entries[i].key == key :: !Occupies(s, i)
  {
    hide Occupies, Inv;
    TakenExactly(moves, key);
    ClosedExactly(moves);
  }

  /** Execute reaches an actor exactly while the key's generation is live and was never quarantined. */
  lemma ExecuteReachesLiveActor(moves: seq<Move>, key: Key)
    ensures var s := Exec(moves); |s.pool.entries| == |s.goroutines|
    ensures var s := Exec(moves);
            s.pool.Admits(key) <==>
              key in s.pool.actors && var i := s.pool.actors[key];
              (s.goroutines[i].Running? || s.goroutines[i].Exited?) && i !in s.marked
  {
    hide Step;
    RunsKeepInv(moves);
    if key in Exec(moves).pool.actors { assert EntryOk(Exec(moves), Exec(moves).pool.actors[key]); }
  }

  /** A Resume succeeds exactly when the key is quarantined and its Run, if it had one, has been recorded
      without a join timeout; then, and only then, it frees the key. */
  lemma ResumesExactly(moves: seq<Move>, key: Key)
    ensures var s := Exec(moves); |s.pool.entries| == |s.goroutines|
    ensures var s, t := Exec(moves), Step(Exec(moves), ResumeKey(key));
            && (t != s <==>
                  key.Valid() && key in s.pool.actors && var i := s.pool.actors[key];
                  i in s.marked && (s.goroutines[i].NoActor? ||
                                    (s.goroutines[i].Settled? && JoinTimeout !in s.goroutines[i].fault)))
            && (t != s ==> t.pool == s.pool.(actors := s.pool.actors - {key}) && t.goroutines == s.goroutines)
  {
    RunsKeepInv(moves);
    if key in Exec(moves).pool.actors { assert EntryOk(Exec(moves), Exec(moves).pool.actors[key]); }
  }

  /** What a second Start, or a supervisor, is told about a key that is taken. */
  lemma TakenKeyReports(moves: seq<Move>, key: Key)
    requires key in Exec(moves).pool.actors
    ensures var s := Exec(moves);
            && |s.pool.entries| == |s.goroutines|
            && var i := s.pool.actors[key];
            s.pool.entries[i].terminalErr == Shown(s.goroutines[i], i in s.marked)
  {
    RunsKeepInv(moves);
    assert EntryOk(Exec(moves), Exec(moves).pool.actors[key]);
  }

  ghost predicate HeldBack(s: System, key: Key) {
    s.pool.WellFormed() && key in s.pool.actors && s.pool.entries[s.pool.actors[key]].quarantined
  }

  lemma StepHoldsBack(s: System, move: Move, key: Key)
    requires Inv(s) && HeldBack(s, key)
    requires move != ResumeKey(key) || Step(s, move) == s
    ensures HeldBack(Step(s, move), key)
  {
    hide EntryOk;
    if move.RecordRun? && move.i < |s.goroutines| && s.goroutines[move.i].Exited? {
      assert EntryOk(s, move.i);
      ExitedIsIndexed(s, move.i);
      hide PoolState.Recorded;
      RecordedShape(s.pool, move.i, s.goroutines[move.i].fault);
    }
  }

  /** Once quarantined, a key is neither executed nor started, whatever runs end, are recorded or are
      quarantined again, until a Resume of that key succeeds. */
  lemma {:induction false} QuarantineHolds(moves: seq<Move>, key: Key, more: seq<Move>)
    requires key.Valid()
    requires var since := moves + [QuarantineKey(key)];
             forall k | 0 <= k < |more| && more[k] == ResumeKey(key) ::
               Step(Exec(since + more[..k]), more[k]) == Exec(since + more[..k])
    ensures var s := Exec(moves + [QuarantineKey(key)] + more);
            HeldBack(s, key) && !s.pool.Admits(key) && !s.pool.CanStart(key)
    decreases |more|
  {
    hide Step, Inv;
    var since := moves + [QuarantineKey(key)];
    if more == [] {
      assert since + more == since;
      ExecAppends(moves, QuarantineKey(key));
      RunsKeepInv(moves);
      QuarantineHoldsBack(Exec(moves), key);
    } else {
      var before, last := more[..|more| - 1], more[|more| - 1];
      assert since + more == since + before + [last];
      forall k | 0 <= k < |before| && before[k] == ResumeKey(key)
        ensures Step(Exec(since + before[..k]), before[k]) == Exec(since + before[..k])
      {
        assert before[..k] == more[..k] && before[k] == more[k];
      }
      QuarantineHolds(moves, key, before);
      ExecAppends(since + before, last);
      RunsKeepInv(since + before);
      StepHoldsBack(Exec(since + before), last, key);
    }
  }

  lemma QuarantineHoldsBack(s: System, key: Key)
    requires Inv(s) && key.Valid()
    ensures HeldBack(Step(s, QuarantineKey(key)), key)
  {
  }
}
