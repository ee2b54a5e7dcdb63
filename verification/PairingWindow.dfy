/** Start gives its reservation back before it asks for the phone approval, and
    takes it again without asking whether the attempt is still current. This is
    a run in which a sweep uses that window: the attempt is cleaned up, and the
    approval that follows finds that it no longer owns anything. */
module PairingWindow {
  import opened Wrappers
  import opened PairingAttempts
  import opened PairingRuns

  const KEY := AttemptKey("tenant", "connection")
  const ID := "pairing-1"
  const PHONE := Device("phone", "A phone")

  /** The outside world agrees to everything, and every deadline has passed. */
  const YES := Answer(EnterStart(KEY), true, false, false, true, ID, true, [PHONE])

  predicate ApprovalLost(s: System, c: nat) {
    && c < |s.calls| && s.calls[c].Approved? && s.calls[c].a < |s.registry.attempts|
    && !s.registry.attempts[s.calls[c].a].Approve(s.registry.IsCurrent(s.calls[c].a), s.calls[c].generation).1
  }

  function Indexes(attempt: Attempt, indexed: bool): Registry {
    if indexed then Registry([attempt], map[KEY := 0], map[ID := 0]) else Registry([attempt], map[], map[])
  }

  /** Some run ends with Start and, if it has entered, the sweep standing here over one attempt. */
  ghost predicate Reached(start: Call, sweep: Option<Call>, attempt: Attempt, indexed: bool) {
    exists moves ::
      && Exec(moves).calls == [start] + (if sweep.Some? then [sweep.value] else [])
      && Exec(moves).registry == Indexes(attempt, indexed)
  }

  lemma ExecAppends(moves: seq<Move>, move: Move)
    ensures Exec(moves + [move]) == Step(Exec(moves), move)
  {
    assert (moves + [move])[..|moves|] == moves;
  }

  /** A call that has its attempt acts on it. */
  lemma StepActs(s: System, c: nat, answer: Answer)
    requires c < |s.calls| && Target(s.calls[c]).Some? && s.calls[c].a < |s.registry.attempts|
    ensures var a := s.calls[c].a;
            var e := Act(s.calls[c], s.registry.attempts[a], s.registry.IsCurrent(a), answer);
            && Step(s, Move(c, answer)).calls == s.calls[c := e.call]
            && Step(s, Move(c, answer)).registry == s.registry.Apply(a, e.attempt, e.removed)
  {
    hide Act, Search, Enter, Seen, ValidPairingID;
  }

  lemma StepEnters(s: System, answer: Answer)
    ensures Step(s, Move(|s.calls|, answer)).calls == s.calls + [Enter(s.registry, answer.entry)]
    ensures Step(s, Move(|s.calls|, answer)).registry == s.registry
  {
    hide Act, Search, Enter, Seen, ValidPairingID;
  }

  lemma IndexesApply(attempt: Attempt, indexed: bool, changed: Attempt, removed: bool)
    requires attempt.key == changed.key == KEY && attempt.id == changed.id == ID
    ensures Indexes(attempt, indexed).IsCurrent(0) == indexed
    ensures removed ==> indexed ==> Indexes(attempt, indexed).Apply(0, changed, removed) == Indexes(changed, false)
    ensures !removed ==> Indexes(attempt, indexed).Apply(0, changed, removed) == Indexes(changed, indexed)
  {
    assert [attempt][0 := changed] == [changed];
  }

  lemma SweepFinds(attempt: Attempt)
    ensures Enter(Indexes(attempt, true), EnterSweep(0)) == Found(0, Sweep, None, None)
  {
    assert map[KEY := 0][KEY] == 0;
  }

  /** The first call runs one section or external call on the attempt. */
  lemma StartMoves(start: Call, sweep: Option<Call>, attempt: Attempt, indexed: bool, next: Call, changed: Attempt)
    requires Reached(start, sweep, attempt, indexed) && Target(start) == Some(0)
    requires attempt.key == changed.key == KEY && attempt.id == changed.id == ID
    requires Act(start, attempt, indexed, YES).call == next && Act(start, attempt, indexed, YES).attempt == changed
    requires !Act(start, attempt, indexed, YES).removed
    ensures Reached(next, sweep, changed, indexed)
  {
    hide Act, Step, Exec, Registry.Apply, Registry.IsCurrent;
    var moves :| && Exec(moves).calls == [start] + (if sweep.Some? then [sweep.value] else [])
                 && Exec(moves).registry == Indexes(attempt, indexed);
    ExecAppends(moves, Move(0, YES));
    IndexesApply(attempt, indexed, changed, false);
    StepActs(Exec(moves), 0, YES);
    assert Exec(moves + [Move(0, YES)]).calls == [next] + (if sweep.Some? then [sweep.value] else []);
  }

  lemma SweepMoves(start: Call, sweep: Call, attempt: Attempt, next: Call, changed: Attempt, removed: bool)
    requires Reached(start, Some(sweep), attempt, true) && Target(sweep) == Some(0)
    requires attempt.key == changed.key == KEY && attempt.id == changed.id == ID
    requires Act(sweep, attempt, true, YES).call == next && Act(sweep, attempt, true, YES).attempt == changed
    requires Act(sweep, attempt, true, YES).removed == removed
    ensures Reached(start, Some(next), changed, !removed)
  {
    hide Act, Step, Exec, Registry.Apply, Registry.IsCurrent;
    var moves :| Exec(moves).calls == [start] + [sweep] && Exec(moves).registry == Indexes(attempt, true);
    ExecAppends(moves, Move(1, YES));
    IndexesApply(attempt, true, changed, removed);
    StepActs(Exec(moves), 1, YES);
    assert Exec(moves + [Move(1, YES)]).calls == [start] + [next];
  }

  lemma SweepEnters(start: Call, attempt: Attempt)
    requires Reached(start, None, attempt, true)
    ensures Reached(start, Some(Found(0, Sweep, None, None)), attempt, true)
  {
    hide Step, Exec, Enter;
    var answer := YES.(entry := EnterSweep(0));
    var moves :| Exec(moves).calls == [start] + [] && Exec(moves).registry == Indexes(attempt, true);
    ExecAppends(moves, Move(1, answer));
    StepEnters(Exec(moves), answer);
    SweepFinds(attempt);
    assert Exec(moves + [Move(1, answer)]).calls == [start] + [Found(0, Sweep, None, None)];
  }

  const PHONE_IDS := {"phone"}

  lemma PhoneIsUsable()
    ensures UsableDevices([PHONE]) && DeviceIDs([PHONE][..UsableCount([PHONE])]) == PHONE_IDS && ValidPairingID(ID)
  {
    assert DeviceIDs([PHONE][..0]) == {};
    assert UsableCount([PHONE], 1) == 1;
    assert forall i | 0 <= i < |ID| :: PairingIDChar(ID[i]);
    assert [PHONE][..1] == [PHONE] && PHONE in [PHONE];
    assert DeviceIDs([PHONE]) == {PHONE.id};
  }

  lemma ExecIsInit()
    ensures Exec([]) == Init
  {
  }

  lemma StartInserts()
    ensures Reached(Beginning(0), None, NewAttempt(KEY, ID), true)
  {
    PhoneIsUsable();
    hide UsableDevices, UsableCount, DeviceIDs, ValidPairingID, Act, After, Exec;
    var move := Move(0, YES);
    var s1, s2 := Step(Init, move), Step(Step(Init, move), move);
    assert s1 == Init.(calls := [StartEntered(KEY)]);
    assert s2 == Init.(calls := [StartPrepared(KEY)]);
    ExecIsInit();
    ExecAppends([], move);
    ExecAppends([] + [move], move);
    ExecAppends([] + [move] + [move], move);
    assert Exec([] + [move] + [move] + [move]).calls == [Beginning(0)] + [];
  }

  /** Start has discovered one device and stands in the window. */
  const DISCOVERED := NewAttempt(KEY, ID).(persisted := true, handle := Some(0), deviceIDs := PHONE_IDS,
      operation := OpIdle)

  lemma StartReachesWindow()
    ensures Reached(Approving(0, "phone"), None, DISCOVERED, true)
  {
    hide Reached, UsableDevices, UsableCount, DeviceIDs;
    StartInserts();
    PhoneIsUsable();
    var created, begun := NewAttempt(KEY, ID), NewAttempt(KEY, ID).(persisted := true);
    var found := Discovered(0, Some(0), [PHONE]);
    StartMoves(Beginning(0), None, created, true, BeginSucceeded(0), created);
    StartMoves(BeginSucceeded(0), None, created, true, Discovering(0), begun);
    StartMoves(Discovering(0), None, begun, true, found, begun);
    StartMoves(found, None, begun, true, Releasing(0, Some("phone")), DISCOVERED.(operation := OpStart));
    StartMoves(Releasing(0, Some("phone")), None, DISCOVERED.(operation := OpStart), true, Approving(0, "phone"),
        DISCOVERED);
  }

  const CLEANING := DISCOVERED.Reserve(OpCleanup)
  const FINISHING := CLEANING.BeginFinish(2, StateExpired, true).0
  const SETTLED := FINISHING.Settle()

  lemma SweepUsesWindow()
    ensures Reached(Approving(0, "phone"), Some(Returned), SETTLED, false)
  {
    hide Reached;
    StartReachesWindow();
    SweepEnters(Approving(0, "phone"), DISCOVERED);
    var finishing, disposing := Finishing(0, 2, StateExpired, true, None), Disposing(0, 2, Some(0), true, None);
    var restoring, settling := Restoring(0, 2, None), Settling(0, 2, true, None);
    SweepMoves(Approving(0, "phone"), Found(0, Sweep, None, None), DISCOVERED, finishing, CLEANING, false);
    SweepMoves(Approving(0, "phone"), finishing, CLEANING, disposing, FINISHING, false);
    SweepMoves(Approving(0, "phone"), disposing, FINISHING, restoring, FINISHING, false);
    SweepMoves(Approving(0, "phone"), restoring, FINISHING, settling, FINISHING, false);
    SweepMoves(Approving(0, "phone"), settling, FINISHING, Returned, SETTLED, true);
  }

  const TAKEN := SETTLED.Reserve(OpSelect)

  /** Start took its reservation while the attempt was out of the maps. */
  const UNLISTED := Taken(false, false, "phone", None)

  /** Start reserves the settled attempt and waits for an approval nobody will use. */
  lemma StartTakesSettled()
    ensures Reached(Approved(0, 3, UNLISTED), Some(Returned), TAKEN, false)
  {
    hide Reached;
    SweepUsesWindow();
    StartMoves(Approving(0, "phone"), Some(Returned), SETTLED, false, AwaitingEmoji(0, 3, UNLISTED), TAKEN);
    StartMoves(AwaitingEmoji(0, 3, UNLISTED), Some(Returned), TAKEN, false,
        Approved(0, 3, UNLISTED), TAKEN);
  }

  /** The approval branch for a lost reservation is reachable. */
  lemma ApprovalCanBeLost()
    ensures exists moves, c :: ApprovalLost(Exec(moves), c)
  {
    hide Act, Exec;
    StartTakesSettled();
    var moves :| && Exec(moves).calls == [Approved(0, 3, UNLISTED)] + [Returned]
                 && Exec(moves).registry == Indexes(TAKEN, false);
    assert ApprovalLost(Exec(moves), 0);
  }
}
