/** The visible state of a message, folded from its history of observations. */
module MessageState {
  import opened Wrappers

  /** `Unknown` stands for every string that is not a message state. */
  datatype State =
    | Queued | Dispatching | ProviderAccepted | AwaitingPhone | Sent | Delivered | Read | Uncertain | Failed | Unknown

  function Rank(state: State): Option<int> {
    match state
    case Queued => Some(0)
    case Dispatching => Some(1)
    case ProviderAccepted => Some(2)
    case AwaitingPhone => Some(3)
    case Sent => Some(4)
    case Delivered => Some(5)
    case Read => Some(6)
    case Uncertain => Some(2)
    case Failed => Some(7)
    case Unknown => None
  }

  function RankMust(state: State): int { if Rank(state).Some? then Rank(state).value else 0 }

  /** The current state, if any, and its rank. */
  datatype Fold = Fold(current: Option<State>, rank: int)

  function Observe(f: Fold, observed: State): Fold {
    if observed.Unknown? then f
    else if observed.Uncertain? || observed.Failed? then
      if f.rank < RankMust(Sent) then Fold(Some(observed), RankMust(observed)) else f
    else if f.current == Some(Uncertain) || (f.current != Some(Failed) && RankMust(observed) >= f.rank) then
      Fold(Some(observed), RankMust(observed))
    else f
  }

  function Folded(history: seq<State>): Fold {
    if history == [] then Fold(None, -1) else Observe(Folded(history[..|history| - 1]), history[|history| - 1])
  }

  /** The loop of DeriveMessageState; no current state is the empty string. */
  method DeriveMessageState(history: seq<State>) returns (current: Option<State>)
    ensures current == Derived(history) && current == Folded(history).current
  {
    current := None;
    var currentRank := -1;
    for k := 0 to |history|
      invariant Fold(current, currentRank) == Folded(history[..k])
    {
      assert history[..k + 1][..k] == history[..k];
      var observed := history[k];
      var rank := Rank(observed);
      if rank.None? {
        continue;
      }
      if observed == Uncertain {
        if currentRank < RankMust(Sent) {
          current, currentRank := Some(observed), RankMust(Uncertain);
        }
      } else if observed == Failed {
        if currentRank < RankMust(Sent) {
          current, currentRank := Some(observed), RankMust(Failed);
        }
      } else if current == Some(Uncertain) || (current != Some(Failed) && rank.value >= currentRank) {
        current, currentRank := Some(observed), rank.value;
      }
    }
    assert history[..|history|] == history;
    FoldDerives(history);
  }

  // ----- The closed form --------------------------------------------------------------------

  predicate Carried(state: State) { state.Sent? || state.Delivered? || state.Read? }

  predicate Decisive(state: State) { Carried(state) || state.Failed? }

  /** The first observation that settles the outcome. */
  function FirstDecisive(history: seq<State>): Option<State> {
    if history == [] then None
    else
      var earlier := FirstDecisive(history[..|history| - 1]);
      if earlier.Some? then earlier
      else if Decisive(history[|history| - 1]) then Some(history[|history| - 1])
      else None
  }

  function AfterLastUncertain(history: seq<State>): seq<State> {
    if history == [] then []
    else if history[|history| - 1].Uncertain? then []
    else AfterLastUncertain(history[..|history| - 1]) + [history[|history| - 1]]
  }

  /** What the history says, by what occurs in it and without ranks: after a failure that came first,
      Failed; after any sign of delivery that came first, the furthest of read, delivered and sent; and
      while nothing is settled, the furthest step since the last uncertain one. */
  function Derived(history: seq<State>): Option<State> {
    match FirstDecisive(history)
    case Some(first) =>
      if first.Failed? then Some(Failed)
      else if Read in history then Some(Read)
      else if Delivered in history then Some(Delivered)
      else Some(Sent)
    case None =>
      var recent := AfterLastUncertain(history);
      if AwaitingPhone in recent then Some(AwaitingPhone)
      else if ProviderAccepted in recent then Some(ProviderAccepted)
      else if Dispatching in recent then Some(Dispatching)
      else if Queued in recent then Some(Queued)
      else if Uncertain in history then Some(Uncertain)
      else None
  }

  lemma {:induction false} RecentFacts(history: seq<State>)
    ensures Uncertain !in AfterLastUncertain(history)
    ensures forall s | s in AfterLastUncertain(history) :: s in history
    ensures FirstDecisive(history).None? ==> forall s | s in history :: !Decisive(s)
    ensures FirstDecisive(history).Some? ==>
              Decisive(FirstDecisive(history).value) && FirstDecisive(history).value in history
  {
    if history != [] { RecentFacts(history[..|history| - 1]); }
  }

  predicate RankAgrees(f: Fold) { f.rank == if f.current.Some? then RankMust(f.current.value) else -1 }

  lemma DecidedObservation(before: seq<State>, f: Fold, last: State)
    requires f.current == Derived(before) && RankAgrees(f) && FirstDecisive(before).Some?
    ensures Observe(f, last).current == Derived(before + [last]) && RankAgrees(Observe(f, last))
  {
    hide AfterLastUncertain;
    assert (before + [last])[..|before|] == before;
    RecentFacts(before);
  }

  lemma Appended(before: seq<State>, last: State)
    ensures AfterLastUncertain(before + [last]) == if last.Uncertain? then [] else AfterLastUncertain(before) + [last]
    ensures FirstDecisive(before).None? ==> FirstDecisive(before + [last]) == if Decisive(last) then Some(last)
        else None
  {
    assert (before + [last])[..|before|] == before;
  }

  lemma SettlingObservation(before: seq<State>, f: Fold, last: State)
    requires f.current == Derived(before) && RankAgrees(f) && FirstDecisive(before).None?
    requires Decisive(last) || last.Uncertain?
    ensures Observe(f, last).current == Derived(before + [last]) && RankAgrees(Observe(f, last))
  {
    hide FirstDecisive, AfterLastUncertain;
    Appended(before, last);
    RecentFacts(before);
  }

  lemma ProgressObservation(before: seq<State>, f: Fold, last: State)
    requires f.current == Derived(before) && RankAgrees(f) && FirstDecisive(before).None?
    requires !Decisive(last) && !last.Uncertain?
    ensures Observe(f, last).current == Derived(before + [last]) && RankAgrees(Observe(f, last))
  {
    hide FirstDecisive, AfterLastUncertain;
    Appended(before, last);
    RecentFacts(before);
  }

  /** The ranks say the same as the closed form. */
  lemma {:induction false} FoldDerives(history: seq<State>)
    ensures Folded(history).current == Derived(history) && RankAgrees(Folded(history))
  {
    hide Derived, Observe;
    if history == [] {
      NothingDerives();
    } else {
      var before, last := history[..|history| - 1], history[|history| - 1];
      assert history == before + [last];
      FoldDerives(before);
      if FirstDecisive(before).Some? {
        DecidedObservation(before, Folded(before), last);
      } else if Decisive(last) || last.Uncertain? {
        SettlingObservation(before, Folded(before), last);
      } else {
        ProgressObservation(before, Folded(before), last);
      }
    }
  }

  lemma NothingDerives()
    ensures Derived([]) == None
  {
  }

  lemma {:induction false} DecidedStays(history: seq<State>, more: seq<State>)
    requires FirstDecisive(history).Some?
    ensures FirstDecisive(history + more) == FirstDecisive(history)
    decreases |more|
  {
    if more == [] {
      assert history + more == history;
    } else {
      var all := history + more;
      assert all[..|all| - 1] == history + more[..|more| - 1];
      DecidedStays(history, more[..|more| - 1]);
    }
  }

  /** Failed is absorbing, and a message once sent never falls back, whatever is observed later: Read stays
      Read, Delivered moves only to Read, Sent only to Delivered or Read, and each exactly when observed. */
  lemma SettledStatesHold(history: seq<State>, more: seq<State>)
    ensures var before, after := Folded(history).current, Folded(history + more).current;
            && (before == Some(Failed) ==> after == Some(Failed))
            && (before == Some(Read) ==> after == Some(Read))
            && (before == Some(Delivered) ==> after == Some(if Read in more then Read else Delivered))
            && (before == Some(Sent) ==>
                  after == Some(if Read in more then Read else if Delivered in more then Delivered else Sent))
  {
    FoldDerives(history);
    FoldDerives(history + more);
    RecentFacts(history);
    if FirstDecisive(history).Some? { DecidedStays(history, more); }
  }
}
