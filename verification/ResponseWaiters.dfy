/** Callers waiting for a correlated response: a table from request ID to a
    one-slot channel. A response is claimed under the lock and sent after it, so
    a cancellation may run in between. Channels are named by the order in which
    they were made. */
module ResponseWaiters {
  import opened Wrappers

  type RequestID = string
  type Action = nat

  datatype PayloadSource = SourceNone | SourceEncryptedData | SourceEncryptedData2 | SourceLogoutControl

  datatype Outcome = Unknown | Committed | Poisoned | DuplicatePoisoned

  /** The durable handler's answer lets the frame be acknowledged. */
  predicate Ackable(outcome: Outcome, failed: bool) { !failed && !outcome.Unknown? }

  /** The parts of an incoming message that decide which waiter it completes and what the waiter sees. */
  datatype Message = Message(
    source: PayloadSource,
    sessionID: RequestID,
    action: Action,
    ignored: bool,            // the cookie-session rule for unencrypted messages that precede the real response
    payload: Option<seq<nat>>,
    outcome: Outcome,
    failed: bool)             // DurableError is set

  /** How a message tries to complete a waiter. */
  datatype Kind = Response | Poison | Failure

  datatype Waiter = Waiter(channel: nat, action: Action)

  /** Which waiter, if any, a message of this kind may claim. */
  predicate Claims(table: map<RequestID, Waiter>, kind: Kind, message: Message) {
    && message.source.SourceEncryptedData?
    && (kind.Response? ==> !message.ignored)
    && (!kind.Response? ==> message.sessionID != "")
    && message.sessionID in table
    && (kind.Poison? || table[message.sessionID].action == message.action)
  }

  /** What the waiter sees: a poison or a failure carries no payload. */
  function Delivered(kind: Kind, message: Message): Message {
    match kind
    case Response => message
    case Poison => message.(payload := None, outcome := Poisoned, failed := true)
    case Failure => message.(payload := None, outcome := Unknown, failed := true)
  }

  datatype Channel = Channel(sent: seq<Message>, closes: nat)

  class Waiters {
    var table: map<RequestID, Waiter>
    var channels: seq<Channel>

    ghost predicate Valid()
      reads this
    {
      forall id <- table :: table[id].channel < |channels|
    }

    constructor ()
      ensures Valid() && table == map[] && channels == []
    {
      table, channels := map[], [];
    }

    method WaitResponse(id: RequestID, action: Action) returns (channel: nat)
      requires Valid()
      modifies this
      ensures Valid() && channel == |old(channels)| && channels == old(channels) + [Channel([], 0)]
      ensures table == old(table)[id := Waiter(channel, action)]
    {
      channel := |channels|;
      channels := channels + [Channel([], 0)];
      table := table[id := Waiter(channel, action)];
    }

    /** Closes the caller's own channel, but only while its request ID is still unclaimed. */
    method CancelResponse(id: RequestID, channel: nat)
      requires Valid() && channel < |channels|
      modifies this
      ensures Valid() && table == old(table) - {id}
      ensures channels == if id in old(table) then Close(old(channels), channel) else old(channels)
    {
      if id in table {
        table := table - {id};
        channels := channels[channel := channels[channel].(closes := channels[channel].closes + 1)];
      } else {
        assert table - {id} == table;
      }
    }

    /** Empties the table, closing each waiter's own channel in whatever order the map is walked. */
    method CancelAllResponseWaiters() returns (ghost walked: seq<RequestID>)
      requires Valid()
      modifies this
      ensures Valid() && table == map[]
      ensures System(table, [], channels, []) == CloseListed(System(old(table), [], old(channels), []), walked)
    {
      walked := [];
      ghost var before := System(table, [], channels, []);
      while table.Keys != {}
        invariant Valid() && System(table, [], channels, []) == CloseListed(before, walked)
        decreases |table.Keys|
      {
        var id :| id in table.Keys;
        var channel := table[id].channel;
        CloseListedAppends(before, walked, id);
        walked := walked + [id];
        assert (table - {id}).Keys == table.Keys - {id};
        table := table - {id};
        channels := channels[channel := channels[channel].(closes := channels[channel].closes + 1)];
      }
      assert table == map[];
    }

    /** Claims the waiter of a message and sends to it. */
    method Receive(kind: Kind, message: Message) returns (matched: bool)
      requires Valid()
      modifies this
      ensures Valid() && matched == Claims(old(table), kind, message)
      ensures table == if matched then old(table) - {message.sessionID} else old(table)
      ensures channels == if matched
                          then var c := old(table[message.sessionID].channel);
                               old(channels)[c := old(channels[c]).(
                                   sent := old(channels[c]).sent + [Delivered(kind, message)])]
                          else old(channels)
    {
      if message.source != SourceEncryptedData || (kind.Response? && message.ignored) ||
         (!kind.Response? && message.sessionID == "") {
        return false;
      }
      if message.sessionID !in table ||
         (!kind.Poison? && table[message.sessionID].action != message.action) {
        return false;
      }
      var channel := table[message.sessionID].channel;
      table := table - {message.sessionID};
      var delivered := message;
      if !kind.Response? {
        delivered := delivered.(payload := None, failed := true, outcome := if kind.Poison? then Poisoned else Unknown);
      }
      channels := channels[channel := channels[channel].(sent := channels[channel].sent + [delivered])];
      matched := true;
    }
  }

  // ----- Runs -------------------------------------------------------------------

  datatype Registration = Registration(id: RequestID, action: Action)

  datatype System = System(
    table: map<RequestID, Waiter>,
    registrations: seq<Registration>,   // by channel
    channels: seq<Channel>,
    sends: seq<(nat, Message)>)         // claimed, not yet sent

  datatype Move =
    | Register(id: RequestID, action: Action)
    | Claim(kind: Kind, message: Message)
    | Send(k: nat)
    | CancelCaller(channel: nat)
    | CancelAll(ids: seq<RequestID>)    // the order in which the map happens to be walked

  const Init := System(map[], [], [], [])

  function Close(channels: seq<Channel>, c: nat): seq<Channel> {
    if c < |channels| then channels[c := channels[c].(closes := channels[c].closes + 1)] else channels
  }

  function CloseOne(s: System, id: RequestID): System {
    if id in s.table then s.(table := s.table - {id}, channels := Close(s.channels, s.table[id].channel)) else s
  }

  function CloseListed(s: System, ids: seq<RequestID>): System
    decreases |ids|
  {
    if ids == [] then s else CloseListed(CloseOne(s, ids[0]), ids[1..])
  }

  lemma {:induction false} CloseListedAppends(s: System, ids: seq<RequestID>, id: RequestID)
    ensures CloseListed(s, ids + [id]) == CloseOne(CloseListed(s, ids), id)
    decreases |ids|
  {
    if ids == [] {
      assert ([] + [id])[1..] == [];
    } else {
      assert (ids + [id])[1..] == ids[1..] + [id];
      CloseListedAppends(CloseOne(s, ids[0]), ids[1..], id);
    }
  }

  function Step(s: System, move: Move): System {
    match move
    case Register(id, action) =>
      System(s.table[id := Waiter(|s.channels|, action)], s.registrations + [Registration(id, action)],
             s.channels + [Channel([], 0)], s.sends)
    case Claim(kind, message) =>
      if Claims(s.table, kind, message) then
        s.(table := s.table - {message.sessionID},
           sends := s.sends + [(s.table[message.sessionID].channel, Delivered(kind, message))])
      else s
    case Send(k) =>
      if k < |s.sends| && s.sends[k].0 < |s.channels| then
        var (c, message) := s.sends[k];
        s.(channels := s.channels[c := s.channels[c].(sent := s.channels[c].sent + [message])],
           sends := s.sends[..k] + s.sends[k + 1..])
      else s
    case CancelCaller(c) =>
      if c < |s.registrations| && s.registrations[c].id in s.table then
        s.(table := s.table - {s.registrations[c].id}, channels := Close(s.channels, c))
      else s
    case CancelAll(ids) => CloseListed(s, ids)
  }

  function Exec(moves: seq<Move>): System {
    if moves == [] then Init else Step(Exec(moves[..|moves| - 1]), moves[|moves| - 1])
  }

  // ----- With fresh request IDs -----------------------------------------------------

  /** No request ID was ever used twice. */
  ghost predicate Distinct(registrations: seq<Registration>) {
    forall c, d | 0 <= c < d < |registrations| :: registrations[c].id != registrations[d].id
  }

  ghost predicate FreshIDs(s: System) { Distinct(s.registrations) }

  ghost predicate Untouched(s: System, c: nat) {
    c < |s.channels| && s.channels[c] == Channel([], 0)
  }

  /** What may arrive on channel `c`: a message for its own request ID that matches the action
      asked for, or a poison for that ID without any payload. */
  predicate Fits(registration: Registration, message: Message) {
    && message.sessionID == registration.id && message.source.SourceEncryptedData?
    && (message.action == registration.action || (message.outcome.Poisoned? && message.failed && message.payload.None?))
  }

  ghost predicate TableOk(s: System) {
    forall id <- s.table ::
      var waiter := s.table[id];
      && waiter.channel < |s.registrations| && s.registrations[waiter.channel] == Registration(id, waiter.action)
      && Untouched(s, waiter.channel)
      && forall k | 0 <= k < |s.sends| :: s.sends[k].0 != waiter.channel
  }

  ghost predicate SendsOk(s: System) {
    && (forall k | 0 <= k < |s.sends| ::
          && s.sends[k].0 < |s.registrations| && Untouched(s, s.sends[k].0)
          && Fits(s.registrations[s.sends[k].0], s.sends[k].1))
    && (forall k, l | 0 <= k < l < |s.sends| :: s.sends[k].0 != s.sends[l].0)
  }

  ghost predicate ChannelOk(registration: Registration, channel: Channel) {
    && |channel.sent| + channel.closes <= 1
    && (channel.sent != [] ==> Fits(registration, channel.sent[0]))
  }

  /** A request is still waiting, claimed with its send pending, or completed. */
  ghost predicate Accounted(s: System, c: nat)
    requires c < |s.registrations| == |s.channels|
  {
    s.registrations[c].id in s.table || Pending(s.sends, c) || s.channels[c] != Channel([], 0)
  }

  ghost predicate Pending(sends: seq<(nat, Message)>, c: nat) {
    exists k :: 0 <= k < |sends| && sends[k].0 == c
  }

  ghost predicate Inv(s: System) {
    Shapes(s) && |s.registrations| == |s.channels| && forall c | 0 <= c < |s.channels| :: Accounted(s, c)
  }

  ghost predicate Shapes(s: System) {
    && |s.registrations| == |s.channels|
    && TableOk(s) && SendsOk(s)
    && (forall c | 0 <= c < |s.channels| :: ChannelOk(s.registrations[c], s.channels[c]))
  }

  lemma ClaimKeepsShapes(s: System, kind: Kind, message: Message)
    requires Shapes(s) && FreshIDs(s)
    ensures Shapes(Step(s, Claim(kind, message)))
  {
  }

  lemma ClaimKeepsInv(s: System, kind: Kind, message: Message)
    requires Inv(s) && FreshIDs(s)
    ensures Inv(Step(s, Claim(kind, message)))
  {
    hide Shapes, Pending;
    ClaimKeepsShapes(s, kind, message);
    var t := Step(s, Claim(kind, message));
    if Claims(s.table, kind, message) { ClaimFindsChannel(s, message.sessionID); }
    forall c | 0 <= c < |t.channels| ensures Accounted(t, c) {
      assert Accounted(s, c);
      if Claims(s.table, kind, message) { PendingGrows(s.sends, t.sends[|s.sends|], c); }
    }
  }

  lemma ClaimFindsChannel(s: System, id: RequestID)
    requires Shapes(s) && FreshIDs(s) && id in s.table
    ensures |s.registrations| == |s.channels|
    ensures forall c | 0 <= c < |s.registrations| && s.registrations[c].id == id :: c == s.table[id].channel
  {
  }

  lemma PendingGrows(sends: seq<(nat, Message)>, added: (nat, Message), c: nat)
    ensures Pending(sends + [added], c) <==> Pending(sends, c) || added.0 == c
  {
    var all := sends + [added];
    if Pending(sends, c) {
      var k :| 0 <= k < |sends| && sends[k].0 == c;
      assert all[k].0 == c;
    }
    assert all[|sends|] == added;
  }

  lemma PendingShrinks(sends: seq<(nat, Message)>, k: nat, c: nat)
    requires k < |sends| && Pending(sends, c) && sends[k].0 != c
    ensures Pending(sends[..k] + sends[k + 1..], c)
  {
    var l :| 0 <= l < |sends| && sends[l].0 == c;
    assert (sends[..k] + sends[k + 1..])[if l < k then l else l - 1] == sends[l];
  }

  lemma SendKeepsShapes(s: System, k: nat)
    requires Shapes(s) && FreshIDs(s)
    ensures Shapes(Step(s, Send(k)))
  {
  }

  lemma SendKeepsInv(s: System, k: nat)
    requires Inv(s) && FreshIDs(s)
    ensures Inv(Step(s, Send(k)))
  {
    hide Shapes, Pending;
    SendKeepsShapes(s, k);
    var t := Step(s, Send(k));
    if k < |s.sends| {
      forall c | 0 <= c < |t.channels| ensures Accounted(t, c) {
        assert Accounted(s, c);
        if c != s.sends[k].0 && Pending(s.sends, c) { PendingShrinks(s.sends, k, c); }
      }
    }
  }

  lemma CloseOneKeepsInv(s: System, id: RequestID)
    requires Inv(s) && FreshIDs(s)
    ensures Inv(CloseOne(s, id)) && CloseOne(s, id).registrations == s.registrations
  {
    var t := CloseOne(s, id);
    forall c | 0 <= c < |t.channels| ensures Accounted(t, c) {
      assert Accounted(s, c);
    }
  }

  lemma {:induction false} CloseListedKeepsInv(s: System, ids: seq<RequestID>)
    requires Inv(s) && FreshIDs(s)
    ensures Inv(CloseListed(s, ids)) && CloseListed(s, ids).registrations == s.registrations
    decreases |ids|
  {
    if ids != [] {
      CloseOneKeepsInv(s, ids[0]);
      CloseListedKeepsInv(CloseOne(s, ids[0]), ids[1..]);
    }
  }

  lemma RegisterKeepsInv(s: System, id: RequestID, action: Action)
    requires Inv(s) && FreshIDs(Step(s, Register(id, action)))
    ensures Inv(Step(s, Register(id, action)))
  {
    var t := Step(s, Register(id, action));
    forall c | 0 <= c < |s.channels| ensures Accounted(t, c) {
      assert Accounted(s, c);
    }
  }

  /** A caller cancels its own request: with fresh IDs the table entry, if any, is its own. */
  lemma CancelKeepsInv(s: System, c: nat)
    requires Inv(s) && FreshIDs(s)
    ensures Inv(Step(s, CancelCaller(c)))
  {
    if c < |s.registrations| && s.registrations[c].id in s.table {
      CloseOneKeepsInv(s, s.registrations[c].id);
    }
  }

  lemma {:induction false} RunsKeepInv(moves: seq<Move>)
    requires FreshIDs(Exec(moves))
    ensures Inv(Exec(moves))
  {
    if moves != [] {
      var before, move := Exec(moves[..|moves| - 1]), moves[|moves| - 1];
      StepExtends(before, move);
      RunsKeepInv(moves[..|moves| - 1]);
      match move
      case Register(id, action) => RegisterKeepsInv(before, id, action);
      case Claim(kind, message) => ClaimKeepsInv(before, kind, message);
      case Send(k) => SendKeepsInv(before, k);
      case CancelCaller(c) => CancelKeepsInv(before, c);
      case CancelAll(ids) => CloseListedKeepsInv(before, ids);
    }
  }

  lemma {:induction false} CloseListedRegistersNothing(s: System, ids: seq<RequestID>)
    ensures CloseListed(s, ids).registrations == s.registrations
    decreases |ids|
  {
    if ids != [] { CloseListedRegistersNothing(CloseOne(s, ids[0]), ids[1..]); }
  }

  lemma StepExtends(s: System, move: Move)
    ensures s.registrations <= Step(s, move).registrations
  {
    if move.CancelAll? { CloseListedRegistersNothing(s, move.ids); }
  }

  // ----- The theorems ------------------------------------------------------------------

  /** With fresh IDs every channel is sent to or closed at most once over the whole run, no request is
      lost, and whatever is sent is for its own request: the action asked for, or a poison stripped of
      its payload. */
  lemma WaitersCompleteOnce(moves: seq<Move>, c: nat)
    requires FreshIDs(Exec(moves)) && c < |Exec(moves).channels|
    ensures var s := Exec(moves);
            && |s.registrations| == |s.channels|
            && |s.channels[c].sent| + s.channels[c].closes <= 1 && Accounted(s, c)
            && (s.channels[c].sent != [] ==> Fits(s.registrations[c], s.channels[c].sent[0]))
  {
    RunsKeepInv(moves);
    assert ChannelOk(Exec(moves).registrations[c], Exec(moves).channels[c]);
  }

  /** Exactly which messages complete a request that still waits, and what its caller then gets: an
      ordinary response for its ID and action that the cookie-session rule does not ignore, unchanged; a
      failure for its ID and action, or a poison for its ID whatever the action, both without a payload
      and marked failed. */
  lemma RequestIsClaimedExactly(moves: seq<Move>, kind: Kind, message: Message, c: nat)
    requires var s := Exec(moves); FreshIDs(s) && c < |s.registrations| && s.registrations[c].id in s.table
    ensures var s, t, mine := Exec(moves), Step(Exec(moves), Claim(kind, message)), Exec(moves).registrations[c];
            && (mine.id !in t.table <==>
                  && message.sessionID == mine.id && message.source == SourceEncryptedData
                  && (match kind
                      case Response => !message.ignored && message.action == mine.action
                      case Poison => mine.id != ""
                      case Failure => mine.id != "" && message.action == mine.action))
            && (mine.id in t.table ==> forall k | 0 <= k < |t.sends| :: t.sends[k].0 != c)
            && (mine.id !in t.table ==>
                  t.sends == s.sends + [(c, match kind
                    case Response => message
                    case Poison => Message(SourceEncryptedData, mine.id, message.action, message.ignored, None,
                                           Poisoned, true)
                    case Failure => Message(SourceEncryptedData, mine.id, mine.action, message.ignored, None,
                                            Unknown, true))])
  {
    hide Untouched, Fits;
    var s := Exec(moves);
    RunsKeepInv(moves);
    ClaimFindsChannel(s, s.registrations[c].id);
  }

  /** A claimed response never meets a closed channel, on which the send would panic, nor a full one,
      on which it would block. */
  ghost predicate SendsAreSafe(s: System) {
    forall k | 0 <= k < |s.sends| :: Untouched(s, s.sends[k].0)
  }

  /** Every run with these registrations keeps its sends safe exactly when no request ID is reused. */
  lemma SendsAreSafeIffIDsAreFresh(registrations: seq<Registration>)
    ensures (forall moves | Exec(moves).registrations == registrations :: SendsAreSafe(Exec(moves)))
            <==> Distinct(registrations)
  {
    if Distinct(registrations) {
      forall moves | Exec(moves).registrations == registrations ensures SendsAreSafe(Exec(moves)) {
        RunsKeepInv(moves);
      }
    } else {
      var c, d :| 0 <= c < d < |registrations| && registrations[c].id == registrations[d].id;
      var moves := ReusedIDClosesClaimedChannel(registrations, c, d);
    }
  }

  lemma ExecAppends(moves: seq<Move>, move: Move)
    ensures Exec(moves + [move]) == Step(Exec(moves), move)
  {
    assert (moves + [move])[..|moves|] == moves;
  }

  /** After `prefix`, registers the requests from `lo` up to `hi`. */
  lemma {:induction false} Registering(prefix: seq<Move>, registrations: seq<Registration>, lo: nat, hi: nat)
    returns (moves: seq<Move>)
    requires lo <= hi <= |registrations|
    requires var s := Exec(prefix); s.registrations == registrations[..lo] && |s.channels| == lo
    ensures var s, t := Exec(prefix), Exec(moves);
            && t.registrations == registrations[..hi] && |t.channels| == hi
            && t.sends == s.sends && s.channels <= t.channels
            && (forall d | lo <= d < hi :: registrations[d].id in t.table)
            && (lo < hi ==> t.table[registrations[hi - 1].id] == Waiter(hi - 1, registrations[hi - 1].action))
    decreases hi
  {
    if lo == hi {
      moves := prefix;
    } else {
      var before := Registering(prefix, registrations, lo, hi - 1);
      var last := Register(registrations[hi - 1].id, registrations[hi - 1].action);
      moves := before + [last];
      ExecAppends(before, last);
      assert registrations[..hi] == registrations[..hi - 1] + [registrations[hi - 1]];
    }
  }

  /** Request `c` is answered, its ID is registered again, and the first caller then cancels: the
      claimed channel is closed under the pending send. */
  lemma ReusedIDClosesClaimedChannel(registrations: seq<Registration>, c: nat, d: nat) returns (moves: seq<Move>)
    requires c < d < |registrations| && registrations[c].id == registrations[d].id
    ensures Exec(moves).registrations == registrations && !SendsAreSafe(Exec(moves))
  {
    var waiting := Registering([], registrations, 0, c + 1);
    var message := Message(SourceEncryptedData, registrations[c].id, registrations[c].action, false, None, Committed,
        false);
    var claimed := waiting + [Claim(Response, message)];
    ExecAppends(waiting, Claim(Response, message));
    var s := Exec(claimed);
    assert s.sends == Exec(waiting).sends + [(c, message)];
    var reused := Registering(claimed, registrations, c + 1, |registrations|);
    moves := reused + [CancelCaller(c)];
    ExecAppends(reused, CancelCaller(c));
    assert registrations[..|registrations|] == registrations;
    assert registrations[d].id in Exec(reused).table;
    var k := |Exec(waiting).sends|;
    assert Exec(moves).sends[k] == (c, message);
    assert Exec(moves).channels[c].closes == Exec(reused).channels[c].closes + 1;
    assert !Untouched(Exec(moves), Exec(moves).sends[k].0);
  }
}
