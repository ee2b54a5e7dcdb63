/** Handling one provider frame: decide its provenance, run the durable handler,
    then queue its acknowledgement, complete a waiting request and dispatch it. */
module FrameHandling {
  import opened Wrappers
  import opened AckQueue
  import opened ResponseWaiters

  datatype Route = PairEvent | GaiaEvent | DataEvent | OtherRoute

  const UNSPECIFIED: Action := 0

  /** Decoding may fail and still leave the authenticated request metadata. */
  datatype Decoded = Undecodable(partial: Option<Message>) | Decoded(message: Message)

  datatype Frame = Frame(responseID: ID, valid: bool, route: Route, decoded: Decoded)

  datatype Observation = PersistenceFailed | QuarantinedUnmatched

  /** What happened before the handler ran. */
  datatype Provenance = Provenance(classified: bool, backlog: bool)

  /** The handler's answer, or None when no durable handler is installed. */
  type Answer = Option<(Outcome, bool)>

  predicate Withheld(answer: Answer) {
    answer.Some? && !Ackable(answer.value.0, answer.value.1)
  }

  predicate Quarantined(answer: Answer) {
    answer.Some? && !answer.value.1 && (answer.value.0.Poisoned? || answer.value.0.DuplicatePoisoned?)
  }

  function MessageOf(decoded: Decoded): Option<Message> {
    match decoded case Undecodable(partial) => partial case Decoded(message) => Some(message)
  }

  /** The decoded message carries the handler's outcome. */
  function Stamped(message: Message, answer: Answer): Message {
    if answer.Some? && !Withheld(answer) then message.(outcome := answer.value.0) else message
  }

  /** The one completion a frame may attempt, with the message it carries. */
  function Completion(frame: Frame, answer: Answer): Option<(Kind, Message)> {
    match MessageOf(frame.decoded)
    case None => None
    case Some(message) =>
      if Withheld(answer) then Some((Failure, message))
      else if Quarantined(answer) then Some((Poison, Stamped(message, answer)))
      else if frame.decoded.Undecodable? then None
      else Some((Response, Stamped(message, answer)))
  }

  /** The same, answer by answer: without a durable answer the waiter learns of a failure; a quarantined
      envelope, new or known, poisons it; only a decoded message that was committed, or that no handler
      saw, answers it, with the outcome the handler reported. */
  lemma CompletionCases(frame: Frame, answer: Answer)
    ensures var decoded, completion := frame.decoded, Completion(frame, answer);
            match decoded
            case Undecodable(None) => completion.None?
            case Undecodable(Some(partial)) =>
              completion == if answer.None? || answer.value == (Committed, false) then None
                            else if answer.value.1 || answer.value.0.Unknown? then Some((Failure, partial))
                            else Some((Poison, partial.(outcome := answer.value.0)))
            case Decoded(message) =>
              completion == if answer.None? then Some((Response, message))
                            else if answer.value.1 || answer.value.0.Unknown? then Some((Failure, message))
                            else Some((if answer.value.0.Committed? then Response else Poison,
                                       message.(outcome := answer.value.0)))
  {
  }

  predicate Completes(table: map<RequestID, Waiter>, completion: Option<(Kind, Message)>) {
    completion.Some? && Claims(table, completion.value.0, completion.value.1)
  }

  /** The completion was delivered to the waiter it claims and to nobody else. */
  ghost predicate Received(table: map<RequestID, Waiter>, channels: seq<Channel>, completion: Option<(Kind, Message)>,
                           table': map<RequestID, Waiter>, channels': seq<Channel>)
    requires forall id <- table :: table[id].channel < |channels|
  {
    if Completes(table, completion) then
      var (kind, m) := completion.value;
      var c := table[m.sessionID].channel;
      && table' == table - {m.sessionID}
      && channels' == channels[c := channels[c].(sent := channels[c].sent + [Delivered(kind, m)])]
    else table' == table && channels' == channels
  }

  class Receiver {
    const waiters: Waiters
    const window: AckWindow
    const observer: bool            // a failure observer is installed
    var skipCount: int
    var observed: seq<Observation>
    var dispatched: seq<(ID, bool)> // response ID and whether it counts as a replay

    ghost predicate Valid()
      reads this, waiters, window
    {
      waiters.Valid() && window.Valid()
    }

    constructor (waiters: Waiters, window: AckWindow, observer: bool)
      requires waiters.Valid() && window.Valid()
      ensures Valid() && this.waiters == waiters && this.window == window && this.observer == observer
      ensures skipCount == 0 && observed == [] && dispatched == []
    {
      this.waiters, this.window, this.observer := waiters, window, observer;
      skipCount, observed, dispatched := 0, [], [];
    }

    method DecrementSkipCount() returns (ok: bool)
      modifies `skipCount
      ensures ok == (old(skipCount) > 0) && skipCount == if ok then old(skipCount) - 1 else old(skipCount)
    {
      if skipCount <= 0 {
        return false;
      }
      skipCount := skipCount - 1;
      ok := true;
    }

    method Observe(observation: Observation)
      modifies `observed
      ensures observed == old(observed) + if observer then [observation] else []
    {
      if observer {
        observed := observed + [observation];
      }
    }

    /** The action of the waiter a message answers, or UNSPECIFIED. */
    method DurableRequestFor(message: Option<Message>) returns (action: Action)
      ensures action != UNSPECIFIED ==> message.Some? && Claims(waiters.table, Failure, message.value)
      ensures message.Some? && Claims(waiters.table, Failure, message.value) ==> action == message.value.action
    {
      action := UNSPECIFIED;
      match message {
        case None =>
        case Some(m) =>
          if m.source == SourceEncryptedData && m.sessionID != "" && m.sessionID in waiters.table &&
             waiters.table[m.sessionID].action == m.action {
            action := waiters.table[m.sessionID].action;
          }
      }
    }

    /** Before the handler: only an unsolicited, decodable data frame may consume the restart backlog. */
    method Classify(frame: Frame, durable: bool) returns (p: Provenance)
      ensures p.classified <==>
                && durable && frame.route.DataEvent? && frame.decoded.Decoded?
                && (frame.decoded.message.action == UNSPECIFIED
                    || !Claims(waiters.table, Failure, frame.decoded.message))
      ensures p.backlog <==> p.classified && skipCount > 0
    {
      p := Provenance(false, false);
      if durable {
        var action := DurableRequestFor(MessageOf(frame.decoded));
        if frame.decoded.Decoded? && frame.route.DataEvent? && action == UNSPECIFIED {
          p := Provenance(true, skipCount > 0);
        }
      }
    }

    /** The tail of handling: a decoded message nobody withheld goes to its waiter or is dispatched. */
    method Deliver(frame: Frame, message: Message, p: Provenance)
      requires waiters.Valid()
      modifies `skipCount, `dispatched, waiters
      ensures waiters.Valid() && Received(old(waiters.table), old(waiters.channels), Some((Response, message)),
          waiters.table, waiters.channels)
      ensures var replay := p.backlog || (!p.classified && old(skipCount) > 0);
              dispatched == old(dispatched) +
                if Claims(old(waiters.table), Response, message) || frame.route.OtherRoute? then []
                else [(frame.responseID, frame.route.DataEvent? && replay)]
      ensures skipCount == old(skipCount) -
                if !Claims(old(waiters.table), Response, message) && frame.route.DataEvent? && !p.classified
                    && old(skipCount) > 0
                then 1 else 0
    {
      var matched := waiters.Receive(Response, message);
      if matched {
        return;
      }
      match frame.route {
        case PairEvent => dispatched := dispatched + [(frame.responseID, false)];
        case GaiaEvent => dispatched := dispatched + [(frame.responseID, false)];
        case DataEvent =>
          var replay := p.backlog;
          if !p.classified {
            var consumed := DecrementSkipCount();
            replay := replay || consumed;
          }
          dispatched := dispatched + [(frame.responseID, replay)];
        case OtherRoute =>
      }
    }

    /** The durable attempt failed: the waiter, if it matches, learns of it and nothing else happens. */
    method Withhold(frame: Frame)
      requires waiters.Valid()
      modifies `observed, waiters
      ensures waiters.Valid() && observed == old(observed) + if observer then [PersistenceFailed] else []
      ensures Received(old(waiters.table), old(waiters.channels),
                       if MessageOf(frame.decoded).None? then None else Some((Failure, MessageOf(frame.decoded).value)),
                       waiters.table, waiters.channels)
    {
      Observe(PersistenceFailed);
      match MessageOf(frame.decoded) {
        case None =>
        case Some(message) => var _ := waiters.Receive(Failure, message);
      }
    }

    /** The envelope is quarantined: its waiter gets a poison, or a fresh quarantine is reported. */
    method Quarantine(outcome: Outcome, poison: Option<(Kind, Message)>)
      requires waiters.Valid() && (poison.Some? ==> poison.value.0.Poison?)
      modifies `observed, waiters
      ensures waiters.Valid() && Received(old(waiters.table), old(waiters.channels), poison, waiters.table,
          waiters.channels)
      ensures observed == old(observed) +
                if observer && outcome.Poisoned? && !Completes(old(waiters.table), poison)
                    then [QuarantinedUnmatched] else []
    {
      var matched := false;
      match poison {
        case None =>
        case Some(completion) => matched := waiters.Receive(Poison, completion.1);
      }
      if outcome.Poisoned? && !matched {
        Observe(QuarantinedUnmatched);
      }
    }

    /** After the handler, for a frame with a valid response ID. The acknowledgement is queued exactly
        when the envelope is durably committed or quarantined; one waiter at most is completed, with the
        kind the answer calls for; the backlog counter moves by one exactly for a committed replay or for
        an unclassified data event nobody waited for; nothing is dispatched that was withheld,
        quarantined, undecodable or already delivered to its waiter. */
    method Finish(frame: Frame, answer: Answer, p: Provenance)
      requires Valid() && frame.valid && (p.backlog ==> p.classified)
      modifies this, waiters, window
      ensures Valid()
      ensures window.ackMap ==
                if answer.Some? && !answer.value.1 && (answer.value.0.Committed? || answer.value.0.Poisoned?
                                                       || answer.value.0.DuplicatePoisoned?)
                then Enqueue(old(window.ackMap), frame.responseID) else old(window.ackMap)
      ensures answer.Some? && (answer.value.1 || answer.value.0.Unknown?) ==>
                window.ackMap == old(window.ackMap) && dispatched == old(dispatched)
      ensures Received(old(waiters.table), old(waiters.channels), Completion(frame, answer), waiters.table,
          waiters.channels)
      ensures observed == old(observed) +
                if !observer || answer.None? then []
                else if answer.value.1 || answer.value.0.Unknown? then [PersistenceFailed]
                else if answer.value.0.Poisoned? && !Completes(old(waiters.table), Completion(frame, answer))
                  then [QuarantinedUnmatched]
                else []
      ensures dispatched == old(dispatched) +
                if (answer.None? || answer.value == (Committed, false))
                    && frame.decoded.Decoded? && frame.route in {PairEvent, GaiaEvent, DataEvent}
                    && !Completes(old(waiters.table), Completion(frame, answer))
                then [(frame.responseID, frame.route.DataEvent?
                    && (p.backlog || (!p.classified && old(skipCount) > 0)))] else []
      ensures skipCount == old(skipCount) -
                if old(skipCount) > 0 && (
                   || (p.backlog && answer == Some((Committed, false)))
                   || (!p.classified && frame.route.DataEvent? && dispatched != old(dispatched)))
                then 1 else 0
    {
      hide Claims, Received;
      if Withheld(answer) {
        Withhold(frame);
        return;
      }
      if answer.Some? && answer.value.0.Committed? && p.backlog {
        var _ := DecrementSkipCount();
      }
      if answer.Some? {
        window.QueueMessageAck(frame.responseID, frame.valid);
      }
      if Quarantined(answer) {
        Quarantine(answer.value.0, Completion(frame, answer));
        return;
      }
      match frame.decoded {
        case Undecodable(_) => NothingReceived(waiters.table, waiters.channels);
        case Decoded(message) => Deliver(frame, Stamped(message, answer), p);
      }
    }
  }

  lemma NothingReceived(table: map<RequestID, Waiter>, channels: seq<Channel>)
    requires forall id <- table :: table[id].channel < |channels|
    ensures Received(table, channels, None, table, channels)
  {
  }
}
