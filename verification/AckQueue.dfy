/** The bounded in-memory window of response IDs that may be acknowledged to the
    provider: a queue, the set of its members, and the check of what a durable
    ACK coordinator returns. */
module AckQueue {
  type ID = string

  const ACK_BATCH_LIMIT := 256
  const ACK_QUEUE_LIMIT := 1024

  datatype Result = Result(admitted: seq<ID>, retry: seq<ID>, providerFailed: bool)

  ghost predicate NoRepeats(ids: seq<ID>) {
    forall i, j | 0 <= i < j < |ids| :: ids[i] != ids[j]
  }

  function Members(ids: seq<ID>): set<ID> { set id | id in ids }

  ghost predicate Within(ids: seq<ID>, all: seq<ID>) { forall id | id in ids :: id in all }

  /** The window never repeats an ID, agrees with its set and keeps its bound. */
  ghost predicate WindowOk(queue: seq<ID>, members: set<ID>) {
    NoRepeats(queue) && members == Members(queue) && |queue| <= ACK_QUEUE_LIMIT
  }

  // ----- The three operations on the queue ----------------------------------------

  function Enqueue(queue: seq<ID>, id: ID): seq<ID> {
    if id in queue || |queue| >= ACK_QUEUE_LIMIT then queue else queue + [id]
  }

  function BatchSize(queue: seq<ID>): nat {
    if |queue| < ACK_BATCH_LIMIT then |queue| else ACK_BATCH_LIMIT
  }

  /** The IDs that go back to the front, in order: those not yet known, as long as there is room. */
  function Kept(ids: seq<ID>, known: set<ID>, room: nat): seq<ID> {
    if ids == [] then []
    else if ids[0] in known || room == 0 then Kept(ids[1..], known, room)
    else [ids[0]] + Kept(ids[1..], known + {ids[0]}, room - 1)
  }

  function Requeue(queue: seq<ID>, ids: seq<ID>): seq<ID> {
    Kept(ids, Members(queue), if |queue| < ACK_QUEUE_LIMIT then ACK_QUEUE_LIMIT - |queue| else 0) + queue
  }

  function Unknown(ids: seq<ID>, known: set<ID>): seq<ID> {
    if ids == [] then [] else (if ids[0] in known then [] else [ids[0]]) + Unknown(ids[1..], known)
  }

  lemma KeptStep(prefix: seq<ID>, ids: seq<ID>, k: nat, known: set<ID>, room: nat)
    requires k < |ids|
    ensures prefix + Kept(ids[k..], known, room) ==
            if ids[k] in known || room == 0 then prefix + Kept(ids[k + 1..], known, room)
            else (prefix + [ids[k]]) + Kept(ids[k + 1..], known + {ids[k]}, room - 1)
  {
    assert ids[k..][1..] == ids[k + 1..];
  }

  lemma KeptNothing(prefix: seq<ID>, ids: seq<ID>, known: set<ID>, room: nat)
    ensures prefix + Kept(ids[|ids|..], known, room) == prefix
  {
  }

  lemma NoRepeatsConcat(left: seq<ID>, right: seq<ID>)
    requires NoRepeats(left) && NoRepeats(right) && forall id | id in left :: id !in right
    ensures NoRepeats(left + right)
  {
    forall i, j | 0 <= i < j < |left + right| ensures (left + right)[i] != (left + right)[j] {
      if i < |left| { assert left[i] in left; }
      if j >= |left| { assert right[j - |left|] in right; }
    }
  }

  lemma {:induction false} KeptIsNew(ids: seq<ID>, known: set<ID>, room: nat)
    ensures var kept := Kept(ids, known, room);
            && |kept| <= room && (forall id | id in kept :: id in ids && id !in known)
            && (forall id | id in ids :: id in kept || id in known || |kept| == room)
  {
    if ids != [] {
      if ids[0] in known || room == 0 {
        KeptIsNew(ids[1..], known, room);
      } else {
        KeptIsNew(ids[1..], known + {ids[0]}, room - 1);
      }
    }
  }

  lemma {:induction false} KeptRepeatsNothing(ids: seq<ID>, known: set<ID>, room: nat)
    ensures NoRepeats(Kept(ids, known, room))
  {
    if ids != [] {
      if ids[0] in known || room == 0 {
        KeptRepeatsNothing(ids[1..], known, room);
      } else {
        var rest := Kept(ids[1..], known + {ids[0]}, room - 1);
        KeptRepeatsNothing(ids[1..], known + {ids[0]}, room - 1);
        KeptIsNew(ids[1..], known + {ids[0]}, room - 1);
        NoRepeatsConcat([ids[0]], rest);
      }
    }
  }

  lemma KeptFacts(ids: seq<ID>, known: set<ID>, room: nat)
    ensures var kept := Kept(ids, known, room);
            && NoRepeats(kept) && |kept| <= room
            && (forall id | id in kept :: id in ids && id !in known)
            && (forall id | id in ids :: id in kept || id in known || |kept| == room)
  {
    KeptIsNew(ids, known, room);
    KeptRepeatsNothing(ids, known, room);
  }

  /** For IDs without repetitions, what is kept is a prefix of the unknown ones: order is preserved. */
  lemma {:induction false} KeptIsPrefix(ids: seq<ID>, known: set<ID>, extra: set<ID>, room: nat)
    requires NoRepeats(ids) && forall id | id in ids :: id !in extra
    ensures Kept(ids, known + extra, room) == Front(Unknown(ids, known), room)
  {
    if ids != [] {
      var first, rest := ids[0], ids[1..];
      assert first in ids && first !in rest && NoRepeats(rest) && forall id | id in rest :: id in ids;
      hide NoRepeats, Front;
      if first in known || room == 0 {
        KeptIsPrefix(rest, known, extra, room);
        FrontOfNothing(Unknown(rest, known), Unknown(ids, known));
      } else {
        assert known + extra + {first} == known + (extra + {first});
        KeptIsPrefix(rest, known, extra + {first}, room - 1);
        FrontOfMore(first, Unknown(rest, known), room);
      }
    }
  }

  function Front(ids: seq<ID>, room: nat): seq<ID> { ids[..if room < |ids| then room else |ids|] }

  lemma FrontOfMore(first: ID, rest: seq<ID>, room: nat)
    requires room > 0
    ensures Front([first] + rest, room) == [first] + Front(rest, room - 1)
  {
  }

  lemma FrontOfNothing(left: seq<ID>, right: seq<ID>)
    ensures Front(left, 0) == Front(right, 0) == []
  {
  }

  /** Requeueing keeps the window in order; an ID that is not restored was already there
      or the window is now full. */
  lemma RequeueKeepsWindow(queue: seq<ID>, ids: seq<ID>)
    requires WindowOk(queue, Members(queue))
    ensures WindowOk(Requeue(queue, ids), Members(Requeue(queue, ids)))
    ensures forall id | id in ids :: id in Requeue(queue, ids) || |Requeue(queue, ids)| == ACK_QUEUE_LIMIT
    ensures NoRepeats(ids) ==>
              Requeue(queue, ids) == Front(Unknown(ids, Members(queue)), ACK_QUEUE_LIMIT - |queue|) + queue
  {
    KeptFacts(ids, Members(queue), ACK_QUEUE_LIMIT - |queue|);
    NoRepeatsConcat(Kept(ids, Members(queue), ACK_QUEUE_LIMIT - |queue|), queue);
    if NoRepeats(ids) {
      assert Members(queue) + {} == Members(queue);
      KeptIsPrefix(ids, Members(queue), {}, ACK_QUEUE_LIMIT - |queue|);
    }
  }

  lemma {:induction false} NothingKnown(ids: seq<ID>, known: set<ID>)
    requires forall id | id in ids :: id !in known
    ensures Unknown(ids, known) == ids
  {
    if ids != [] { NothingKnown(ids[1..], known); }
  }

  /** A direct send that fails, with nothing enqueued meanwhile, leaves the queue as it was. */
  lemma FailedSendRestores(queue: seq<ID>)
    requires WindowOk(queue, Members(queue))
    ensures var n := BatchSize(queue); Requeue(queue[n..], queue[..n]) == queue
  {
    var n := BatchSize(queue);
    RequeueKeepsWindow(queue[n..], queue[..n]);
    NothingKnown(queue[..n], Members(queue[n..]));
  }

  /** After a validated provider failure the front of the window is made of admitted IDs, without
      repetitions and in the order they were returned. */
  lemma ProviderFailureRestores(queue: seq<ID>, batch: seq<ID>, result: Result)
    requires WindowOk(queue, Members(queue)) && Acceptable(batch, result) && result.providerFailed
    ensures var restored := Requeue(queue, result.retry);
            var front := restored[..|restored| - |queue|];
            && restored == front + queue && NoRepeats(front) && Within(front, result.admitted)
            && front <= Unknown(result.retry, Members(queue))
  {
    hide Kept, Unknown, NoRepeats;
    var room := ACK_QUEUE_LIMIT - |queue|;
    var front := Kept(result.retry, Members(queue), room);
    KeptFacts(result.retry, Members(queue), room);
    assert Members(queue) + {} == Members(queue);
    KeptIsPrefix(result.retry, Members(queue), {}, room);
    assert Requeue(queue, result.retry)[..|front|] == front;
  }

  // ----- What a coordinator may return ----------------------------------------------

  /** An acceptable result: known IDs, no repetitions, and after a provider
      failure a non-empty retry list taken from what was admitted. */
  ghost predicate Acceptable(candidates: seq<ID>, result: Result) {
    && NoRepeats(result.admitted) && Within(result.admitted, candidates)
    && NoRepeats(result.retry) && Within(result.retry, candidates)
    && (result.providerFailed ==> result.retry != [] && Within(result.retry, result.admitted))
  }

  /** One list of the result, read as validateACKCoordinationResult reads it. */
  method ReadList(candidates: set<ID>, ids: seq<ID>, allowed: set<ID>) returns (ok: bool, seen: set<ID>)
    ensures ok <==> NoRepeats(ids) && forall id | id in ids :: id in candidates && id in allowed
    ensures ok ==> seen == Members(ids)
  {
    seen := {};
    for k := 0 to |ids|
      invariant NoRepeats(ids[..k]) && seen == Members(ids[..k])
      invariant forall id | id in ids[..k] :: id in candidates && id in allowed
    {
      if ids[k] !in candidates || ids[k] in seen || ids[k] !in allowed {
        return false, seen;
      }
      assert ids[..k + 1] == ids[..k] + [ids[k]];
      seen := seen + {ids[k]};
    }
    assert ids[..|ids|] == ids;
    ok := true;
  }

  method ValidateACKCoordinationResult(candidates: seq<ID>, result: Result) returns (ok: bool)
    ensures ok <==> Acceptable(candidates, result)
  {
    var candidateSet := Members(candidates);
    var admittedOk, admitted := ReadList(candidateSet, result.admitted, candidateSet);
    if !admittedOk {
      return false;
    }
    var retryOk, _ := ReadList(candidateSet, result.retry, if result.providerFailed then admitted else candidateSet);
    if !retryOk {
      return false;
    }
    ok := !(result.providerFailed && |result.retry| == 0);
  }

  // ----- In place ---------------------------------------------------------------------

  class AckWindow {
    var ackMap: seq<ID>
    var ackSet: set<ID>

    ghost predicate Valid()
      reads this
    {
      WindowOk(ackMap, ackSet)
    }

    constructor ()
      ensures Valid() && ackMap == []
    {
      ackMap, ackSet := [], {};
    }

    /** queueMessageAck; `valid` is ValidProviderResponseID(id). */
    method QueueMessageAck(id: ID, valid: bool)
      requires Valid()
      modifies this
      ensures Valid() && ackMap == if valid then Enqueue(old(ackMap), id) else old(ackMap)
      ensures ackMap == old(ackMap) + if valid && id !in old(ackMap) && |old(ackMap)| < 1024 then [id] else []
    {
      if !valid {
        return;
      }
      if id in ackSet {
        return;
      }
      if |ackMap| >= ACK_QUEUE_LIMIT {
        return;
      }
      ackSet := ackSet + {id};
      ackMap := ackMap + [id];
    }

    /** The locked section at the start of sendAckRequestContext. */
    method TakeBatch() returns (batch: seq<ID>)
      requires Valid()
      modifies this
      ensures Valid() && |batch| == (if |old(ackMap)| < 256 then |old(ackMap)| else 256)
      ensures batch + ackMap == old(ackMap)
      ensures batch == old(ackMap)[..BatchSize(old(ackMap))] && ackMap == old(ackMap)[BatchSize(old(ackMap))..]
    {
      var n := if |ackMap| < ACK_BATCH_LIMIT then |ackMap| else ACK_BATCH_LIMIT;
      batch := ackMap[..n];
      ackMap := ackMap[n..];
      for k := 0 to n
        invariant ackMap == old(ackMap)[n..] && batch == old(ackMap)[..n]
        invariant ackSet == Members(old(ackMap)[k..])
      {
        assert old(ackMap)[k..] == [batch[k]] + old(ackMap)[k + 1..];
        ackSet := ackSet - {batch[k]};
      }
    }

    method RequeueMessageACKs(ids: seq<ID>)
      requires Valid()
      modifies this
      ensures Valid() && ackMap == Requeue(old(ackMap), ids)
    {
      var prefix: seq<ID> := [];
      hide Kept, NoRepeats;
      ghost var known, room := ackSet, ACK_QUEUE_LIMIT - |ackMap|;
      assert ids[0..] == ids;
      for k := 0 to |ids|
        invariant ackMap == old(ackMap) && ackSet == known + Members(prefix) && |prefix| <= room
        invariant prefix + Kept(ids[k..], ackSet, room - |prefix|) == Kept(ids, known, room)
      {
        KeptStep(prefix, ids, k, ackSet, room - |prefix|);
        if ids[k] !in ackSet && |prefix| + |ackMap| < ACK_QUEUE_LIMIT {
          ackSet := ackSet + {ids[k]};
          prefix := prefix + [ids[k]];
        }
      }
      KeptNothing(prefix, ids, ackSet, room - |prefix|);
      assert prefix == Kept(ids, known, room);
      if |prefix| > 0 {
        ackMap := prefix + ackMap;
      }
      assert ackMap == Requeue(old(ackMap), ids);
      assert Members(ackMap) == ackSet;
      RequeueKeepsWindow(old(ackMap), ids);
    }
  }
}
