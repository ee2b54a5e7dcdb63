/** Consuming one fetch of command records: an untrusted record is a barrier for
    its partition, and an offset is committed only after its command was submitted
    or dead-lettered. The authenticator, the authorizer, the command service, the
    dead-letter store and the broker answer as they like. */
module KafkaFetch {
  import opened Wrappers

  const MAX_COMMAND_BYTES := 0x10_0000

  datatype Key = Key(topic: string, partition: int)

  datatype Record = Record(key: Key, offset: int, value: seq<nat>)

  datatype Submission = Submitted | Rejected | Failed

  /** What the outside answers for one record. */
  datatype Answers = Answers(
    authenticated: Option<string>,
    tenant: Option<string>,
    decoded: Option<string>,       // the tenant named by a well-formed command
    submission: Submission,
    stored: bool,
    committed: bool)

  datatype Adapter = Adapter(bindings: map<string, string>, sharedTopic: string, hasAuthenticator: bool,
      topics: set<string>)

  /** Successful outside effects, by the index of the record in the fetch; a submission and a dead letter
      name the tenant they are charged to. */
  datatype Event =
    | SubmittedAt(i: nat, tenant: string)
    | StoredAt(i: nat, tenant: string)
    | CommittedAt(i: nat)
    | PausedAt(i: nat)

  type Fetch = seq<Option<Record>>
  type World = nat -> Answers

  // ----- One record -------------------------------------------------------------------------

  /** trustedCommandRecord: the authenticated principal, or None for an unmapped record. */
  function Principal(adapter: Adapter, record: Record, answers: Answers): Option<string> {
    var topic := record.key.topic;
    if topic in adapter.bindings then (if adapter.bindings[topic] == "" then None else Some(adapter.bindings[topic]))
    else if topic == adapter.sharedTopic && adapter.hasAuthenticator then
      if 0 < |record.value| <= MAX_COMMAND_BYTES && answers.authenticated.Some? && answers.authenticated.value != ""
      then answers.authenticated else None
    else None
  }

  predicate WellFormed(adapter: Adapter, record: Record, answers: Answers) {
    && record.key.topic in adapter.topics && 0 < |record.value| <= MAX_COMMAND_BYTES
    && answers.decoded.Some? && answers.decoded == answers.tenant
  }

  function Commit(i: nat, first: Event, answers: Answers): (seq<Event>, bool) {
    if answers.committed then ([first, CommittedAt(i)], true) else ([first], false)
  }

  /** What handling record `i` does, and whether it succeeds. */
  function Effects(adapter: Adapter, i: nat, record: Record, answers: Answers): (seq<Event>, bool) {
    if answers.tenant.None? || answers.tenant.value == "" then ([], false)
    else if WellFormed(adapter, record, answers) && answers.submission.Submitted?
        then Commit(i, SubmittedAt(i, answers.tenant.value), answers)
    else if WellFormed(adapter, record, answers) && answers.submission.Failed? then ([], false)
    else if answers.stored then Commit(i, StoredAt(i, answers.tenant.value), answers)
    else ([], false)
  }

  class Consumer {
    const adapter: Adapter
    var log: seq<Event>

    constructor (adapter: Adapter)
      ensures this.adapter == adapter && log == []
    {
      this.adapter := adapter;
      log := [];
    }

    method CommitOffset(i: nat, answers: Answers) returns (ok: bool)
      modifies this
      ensures ok == answers.committed && log == old(log) + if ok then [CommittedAt(i)] else []
    {
      ok := answers.committed;
      if ok {
        log := log + [CommittedAt(i)];
      }
    }

    method DeadLetterAndCommit(i: nat, tenant: string, answers: Answers) returns (ok: bool)
      modifies this
      ensures ok == (answers.stored && answers.committed)
      ensures log == old(log) + if answers.stored then Commit(i, StoredAt(i, tenant), answers).0 else []
    {
      if !answers.stored {
        return false;
      }
      log := log + [StoredAt(i, tenant)];
      ok := CommitOffset(i, answers);
    }

    method Handle(i: nat, record: Record, principal: string, answers: Answers) returns (ok: bool)
      modifies this
      ensures principal == "" ==> !ok && log == old(log)
      ensures principal != "" ==> ok == Effects(adapter, i, record, answers).1
      ensures principal != "" ==> log == old(log) + Effects(adapter, i, record, answers).0
    {
      if principal == "" {
        return false;
      }
      if answers.tenant.None? || answers.tenant.value == "" {
        return false;
      }
      var tenant := answers.tenant.value;
      if record.key.topic !in adapter.topics || |record.value| == 0 || |record.value| > MAX_COMMAND_BYTES {
        ok := DeadLetterAndCommit(i, tenant, answers);
        return;
      }
      if answers.decoded.None? {
        ok := DeadLetterAndCommit(i, tenant, answers);
        return;
      }
      if answers.decoded.value != tenant {
        ok := DeadLetterAndCommit(i, tenant, answers);
        return;
      }
      match answers.submission {
        case Rejected => ok := DeadLetterAndCommit(i, tenant, answers);
        case Failed => ok := false;
        case Submitted =>
          log := log + [SubmittedAt(i, tenant)];
          ok := CommitOffset(i, answers);
      }
    }

    /** processCommandFetch; `stop` is the record at which an error ended the fetch, if one did. */
    method ProcessCommandFetch(records: Fetch, world: World) returns (ok: bool, stop: nat)
      modifies this
      ensures stop <= |records| && (ok <==> stop == |records|)
      ensures forall i | 0 <= i < stop :: Passes(adapter, records, world, i)
      ensures !ok ==> !Passes(adapter, records, world, stop)
      ensures log == old(log) + Run(adapter, records, world, if ok then stop else stop + 1)
    {
      hide Effects, Principal, Barred, Trusted, Passes;
      var blocked: set<Key> := {};
      assert forall key: Key :: !Barred(adapter, records, world, key, 0) by { NothingBarred(adapter, records, world); }
      for i := 0 to |records|
        invariant forall j | 0 <= j < i :: Passes(adapter, records, world, j)
        invariant forall key: Key :: key in blocked <==> Barred(adapter, records, world, key, i)
        invariant log == old(log) + Run(adapter, records, world, i)
      {
        BarredStep(adapter, records, world, i);
        PassesExactly(adapter, records, world, i);
        if records[i].None? {
          return false, i;
        }
        var record := records[i].value;
        if record.key in blocked {
          continue;
        }
        var principal := Principal(adapter, record, world(i));
        PrincipalIsNamed(adapter, records, world, i);
        if principal.None? {
          blocked := blocked + {record.key};
          log := log + [PausedAt(i)];
          continue;
        }
        var good := Handle(i, record, principal.value, world(i));
        if !good {
          return false, i;
        }
      }
      return true, |records|;
    }
  }

  // ----- The fetch as a whole -----------------------------------------------------------------

  /** Somebody answers for the record: its topic is bound to a principal, or it came over the shared topic
      with an acceptable size and the authenticator named its producer. */
  predicate Trusted(adapter: Adapter, records: Fetch, world: World, i: nat)
    requires i < |records|
  {
    records[i].Some? && var record, answers := records[i].value, world(i);
    if record.key.topic in adapter.bindings then adapter.bindings[record.key.topic] != ""
    else
      && adapter.hasAuthenticator && record.key.topic == adapter.sharedTopic && 1 <= |record.value| <= 1024 * 1024
      && answers.authenticated.Some? && answers.authenticated.value != ""
  }

  /** An untrusted record of this partition came before position `n`. */
  ghost predicate Barred(adapter: Adapter, records: Fetch, world: World, key: Key, n: nat) {
    exists j: nat :: j < n && j < |records| && records[j].Some? && records[j].value.key == key
        && !Trusted(adapter, records, world, j)
  }

  /** Trusted, with no untrusted record of its partition before it. */
  ghost predicate Eligible(adapter: Adapter, records: Fetch, world: World, i: nat)
    requires i < |records|
  {
    Trusted(adapter, records, world, i) && !Barred(adapter, records, world, records[i].value.key, i)
  }

  /** An allowed topic, a payload of 1 byte to 1 MiB, and a command in the name of the authorised tenant. */
  predicate Acceptable(adapter: Adapter, record: Record, decoded: Option<string>, tenant: string) {
    record.key.topic in adapter.topics && 1 <= |record.value| <= 1024 * 1024 && decoded == Some(tenant)
  }

  /** The record does not end the fetch: once it is eligible, its producer is authorised, the command is
      submitted or set aside, and the offset is committed. */
  ghost predicate Passes(adapter: Adapter, records: Fetch, world: World, i: nat)
    requires i < |records|
  {
    records[i].Some? && var record, answers := records[i].value, world(i);
    Eligible(adapter, records, world, i) ==>
      && answers.tenant.Some? && answers.tenant.value != "" && answers.committed
      && if Acceptable(adapter, record, answers.decoded, answers.tenant.value) && !answers.submission.Rejected?
         then answers.submission.Submitted?
         else answers.stored
  }

  /** The effects of the first `n` records. */
  ghost function Run(adapter: Adapter, records: Fetch, world: World, n: nat): seq<Event>
    requires n <= |records|
  {
    if n == 0 then [] else Run(adapter, records, world, n - 1) + Contribution(adapter, records, world, n - 1)
  }

  ghost function Contribution(adapter: Adapter, records: Fetch, world: World, i: nat): seq<Event>
    requires i < |records|
  {
    if records[i].None? then []
    else if Eligible(adapter, records, world, i) then Effects(adapter, i, records[i].value, world(i)).0
    else if Barred(adapter, records, world, records[i].value.key, i) then []
    else [PausedAt(i)]
  }

  lemma PassesExactly(adapter: Adapter, records: Fetch, world: World, i: nat)
    requires i < |records|
    ensures Passes(adapter, records, world, i) <==>
              records[i].Some? && (Eligible(adapter, records, world, i) ==>
                                     Effects(adapter, i, records[i].value, world(i)).1)
  {
  }

  lemma NothingBarred(adapter: Adapter, records: Fetch, world: World)
    ensures forall key: Key :: !Barred(adapter, records, world, key, 0)
  {
  }

  lemma PrincipalIsNamed(adapter: Adapter, records: Fetch, world: World, i: nat)
    requires i < |records| && records[i].Some?
    ensures var principal := Principal(adapter, records[i].value, world(i));
            principal != Some("") && (principal.Some? <==> Trusted(adapter, records, world, i))
  {
  }

  lemma BarredStep(adapter: Adapter, records: Fetch, world: World, i: nat)
    requires i < |records|
    ensures forall key: Key :: Barred(adapter, records, world, key, i + 1) <==>
              || Barred(adapter, records, world, key, i)
              || (records[i].Some? && records[i].value.key == key && !Trusted(adapter, records, world, i))
  {
    forall key: Key
      ensures Barred(adapter, records, world, key, i + 1) <==>
                || Barred(adapter, records, world, key, i)
                || (records[i].Some? && records[i].value.key == key && !Trusted(adapter, records, world, i))
    {
      if Barred(adapter, records, world, key, i) {
        var j: nat :| j < i && j < |records| && records[j].Some? && records[j].value.key == key
            && !Trusted(adapter, records, world, j);
        assert j < i + 1;
      }
    }
  }

  // ----- The theorems ---------------------------------------------------------------------------

  lemma EffectsShape(adapter: Adapter, i: nat, record: Record, answers: Answers)
    ensures var (events, ok) := Effects(adapter, i, record, answers);
            && (events == [] || ((events[0].SubmittedAt? || events[0].StoredAt?) && events[0].i == i))
            && (|events| <= 1 || events == [events[0], CommittedAt(i)])
            && (ok <==> CommittedAt(i) in events)
  {
  }

  /** Handling one record, event by event and without its program. */
  lemma EffectsExactly(adapter: Adapter, i: nat, record: Record, answers: Answers)
    ensures var (events, ok) := Effects(adapter, i, record, answers);
            var named := answers.tenant.Some? && answers.tenant.value != "";
            && (forall tenant :: SubmittedAt(i, tenant) in events <==>
                  && named && answers.tenant == Some(tenant)
                  && Acceptable(adapter, record, answers.decoded, tenant) && answers.submission.Submitted?)
            && (forall tenant :: StoredAt(i, tenant) in events <==>
                  && named && answers.tenant == Some(tenant) && answers.stored
                  && !(Acceptable(adapter, record, answers.decoded, tenant) && !answers.submission.Rejected?))
            && (CommittedAt(i) in events <==> events != [] && answers.committed)
            && (ok <==> CommittedAt(i) in events)
  {
  }

  /** Only record `i` is behind an event that carries its index. */
  lemma {:induction false} EventsAreOwn(adapter: Adapter, records: Fetch, world: World, n: nat, event: Event)
    requires n <= |records|
    ensures event in Run(adapter, records, world, n) <==>
              event.i < n && event in Contribution(adapter, records, world, event.i)
  {
    hide Effects, Trusted, Barred;
    if n > 0 {
      EventsAreOwn(adapter, records, world, n - 1, event);
      if records[n - 1].Some? { EffectsShape(adapter, n - 1, records[n - 1].value, world(n - 1)); }
    }
  }

  /** A command is submitted exactly when its record is eligible, its producer's tenant is authorised, its
      topic is allowed, its size is 1 byte to 1 MiB, the command names that same tenant, and the service
      accepts it; and it is submitted for that tenant. */
  lemma SubmittedExactly(adapter: Adapter, records: Fetch, world: World, n: nat, i: nat, tenant: string)
    requires n <= |records|
    ensures SubmittedAt(i, tenant) in Run(adapter, records, world, n) <==>
              && i < n && Eligible(adapter, records, world, i)
              && var record, answers := records[i].value, world(i);
              && tenant != "" && answers.tenant == Some(tenant) && answers.decoded == Some(tenant)
              && record.key.topic in adapter.topics && 1 <= |record.value| <= 1024 * 1024
              && answers.submission == Submitted
  {
    hide Effects, Barred, Run;
    EventsAreOwn(adapter, records, world, n, SubmittedAt(i, tenant));
    if i < n && records[i].Some? { EffectsExactly(adapter, i, records[i].value, world(i)); }
  }

  /** A record is dead-lettered exactly when it is eligible, its producer's tenant is authorised, the store
      takes it, and the record is malformed, names another tenant or is rejected; and the dead letter
      belongs to the authorised tenant, whatever the command claims. */
  lemma StoredExactly(adapter: Adapter, records: Fetch, world: World, n: nat, i: nat, tenant: string)
    requires n <= |records|
    ensures StoredAt(i, tenant) in Run(adapter, records, world, n) <==>
              && i < n && Eligible(adapter, records, world, i)
              && var record, answers := records[i].value, world(i);
              && tenant != "" && answers.tenant == Some(tenant) && answers.stored
              && (|| record.key.topic !in adapter.topics || |record.value| == 0 || |record.value| > 1024 * 1024
                  || answers.decoded == None || answers.decoded.value != tenant || answers.submission == Rejected)
  {
    hide Effects, Barred, Run;
    EventsAreOwn(adapter, records, world, n, StoredAt(i, tenant));
    if i < n && records[i].Some? { EffectsExactly(adapter, i, records[i].value, world(i)); }
  }

  /** A partition is paused exactly at its first untrusted record. */
  lemma PausedExactly(adapter: Adapter, records: Fetch, world: World, n: nat, i: nat)
    requires n <= |records|
    ensures PausedAt(i) in Run(adapter, records, world, n) <==>
              && i < n && records[i].Some? && !Trusted(adapter, records, world, i)
              && !Barred(adapter, records, world, records[i].value.key, i)
  {
    hide Effects, Barred, Run;
    EventsAreOwn(adapter, records, world, n, PausedAt(i));
    if i < n && records[i].Some? { EffectsShape(adapter, i, records[i].value, world(i)); }
  }

  /** Exactly the eligible records whose handling got that far are committed. */
  lemma CommittedExactly(adapter: Adapter, records: Fetch, world: World, n: nat, i: nat)
    requires n <= |records|
    ensures CommittedAt(i) in Run(adapter, records, world, n) <==>
              i < n && Eligible(adapter, records, world, i) && Passes(adapter, records, world, i)
  {
    hide Effects, Barred, Run;
    EventsAreOwn(adapter, records, world, n, CommittedAt(i));
    if i < n && records[i].Some? {
      EffectsShape(adapter, i, records[i].value, world(i));
      EffectsExactly(adapter, i, records[i].value, world(i));
    }
  }

  /** Every commit directly follows the submission or the dead letter of the same record. */
  lemma {:induction false} CommitsFollowDurableWork(adapter: Adapter, records: Fetch, world: World, n: nat, k: nat)
    requires n <= |records| && k < |Run(adapter, records, world, n)|
    requires Run(adapter, records, world, n)[k].CommittedAt?
    ensures var log := Run(adapter, records, world, n);
            k > 0 && (log[k - 1].SubmittedAt? || log[k - 1].StoredAt?) && log[k - 1].i == log[k].i
  {
    var before := Run(adapter, records, world, n - 1);
    if k < |before| {
      CommitsFollowDurableWork(adapter, records, world, n - 1, k);
    } else {
      EffectsShape(adapter, n - 1, records[n - 1].value, world(n - 1));
    }
  }

  predicate InPartition(records: Fetch, i: nat, key: Key) {
    i < |records| && records[i].Some? && records[i].value.key == key
  }

  /** For a fetch that read `n` records, of which only the last may have ended it: in every partition
      the committed records are a prefix, none is at or after an untrusted one, and an untrusted record
      holds back no other partition. */
  lemma CommittedIsPartitionPrefix(adapter: Adapter, records: Fetch, world: World, n: nat, key: Key, j: nat)
    requires n <= |records| && forall k: nat | k + 1 < n :: Passes(adapter, records, world, k)
    requires j < n && InPartition(records, j, key)
    ensures CommittedAt(j) in Run(adapter, records, world, n) <==>
              && Passes(adapter, records, world, j)
              && forall k: nat | k <= j && InPartition(records, k, key) :: Trusted(adapter, records, world, k)
    ensures CommittedAt(j) in Run(adapter, records, world, n) ==>
              forall i: nat | i <= j && InPartition(records, i, key) ::
                  CommittedAt(i) in Run(adapter, records, world, n)
  {
    hide Run, Effects;
    CommittedExactly(adapter, records, world, n, j);
    if Eligible(adapter, records, world, j) {
      forall i: nat | i <= j && InPartition(records, i, key)
        ensures Trusted(adapter, records, world, i)
        ensures Passes(adapter, records, world, j) ==> CommittedAt(i) in Run(adapter, records, world, n)
      {
        CommittedExactly(adapter, records, world, n, i);
        assert i < j ==> Passes(adapter, records, world, i);
        EligibleEarlier(adapter, records, world, key, i, j);
      }
    }
  }

  lemma EligibleEarlier(adapter: Adapter, records: Fetch, world: World, key: Key, i: nat, j: nat)
    requires i <= j && InPartition(records, i, key) && InPartition(records, j, key)
        && Eligible(adapter, records, world, j)
    ensures Eligible(adapter, records, world, i)
  {
  }
}
