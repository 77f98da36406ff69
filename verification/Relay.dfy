/** dao/redis/outbox.go and worker/vote_relay.go: reading the outbox, publishing, acknowledging. */
module VoteRelay {
  import opened VoteModel
  import opened RedisStore
  import opened OutboxCodec
  import opened Ordering
  import opened VoteBroker
  import opened VoteDelivery
  import opened VotePipeline
  import opened PipelineInvariant
  import opened PipelineSteps
  import Runs
  import Totals

  /** VoteOutboxMessage. */
  datatype OutboxMessage = OutboxMessage(streamId: nat, event: WireEvent)

  function GroupOf(st: Stream): Group {
    match st.group case Some(g) => g case None => Group(0, map[])
  }

  function WithGroup(ks: Keyspace, g: Group): Keyspace {
    ks[VoteOutbox := Log(Outbox(ks).(group := Some(g)))]
  }

  // dao/redis/outbox.go

  /** EnsureVoteOutboxGroup: XGROUP CREATE ... MKSTREAM from the beginning; an existing group
      is left as it is. */
  method EnsureVoteOutboxGroup(server: RedisServer) returns (ok: bool)
    modifies server
    ensures server.keys == old(server.keys)
      || (TypeIs(old(server.keys), VoteOutbox, StreamKind)
          && server.keys == WithGroup(old(server.keys), GroupOf(Outbox(old(server.keys)))))
    ensures ok ==> Outbox(server.keys).group.Some?
    ensures old(server.faults) == [] ==> server.faults == [] && (ok <==> TypeIs(old(server.keys), VoteOutbox, StreamKind))
  {
    var fault := server.NextFault();
    if fault == Lost {
      return false;
    }
    ok := TypeIs(server.keys, VoteOutbox, StreamKind);
    if ok && Outbox(server.keys).group.None? {
      server.keys := WithGroup(server.keys, Group(0, map[]));
    }
    ok := ok && fault == Done;
  }

  /** The entries XREADGROUP may hand out: with `onlyNew` those beyond the last delivered id,
      otherwise the consumer's own pending ones. */
  function Eligible(st: Stream, consumer: string, onlyNew: bool): set<int> {
    set sid: nat | sid in st.entries && IsEligible(st, consumer, onlyNew, sid)
  }

  predicate IsEligible(st: Stream, consumer: string, onlyNew: bool, sid: nat)
    requires sid in st.entries
  {
    if onlyNew then sid > GroupOf(st).delivered
    else sid in GroupOf(st).pending && GroupOf(st).pending[sid] == consumer
  }

  function FirstOf(ids: seq<int>, count: nat): (r: seq<int>)
    ensures r <= ids
    ensures |r| <= count
    ensures ids != [] && count > 0 ==> r != []
  {
    if |ids| <= count then ids else ids[..count]
  }

  /** The ids one XREADGROUP returns, in order. */
  function HandedOut(st: Stream, consumer: string, onlyNew: bool, count: nat): (ids: seq<nat>)
    ensures Increasing(ids) && |ids| <= count
    ensures forall i | 0 <= i < |ids| :: ids[i] in st.entries && IsEligible(st, consumer, onlyNew, ids[i])
  {
    var all := Ascending(Eligible(st, consumer, onlyNew));
    var ids := FirstOf(all, count);
    assert forall i | 0 <= i < |ids| :: ids[i] == all[i] && all[i] in all;
    ids
  }

  function Owned(ids: seq<nat>, consumer: string): map<nat, string> {
    map sid: nat | sid in ids :: consumer
  }

  function GroupAfterRead(st: Stream, consumer: string, onlyNew: bool, count: nat): Group {
    var ids := HandedOut(st, consumer, onlyNew, count);
    if onlyNew && ids != [] then
      assert ids[|ids| - 1] in st.entries;
      Group(ids[|ids| - 1], GroupOf(st).pending + Owned(ids, consumer))
    else GroupOf(st)
  }

  /** XREADGROUP moves the group forward without skipping an entry. */
  lemma ReadAdvances(st: Stream, consumer: string, onlyNew: bool, count: nat)
    requires forall sid | sid in st.entries :: sid <= st.lastId
    ensures Advances(st, GroupAfterRead(st, consumer, onlyNew, count))
  {
    var ids := HandedOut(st, consumer, onlyNew, count);
    var all := Ascending(Eligible(st, consumer, onlyNew));
    if onlyNew && ids != [] {
      var last := ids[|ids| - 1];
      assert last in st.entries;
      forall sid: nat | sid in st.entries && sid <= last && sid > DeliveredUpTo(st)
        ensures sid in ids
      {
        assert sid in all;
        UpToLastIsInPrefix(all, |ids|, sid);
      }
    }
  }

  ghost predicate WellFormedEntries(st: Stream) {
    forall sid | sid in st.entries :: WellFormed(st.entries[sid])
  }

  predicate IsEntry(st: Stream, m: OutboxMessage) {
    && m.streamId in st.entries
    && Decodable(st.entries[m.streamId])
    && m.event == WireOf(st.entries[m.streamId])
  }

  /** `messages` are entries of the stream, decoded, in stream order. */
  ghost predicate ReadFrom(st: Stream, messages: seq<OutboxMessage>) {
    && (forall i | 0 <= i < |messages| :: IsEntry(st, messages[i]))
    && (forall i, j | 0 <= i < j < |messages| :: messages[i].streamId < messages[j].streamId)
  }

  function Ids(messages: seq<OutboxMessage>): (ids: seq<nat>)
    ensures |ids| == |messages|
    ensures forall i | 0 <= i < |ids| :: ids[i] == messages[i].streamId
  {
    if messages == [] then [] else [messages[0].streamId] + Ids(messages[1..])
  }

  method DecodeOne(e: VoteEvent) returns (r: Option<WireEvent>)
    requires WellFormed(e)
    ensures r.Some? <==> Decodable(e)
    ensures r.Some? ==> r.value == WireOf(e)
  {
    OutboxRoundTrip(e);
    match VoteEventFromStream(ScriptFields(e))
    case Success(event) => r := Some(event);
    case Failure(_) => r := None;
  }

  ghost predicate AllReadable(st: Stream, ids: seq<nat>) {
    forall i | 0 <= i < |ids| :: ids[i] in st.entries && Decodable(st.entries[ids[i]])
  }

  lemma GroupDoesNotMatter(ks: Keyspace, g: Group, messages: seq<OutboxMessage>)
    requires ReadFrom(Outbox(ks), messages)
    ensures ReadFrom(Outbox(WithGroup(ks, g)), messages)
  {
    forall i | 0 <= i < |messages|
      ensures IsEntry(Outbox(WithGroup(ks, g)), messages[i])
    {
      assert IsEntry(Outbox(ks), messages[i]);
    }
  }

  /** Decoding a batch: one unreadable entry fails it all. */
  method DecodeAll(st: Stream, ids: seq<nat>) returns (r: Option<seq<OutboxMessage>>)
    requires WellFormedEntries(st) && Increasing(ids)
    requires forall i | 0 <= i < |ids| :: ids[i] in st.entries
    ensures r.Some? <==> AllReadable(st, ids)
    ensures r.Some? ==> ReadFrom(st, r.value) && Ids(r.value) == ids
  {
    var messages: seq<OutboxMessage> := [];
    for i := 0 to |ids|
      invariant |messages| == i
      invariant forall j | 0 <= j < i :: messages[j].streamId == ids[j]
      invariant ReadFrom(st, messages)
      invariant forall j | 0 <= j < i :: Decodable(st.entries[ids[j]])
    {
      var event := DecodeOne(st.entries[ids[i]]);
      if event.None? {
        return None;
      }
      messages := messages + [OutboxMessage(ids[i], event.value)];
      assert IsEntry(st, messages[i]);
    }
    r := Some(messages);
  }

  /** ReadVoteOutbox. The entries are marked as delivered even if decoding fails. */
  method ReadVoteOutbox(server: RedisServer, consumer: string, onlyNew: bool, count: nat)
    returns (r: Option<seq<OutboxMessage>>)
    requires WellFormedEntries(Outbox(server.keys)) && count > 0
    modifies server
    ensures server.keys == old(server.keys)
      || server.keys == WithGroup(old(server.keys), GroupAfterRead(Outbox(old(server.keys)), consumer, onlyNew, count))
    ensures r.Some? ==>
      && server.keys == WithGroup(old(server.keys), GroupAfterRead(Outbox(old(server.keys)), consumer, onlyNew, count))
      && ReadFrom(Outbox(server.keys), r.value)
      && Ids(r.value) == HandedOut(Outbox(old(server.keys)), consumer, onlyNew, count)
    ensures old(server.faults) == [] && Outbox(old(server.keys)).group.Some? ==>
      server.keys == WithGroup(old(server.keys), GroupAfterRead(Outbox(old(server.keys)), consumer, onlyNew, count))
    ensures old(server.faults) == [] ==> server.faults == []
    ensures old(server.faults) == [] && Outbox(old(server.keys)).group.Some? ==>
      (r.Some? <==> AllReadable(Outbox(old(server.keys)), HandedOut(Outbox(old(server.keys)), consumer, onlyNew, count)))
  {
    var fault := server.NextFault();
    var st := Outbox(server.keys);
    if fault == Lost || st.group.None? {
      return None;
    }
    server.keys := WithGroup(server.keys, GroupAfterRead(st, consumer, onlyNew, count));
    if fault == Unreported {
      return None;
    }
    r := DecodeAll(st, HandedOut(st, consumer, onlyNew, count));
    if r.Some? {
      GroupDoesNotMatter(old(server.keys), GroupAfterRead(st, consumer, onlyNew, count), r.value);
    }
  }

  /** AckVoteOutbox: XACK and XDEL in one script. */
  method AckVoteOutbox(server: RedisServer, sid: nat) returns (ok: bool, ghost applied: bool)
    modifies server
    ensures server.keys ==
      if applied then old(server.keys)[VoteOutbox := Log(WithoutEntry(Outbox(old(server.keys)), sid))] else old(server.keys)
    ensures ok && sid in Outbox(old(server.keys)).entries ==> applied
    ensures old(server.faults) == [] ==> server.faults == []
    ensures old(server.faults) == [] && sid in Outbox(old(server.keys)).entries ==> ok
  {
    var fault := server.NextFault();
    applied := false;
    if fault == Lost || !TypeIs(server.keys, VoteOutbox, StreamKind) {
      ok := false;
      return;
    }
    if VoteOutbox in server.keys {
      server.keys := server.keys[VoteOutbox := Log(WithoutEntry(Outbox(server.keys), sid))];
      applied := true;
    }
    ok := fault == Done;
  }

  /** The idle entries among the first `count` pending ones, in order. */
  function Stale(st: Stream, inspected: seq<int>, idle: set<nat>): (ids: seq<nat>)
    requires Increasing(inspected)
    ensures Increasing(ids)
    ensures forall i | 0 <= i < |ids| :: ids[i] in st.entries && IsPending(st, ids[i]) && ids[i] in inspected
    decreases |inspected|
  {
    if inspected == [] then []
    else
      var n := |inspected| - 1;
      var ids, sid := Stale(st, inspected[..n], idle), inspected[n];
      assert sid in inspected && forall x | x in inspected[..n] :: x in inspected && x < sid;
      if sid in idle && sid in st.entries && IsPending(st, sid) then ids + [sid] else ids
  }

  function ToClaim(st: Stream, count: nat, idle: set<nat>): (ids: seq<nat>)
    ensures Increasing(ids)
    ensures forall i | 0 <= i < |ids| :: ids[i] in st.entries && IsPending(st, ids[i])
  {
    Stale(st, FirstOf(Ascending(set sid: int | sid in GroupOf(st).pending), count), idle)
  }

  function Claimed(st: Stream, ids: seq<nat>, consumer: string): Group {
    Group(GroupOf(st).delivered, GroupOf(st).pending + Owned(ids, consumer))
  }

  /** What XCLAIM leaves behind. */
  function AfterClaim(ks: Keyspace, ids: seq<nat>, consumer: string): Keyspace {
    WithGroup(ks, Claimed(Outbox(ks), ids, consumer))
  }

  lemma ClaimAdvances(st: Stream, ids: seq<nat>, consumer: string)
    ensures Advances(st, Claimed(st, ids, consumer))
  {
  }

  /** ClaimStaleVoteOutbox: XPENDING, then XCLAIM of what has been idle long enough. */
  method ClaimStaleVoteOutbox(server: RedisServer, consumer: string, count: nat, idle: set<nat>)
    returns (r: Option<seq<OutboxMessage>>)
    requires WellFormedEntries(Outbox(server.keys))
    modifies server
    ensures server.keys == old(server.keys)
      || server.keys == AfterClaim(old(server.keys), ToClaim(Outbox(old(server.keys)), count, idle), consumer)
    ensures r.Some? ==> ReadFrom(Outbox(server.keys), r.value)
    ensures r.Some? ==> Ids(r.value) == ToClaim(Outbox(old(server.keys)), count, idle)
    ensures r.Some? && r.value != [] ==>
      server.keys == AfterClaim(old(server.keys), ToClaim(Outbox(old(server.keys)), count, idle), consumer)
    ensures old(server.faults) == [] ==> server.faults == []
    ensures old(server.faults) == [] && Outbox(old(server.keys)).group.Some? ==>
      (r.Some? <==> AllReadable(Outbox(old(server.keys)), ToClaim(Outbox(old(server.keys)), count, idle)))
  {
    var ok := server.Query();
    var st := Outbox(server.keys);
    if !ok || st.group.None? {
      return None;
    }
    var ids := ToClaim(st, count, idle);
    if |ids| == 0 {
      return Some([]);
    }
    var fault := server.NextFault();
    if fault == Lost {
      return None;
    }
    server.keys := AfterClaim(server.keys, ids, consumer);
    if fault == Unreported {
      return None;
    }
    r := DecodeAll(st, ids);
    if r.Some? {
      GroupDoesNotMatter(old(server.keys), Claimed(st, ids, consumer), r.value);
    }
  }

  // worker/vote_relay.go

  /** What the relay works on: everything but MySQL. */
  ghost predicate Sees(s: State, server: RedisServer, broker: Broker)
    reads server, broker
  {
    s.serving && s.redis == server.keys && s.queues == broker.queues
  }

  /** The same system, moved on by the relay alone. */
  ghost predicate MovedOn(s: State, r: State) {
    && Reaches(s, r) && Reachable(r) && r.serving
    && r.history == s.history && r.tables == s.tables && r.maxRetries == s.maxRetries
  }

  lemma MovedOnAgain(s: State, r: State, t: State)
    requires MovedOn(s, r) && MovedOn(r, t)
    ensures MovedOn(s, t)
  {
    Runs.LeadsOnwards(Steps(), s, r, t);
  }

  lemma StaysPut(s: State)
    requires Reachable(s) && s.serving
    ensures MovedOn(s, s)
  {
    Runs.LeadsNowhere(Steps(), s);
  }

  lemma MovesByStep(s: State, a: Action)
    requires Reachable(s) && Enabled(s, a) && (a.PublishOutbox? || a.AckOutbox? || a.ReadOutbox?)
    ensures MovedOn(s, After(s, a))
  {
    OneStep(s, a);
    StaysReachable(s, After(s, a));
  }

  lemma EntryIsEmitted(s: State, m: OutboxMessage)
    requires Reachable(s) && IsEntry(Outbox(s.redis), m)
    ensures
      var e := Outbox(s.redis).entries[m.streamId];
      WellFormed(e) && Emitted(s.history, e) && Decodable(e) && MessageOf(e) == Message(Json(m.event), Absent)
  {
    ReachableInv(s);
    var e := Outbox(s.redis).entries[m.streamId];
    LogIsUnique(s.history, s.issued, s.tables.posts, e, e);
  }

  /** What became of one message. */
  datatype Sent = Sent(stored: bool, confirmed: bool, removed: bool)

  /** Confirmation implies storage, and only a confirmed message leaves the stream. */
  predicate Sound(sent: Sent) {
    (sent.confirmed ==> sent.stored) && (sent.removed ==> sent.confirmed)
  }

  function Removed(ks: Keyspace, sid: nat): Keyspace {
    ks[VoteOutbox := Log(WithoutEntry(Outbox(ks), sid))]
  }

  /** One message: publish, and only when that is confirmed, acknowledge and delete the entry. */
  method PublishOne(client: Client, broker: Broker, server: RedisServer, message: OutboxMessage, env: Surroundings)
    returns (ok: bool, ghost sent: Sent)
    requires client.Valid() && Honest(env.fate) && message.streamId in Outbox(server.keys).entries
    modifies client, broker, server
    ensures client.Valid() && Sound(sent)
    ensures broker.queues ==
      StoredIf(sent.stored, old(broker.queues), MainExchange, Message(Json(message.event), Absent))
    ensures server.keys == if sent.removed then Removed(old(server.keys), message.streamId) else old(server.keys)
    ensures ok ==> sent.removed
    ensures old(server.faults) == [] ==> server.faults == []
    ensures old(server.faults) == [] && Healthy(env) ==> ok
  {
    ghost var stored: bool;
    ok, stored := client.Publish(broker, MainExchange, Message(Json(message.event), Absent), env);
    sent := Sent(stored, ok, false);
    if !ok {
      return;
    }
    ghost var applied: bool;
    ok, applied := AckVoteOutbox(server, message.streamId);
    sent := Sent(stored, true, applied);
  }

  ghost function AfterSend(s: State, m: OutboxMessage, sent: Sent): State
    requires m.streamId in Outbox(s.redis).entries
  {
    var e := Outbox(s.redis).entries[m.streamId];
    s.(queues := StoredIf(sent.stored, s.queues, MainExchange, MessageOf(e)),
       published := if sent.confirmed then s.published + {e} else s.published,
       redis := if sent.removed then Removed(s.redis, m.streamId) else s.redis)
  }

  lemma SendMovesOn(s: State, m: OutboxMessage, sent: Sent)
    requires Reachable(s) && s.serving && IsEntry(Outbox(s.redis), m) && Sound(sent)
    ensures MovedOn(s, AfterSend(s, m, sent))
  {
    var e := Outbox(s.redis).entries[m.streamId];
    EntryIsEmitted(s, m);
    StaysPut(s);
    if sent.stored {
      MovesByStep(s, PublishOutbox(e, sent.confirmed));
    }
    if sent.removed {
      var r := AfterSend(s, m, Sent(true, true, false));
      MovesByStep(r, AckOutbox(m.streamId));
      MovedOnAgain(s, r, AfterSend(s, m, sent));
    }
  }

  /** The stream after the first `n` messages were acknowledged. */
  function Without(st: Stream, messages: seq<OutboxMessage>, n: nat): Stream
    requires n <= |messages|
  {
    if n == 0 then st else WithoutEntry(Without(st, messages, n - 1), messages[n - 1].streamId)
  }

  lemma {:induction false} LaterStays(st: Stream, messages: seq<OutboxMessage>, n: nat, m: OutboxMessage)
    requires n <= |messages| && IsEntry(st, m)
    requires forall j | 0 <= j < n :: messages[j].streamId != m.streamId
    ensures IsEntry(Without(st, messages, n), m)
  {
    if n > 0 {
      LaterStays(st, messages, n - 1, m);
    }
  }

  lemma StillEntry(st: Stream, messages: seq<OutboxMessage>, n: nat)
    requires ReadFrom(st, messages) && n < |messages|
    ensures IsEntry(Without(st, messages, n), messages[n])
  {
    assert IsEntry(st, messages[n]);
    LaterStays(st, messages, n, messages[n]);
  }

  /** The relay has dealt with the first `n` messages and is about to send the next one. */
  ghost predicate Halfway(s: State, r: State, st: Stream, messages: seq<OutboxMessage>, n: nat)
    requires n <= |messages|
  {
    MovedOn(s, r) && Outbox(r.redis) == Without(st, messages, n)
  }

  lemma OneMoreSent(s: State, r: State, st: Stream, messages: seq<OutboxMessage>, n: nat, sent: Sent)
    requires n < |messages| && Halfway(s, r, st, messages, n) && ReadFrom(st, messages) && Sound(sent)
    ensures IsEntry(Outbox(r.redis), messages[n])
    ensures MovedOn(s, AfterSend(r, messages[n], sent))
    ensures Halfway(s, AfterSend(r, messages[n], sent), st, messages, if sent.removed then n + 1 else n)
    ensures MessageOf(Outbox(r.redis).entries[messages[n].streamId]) == Message(Json(messages[n].event), Absent)
  {
    StillEntry(st, messages, n);
    EntryIsEmitted(r, messages[n]);
    SendMovesOn(r, messages[n], sent);
    MovedOnAgain(s, r, AfterSend(r, messages[n], sent));
  }

  /** publishVoteMessages: the messages in order, stopping at the first that is not both
      confirmed and acknowledged. `removed` counts the entries that are gone. */
  method PublishVoteMessages(
    client: Client, broker: Broker, server: RedisServer, messages: seq<OutboxMessage>, envs: seq<Surroundings>,
    ghost s: State)
    returns (complete: bool, ghost removed: nat, ghost r: State)
    requires client.Valid() && |envs| == |messages| && (forall i | 0 <= i < |envs| :: Honest(envs[i].fate))
    requires Reachable(s) && Sees(s, server, broker) && ReadFrom(Outbox(server.keys), messages)
    modifies client, broker, server
    ensures client.Valid() && Sees(r, server, broker)
    ensures removed <= |messages| && Halfway(s, r, Outbox(old(server.keys)), messages, removed)
    ensures complete ==> removed == |messages|
    ensures old(server.faults) == [] ==> server.faults == []
    ensures old(server.faults) == [] && (forall i | 0 <= i < |envs| :: Healthy(envs[i])) ==> complete
  {
    ghost var st := Outbox(server.keys);
    StaysPut(s);
    r, removed := s, 0;
    for i := 0 to |messages|
      invariant client.Valid() && Sees(r, server, broker)
      invariant removed == i && Halfway(s, r, st, messages, i)
      invariant old(server.faults) == [] ==> server.faults == []
    {
      OneMoreSent(s, r, st, messages, i, Sent(false, false, false));
      ghost var sent: Sent;
      complete, sent := PublishOne(client, broker, server, messages[i], envs[i]);
      OneMoreSent(s, r, st, messages, i, sent);
      r := AfterSend(r, messages[i], sent);
      removed := if sent.removed then i + 1 else i;
      if !complete {
        return;
      }
    }
    complete := true;
  }

  const BATCH := 32

  lemma EntriesAreWellFormed(s: State)
    requires Reachable(s)
    ensures WellFormedEntries(Outbox(s.redis))
    ensures forall sid | sid in Outbox(s.redis).entries :: sid <= Outbox(s.redis).lastId
  {
    ReachableInv(s);
    forall sid | sid in Outbox(s.redis).entries
      ensures WellFormed(Outbox(s.redis).entries[sid])
    {
      var e := Outbox(s.redis).entries[sid];
      LogIsUnique(s.history, s.issued, s.tables.posts, e, e);
    }
  }

  ghost function AfterRead(s: State, g: Group): State {
    s.(redis := WithGroup(s.redis, g))
  }

  lemma ReadMovesOn(s: State, consumer: string, onlyNew: bool, count: nat)
    requires Reachable(s) && s.serving
    ensures MovedOn(s, AfterRead(s, GroupAfterRead(Outbox(s.redis), consumer, onlyNew, count)))
  {
    EntriesAreWellFormed(s);
    ReadAdvances(Outbox(s.redis), consumer, onlyNew, count);
    MovesByStep(s, ReadOutbox(GroupAfterRead(Outbox(s.redis), consumer, onlyNew, count)));
  }

  /** Claiming is a run of the pipeline as well, and so is creating the group. */
  lemma ClaimMovesOn(s: State, ids: seq<nat>, consumer: string)
    requires Reachable(s) && s.serving
    ensures MovedOn(s, AfterRead(s, Claimed(Outbox(s.redis), ids, consumer)))
    ensures MovedOn(s, AfterRead(s, GroupOf(Outbox(s.redis))))
  {
    ClaimAdvances(Outbox(s.redis), ids, consumer);
    MovesByStep(s, ReadOutbox(Claimed(Outbox(s.redis), ids, consumer)));
    MovesByStep(s, ReadOutbox(GroupOf(Outbox(s.redis))));
  }

  /** The consumer's own pending entries. */
  function Backlog(st: Stream, consumer: string): set<int> {
    Eligible(st, consumer, false)
  }

  ghost predicate AllDecodable(st: Stream) {
    forall sid | sid in st.entries :: Decodable(st.entries[sid])
  }

  lemma BacklogWithoutEntry(st: Stream, sid: nat, consumer: string)
    ensures Backlog(WithoutEntry(st, sid), consumer) == Backlog(st, consumer) - {sid}
    ensures AllDecodable(st) ==> AllDecodable(WithoutEntry(st, sid))
    ensures WithoutEntry(st, sid).group.Some? <==> st.group.Some?
  {
  }

  function FirstIds(ids: seq<int>, n: nat): set<int>
    requires n <= |ids|
  {
    if n == 0 then {} else FirstIds(ids, n - 1) + {ids[n - 1]}
  }

  lemma OneLess(all: set<int>, gone: set<int>, x: int)
    ensures all - (gone + {x}) == all - gone - {x}
    ensures x in all && x !in gone ==> |all - (gone + {x})| == |all - gone| - 1
  {
    assert all - (gone + {x}) == all - gone - {x};
  }

  lemma {:induction false} LaterIsNotFirst(ids: seq<int>, n: nat, x: int)
    requires n <= |ids| && forall j | 0 <= j < n :: ids[j] < x
    ensures x !in FirstIds(ids, n)
  {
    if n > 0 {
      LaterIsNotFirst(ids, n - 1, x);
    }
  }

  lemma {:induction false} FirstIdsLeave(all: set<int>, ids: seq<int>, n: nat)
    requires n <= |ids| && Increasing(ids) && forall i | 0 <= i < |ids| :: ids[i] in all
    ensures |all - FirstIds(ids, n)| == |all| - n
  {
    if n == 0 {
      assert all - FirstIds(ids, 0) == all;
    } else {
      FirstIdsLeave(all, ids, n - 1);
      LaterIsNotFirst(ids, n - 1, ids[n - 1]);
      OneLess(all, FirstIds(ids, n - 1), ids[n - 1]);
    }
  }

  lemma {:induction false} BacklogWithout(st: Stream, messages: seq<OutboxMessage>, n: nat, consumer: string)
    requires n <= |messages|
    ensures Backlog(Without(st, messages, n), consumer) == Backlog(st, consumer) - FirstIds(Ids(messages), n)
    ensures Without(st, messages, n).group.Some? <==> st.group.Some?
    ensures AllDecodable(st) ==> AllDecodable(Without(st, messages, n))
  {
    if n > 0 {
      BacklogWithout(st, messages, n - 1, consumer);
      BacklogWithoutEntry(Without(st, messages, n - 1), messages[n - 1].streamId, consumer);
      OneLess(Backlog(st, consumer), FirstIds(Ids(messages), n - 1), messages[n - 1].streamId);
    } else {
      assert Backlog(st, consumer) - {} == Backlog(st, consumer);
    }
  }

  /** The consumer's backlog is readable and has at most `bound` entries. */
  ghost predicate Drainable(st: Stream, consumer: string, bound: int) {
    st.group.Some? && AllDecodable(st) && |Backlog(st, consumer)| <= bound
  }

  /** Every acknowledged message leaves the backlog. */
  lemma BacklogShrinks(st: Stream, messages: seq<OutboxMessage>, n: nat, consumer: string, bound: int)
    requires 0 < n <= |messages| && ReadFrom(st, messages)
    requires forall i | 0 <= i < |messages| :: messages[i].streamId in Backlog(st, consumer)
    requires Drainable(st, consumer, bound)
    ensures |Backlog(Without(st, messages, n), consumer)| == |Backlog(st, consumer)| - n
    ensures Drainable(Without(st, messages, n), consumer, bound - 1)
  {
    BacklogWithout(st, messages, n, consumer);
    FirstIdsLeave(Backlog(st, consumer), Ids(messages), n);
  }

  lemma NothingHandedOut(st: Stream, consumer: string, onlyNew: bool, count: nat)
    requires count > 0 && HandedOut(st, consumer, onlyNew, count) == []
    ensures Eligible(st, consumer, onlyNew) == {}
  {
    assert Ascending(Eligible(st, consumer, onlyNew)) == [];
  }

  /** What a read hands out: all there is, up to a batch. */
  ghost predicate BatchOf(st: Stream, messages: seq<OutboxMessage>, consumer: string, onlyNew: bool) {
    && |messages| <= BATCH
    && (messages == [] ==> Eligible(st, consumer, onlyNew) == {})
    && (!onlyNew ==> forall i | 0 <= i < |messages| :: messages[i].streamId in Backlog(st, consumer))
  }

  lemma HandedOutIsBatch(st: Stream, messages: seq<OutboxMessage>, consumer: string, onlyNew: bool)
    requires Ids(messages) == HandedOut(st, consumer, onlyNew, BATCH)
    ensures BatchOf(st, messages, consumer, onlyNew)
  {
    assert |messages| == |Ids(messages)|;
    if messages == [] {
      NothingHandedOut(st, consumer, onlyNew, BATCH);
    }
    forall i | 0 <= i < |messages|
      ensures !onlyNew ==> messages[i].streamId in Backlog(st, consumer)
    {
      assert Ids(messages)[i] == messages[i].streamId;
    }
  }

  /** Reading changes no entry, and reading the consumer's own backlog does not change that. */
  ghost predicate KeepsBacklog(st: Stream, after: Stream, consumer: string, onlyNew: bool) {
    && after.entries == st.entries
    && (st.group.Some? ==> after.group.Some?)
    && (!onlyNew ==> Backlog(after, consumer) == Backlog(st, consumer))
  }

  lemma SamePending(st: Stream, consumer: string)
    ensures Backlog(st.(group := Some(GroupOf(st))), consumer) == Backlog(st, consumer)
  {
    Totals.SameSet(Backlog(st.(group := Some(GroupOf(st))), consumer), Backlog(st, consumer));
  }

  lemma ReadKeepsBacklog(ks: Keyspace, after: Keyspace, consumer: string, onlyNew: bool, count: nat)
    requires after == ks || after == WithGroup(ks, GroupAfterRead(Outbox(ks), consumer, onlyNew, count))
    ensures KeepsBacklog(Outbox(ks), Outbox(after), consumer, onlyNew)
  {
    SamePending(Outbox(ks), consumer);
  }

  method ReadBatch(server: RedisServer, consumer: string, onlyNew: bool, ghost s: State)
    returns (read: Option<seq<OutboxMessage>>, ghost r: State)
    requires Reachable(s) && s.serving && s.redis == server.keys
    modifies server
    ensures MovedOn(s, r) && r.redis == server.keys && r.queues == s.queues
    ensures KeepsBacklog(Outbox(s.redis), Outbox(server.keys), consumer, onlyNew)
    ensures read.Some? ==>
      ReadFrom(Outbox(server.keys), read.value) && BatchOf(Outbox(s.redis), read.value, consumer, onlyNew)
    ensures old(server.faults) == [] ==> server.faults == []
    ensures old(server.faults) == [] && Outbox(s.redis).group.Some? && AllDecodable(Outbox(s.redis)) ==> read.Some?
  {
    EntriesAreWellFormed(s);
    ReadMovesOn(s, consumer, onlyNew, BATCH);
    StaysPut(s);
    ghost var g := GroupAfterRead(Outbox(s.redis), consumer, onlyNew, BATCH);
    read := ReadVoteOutbox(server, consumer, onlyNew, BATCH);
    r := if server.keys == s.redis then s else AfterRead(s, g);
    ReadKeepsBacklog(s.redis, server.keys, consumer, onlyNew, BATCH);
    if read.Some? {
      HandedOutIsBatch(Outbox(s.redis), read.value, consumer, onlyNew);
    }
  }

  /** A round of the consumer's backlog that sent something leaves less of it. */
  lemma RoundDrains(
    st: Stream, read: Stream, messages: seq<OutboxMessage>, n: nat, consumer: string, bound: int)
    requires KeepsBacklog(st, read, consumer, false) && BatchOf(st, messages, consumer, false)
    requires ReadFrom(read, messages) && 0 < n <= |messages| && Drainable(st, consumer, bound)
    ensures Drainable(Without(read, messages, n), consumer, bound - 1)
  {
    BacklogShrinks(read, messages, n, consumer, bound);
  }

  /** Nothing is failing, and the consumer's backlog is readable and has at most `bound` entries. */
  ghost predicate Draining(server: RedisServer, consumer: string, bound: int)
    reads server
  {
    server.faults == [] && Drainable(Outbox(server.keys), consumer, bound)
  }

  /** How one iteration of the loop ended. */
  datatype Round = ReadFailed | NothingLeft | Relayed

  method RelayRound(
    client: Client, broker: Broker, server: RedisServer, consumer: string, onlyNew: bool, envs: seq<Surroundings>,
    ghost s: State, ghost bound: int)
    returns (round: Round, ghost r: State)
    requires client.Valid() && |envs| == BATCH && (forall i | 0 <= i < |envs| :: Honest(envs[i].fate))
    requires Reachable(s) && Sees(s, server, broker)
    modifies client, broker, server
    ensures client.Valid() && Sees(r, server, broker) && MovedOn(s, r)
    ensures round.NothingLeft? ==> Eligible(Outbox(s.redis), consumer, onlyNew) == {}
    ensures round.NothingLeft? && !onlyNew ==> Backlog(Outbox(server.keys), consumer) == {}
    ensures !onlyNew && (forall i | 0 <= i < |envs| :: Healthy(envs[i])) && old(Draining(server, consumer, bound)) ==>
      round.NothingLeft? || (round.Relayed? && Draining(server, consumer, bound - 1))
  {
    var read;
    read, r := ReadBatch(server, consumer, onlyNew, s);
    if read.None? {
      return ReadFailed, r;
    }
    var messages := read.value;
    if |messages| == 0 {
      return NothingLeft, r;
    }
    ghost var before := r;
    ghost var removed: nat;
    var complete;
    complete, removed, r := PublishVoteMessages(client, broker, server, messages, envs[..|messages|], r);
    MovedOnAgain(s, before, r);
    if !onlyNew && removed > 0 && Drainable(Outbox(s.redis), consumer, bound) {
      RoundDrains(Outbox(s.redis), Outbox(before.redis), messages, removed, consumer, bound);
    }
    round := Relayed;
  }

  /** relayVoteMessages, until there is nothing left, a read fails, the one batch of new entries
      is done, or the context ends after `rounds`. Without faults it works off the consumer's
      whole backlog, so a restarted instance finishes everything it had left pending. */
  method RelayVoteMessages(
    client: Client, broker: Broker, server: RedisServer, consumer: string, onlyNew: bool,
    rounds: seq<seq<Surroundings>>, ghost s: State)
    returns (ghost r: State)
    requires client.Valid() && Reachable(s) && Sees(s, server, broker)
    requires forall k | 0 <= k < |rounds| ::
      |rounds[k]| == BATCH && forall i | 0 <= i < BATCH :: Honest(rounds[k][i].fate)
    modifies client, broker, server
    ensures client.Valid() && Sees(r, server, broker) && MovedOn(s, r)
    ensures !onlyNew && old(Draining(server, consumer, |rounds| - 1)) ==>
      ((forall k, i | 0 <= k < |rounds| && 0 <= i < BATCH :: Healthy(rounds[k][i])) ==>
        Backlog(Outbox(server.keys), consumer) == {})
  {
    StaysPut(s);
    r := s;
    ghost var calm := !onlyNew && Draining(server, consumer, |rounds| - 1)
      && forall k, i | 0 <= k < |rounds| && 0 <= i < BATCH :: Healthy(rounds[k][i]);
    for k := 0 to |rounds|
      invariant client.Valid() && Sees(r, server, broker) && MovedOn(s, r)
      invariant calm ==> Draining(server, consumer, |rounds| - 1 - k)
    {
      ghost var before := r;
      var round;
      round, r := RelayRound(client, broker, server, consumer, onlyNew, rounds[k], r, |rounds| - 1 - k);
      MovedOnAgain(s, before, r);
      if round != Relayed || onlyNew {
        return;
      }
    }
  }
}
