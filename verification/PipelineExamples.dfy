/** Runs that show which assumptions the theorems need: a creation whose retry erases a vote, a
    rebuild that the outbox check lets through while a vote is still queued, and a post that makes
    every rebuild fail. */
module PipelineExamples {
  import opened VoteModel
  import opened RedisStore
  import opened VoteScript
  import opened VoteDatabase
  import opened VoteBroker
  import opened VoteDelivery
  import opened VotePipeline
  import opened PipelineTheorems
  import opened PipelineRecovery
  import opened RecoveryTarget
  import OutboxCodec
  import RedisRebuild
  import Runs
  import Totals

  const ROW := PostRow(1, 1, ACTIVE)

  const NO_MESSAGES: Queues := Queues(multiset{}, multiset{}, multiset{}, multiset{}, multiset{})

  lemma StepReaches(before: State, a: Action)
    requires Reachable(before) && Enabled(before, a)
    ensures Reachable(After(before, a))
  {
    OneStep(before, a);
    StaysReachable(before, After(before, a));
  }

  /** One post in MySQL and nothing in Redis yet. */
  lemma Inserted(row: PostRow) returns (s: State)
    requires row.status == ACTIVE && row.createUnix > 0
    ensures Reachable(s) && s.serving && s.redis == map[] && s.tables == Tables({}, map[], map[1 := row])
    ensures s.history == map[] && s.issued == map[] && s.queues == NO_MESSAGES
  {
    var start := State(map[], NO_MESSAGES, Tables({}, map[], map[]), true, 5, map[], map[], {}, {}, map[]);
    Runs.LeadsNowhere(Steps(), start);
    assert Initial(start) && Reaches(start, start);
    StepReaches(start, InsertPost(1, row));
    s := After(start, InsertPost(1, row));
  }

  /** An attempt to index the post took effect, reported or not. */
  lemma Attempted(before: State, community: int, now: int) returns (s: State)
    requires Reachable(before) && before.serving
    requires 1 in before.tables.posts && before.tables.posts[1].community == community
    ensures Reachable(s) && PostIndexed(before.redis, s.redis, 1, community, now)
    ensures s == before.(redis := s.redis, baseline := s.baseline)
  {
    KeysKeepTheirTypes(before, 1, community);
    IndexWrites(before.redis, 1, community, now);
    var ks := SAdd(ZAdd(ZAdd(before.redis, PostTime, now, 1), PostScore, now, 1), Community(community), 1);
    StepReaches(before, Action.IndexPost(1, now, ks));
    s := After(before, Action.IndexPost(1, now, ks));
  }

  /** A vote on the post. */
  lemma Voted(before: State, c: VoteCall) returns (s: State)
    requires Reachable(before) && before.serving && ValidCall(before.issued, c) && Accepted(before.redis, c)
    ensures Reachable(s) && s.serving && VoteApplied(before.redis, s.redis, EventOf(before.redis, c))
    ensures s.tables == before.tables && s.queues == before.queues
    ensures s.history == Recorded(before.history, EventOf(before.redis, c))
    ensures s.issued.Keys == before.issued.Keys + {c.eventId}
  {
    var e := EventOf(before.redis, c);
    WritesApply(before.redis, e);
    var ks := Written(before.redis, e);
    StepReaches(before, CastVote(c, ks));
    s := After(before, CastVote(c, ks));
  }

  const VOTE_UP := VoteCall(1, 1, 1, "a", 1)

  const FIRST := VoteEvent("a", 1, 1, 1, 1, 1)

  /** On a post just indexed the first vote is accepted. */
  lemma FirstVoteIsAccepted(ks: Keyspace)
    requires PostIndexed(map[], ks, 1, 1, 1) && VoteKeysTyped(ks, 1)
    ensures Accepted(ks, VOTE_UP) && EventOf(ks, VOTE_UP) == FIRST && Outbox(ks) == EMPTY_STREAM
  {
    Unindexed(map[], ks, 1, 1, 1, PostVoted(1));
    Unindexed(map[], ks, 1, 1, 1, PostVersions(1));
    Unindexed(map[], ks, 1, 1, 1, VoteOutbox);
  }

  /** The failing input of CreatePost: insert, an attempt whose reply is lost, a vote, a second
      attempt. The state is reachable, and the post's score no longer says its net vote. */
  lemma RetriedCreationErasesVote() returns (s: State)
    ensures Reachable(s) && s.serving && 1 in ZSetAt(s.redis, PostTime)
    ensures !Balanced(s.redis, 1, Net(s.redis, 1))
  {
    var s0 := Inserted(ROW);
    var s1 := Attempted(s0, 1, 1);
    KeysKeepTheirTypes(s1, 1, 1);
    FirstVoteIsAccepted(s1.redis);
    var s2 := Voted(s1, VOTE_UP);
    s := Attempted(s2, 1, 2);
    RetryErasesVote(s0, 1, 1, 1, s1.redis, VOTE_UP, s2.redis, 2, s.redis);
  }

  // A queued vote and an empty outbox

  lemma Published(before: State, e: VoteEvent) returns (s: State)
    requires Reachable(before) && before.serving && Emitted(before.history, e) && OutboxCodec.Decodable(e)
    ensures Reachable(s) && s == before.(queues := s.queues, published := before.published + {e})
    ensures s.queues == Stored(before.queues, MainExchange, MessageOf(e))
  {
    StepReaches(before, PublishOutbox(e, true));
    s := After(before, PublishOutbox(e, true));
  }

  lemma Acknowledged(before: State, sid: nat) returns (s: State)
    requires Reachable(before) && before.serving
    requires sid in Outbox(before.redis).entries && Outbox(before.redis).entries[sid] in before.published
    ensures Reachable(s) && s == before.(redis := s.redis)
    ensures s.redis == before.redis[VoteOutbox := Log(WithoutEntry(Outbox(before.redis), sid))]
  {
    StepReaches(before, AckOutbox(sid));
    s := After(before, AckOutbox(sid));
  }

  lemma FirstVoteIsSent(a: Keyspace, b: Keyspace)
    requires VoteApplied(a, b, FIRST) && Outbox(a) == EMPTY_STREAM
    ensures Outbox(b).entries == map[1 := FIRST] && Version(b, 1, 1) == 1
  {
  }

  lemma FirstVoteIsEmitted(h: History)
    requires h == Recorded(map[], FIRST)
    ensures Emitted(h, FIRST)
  {
  }

  /** The post's first vote, still in the outbox. */
  lemma FirstVote() returns (s: State)
    ensures Reachable(s) && s.serving && Outbox(s.redis).entries == map[1 := FIRST] && Version(s.redis, 1, 1) == 1
    ensures Emitted(s.history, FIRST) && s.tables == Tables({}, map[], map[1 := ROW])
    ensures s.issued.Keys == {"a"} && s.queues == NO_MESSAGES
  {
    var s0 := Inserted(ROW);
    var s1 := Attempted(s0, 1, 1);
    KeysKeepTheirTypes(s1, 1, 1);
    FirstVoteIsAccepted(s1.redis);
    s := Voted(s1, VOTE_UP);
    FirstVoteIsSent(s1.redis, s.redis);
    FirstVoteIsEmitted(s.history);
  }

  lemma LastEntryAcknowledged(a: Keyspace, b: Keyspace)
    requires Outbox(a).entries == map[1 := FIRST]
    requires b == a[VoteOutbox := Log(WithoutEntry(Outbox(a), 1))]
    ensures Outbox(b).entries == map[] && Version(b, 1, 1) == Version(a, 1, 1)
  {
  }

  /** The same vote after the relay has published and acknowledged it: its message waits in the
      main queue, and the outbox is empty. */
  lemma Queued() returns (s: State)
    ensures Reachable(s) && s.serving && Outbox(s.redis).entries == map[] && Version(s.redis, 1, 1) == 1
    ensures MessageOf(FIRST) in s.queues.main && Emitted(s.history, FIRST)
    ensures s.tables == Tables({}, map[], map[1 := ROW]) && s.issued.Keys == {"a"}
  {
    var voted := FirstVote();
    var published := Published(voted, FIRST);
    s := Acknowledged(published, 1);
    LastEntryAcknowledged(published.redis, s.redis);
  }

  lemma FlushedIsRestored(base: Keyspace)
    requires base == Set(map[], StateMarker, READY)
    ensures RestoredTo(map[], base, base)
  {
    assert forall k: Key | Derived(k) :: TargetAt(map[], k) == None;
  }

  lemma OneRestored(data: int -> PostData, p: int, base: Keyspace) returns (ks: Keyspace)
    requires RestoredTo(map[], base, base) && RedisRebuild.Describes(data(p), p)
    ensures RestoredTo(Tabulate({p}, data), base, ks)
  {
    assert Tabulate({}, data) == map[];
    RedisRebuild.OneMorePost({}, data, base, base, [], p);
    assert {} + {p} == {p};
    ks := RunAll(base, [] + PostCommands(data(p).post, data(p).votes));
  }

  lemma OnlyPost(t: Tables)
    requires t.posts == map[1 := ROW]
    ensures Restorable(t) == {1}
  {
    Totals.SameSet(Restorable(t), {1});
  }

  /** A rebuild of a flushed Redis from a MySQL with that one post. */
  lemma RebuiltFromOnePost(t: Tables) returns (ks: Keyspace)
    requires t.posts == map[1 := ROW]
    ensures Rebuilt(t, map[], ks)
  {
    RedisRebuild.AllSnapshotsAgree(t);
    FlushedIsRestored(Set(map[], StateMarker, READY));
    ks := OneRestored(DataOf(t), 1, Set(map[], StateMarker, READY));
    OnlyPost(t);
  }

  lemma RebuiltKeys(t: Tables, ks: Keyspace)
    requires t.posts == map[1 := ROW] && Rebuilt(t, map[], ks)
    ensures VoteKeysTyped(ks, 1)
    ensures ZSetAt(ks, PostVoted(1)) == Live(DirectionsOn(t.votes, 1))
  {
    OnlyPost(t);
    RestoredVotes(t, map[], ks, 1);
    RestoredOutbox(t, map[], ks);
  }

  lemma RebuiltIndex(t: Tables, ks: Keyspace)
    requires t.posts == map[1 := ROW] && Rebuilt(t, map[], ks)
    ensures Indexed(ks, 1) && ZSetAt(ks, PostTime)[1] == ROW.createUnix
  {
    OnlyPost(t);
    RestoredIndex(t, map[], ks, 1);
  }

  /** After that rebuild every vote in the window is accepted. */
  lemma FirstVoteAfterRebuild(t: Tables, ks: Keyspace, c: VoteCall)
    requires t == Tables({}, map[], map[1 := ROW]) && Rebuilt(t, map[], ks)
    requires c.post == 1 && c.direction in {-1, 1} && c.now - ROW.createUnix <= VOTE_WINDOW_SECONDS
    ensures Accepted(ks, c)
  {
    RebuiltKeys(t, ks);
    RebuiltIndex(t, ks);
    assert Live(DirectionsOn(t.votes, 1)) == map[];
  }

  /** The outbox check cannot see a queued vote: in this reachable state the outbox is empty, so
      the rebuild runs, and afterwards the user's next vote conflicts with the queued one. */
  lemma OutboxCheckMissesQueuedVote() returns (s: State, ks: Keyspace, c: VoteCall)
    ensures Reachable(s) && s.serving && Outbox(s.redis).entries == map[] && MessageOf(FIRST) in s.queues.main
    ensures Rebuilt(s.tables, map[], ks) && c.eventId !in s.issued
    ensures SlotOf(EventOf(ks, c)) == SlotOf(FIRST)
    ensures Accepted(ks, c) && Conflicts(Applied(s.tables, FIRST), EventOf(ks, c))
  {
    s := Queued();
    ks := RebuiltFromOnePost(s.tables);
    c := VoteCall(1, 1, -1, "b", 2);
    RebuiltIsStored(s, map[], ks, Pair(1, 1));
    FirstVoteAfterRebuild(s.tables, ks, c);
    UndrainedRebuildConflicts(s, map[], ks, FIRST, c);
  }

  // A post that no rebuild accepts

  /** A post with a negative community id is inserted and indexed like any other. Nothing is in
      flight, so Redis may be lost; but no rebuild from these tables can succeed. */
  lemma NegativeCommunityBlocksRebuild() returns (s: State)
    ensures Reachable(s) && s.serving && NothingInFlight(s.queues) && Outbox(s.redis).entries == map[]
    ensures 1 in ZSetAt(s.redis, PostTime) && s.tables.posts == map[1 := PostRow(-1, 1, ACTIVE)]
    ensures !RedisRebuild.SnapshotsValid(s.tables)
  {
    var inserted := Inserted(PostRow(-1, 1, ACTIVE));
    s := Attempted(inserted, -1, 1);
    Unindexed(inserted.redis, s.redis, 1, -1, 1, VoteOutbox);
    SnapshotsValidIff(s);
    assert 1 in ActivePosts(s.tables);
  }
}
