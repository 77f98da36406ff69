/** Every step of the pipeline keeps the invariant, so every reachable state satisfies it. */
module PipelineSteps {
  import opened VoteModel
  import opened RedisStore
  import opened VoteScript
  import opened VoteDatabase
  import opened VoteBroker
  import opened VoteDelivery
  import opened VotePipeline
  import opened PipelineInvariant
  import opened PipelineRecovery
  import RecoveryTarget
  import Runs

  /** What the log needs of its next event. */
  predicate Continues(h: History, issued: Tickets, posts: map<int, PostRow>, e: VoteEvent) {
    && WellFormed(e) && e.id !in issued && PostActive(posts, e.post)
    && e.version == Count(h, e.Key()) + 1 && e.direction != Standing(h, e.Key())
  }

  lemma CastContinues(h: History, issued: Tickets, posts: map<int, PostRow>, ks: Keyspace, c: VoteCall)
    requires HistoryInv(h, issued, posts) && RedisInv(h, posts, ks)
    requires ValidCall(issued, c) && Accepted(ks, c)
    ensures Continues(h, issued, posts, EventOf(ks, c))
  {
    assert Agrees(h, ks, EventOf(ks, c).Key());
    assert PostActive(posts, c.post);
  }

  lemma CastKeepsFlow(
    h: History, issued: Tickets, posts: map<int, PostRow>, st: Stream, published: set<VoteEvent>, q: Queues,
    seen: set<string>, e: VoteEvent)
    requires HistoryInv(h, issued, posts) && MessagesInv(h, q) && StreamInv(h, issued, st)
    requires ConservationInv(h, issued, st, published, q, seen)
    requires e.id !in issued && e.version == Count(h, e.Key()) + 1
    ensures MessagesInv(Recorded(h, e), q)
    ensures StreamInv(Recorded(h, e), issued[e.id := Ticket(SlotOf(e), st.lastId + 1)], Appended(st, e))
    ensures ConservationInv(Recorded(h, e), issued[e.id := Ticket(SlotOf(e), st.lastId + 1)], Appended(st, e),
                            published, q, seen)
  {
    CastKeepsMessages(h, q, e);
    CastKeepsStream(h, issued, st, e);
    CastKeepsConservation(h, issued, posts, st, published, q, seen, e);
  }

  lemma CastKeepsRecords(
    h: History, issued: Tickets, posts: map<int, PostRow>, seen: set<string>, votes: map<Pair, VoteRow>,
    e: VoteEvent, sid: nat)
    requires HistoryInv(h, issued, posts) && DatabaseInv(h, issued, seen, votes)
    requires Continues(h, issued, posts, e)
    ensures HistoryInv(Recorded(h, e), issued[e.id := Ticket(SlotOf(e), sid)], posts)
    ensures DatabaseInv(Recorded(h, e), issued[e.id := Ticket(SlotOf(e), sid)], seen, votes)
  {
    CastKeepsHistory(h, issued, posts, e, sid);
    CastKeepsDatabase(h, issued, seen, votes, e, sid);
  }

  lemma CastKeepsServing(
    h: History, posts: map<int, PostRow>, baseline: map<int, int>, a: Keyspace, b: Keyspace, e: VoteEvent)
    requires RedisInv(h, posts, a) && BalanceInv(baseline, a) && VoteApplied(a, b, e)
    ensures RedisInv(Recorded(h, e), posts, b) && BalanceInv(baseline, b)
    ensures Outbox(b) == Appended(Outbox(a), e)
  {
    CastKeepsRedis(h, posts, a, b, e);
    CastKeepsBalance(baseline, a, b, e);
  }

  /** Redis and the log move on together; MySQL and the queues stay. */
  lemma LogMovesOn(s: State, h: History, issued: Tickets, ks: Keyspace)
    requires Inv(s) && s.serving
    requires HistoryInv(h, issued, s.tables.posts) && DatabaseInv(h, issued, s.Seen(), s.tables.votes)
    requires MessagesInv(h, s.queues) && StreamInv(h, issued, Outbox(ks))
    requires ConservationInv(h, issued, Outbox(ks), s.published, s.queues, s.Seen())
    requires RedisInv(h, s.tables.posts, ks) && BalanceInv(s.baseline, ks)
    ensures Inv(s.(redis := ks, history := h, issued := issued))
  {
  }

  /** The log after an accepted vote, with everything it has to agree with. */
  lemma CastMovesLog(
    h: History, issued: Tickets, t: Tables, seen: set<string>, published: set<VoteEvent>, q: Queues,
    st: Stream, e: VoteEvent) returns (after: History, tickets: Tickets)
    requires HistoryInv(h, issued, t.posts) && DatabaseInv(h, issued, seen, t.votes)
    requires MessagesInv(h, q) && StreamInv(h, issued, st)
    requires ConservationInv(h, issued, st, published, q, seen)
    requires Continues(h, issued, t.posts, e)
    ensures after == Recorded(h, e) && tickets == issued[e.id := Ticket(SlotOf(e), st.lastId + 1)]
    ensures HistoryInv(after, tickets, t.posts) && DatabaseInv(after, tickets, seen, t.votes)
    ensures MessagesInv(after, q) && StreamInv(after, tickets, Appended(st, e))
    ensures ConservationInv(after, tickets, Appended(st, e), published, q, seen)
  {
    CastKeepsRecords(h, issued, t.posts, seen, t.votes, e, st.lastId + 1);
    CastKeepsFlow(h, issued, t.posts, st, published, q, seen, e);
    after, tickets := Recorded(h, e), issued[e.id := Ticket(SlotOf(e), st.lastId + 1)];
  }

  lemma LogAfterCast(s: State, e: VoteEvent, ks: Keyspace) returns (h: History, issued: Tickets)
    requires Inv(s) && Continues(s.history, s.issued, s.tables.posts, e)
    requires Outbox(ks) == Appended(Outbox(s.redis), e)
    ensures h == Recorded(s.history, e) && issued == s.issued[e.id := Ticket(SlotOf(e), Outbox(ks).lastId)]
    ensures HistoryInv(h, issued, s.tables.posts) && DatabaseInv(h, issued, s.Seen(), s.tables.votes)
    ensures MessagesInv(h, s.queues) && StreamInv(h, issued, Outbox(ks))
    ensures ConservationInv(h, issued, Outbox(ks), s.published, s.queues, s.Seen())
  {
    h, issued := CastMovesLog(s.history, s.issued, s.tables, s.Seen(), s.published, s.queues, Outbox(s.redis), e);
  }

  lemma RecordingKeepsInv(s: State, e: VoteEvent, ks: Keyspace)
    requires Inv(s) && s.serving && Continues(s.history, s.issued, s.tables.posts, e)
    requires RedisInv(Recorded(s.history, e), s.tables.posts, ks) && BalanceInv(s.baseline, ks)
    requires Outbox(ks) == Appended(Outbox(s.redis), e)
    ensures Inv(s.(redis := ks, history := Recorded(s.history, e),
                   issued := s.issued[e.id := Ticket(SlotOf(e), Outbox(ks).lastId)]))
  {
    var h, issued := LogAfterCast(s, e, ks);
    LogMovesOn(s, h, issued, ks);
  }

  lemma CastKeepsInv(s: State, c: VoteCall, ks: Keyspace)
    requires Inv(s) && s.serving && ValidCall(s.issued, c) && Accepted(s.redis, c)
    requires VoteApplied(s.redis, ks, EventOf(s.redis, c))
    ensures
      var e := EventOf(s.redis, c);
      Inv(s.(redis := ks, history := Recorded(s.history, e),
             issued := s.issued[e.id := Ticket(SlotOf(e), Outbox(ks).lastId)]))
  {
    var e := EventOf(s.redis, c);
    CastContinues(s.history, s.issued, s.tables.posts, s.redis, c);
    CastKeepsServing(s.history, s.tables.posts, s.baseline, s.redis, ks, e);
    RecordingKeepsInv(s, e, ks);
  }

  lemma InsertKeepsInv(s: State, p: int, row: PostRow)
    requires Inv(s) && p !in s.tables.posts
    requires p > 0 && row.status == ACTIVE && row.createUnix > 0
    ensures Inv(s.(tables := s.tables.(posts := s.tables.posts[p := row])))
  {
    PostsGrow(s.history, s.issued, s.tables.posts, p, row);
  }

  lemma IndexKeepsInv(s: State, p: int, now: int, ks: Keyspace)
    requires Inv(s) && s.serving && p in s.tables.posts
    requires PostIndexed(s.redis, ks, p, s.tables.posts[p].community, now)
    ensures Inv(s.(redis := ks, baseline := s.baseline[p := Net(s.redis, p)]))
  {
    IndexKeepsRedis(s.history, s.tables.posts, s.redis, ks, p, now);
    IndexKeepsBalance(s.baseline, s.redis, ks, p, s.tables.posts[p].community, now);
  }

  lemma OutboxKeepsInv(s: State, st: Stream)
    requires Inv(s) && s.serving && StreamInv(s.history, s.issued, st)
    requires ConservationInv(s.history, s.issued, st, s.published, s.queues, s.Seen())
    ensures Inv(s.(redis := s.redis[VoteOutbox := Log(st)]))
  {
    OutboxKeepsVotes(s.redis, st);
    SameVotesKeepRedis(s.history, s.tables.posts, s.baseline, s.redis, s.redis[VoteOutbox := Log(st)]);
  }

  lemma ReadKeepsInv(s: State, g: Group)
    requires Inv(s) && s.serving && Advances(Outbox(s.redis), g)
    ensures Inv(s.(redis := s.redis[VoteOutbox := Log(Outbox(s.redis).(group := Some(g)))]))
  {
    var st := Outbox(s.redis);
    ReadKeepsStream(s.history, s.issued, st, g);
    ReadKeepsConservation(s.history, s.issued, st, s.published, s.queues, s.Seen(), g);
    OutboxKeepsInv(s, st.(group := Some(g)));
  }

  lemma AckKeepsInv(s: State, sid: nat)
    requires Inv(s) && s.serving
    requires sid in Outbox(s.redis).entries && Outbox(s.redis).entries[sid] in s.published
    ensures Inv(s.(redis := s.redis[VoteOutbox := Log(WithoutEntry(Outbox(s.redis), sid))]))
  {
    var st := Outbox(s.redis);
    AckKeepsStream(s.history, s.issued, st, s.published, s.queues, s.Seen(), sid);
    OutboxKeepsInv(s, WithoutEntry(st, sid));
  }

  lemma PublishKeepsInv(s: State, e: VoteEvent, confirmed: bool)
    requires Inv(s) && s.serving && Emitted(s.history, e)
    ensures Inv(s.(queues := Stored(s.queues, MainExchange, MessageOf(e)),
                   published := if confirmed then s.published + {e} else s.published))
  {
    LogIsUnique(s.history, s.issued, s.tables.posts, e, e);
    MessageFromLog(s.history, e);
    MessagesGrow(s.history, s.queues, MainExchange, MessageOf(e), s.maxRetries);
    PublishKeepsConservation(s.history, s.issued, Outbox(s.redis), s.published, s.queues, s.Seen(), e);
  }

  lemma TransferShuffles(s: State, a: Action)
    requires Enabled(s, a)
    requires IsTransferStep(a)
    ensures Shuffled(s.queues, Transferred(s.queues, a))
  {
    match a
    case Deliver(m) => DeliverShuffles(s.queues, m);
    case AckDelivery(m) => AckShuffles(s.queues, m);
    case Requeue(m) => RequeueShuffles(s.queues, m);
    case RequeueSettled(m) => RequeueSettledShuffles(s.queues, m);
    case ExpireRetry(m) => ExpireShuffles(s.queues, m);
  }

  lemma TransferMovesQueues(s: State, a: Action)
    requires Enabled(s, a)
    requires IsTransferStep(a)
    ensures After(s, a) == s.(queues := Transferred(s.queues, a)) && Shuffled(s.queues, Transferred(s.queues, a))
  {
    TransferShuffles(s, a);
  }

  lemma ShuffleKeepsInv(s: State, q: Queues)
    requires Inv(s) && Shuffled(s.queues, q)
    ensures Inv(s.(queues := q))
  {
    MessagesShrink(s.history, s.queues, q, s.maxRetries);
    QueuesKeep(s.history, s.issued, Outbox(s.redis), s.published, s.queues, q, s.Seen());
  }

  lemma PersistKeepsInv(s: State, m: Message, reported: bool)
    requires Inv(s) && m in s.queues.open && EventIn(m).Some?
    ensures Inv(s.(tables := Applied(s.tables, EventIn(m).value), queues := SettledIf(reported, s.queues, m)))
  {
    var e := EventIn(m).value;
    var t := Applied(s.tables, e);
    assert FromLog(s.history, m);
    PersistKeepsDatabase(s.history, s.issued, s.tables.posts, s.tables, s.purged, e);
    ConsumedGrows(s.history, s.issued, Outbox(s.redis), s.published, s.queues, s.Seen(), t.consumed + s.purged);
    SettleKeepsMessages(s.history, s.queues, m, s.maxRetries);
    SettleKeepsConservation(
      s.history, s.issued, s.tables.posts, Outbox(s.redis), s.published, s.queues, t.consumed + s.purged, m);
  }

  lemma PurgeKeepsInv(s: State, ids: set<string>)
    requires Inv(s)
    ensures
      var t := s.tables.(consumed := s.tables.consumed - ids);
      Inv(s.(tables := t, purged := s.purged + ids * s.tables.consumed))
  {
    assert s.tables.consumed - ids + (s.purged + ids * s.tables.consumed) == s.Seen();
  }

  lemma CopyKeepsInv(s: State, x: Exchange, m: Message, c: Message, confirmed: bool)
    requires Inv(s) && m in s.queues.open && x != MainExchange && c.body == m.body
    requires s.maxRetries < INT32_LIMIT ==> 0 <= HeaderInt(c.retries) <= s.maxRetries
    ensures Inv(s.(queues := SettledIf(confirmed, Stored(s.queues, x, c), m)))
  {
    var q := Stored(s.queues, x, c);
    assert FromLog(s.history, m);
    CopyFromLog(s.history, m, c.retries);
    MessagesGrow(s.history, s.queues, x, c, s.maxRetries);
    QueuesKeep(s.history, s.issued, Outbox(s.redis), s.published, s.queues, q, s.Seen());
    CopyIsLive(s.queues, x, c, m);
    SettleKeepsMessages(s.history, q, m, s.maxRetries);
    SettleKeepsConservation(
      s.history, s.issued, s.tables.posts, Outbox(s.redis), s.published, q, s.Seen(), m);
  }

  lemma RetryKeepsInv(s: State, m: Message, confirmed: bool)
    requires Inv(s) && m in s.queues.open && !Exhausted(m, s.maxRetries)
    ensures Inv(s.(queues := SettledIf(confirmed, Stored(s.queues, RetryExchange, RetryCopy(m)), m)))
  {
    assert m in Everywhere(s.queues);
    if s.maxRetries < INT32_LIMIT {
      RetryCounts(m, s.maxRetries);
    }
    CopyKeepsInv(s, RetryExchange, m, RetryCopy(m), confirmed);
  }

  lemma DeadLetterKeepsInv(s: State, m: Message, confirmed: bool)
    requires Inv(s) && m in s.queues.open
    ensures Inv(s.(queues := SettledIf(confirmed, Stored(s.queues, DeadExchange, DeadCopy(m)), m)))
  {
    assert m in Everywhere(s.queues);
    CopyKeepsInv(s, DeadExchange, m, DeadCopy(m), confirmed);
  }

  lemma OthersKeepInv(s: State, ks: Keyspace)
    requires Inv(s) && s.serving && SameVoteKeys(s.redis, ks)
    ensures Inv(s.(redis := ks))
  {
    OtherWritesKeepVotes(s.redis, ks);
    SameVotesKeepRedis(s.history, s.tables.posts, s.baseline, s.redis, ks);
  }

  lemma RebuildKeepsInv(s: State, ks: Keyspace)
    requires Inv(s) && !s.serving && RecoveryTarget.Rebuilt(s.tables, s.redis, ks)
    ensures Inv(s.(redis := ks, serving := true, baseline := map[]))
  {
    DrainedIsConverged(s);
    RebuildKeepsRedis(s.history, s.issued, s.tables, s.redis, ks);
    RebuildKeepsBalance(s.tables, s.redis, ks);
  }

  /** A lost stream that was empty takes no event with it. */
  lemma LossKeepsConservation(
    h: History, issued: Tickets, st: Stream, left: Stream, published: set<VoteEvent>, q: Queues, seen: set<string>)
    requires ConservationInv(h, issued, st, published, q, seen) && st.entries == map[]
    ensures ConservationInv(h, issued, left, published, q, seen)
  {
    forall e
      ensures Accounted(h, issued, left, published, q, seen, e)
    {
      assert Accounted(h, issued, st, published, q, seen, e);
    }
  }

  lemma LossKeepsInv(s: State, ks: Keyspace)
    requires Inv(s) && Emptied(ks) && NothingInFlight(s.queues) && Outbox(s.redis).entries == map[]
    ensures Inv(s.(redis := ks, serving := false))
  {
    LossKeepsConservation(
      s.history, s.issued, Outbox(s.redis), Outbox(ks), s.published, s.queues, s.Seen());
  }

  // Which lemma answers for which step

  predicate IsPostStep(a: Action) {
    a.CastVote? || a.InsertPost? || a.IndexPost?
  }

  predicate IsRelayStep(a: Action) {
    a.ReadOutbox? || a.PublishOutbox? || a.AckOutbox?
  }

  predicate IsCommitStep(a: Action) {
    a.Persist? || a.PurgeConsumed?
  }

  predicate IsCopyStep(a: Action) {
    a.Retry? || a.DeadLetter?
  }

  predicate IsTransferStep(a: Action) {
    a.Deliver? || a.AckDelivery? || a.Requeue? || a.RequeueSettled? || a.ExpireRetry?
  }

  lemma PostStepKeepsInv(s: State, a: Action)
    requires Inv(s) && Enabled(s, a) && IsPostStep(a)
    ensures Inv(After(s, a))
  {
    match a
    case CastVote(c, ks) => CastKeepsInv(s, c, ks);
    case InsertPost(p, row) => InsertKeepsInv(s, p, row);
    case IndexPost(p, now, ks) => IndexKeepsInv(s, p, now, ks);
  }

  lemma RelayStepKeepsInv(s: State, a: Action)
    requires Inv(s) && Enabled(s, a) && IsRelayStep(a)
    ensures Inv(After(s, a))
  {
    match a
    case ReadOutbox(g) => ReadKeepsInv(s, g);
    case AckOutbox(sid) => AckKeepsInv(s, sid);
    case PublishOutbox(e, confirmed) => PublishKeepsInv(s, e, confirmed);
  }

  lemma CommitStepKeepsInv(s: State, a: Action)
    requires Inv(s) && Enabled(s, a) && IsCommitStep(a)
    ensures Inv(After(s, a))
  {
    match a
    case Persist(m, reported) => PersistKeepsInv(s, m, reported);
    case PurgeConsumed(ids) => PurgeKeepsInv(s, ids);
  }

  lemma CopyStepKeepsInv(s: State, a: Action)
    requires Inv(s) && Enabled(s, a) && IsCopyStep(a)
    ensures Inv(After(s, a))
  {
    match a
    case Retry(m, confirmed) => RetryKeepsInv(s, m, confirmed);
    case DeadLetter(m, confirmed) => DeadLetterKeepsInv(s, m, confirmed);
  }

  lemma TransferStepKeepsInv(s: State, a: Action)
    requires Inv(s) && Enabled(s, a) && IsTransferStep(a)
    ensures Inv(After(s, a))
  {
    TransferMovesQueues(s, a);
    ShuffleKeepsInv(s, Transferred(s.queues, a));
  }

  lemma LossStepKeepsInv(s: State, a: Action)
    requires Inv(s) && Enabled(s, a) && (a.LoseRedis? || a.Scramble?)
    ensures Inv(After(s, a))
  {
    match a
    case LoseRedis(ks) => LossKeepsInv(s, ks);
    case Scramble(ks) => LossKeepsInv(s, ks);
  }

  lemma KeyspaceStepKeepsInv(s: State, a: Action)
    requires Inv(s) && Enabled(s, a) && (a.OtherWrites? || a.Rebuild?)
    ensures Inv(After(s, a))
  {
    match a
    case OtherWrites(ks) => OthersKeepInv(s, ks);
    case Rebuild(ks) => RebuildKeepsInv(s, ks);
  }

  lemma StepKeepsInv(s: State, a: Action)
    requires Inv(s) && Enabled(s, a)
    ensures Inv(After(s, a))
  {
    if IsPostStep(a) {
      PostStepKeepsInv(s, a);
    } else if IsRelayStep(a) {
      RelayStepKeepsInv(s, a);
    } else if IsCommitStep(a) {
      CommitStepKeepsInv(s, a);
    } else if IsCopyStep(a) {
      CopyStepKeepsInv(s, a);
    } else if IsTransferStep(a) {
      TransferStepKeepsInv(s, a);
    } else if a.LoseRedis? || a.Scramble? {
      LossStepKeepsInv(s, a);
    } else {
      KeyspaceStepKeepsInv(s, a);
    }
  }

  lemma InitialInv(s: State)
    requires Initial(s)
    ensures Inv(s)
  {
    assert Everywhere(s.queues) == multiset{};
  }

  lemma AnyStepKeepsInv(s: State, r: State)
    requires Inv(s) && Step(s, r)
    ensures Inv(r)
  {
    var a :| Enabled(s, a) && After(s, a) == r;
    StepKeepsInv(s, a);
  }

  lemma ReachesKeepsInv(s: State, r: State)
    requires Inv(s) && Reaches(s, r)
    ensures Inv(r)
  {
    forall a, b | Inv(a) && Steps()(a, b)
      ensures Inv(b)
    {
      AnyStepKeepsInv(a, b);
    }
    Runs.LeadsKeeps(Steps(), x => Inv(x), s, r);
  }

  /** The invariant holds after every run. */
  lemma ReachableInv(s: State)
    requires Reachable(s)
    ensures Inv(s)
  {
    var start :| Initial(start) && Reaches(start, s);
    InitialInv(start);
    ReachesKeepsInv(start, s);
  }
}
