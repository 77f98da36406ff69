/** What holds in every reachable state of the pipeline. */
module PipelineTheorems {
  import opened VoteModel
  import opened RedisStore
  import opened VoteScript
  import opened VoteDatabase
  import opened VoteBroker
  import opened VoteDelivery
  import opened VotePipeline
  import opened PipelineInvariant
  import opened PipelineRecovery
  import opened PipelineSteps
  import RecoveryTarget
  import RedisRebuild
  import Runs
  import Totals

  lemma ReachableHistory(s: State)
    requires Reachable(s)
    ensures HistoryInv(s.history, s.issued, s.tables.posts)
  {
    ReachableInv(s);
  }

  lemma ReachableRedis(s: State)
    requires Reachable(s) && s.serving
    ensures RedisInv(s.history, s.tables.posts, s.redis)
  {
    ReachableInv(s);
  }

  lemma ReachableRow(s: State, k: Pair)
    requires Reachable(s)
    ensures k in s.tables.votes ==> RowFromLog(s.history, s.tables.votes, k)
    ensures s.serving ==> Agrees(s.history, s.redis, k)
  {
    ReachableInv(s);
  }

  // Convergence

  function StoredDirection(t: Tables, k: Pair): int {
    if k in t.votes then t.votes[k].direction else 0
  }

  /** The pair's latest event has left stream and queues. Settled deliveries do not matter. */
  ghost predicate LatestArrived(s: State, k: Pair) {
    Count(s.history, k) > 0 ==>
      && (forall sid | sid in Outbox(s.redis).entries :: Outbox(s.redis).entries[sid] != Latest(s.history, k))
      && (forall m | m in LiveCopies(s.queues) :: !Carries(m, Latest(s.history, k)))
  }

  lemma ArrivedIsUpToDate(s: State, k: Pair)
    requires Inv(s) && LatestArrived(s, k)
    ensures UpToDate(s.history, s.tables.votes, k)
  {
    if k in s.tables.votes {
      assert RowFromLog(s.history, s.tables.votes, k);
    }
    if k in s.history {
      LatestIsStored(s, k);
    }
  }

  lemma PairAgrees(h: History, issued: Tickets, posts: map<int, PostRow>, ks: Keyspace, t: Tables, k: Pair)
    requires HistoryInv(h, issued, posts) && Agrees(h, ks, k) && UpToDate(h, t.votes, k)
    ensures StoredVersion(t, k) == Version(ks, k.user, k.post)
    ensures StoredDirection(t, k) == Direction(ks, k.user, k.post)
  {
    if k in h {
      LatestIsEmitted(h, issued, posts, k);
    }
  }

  /** Convergence: whatever was duplicated, reordered, retried or half reported before, a pair
      whose latest event has arrived has Redis's version and direction in MySQL. */
  lemma Convergence(s: State, k: Pair)
    requires Reachable(s) && s.serving && LatestArrived(s, k)
    ensures StoredVersion(s.tables, k) == Version(s.redis, k.user, k.post)
    ensures StoredDirection(s.tables, k) == Direction(s.redis, k.user, k.post)
  {
    ReachableInv(s);
    ArrivedIsUpToDate(s, k);
    assert Agrees(s.history, s.redis, k);
    PairAgrees(s.history, s.issued, s.tables.posts, s.redis, s.tables, k);
  }

  /** The users ZCOUNT counts as votes up. */
  function UpVoters(ks: Keyspace, p: int): set<int> {
    set u | u in ZSetAt(ks, PostVoted(p)) && ZSetAt(ks, PostVoted(p))[u] == 1
  }

  lemma SameUpVoters(ks: Keyspace, t: Tables, p: int)
    requires forall u :: StoredDirection(t, Pair(u, p)) == Direction(ks, u, p)
    ensures UpVoters(ks, p) == UpVotersOf(t.votes, p)
  {
    forall u
      ensures u in UpVoters(ks, p) <==> u in UpVotersOf(t.votes, p)
    {
      assert StoredDirection(t, Pair(u, p)) == Direction(ks, u, p);
    }
    Totals.SameSet(UpVoters(ks, p), UpVotersOf(t.votes, p));
  }

  /** Redis and MySQL count the same votes up once the post's latest events have arrived. */
  lemma UpVotesAgree(s: State, p: int)
    requires Reachable(s) && s.serving
    requires forall u :: LatestArrived(s, Pair(u, p))
    ensures UpVoters(s.redis, p) == UpVotersOf(s.tables.votes, p)
  {
    forall u
      ensures StoredDirection(s.tables, Pair(u, p)) == Direction(s.redis, u, p)
    {
      Convergence(s, Pair(u, p));
    }
    SameUpVoters(s.redis, s.tables, p);
  }

  // Conservation

  lemma Locate(s: State, e: VoteEvent)
    requires Inv(s) && Emitted(s.history, e)
    ensures WellFormed(e)
    ensures InStream(s.issued, Outbox(s.redis), e) || Held(s.queues, e) || e.id in s.Seen()
    ensures e.id in s.Seen() ==> e.Key() in s.tables.votes && s.tables.votes[e.Key()].version >= e.version
    ensures Outbox(s.redis).entries == map[] ==> e in s.published
  {
    assert Accounted(s.history, s.issued, Outbox(s.redis), s.published, s.queues, s.Seen(), e);
    LogIsUnique(s.history, s.issued, s.tables.posts, e, e);
  }

  /** Conservation: an event the script emitted is in the stream, in a live message, or consumed
      by MySQL, whose row has then reached its version for good, purged records or not; and once
      the stream is empty every event has been confirmed by the broker. */
  lemma NothingIsLost(s: State, e: VoteEvent)
    requires Reachable(s) && Emitted(s.history, e)
    ensures
      || (exists sid :: sid in Outbox(s.redis).entries && Outbox(s.redis).entries[sid] == e)
      || (exists m :: m in LiveCopies(s.queues) && Carries(m, e))
      || (e.id in s.Seen() && e.Key() in s.tables.votes && s.tables.votes[e.Key()].version >= e.version)
    ensures Outbox(s.redis).entries == map[] ==> e in s.published
  {
    ReachableInv(s);
    Locate(s, e);
  }

  /** What carries an emitted event decodes to it. */
  lemma CarriedIsDecoded(s: State, m: Message, e: VoteEvent)
    requires Reachable(s) && Emitted(s.history, e)
    ensures Carries(m, e) ==> EventIn(m) == Some(e)
  {
    ReachableHistory(s);
    LogIsUnique(s.history, s.issued, s.tables.posts, e, e);
    if Carries(m, e) {
      MessageCarriesEvent(e, m.retries);
    }
  }

  lemma CastKeepsEmitted(s: State, a: Action, e: VoteEvent)
    requires Inv(s) && Enabled(s, a) && a.CastVote? && Emitted(s.history, e)
    ensures Emitted(After(s, a).history, e)
  {
    var x := EventOf(s.redis, a.call);
    assert Agrees(s.history, s.redis, x.Key());
    LogGrows(s.history, x, e);
  }

  lemma OthersKeepHistory(s: State, a: Action)
    requires Enabled(s, a) && !a.CastVote?
    ensures After(s, a).history == s.history
  {
  }

  lemma StepKeepsEmitted(s: State, r: State, e: VoteEvent)
    requires Inv(s) && Emitted(s.history, e) && Step(s, r)
    ensures Inv(r) && Emitted(r.history, e)
  {
    var step :| Enabled(s, step) && After(s, step) == r;
    StepKeepsInv(s, step);
    if step.CastVote? {
      CastKeepsEmitted(s, step, e);
    } else {
      OthersKeepHistory(s, step);
    }
  }

  /** Emission is for good: no loss of Redis, rebuild or other step takes an event back, so
      `NothingIsLost` speaks of every event ever appended. */
  lemma EmittedStays(s: State, r: State, e: VoteEvent)
    requires Reachable(s) && Reaches(s, r) && Emitted(s.history, e)
    ensures Emitted(r.history, e)
  {
    ReachableInv(s);
    forall a, b | Inv(a) && Emitted(a.history, e) && Steps()(a, b)
      ensures Inv(b) && Emitted(b.history, e)
    {
      StepKeepsEmitted(a, b, e);
    }
    Runs.LeadsKeeps(Steps(), x => Inv(x) && Emitted(x.history, e), s, r);
  }

  // The outbox log

  /** Versions 1..n, every event a change of direction. */
  predicate IsLog(log: seq<VoteEvent>, k: Pair) {
    && (forall i | 0 <= i < |log| :: log[i].Key() == k && log[i].version == i + 1 && IsDirection(log[i].direction))
    && (forall i | 0 < i < |log| :: log[i].direction != log[i - 1].direction)
    && (log != [] ==> log[0].direction != 0)
  }

  lemma LogOf(h: History, issued: Tickets, posts: map<int, PostRow>, k: Pair)
    requires HistoryInv(h, issued, posts) && k in h
    ensures IsLog(h[k], k)
  {
    forall i | 0 <= i < |h[k]|
      ensures h[k][i].Key() == k && h[k][i].version == i + 1 && IsDirection(h[k][i].direction)
      ensures h[k][i].direction != if i == 0 then 0 else h[k][i - 1].direction
    {
      assert LogEntry(h, issued, k, i);
    }
    assert LogEntry(h, issued, k, 0);
  }

  lemma LogMatchesRedis(h: History, ks: Keyspace, k: Pair)
    requires Agrees(h, ks, k) && k in h && h[k] != []
    ensures |h[k]| == Version(ks, k.user, k.post)
    ensures h[k][|h[k]| - 1].direction == Direction(ks, k.user, k.post)
  {
  }

  /** The outbox log: the events emitted for a pair have versions 1..n with n the stored
      version, each changes the direction, and the last one carries the current direction. */
  lemma OutboxLog(s: State, k: Pair)
    requires Reachable(s) && k in s.history
    ensures IsLog(s.history[k], k) && s.history[k] != []
    ensures s.serving ==> |s.history[k]| == Version(s.redis, k.user, k.post)
    ensures s.serving ==> s.history[k][|s.history[k]| - 1].direction == Direction(s.redis, k.user, k.post)
  {
    ReachableHistory(s);
    LogOf(s.history, s.issued, s.tables.posts, k);
    if s.serving {
      ReachableRow(s, k);
      LogMatchesRedis(s.history, s.redis, k);
    }
  }

  /** Neither slots nor ids repeat: two emitted events that share user, post and version, or
      share an id, are one event. */
  lemma EventsAreUnique(s: State, a: VoteEvent, b: VoteEvent)
    requires Reachable(s) && Emitted(s.history, a) && Emitted(s.history, b)
    ensures a == b <==> a.id == b.id
    ensures a == b <==> SlotOf(a) == SlotOf(b)
  {
    ReachableHistory(s);
    LogIsUnique(s.history, s.issued, s.tables.posts, a, b);
  }

  // Rejections

  lemma NeverRejected(s: State, m: Message)
    requires Inv(s) && m in Everywhere(s.queues)
    ensures EventIn(m).Some? && !Conflicts(s.tables, EventIn(m).value)
  {
    assert FromLog(s.history, m);
    var e := EventIn(m).value;
    if e.Key() in s.tables.votes {
      assert RowFromLog(s.history, s.tables.votes, e.Key());
    }
    NoConflict(s.history, s.tables.votes, e, s.tables);
  }

  /** No message is ever invalid, none ever conflicts with a stored row, and a delivery can be
      dead-lettered for nothing but exhausted retries. */
  lemma OnlyExhaustionDeadLetters(s: State, m: Message)
    requires Reachable(s) && m in Everywhere(s.queues)
    ensures EventIn(m).Some? && !Conflicts(s.tables, EventIn(m).value)
    ensures DeadLettered(s.tables, m, s.maxRetries) <==> Exhausted(m, s.maxRetries)
  {
    ReachableInv(s);
    NeverRejected(s, m);
  }

  /** Retry headers stay within the limit. */
  lemma RetriesStayWithinLimit(s: State, m: Message)
    requires Reachable(s) && m in Everywhere(s.queues) && s.maxRetries < INT32_LIMIT
    ensures 0 <= HeaderInt(m.retries) <= s.maxRetries
  {
    ReachableInv(s);
  }

  // Scores

  lemma StoredIsUpOrDown(h: History, issued: Tickets, posts: map<int, PostRow>, ks: Keyspace, k: Pair)
    requires HistoryInv(h, issued, posts) && Agrees(h, ks, k) && k.user in ZSetAt(ks, PostVoted(k.post))
    ensures ZSetAt(ks, PostVoted(k.post))[k.user] in {-1, 1}
  {
    assert LogEntry(h, issued, k, Count(h, k) - 1);
  }

  /** What a post's score adds to its time. */
  function Gain(ks: Keyspace, p: int): int
    requires p in ZSetAt(ks, PostTime) && p in ZSetAt(ks, PostScore)
  {
    ZSetAt(ks, PostScore)[p] - ZSetAt(ks, PostTime)[p]
  }

  /** The net vote a post had when its score was last set rather than moved. */
  function Baseline(s: State, p: int): int {
    Totals.ValueOr(s.baseline, p, 0)
  }

  /** Telescoping: in every run the score is the time plus 432 per net vote gained since the post
      was last indexed or rebuilt, and directions are stored as -1 or 1. */
  lemma ScoreIsNetVote(s: State, p: int)
    requires Reachable(s) && s.serving && p in ZSetAt(s.redis, PostTime)
    ensures p in ZSetAt(s.redis, PostScore)
    ensures Gain(s.redis, p) == SCORE_PER_VOTE * (Totals.Sum(ZSetAt(s.redis, PostVoted(p))) - Baseline(s, p))
    ensures Balanced(s.redis, p, Net(s.redis, p)) <==> Baseline(s, p) == 0
    ensures forall u | u in ZSetAt(s.redis, PostVoted(p)) :: ZSetAt(s.redis, PostVoted(p))[u] in {-1, 1}
  {
    ReachableInv(s);
    assert Balanced(s.redis, p, Net(s.redis, p) - Baseline(s, p));
    forall u | u in ZSetAt(s.redis, PostVoted(p))
      ensures ZSetAt(s.redis, PostVoted(p))[u] in {-1, 1}
    {
      assert Agrees(s.history, s.redis, Pair(u, p));
      StoredIsUpOrDown(s.history, s.issued, s.tables.posts, s.redis, Pair(u, p));
    }
  }

  /** A step that indexes no post with a net vote. */
  ghost predicate CleanStep(s: State, r: State) {
    exists a :: Enabled(s, a) && After(s, a) == r && (a.IndexPost? ==> Net(s.redis, a.post) == 0)
  }

  ghost function CleanSteps(): (State, State) -> bool {
    (s, r) => CleanStep(s, r)
  }

  ghost predicate NoBaseline(s: State) {
    forall p :: Baseline(s, p) == 0
  }

  lemma CleanActionKeeps(s: State, a: Action)
    requires NoBaseline(s) && Enabled(s, a) && (a.IndexPost? ==> Net(s.redis, a.post) == 0)
    ensures NoBaseline(After(s, a))
  {
    forall p
      ensures Baseline(After(s, a), p) == 0
    {
      assert Baseline(s, p) == 0;
    }
  }

  lemma CleanStepKeeps(s: State, r: State)
    requires Inv(s) && NoBaseline(s) && CleanStep(s, r)
    ensures Inv(r) && NoBaseline(r)
  {
    var a :| Enabled(s, a) && After(s, a) == r && (a.IndexPost? ==> Net(s.redis, a.post) == 0);
    StepKeepsInv(s, a);
    CleanActionKeeps(s, a);
  }

  /** In every run that indexes posts only while their net vote is zero, every score is its
      post's time plus 432 times the sum of the current directions. */
  lemma CleanRunsKeepScores(start: State, s: State, p: int)
    requires Initial(start) && Runs.Leads(CleanSteps(), start, s)
    requires s.serving && p in ZSetAt(s.redis, PostTime)
    ensures Balanced(s.redis, p, Net(s.redis, p))
  {
    InitialInv(start);
    forall a, b | Inv(a) && NoBaseline(a) && CleanSteps()(a, b)
      ensures Inv(b) && NoBaseline(b)
    {
      CleanStepKeeps(a, b);
    }
    Runs.LeadsKeeps(CleanSteps(), x => Inv(x) && NoBaseline(x), start, s);
    assert Balanced(s.redis, p, Net(s.redis, p) - Baseline(s, p)) && Baseline(s, p) == 0;
  }

  lemma UnindexedHasNoVotes(h: History, posts: map<int, PostRow>, ks: Keyspace, p: int)
    requires RedisInv(h, posts, ks) && p !in ZSetAt(ks, PostTime)
    ensures Net(ks, p) == 0
  {
    forall u
      ensures u !in ZSetAt(ks, PostVoted(p))
    {
      assert Agrees(h, ks, Pair(u, p));
    }
    Totals.NoKeys(ZSetAt(ks, PostVoted(p)));
  }

  lemma ReachableUnindexed(s: State, p: int)
    requires Reachable(s) && s.serving && p !in ZSetAt(s.redis, PostTime)
    ensures Net(s.redis, p) == 0
  {
    ReachableRedis(s);
    UnindexedHasNoVotes(s.history, s.tables.posts, s.redis, p);
  }

  lemma IndexedBalance(a: Keyspace, b: Keyspace, p: int, community: int, now: int)
    requires PostIndexed(a, b, p, community, now)
    ensures Balanced(b, p, Net(b, p)) <==> Net(a, p) == 0
  {
    Unindexed(a, b, p, community, now, PostVoted(p));
  }

  /** Indexing a post sets its score back to its time. That is right the first time, and a
      repetition is harmless exactly when the post's net vote is zero. */
  lemma ReindexHarmlessIffNoNetVote(s: State, p: int, community: int, now: int, ks: Keyspace)
    requires Reachable(s) && s.serving && PostIndexed(s.redis, ks, p, community, now)
    ensures Balanced(ks, p, Net(ks, p)) <==> Net(s.redis, p) == 0
    ensures p !in ZSetAt(s.redis, PostTime) ==> Net(s.redis, p) == 0
  {
    IndexedBalance(s.redis, ks, p, community, now);
    if p !in ZSetAt(s.redis, PostTime) {
      ReachableUnindexed(s, p);
    }
  }

  lemma FirstVoteCounts(a: Keyspace, b: Keyspace, e: VoteEvent)
    requires VoteApplied(a, b, e) && Net(a, e.post) == 0
    requires Direction(a, e.user, e.post) != e.direction
    ensures Net(b, e.post) == e.direction - Direction(a, e.user, e.post) != 0
  {
    var voted := ZSetAt(a, PostVoted(e.post));
    if e.direction == 0 {
      Totals.SumDelete(voted, e.user);
    } else {
      Totals.SumUpdate(voted, e.user, e.direction);
    }
  }

  lemma IndexingErasesVote(
    a: Keyspace, p: int, community: int, one: int, b: Keyspace, c: VoteCall, d: Keyspace, two: int, f: Keyspace)
    requires Net(a, p) == 0 && PostIndexed(a, b, p, community, one)
    requires c.post == p && Accepted(b, c) && VoteApplied(b, d, EventOf(b, c))
    requires PostIndexed(d, f, p, community, two)
    ensures !Balanced(f, p, Net(f, p))
  {
    Unindexed(a, b, p, community, one, PostVoted(p));
    FirstVoteCounts(b, d, EventOf(b, c));
    Unindexed(d, f, p, community, two, PostVoted(p));
  }

  /** The run CreatePost does not exclude: the first attempt indexed the post but its reply was
      lost, a vote is accepted before the next attempt, and that attempt erases it. */
  lemma RetryErasesVote(
    s: State, p: int, community: int, one: int, b: Keyspace, c: VoteCall, d: Keyspace, two: int, f: Keyspace)
    requires Reachable(s) && s.serving && p !in ZSetAt(s.redis, PostTime)
    requires PostIndexed(s.redis, b, p, community, one)
    requires c.post == p && Accepted(b, c) && VoteApplied(b, d, EventOf(b, c))
    requires PostIndexed(d, f, p, community, two)
    ensures !Balanced(f, p, Net(f, p))
  {
    ReachableUnindexed(s, p);
    IndexingErasesVote(s.redis, p, community, one, b, c, d, two, f);
  }

  /** Neither the vote script nor the index transaction ever meets a key of the wrong type. */
  lemma KeysKeepTheirTypes(s: State, p: int, community: int)
    requires Reachable(s) && s.serving
    ensures VoteKeysTyped(s.redis, p) && IndexKeysTyped(s.redis, community)
  {
    ReachableRedis(s);
    assert VoteKeysTyped(s.redis, p);
  }

  // Recovery

  lemma SameLogSameVotes(
    h: History, posts: map<int, PostRow>, one: Keyspace, posts': map<int, PostRow>, other: Keyspace, p: int)
    requires RedisInv(h, posts, one) && RedisInv(h, posts', other)
    ensures ZSetAt(one, PostVoted(p)) == ZSetAt(other, PostVoted(p))
    ensures HashAt(one, PostVersions(p)) == HashAt(other, PostVersions(p))
  {
    var voted, voted' := ZSetAt(one, PostVoted(p)), ZSetAt(other, PostVoted(p));
    var versions, versions' := HashAt(one, PostVersions(p)), HashAt(other, PostVersions(p));
    forall u
      ensures u in voted <==> u in voted'
      ensures u in voted ==> voted[u] == voted'[u]
      ensures u in versions <==> u in versions'
      ensures u in versions ==> versions[u] == versions'[u]
    {
      assert Agrees(h, one, Pair(u, p)) && Agrees(h, other, Pair(u, p));
    }
    Totals.SameMap(voted, voted');
    Totals.SameMap(versions, versions');
  }

  lemma ReachableSameVotes(s: State, r: State, p: int)
    requires Reachable(s) && Reachable(r) && s.serving && r.serving && s.history == r.history
    ensures ZSetAt(s.redis, PostVoted(p)) == ZSetAt(r.redis, PostVoted(p))
    ensures HashAt(s.redis, PostVersions(p)) == HashAt(r.redis, PostVersions(p))
  {
    ReachableRedis(s);
    ReachableRedis(r);
    SameLogSameVotes(s.history, s.tables.posts, s.redis, r.tables.posts, r.redis, p);
  }

  /** The log decides Redis: in any two reachable serving states with the same log, whatever
      losses and rebuilds lie between them, a post has the same direction map and the same version
      hash, and its score minus time differs by nothing but votes erased by indexing it again. */
  lemma LogDecidesRedis(s: State, r: State, p: int)
    requires Reachable(s) && Reachable(r) && s.serving && r.serving && s.history == r.history
    ensures ZSetAt(s.redis, PostVoted(p)) == ZSetAt(r.redis, PostVoted(p))
    ensures HashAt(s.redis, PostVersions(p)) == HashAt(r.redis, PostVersions(p))
    ensures p in ZSetAt(s.redis, PostTime) && p in ZSetAt(r.redis, PostTime) ==>
      && p in ZSetAt(s.redis, PostScore) && p in ZSetAt(r.redis, PostScore)
      && (Gain(s.redis, p) == Gain(r.redis, p) <==> Baseline(s, p) == Baseline(r, p))
  {
    ReachableSameVotes(s, r, p);
    if p in ZSetAt(s.redis, PostTime) && p in ZSetAt(r.redis, PostTime) {
      ScoreIsNetVote(s, p);
      ScoreIsNetVote(r, p);
    }
  }

  /** At a drained point Redis is lost and turns into `left`; a completed rebuild makes it `ks`. */
  ghost predicate DrainedRebuild(s: State, left: Keyspace, ks: Keyspace) {
    && s.serving && NothingInFlight(s.queues) && Outbox(s.redis).entries == map[]
    && Emptied(left) && RecoveryTarget.Rebuilt(s.tables, left, ks)
  }

  function Recovered(s: State, ks: Keyspace): State {
    s.(redis := ks, serving := true, baseline := map[])
  }

  lemma DrainedRebuildIsARun(s: State, left: Keyspace, ks: Keyspace)
    requires DrainedRebuild(s, left, ks)
    ensures Reaches(s, Recovered(s, ks))
  {
    var lost := s.(redis := left, serving := false);
    OneStep(s, LoseRedis(left));
    OneStep(lost, Rebuild(ks));
    Runs.LeadsOnwards(Steps(), s, lost, Recovered(s, ks));
  }

  lemma RestoredIndexed(s: State, left: Keyspace, ks: Keyspace, p: int)
    requires Reachable(s) && s.serving && RecoveryTarget.Rebuilt(s.tables, left, ks)
    ensures p in ZSetAt(ks, PostTime) <==> p in ActivePosts(s.tables)
    ensures p in ZSetAt(s.redis, PostTime) ==> p in ActivePosts(s.tables)
  {
    ReachableInv(s);
    RestoredIndex(s.tables, left, ks, p);
    assert p in s.tables.posts ==> PostActive(s.tables.posts, p);
  }

  /** A rebuild at a drained point, from whatever was left in Redis, restores for every post
      the direction map and the version hash (tombstones included), indexes exactly the active
      posts, and sets score minus time to 432 per net vote: the value before the loss, exactly
      if no vote had been erased by indexing the post again. */
  lemma RebuildRestoresRedis(s: State, left: Keyspace, ks: Keyspace, p: int)
    requires Reachable(s) && DrainedRebuild(s, left, ks)
    ensures ZSetAt(ks, PostVoted(p)) == ZSetAt(s.redis, PostVoted(p))
    ensures HashAt(ks, PostVersions(p)) == HashAt(s.redis, PostVersions(p))
    ensures p in ZSetAt(ks, PostTime) <==> p in ActivePosts(s.tables)
    ensures p in ZSetAt(ks, PostTime) ==> Balanced(ks, p, Net(s.redis, p))
    ensures p in ZSetAt(s.redis, PostTime) ==>
      && p in ZSetAt(ks, PostTime) && p in ZSetAt(ks, PostScore) && p in ZSetAt(s.redis, PostScore)
      && (Gain(ks, p) == Gain(s.redis, p) <==> Baseline(s, p) == 0)
  {
    DrainedRebuildIsARun(s, left, ks);
    StaysReachable(s, Recovered(s, ks));
    LogDecidesRedis(s, Recovered(s, ks), p);
    RestoredIndexed(s, left, ks, p);
    if p in ZSetAt(ks, PostTime) {
      ScoreIsNetVote(Recovered(s, ks), p);
    }
  }

  lemma StoredIsRestored(h: History, issued: Tickets, t: Tables, left: Keyspace, ks: Keyspace, k: Pair)
    requires HistoryInv(h, issued, t.posts) && (k in t.votes ==> RowFromLog(h, t.votes, k))
    requires RecoveryTarget.Rebuilt(t, left, ks)
    ensures Version(ks, k.user, k.post) == StoredVersion(t, k)
    ensures Direction(ks, k.user, k.post) == StoredDirection(t, k)
  {
    RestoredVotes(t, left, ks, k.post);
    assert Pair(k.user, k.post) == k;
    if k in t.votes {
      assert k in h && PostActive(t.posts, k.post);
    }
  }

  lemma StoredDecidesDirection(h: History, issued: Tickets, posts: map<int, PostRow>, ks: Keyspace, t: Tables, k: Pair)
    requires HistoryInv(h, issued, posts) && Agrees(h, ks, k) && (k in t.votes ==> RowFromLog(h, t.votes, k))
    requires StoredVersion(t, k) == Version(ks, k.user, k.post)
    ensures StoredDirection(t, k) == Direction(ks, k.user, k.post)
  {
  }

  /** Drained or not, exactly when a rebuild gives a pair its state back: when MySQL had the
      pair's current version at the loss. */
  lemma RebuildRestoresPairIffStored(s: State, left: Keyspace, ks: Keyspace, k: Pair)
    requires Reachable(s) && s.serving && RecoveryTarget.Rebuilt(s.tables, left, ks)
    ensures Version(ks, k.user, k.post) == Version(s.redis, k.user, k.post)
        && Direction(ks, k.user, k.post) == Direction(s.redis, k.user, k.post)
      <==> StoredVersion(s.tables, k) == Version(s.redis, k.user, k.post)
  {
    ReachableInv(s);
    StoredIsRestored(s.history, s.issued, s.tables, left, ks, k);
    if StoredVersion(s.tables, k) == Version(s.redis, k.user, k.post) {
      assert Agrees(s.history, s.redis, k);
      StoredDecidesDirection(s.history, s.issued, s.tables.posts, s.redis, s.tables, k);
    }
  }

  /** At any time, after a rebuild as before, the next accepted vote has the next version, and
      MySQL stores it rather than calling it stale, duplicate or conflicting. */
  lemma NextVoteIsStored(s: State, c: VoteCall)
    requires Reachable(s) && s.serving && ValidCall(s.issued, c)
    ensures
      var e := EventOf(s.redis, c);
      && e.version == Version(s.redis, c.user, c.post) + 1 == Count(s.history, e.Key()) + 1
      && e.id !in s.tables.consumed && !Superseded(s.tables, e) && !Conflicts(s.tables, e)
  {
    ReachableInv(s);
    var e := EventOf(s.redis, c);
    assert Agrees(s.history, s.redis, e.Key());
    if e.Key() in s.tables.votes {
      assert RowFromLog(s.history, s.tables.votes, e.Key());
    }
  }

  lemma IndexAmongActive(h: History, issued: Tickets, t: Tables, ks: Keyspace)
    requires HistoryInv(h, issued, t.posts) && RedisInv(h, t.posts, ks)
    ensures ZSetAt(ks, PostTime).Keys == ZSetAt(ks, PostScore).Keys <= ActivePosts(t)
  {
    forall p
      ensures p in ZSetAt(ks, PostTime).Keys <==> p in ZSetAt(ks, PostScore).Keys
      ensures p in ZSetAt(ks, PostTime).Keys ==> p in ActivePosts(t)
    {
      assert p in t.posts ==> PostActive(t.posts, p);
    }
    Totals.SameSet(ZSetAt(ks, PostTime).Keys, ZSetAt(ks, PostScore).Keys);
  }

  /** Counting is enough: the indexed posts are always among the active ones, so equal counts
      at startup mean that the index is complete. */
  lemma StartupMeansComplete(s: State)
    requires Reachable(s) && s.serving
    ensures ZSetAt(s.redis, PostTime).Keys == ZSetAt(s.redis, PostScore).Keys <= ActivePosts(s.tables)
    ensures RedisRebuild.Acceptable(s.tables, s.redis) ==> ZSetAt(s.redis, PostTime).Keys == ActivePosts(s.tables)
  {
    ReachableInv(s);
    IndexAmongActive(s.history, s.issued, s.tables, s.redis);
    RedisRebuild.CountsDecideIndex(s.tables, s.redis);
  }

  ghost predicate CommunitiesPositive(t: Tables) {
    forall p | p in ActivePosts(t) :: t.posts[p].community > 0
  }

  lemma RowFromLogIsValid(h: History, issued: Tickets, posts: map<int, PostRow>, votes: map<Pair, VoteRow>, k: Pair)
    requires HistoryInv(h, issued, posts) && k in votes && RowFromLog(h, votes, k)
    ensures RedisRebuild.RowValid(votes[k])
  {
    assert LogEntry(h, issued, k, votes[k].version - 1);
  }

  lemma SnapshotValidIff(s: State, p: int)
    requires Reachable(s) && p in RecoveryTarget.Restorable(s.tables)
    ensures RedisRebuild.SnapshotValid(s.tables, p) <==> s.tables.posts[p].community > 0
  {
    ReachableHistory(s);
    forall u | u in UsersOn(s.tables.votes, p)
      ensures RedisRebuild.RowValid(s.tables.votes[Pair(u, p)])
    {
      ReachableRow(s, Pair(u, p));
      RowFromLogIsValid(s.history, s.issued, s.tables.posts, s.tables.votes, Pair(u, p));
    }
  }

  lemma RestorableIsActive(s: State)
    requires Reachable(s)
    ensures RecoveryTarget.Restorable(s.tables) == ActivePosts(s.tables)
  {
    ReachableHistory(s);
    assert forall p | p in s.tables.posts :: PostActive(s.tables.posts, p);
  }

  /** Exactly when the rebuild accepts every snapshot of a reachable state: when no active post
      has a community id below 1. Nothing on the way into MySQL checks that. */
  lemma SnapshotsValidIff(s: State)
    requires Reachable(s)
    ensures RedisRebuild.SnapshotsValid(s.tables) <==> CommunitiesPositive(s.tables)
  {
    RestorableIsActive(s);
    forall p | p in RecoveryTarget.Restorable(s.tables)
      ensures RedisRebuild.SnapshotValid(s.tables, p) <==> s.tables.posts[p].community > 0
    {
      SnapshotValidIff(s, p);
    }
  }

  ghost predicate HasPost(s: State, p: int, row: PostRow) {
    p in s.tables.posts && s.tables.posts[p] == row
  }

  lemma ActionKeepsPost(s: State, a: Action, p: int, row: PostRow)
    requires HasPost(s, p, row) && Enabled(s, a)
    ensures HasPost(After(s, a), p, row)
  {
    match a
    case InsertPost(q, _) => assert q != p;
    case Persist(m, _) => assert Applied(s.tables, EventIn(m).value).posts == s.tables.posts;
    case _ => assert After(s, a).tables.posts == s.tables.posts;
  }

  lemma StepKeepsPost(s: State, r: State, p: int, row: PostRow)
    requires HasPost(s, p, row) && Step(s, r)
    ensures HasPost(r, p, row)
  {
    var a :| Enabled(s, a) && After(s, a) == r;
    ActionKeepsPost(s, a, p, row);
  }

  /** And one such post is enough for good: from then on no state has a rebuild that succeeds. */
  lemma BadCommunityStays(s: State, r: State, p: int)
    requires Reachable(s) && Reaches(s, r) && p in ActivePosts(s.tables) && s.tables.posts[p].community <= 0
    ensures p in ActivePosts(r.tables) && !RedisRebuild.SnapshotsValid(r.tables)
  {
    var row := s.tables.posts[p];
    forall a, b | HasPost(a, p, row) && Steps()(a, b)
      ensures HasPost(b, p, row)
    {
      StepKeepsPost(a, b, p, row);
    }
    Runs.LeadsKeeps(Steps(), x => HasPost(x, p, row), s, r);
    StaysReachable(s, r);
    SnapshotsValidIff(r);
  }

  /** A flushed Redis passes the startup check only if there was nothing to lose. */
  lemma FlushIsNoticed(s: State, others: Keyspace)
    requires Reachable(s) && (forall k | k in others :: k.Foreign?)
    ensures RedisRebuild.Acceptable(s.tables, others) <==> ActivePosts(s.tables) == {}
    ensures RedisRebuild.Acceptable(s.tables, others) ==> s.history == map[]
  {
    ReachableHistory(s);
    assert ZSetAt(others, PostTime) == map[];
    if ActivePosts(s.tables) == {} {
      forall k
        ensures k !in s.history
      {
        assert k in s.history ==> PostActive(s.tables.posts, k.post) && k.post in ActivePosts(s.tables);
      }
      Totals.NoKeys(s.history);
    }
  }

  // A partial loss

  /** What the startup check reads is the same. */
  predicate SameIndex(a: Keyspace, b: Keyspace) {
    && RecoveryTarget.Lookup(b, PostTime) == RecoveryTarget.Lookup(a, PostTime)
    && RecoveryTarget.Lookup(b, PostScore) == RecoveryTarget.Lookup(a, PostScore)
    && RecoveryTarget.Lookup(b, StateMarker) == RecoveryTarget.Lookup(a, StateMarker)
  }

  predicate SamePair(a: Keyspace, b: Keyspace, k: Pair) {
    && (k.user in ZSetAt(b, PostVoted(k.post)) <==> k.user in ZSetAt(a, PostVoted(k.post)))
    && Direction(b, k.user, k.post) == Direction(a, k.user, k.post)
    && (k.user in HashAt(b, PostVersions(k.post)) <==> k.user in HashAt(a, PostVersions(k.post)))
    && Version(b, k.user, k.post) == Version(a, k.user, k.post)
  }

  /** The startup check sees the index alone. Whatever else a loss has taken, it accepts what is
      left as it accepted the whole, and of the vote state exactly the pairs still as they were
      agree with the log. */
  lemma StartupSeesIndexOnly(s: State, left: Keyspace, k: Pair)
    requires Reachable(s) && s.serving && SameIndex(s.redis, left)
    ensures RedisRebuild.Acceptable(s.tables, left) <==> RedisRebuild.Acceptable(s.tables, s.redis)
    ensures RedisRebuild.Countable(left) <==> RedisRebuild.Countable(s.redis)
    ensures Agrees(s.history, left, k) <==> SamePair(s.redis, left, k)
  {
    ReachableRow(s, k);
  }

  function WithoutVotes(ks: Keyspace, p: int): Keyspace {
    ks - {PostVoted(p), PostVersions(p)}
  }

  lemma WithoutVotesHasNone(h: History, ks: Keyspace, k: Pair)
    requires Agrees(h, ks, k)
    ensures SameIndex(ks, WithoutVotes(ks, k.post))
    ensures SamePair(ks, WithoutVotes(ks, k.post), k) <==> k !in h
    ensures Version(WithoutVotes(ks, k.post), k.user, k.post) == 0
  {
  }

  /** In particular the loss of both vote keys of a post goes unnoticed: only users who never
      voted on it are left right, and everyone else's next vote reuses an emitted version. */
  lemma LostVotesGoUnnoticed(s: State, c: VoteCall)
    requires Reachable(s) && s.serving
    ensures
      var left, k := WithoutVotes(s.redis, c.post), Pair(c.user, c.post);
      && (RedisRebuild.Acceptable(s.tables, left) <==> RedisRebuild.Acceptable(s.tables, s.redis))
      && (Agrees(s.history, left, k) <==> k !in s.history)
      && ((exists e :: Emitted(s.history, e) && SlotOf(e) == SlotOf(EventOf(left, c))) <==> k in s.history)
  {
    var left, k := WithoutVotes(s.redis, c.post), Pair(c.user, c.post);
    ReachableRow(s, k);
    WithoutVotesHasNone(s.history, s.redis, k);
    StartupSeesIndexOnly(s, left, k);
    ReachableHistory(s);
    ReusesIffBehind(s.history, s.issued, s.tables.posts, s.redis, left, c);
  }

  // The methods of the other modules are steps

  /** RedisRebuild.EnsureRedisStateReady, which may set the marker, is a step. */
  lemma StartupIsStep(s: State, ks: Keyspace)
    requires s.serving && (ks == s.redis || ks == Set(s.redis, StateMarker, RecoveryTarget.READY))
    ensures Reaches(s, s.(redis := ks))
  {
    OneStep(s, OtherWrites(ks));
  }

  /** VoteScript.VoteForPost, whatever it answers, is a step or no step. */
  lemma VotingIsStep(s: State, c: VoteCall, ks: Keyspace)
    requires s.serving && ValidCall(s.issued, c)
    requires ks == s.redis || (Accepted(s.redis, c) && VoteApplied(s.redis, ks, EventOf(s.redis, c)))
    ensures exists r :: Reaches(s, r) && r.redis == ks && r.queues == s.queues && r.tables == s.tables && r.serving
  {
    Runs.LeadsNowhere(Steps(), s);
    if ks != s.redis {
      OneStep(s, CastVote(c, ks));
      assert After(s, CastVote(c, ks)).redis == ks;
    }
  }

  lemma OthersKeptStaysEmpty(before: Keyspace, after: Keyspace)
    requires Emptied(before) && RedisRebuild.OthersKept(before, after)
    ensures Emptied(after)
  {
    assert RecoveryTarget.Lookup(after, VoteOutbox) == RecoveryTarget.Lookup(before, VoteOutbox);
  }

  /** RedisRebuild.RebuildRedisFromMySQL, from start to end or to a crash anywhere, is a step. */
  lemma RebuildingIsStep(s: State, ks: Keyspace)
    requires !s.serving && Emptied(s.redis) && RedisRebuild.OthersKept(s.redis, ks)
    ensures Reaches(s, s.(redis := ks))
    ensures RecoveryTarget.Rebuilt(s.tables, s.redis, ks) ==> Reaches(s, Recovered(s, ks))
  {
    OthersKeptStaysEmpty(s.redis, ks);
    OneStep(s, Scramble(ks));
    if RecoveryTarget.Rebuilt(s.tables, s.redis, ks) {
      OneStep(s, Rebuild(ks));
    }
  }

  // Why draining matters

  lemma SlotEmitted(h: History, issued: Tickets, posts: map<int, PostRow>, k: Pair, version: int)
    requires HistoryInv(h, issued, posts)
    ensures (exists e :: Emitted(h, e) && SlotOf(e) == Slot(k, version)) <==> 0 < version <= Count(h, k)
  {
    if 0 < version <= Count(h, k) {
      assert LogEntry(h, issued, k, version - 1);
      assert Emitted(h, h[k][version - 1]);
    }
  }

  lemma ReusesIffBehind(h: History, issued: Tickets, posts: map<int, PostRow>, redis: Keyspace, ks: Keyspace, c: VoteCall)
    requires HistoryInv(h, issued, posts) && Agrees(h, redis, Pair(c.user, c.post))
    requires Version(ks, c.user, c.post) >= 0
    ensures (exists e :: Emitted(h, e) && SlotOf(e) == SlotOf(EventOf(ks, c)))
      <==> Version(ks, c.user, c.post) < Version(redis, c.user, c.post)
  {
    SlotEmitted(h, issued, posts, Pair(c.user, c.post), Version(ks, c.user, c.post) + 1);
  }

  lemma RebuiltIsStored(s: State, left: Keyspace, ks: Keyspace, k: Pair)
    requires Reachable(s) && RecoveryTarget.Rebuilt(s.tables, left, ks)
    ensures Version(ks, k.user, k.post) == StoredVersion(s.tables, k) >= 0
  {
    ReachableHistory(s);
    ReachableRow(s, k);
    StoredIsRestored(s.history, s.issued, s.tables, left, ks, k);
  }

  /** After a rebuild, drained or not, a user's next vote reuses the slot of an event emitted
      before exactly when MySQL was behind Redis on that user and post. */
  lemma NextVoteReusesSlotIffBehind(s: State, left: Keyspace, ks: Keyspace, c: VoteCall)
    requires Reachable(s) && s.serving && RecoveryTarget.Rebuilt(s.tables, left, ks)
    ensures (exists e :: Emitted(s.history, e) && SlotOf(e) == SlotOf(EventOf(ks, c)))
      <==> StoredVersion(s.tables, Pair(c.user, c.post)) < Version(s.redis, c.user, c.post)
  {
    ReachableHistory(s);
    ReachableRow(s, Pair(c.user, c.post));
    RebuiltIsStored(s, left, ks, Pair(c.user, c.post));
    ReusesIffBehind(s.history, s.issued, s.tables.posts, s.redis, ks, c);
  }

  lemma NextSlotConflicts(t: Tables, e: VoteEvent, next: VoteEvent)
    requires SlotOf(e) == SlotOf(next) && e.version == StoredVersion(t, e.Key()) + 1
    requires e.id !in t.consumed && next.id !in t.consumed && e.id != next.id
    ensures Conflicts(Applied(t, e), next) <==> e.direction != next.direction
  {
  }

  lemma NextSlotIsUnseen(s: State, e: VoteEvent)
    requires Reachable(s) && Emitted(s.history, e) && e.version == StoredVersion(s.tables, e.Key()) + 1
    ensures e.id !in s.tables.consumed && e.id in s.issued
    ensures forall id | id in s.tables.consumed :: id in s.issued
  {
    ReachableInv(s);
    LogIsUnique(s.history, s.issued, s.tables.posts, e, e);
    assert e.id in s.Seen() ==> StoredVersion(s.tables, e.Key()) >= e.version;
    assert s.tables.consumed <= s.Seen();
  }

  /** And then, once the old event of that slot is committed, the new one conflicts with it
      exactly when the two directions differ. */
  lemma UndrainedRebuildConflicts(s: State, left: Keyspace, ks: Keyspace, e: VoteEvent, c: VoteCall)
    requires Reachable(s) && s.serving && RecoveryTarget.Rebuilt(s.tables, left, ks)
    requires Emitted(s.history, e) && SlotOf(e) == SlotOf(EventOf(ks, c)) && c.eventId !in s.issued
    ensures Conflicts(Applied(s.tables, e), EventOf(ks, c)) <==> e.direction != c.direction
  {
    RebuiltIsStored(s, left, ks, Pair(c.user, c.post));
    NextSlotIsUnseen(s, e);
    NextSlotConflicts(s.tables, e, EventOf(ks, c));
  }
}
