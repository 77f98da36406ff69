/** Drained tables hold every pair's latest event, and a rebuild from them restores Redis. */
module PipelineRecovery {
  import opened VoteModel
  import opened RedisStore
  import opened VoteScript
  import opened VoteDatabase
  import opened VoteBroker
  import opened VoteDelivery
  import opened VotePipeline
  import opened RecoveryTarget
  import opened PipelineInvariant
  import Totals

  /** The row of a pair is its latest event. */
  predicate UpToDate(h: History, votes: map<Pair, VoteRow>, k: Pair) {
    if k in h && h[k] != [] then k in votes && votes[k] == RowOf(h[k][|h[k]| - 1]) else k !in votes
  }

  ghost predicate Converged(h: History, votes: map<Pair, VoteRow>) {
    forall k: Pair :: UpToDate(h, votes, k)
  }

  function Latest(h: History, k: Pair): VoteEvent
    requires Count(h, k) > 0
  {
    h[k][Count(h, k) - 1]
  }

  lemma ConsumedIsStored(
    h: History, issued: Tickets, posts: map<int, PostRow>, seen: set<string>, votes: map<Pair, VoteRow>, k: Pair)
    requires HistoryInv(h, issued, posts) && DatabaseInv(h, issued, seen, votes)
    requires Count(h, k) > 0 && Latest(h, k).id in seen
    ensures UpToDate(h, votes, k)
  {
    assert LogEntry(h, issued, k, |h[k]| - 1);
    assert Emitted(h, Latest(h, k));
    assert RowFromLog(h, votes, k);
  }

  lemma LatestIsEmitted(h: History, issued: Tickets, posts: map<int, PostRow>, k: Pair)
    requires HistoryInv(h, issued, posts) && k in h
    ensures Count(h, k) > 0 && Emitted(h, Latest(h, k)) && Latest(h, k).Key() == k
    ensures Latest(h, k).version == Count(h, k)
  {
    assert LogEntry(h, issued, k, |h[k]| - 1);
  }

  /** Once the latest event of a pair is neither in the stream nor in any live message, the
      pair's row is that event, whatever became of the older ones. */
  lemma LatestIsStored(s: State, k: Pair)
    requires Inv(s) && Count(s.history, k) > 0
    requires !InStream(s.issued, Outbox(s.redis), Latest(s.history, k)) && !Held(s.queues, Latest(s.history, k))
    ensures UpToDate(s.history, s.tables.votes, k)
  {
    LatestIsEmitted(s.history, s.issued, s.tables.posts, k);
    assert Accounted(s.history, s.issued, Outbox(s.redis), s.published, s.queues, s.Seen(), Latest(s.history, k));
    ConsumedIsStored(s.history, s.issued, s.tables.posts, s.Seen(), s.tables.votes, k);
  }

  lemma NothingHeld(q: Queues)
    requires NothingInFlight(q)
    ensures forall e :: !Held(q, e)
  {
    assert LiveCopies(q) <= Everywhere(q);
  }

  lemma DrainedIsConverged(s: State)
    requires Inv(s) && NothingInFlight(s.queues) && Outbox(s.redis).entries == map[]
    ensures Converged(s.history, s.tables.votes)
  {
    NothingHeld(s.queues);
    forall k: Pair
      ensures UpToDate(s.history, s.tables.votes, k)
    {
      if k in s.tables.votes {
        assert RowFromLog(s.history, s.tables.votes, k);
      }
      if k in s.history {
        LatestIsStored(s, k);
      }
    }
  }

  lemma RestoredContents(d: SnapshotMap, base: Keyspace, ks: Keyspace, p: int)
    requires RestoredTo(d, base, ks)
    ensures TypeIs(ks, PostTime, ZSetKind) && TypeIs(ks, PostScore, ZSetKind)
    ensures ZSetAt(ks, PostTime) == Times(d) && ZSetAt(ks, PostScore) == Scores(d)
    ensures TypeIs(ks, PostVoted(p), ZSetKind) && TypeIs(ks, PostVersions(p), HashKind)
    ensures ZSetAt(ks, PostVoted(p)) == (if p in d then LiveOf(d[p].votes) else map[])
    ensures HashAt(ks, PostVersions(p)) == (if p in d then VersionsOf(d[p].votes) else map[])
  {
    assert RestoredAt(d, base, ks, PostTime) && RestoredAt(d, base, ks, PostScore);
    assert RestoredAt(d, base, ks, PostVoted(p)) && RestoredAt(d, base, ks, PostVersions(p));
  }

  lemma TabulatedPost(ids: set<int>, data: int -> PostData, p: int)
    ensures p in Tabulate(ids, data) <==> p in ids
    ensures p in ids ==> Tabulate(ids, data)[p] == data(p)
  {
  }

  lemma DataOfPost(t: Tables, p: int)
    requires p in t.posts
    ensures LiveOf(DataOf(t)(p).votes) == Live(DirectionsOn(t.votes, p))
    ensures VersionsOf(DataOf(t)(p).votes) == VersionsOn(t.votes, p)
    ensures DataOf(t)(p).post.createUnix == t.posts[p].createUnix
    ensures DataOf(t)(p).post.netVote == Totals.Sum(Live(DirectionsOn(t.votes, p)))
  {
    CollectedRows(t, p);
    NetVoteIsSum(t.votes, p);
    Totals.SumNonzero(DirectionsOn(t.votes, p));
  }

  /** The derived keys of one post after a rebuild, in terms of the vote rows. */
  lemma RestoredVotes(t: Tables, before: Keyspace, ks: Keyspace, p: int)
    requires Rebuilt(t, before, ks)
    ensures p in Restorable(t) ==>
      && ZSetAt(ks, PostVoted(p)) == Live(DirectionsOn(t.votes, p))
      && HashAt(ks, PostVersions(p)) == VersionsOn(t.votes, p)
    ensures p !in Restorable(t) ==> ZSetAt(ks, PostVoted(p)) == map[] && HashAt(ks, PostVersions(p)) == map[]
    ensures TypeIs(ks, PostVoted(p), ZSetKind) && TypeIs(ks, PostVersions(p), HashKind)
    ensures TypeIs(ks, PostTime, ZSetKind) && TypeIs(ks, PostScore, ZSetKind)
  {
    RestoredContents(Tabulate(Restorable(t), DataOf(t)), Set(before, StateMarker, READY), ks, p);
    TabulatedPost(Restorable(t), DataOf(t), p);
    if p in Restorable(t) {
      DataOfPost(t, p);
    }
  }

  lemma RestoredIndex(t: Tables, before: Keyspace, ks: Keyspace, p: int)
    requires Rebuilt(t, before, ks)
    ensures p in ZSetAt(ks, PostTime) <==> p in Restorable(t)
    ensures p in ZSetAt(ks, PostScore) <==> p in Restorable(t)
    ensures p in Restorable(t) ==>
      && ZSetAt(ks, PostTime)[p] == t.posts[p].createUnix
      && ZSetAt(ks, PostScore)[p]
        == t.posts[p].createUnix + Totals.Sum(Live(DirectionsOn(t.votes, p))) * SCORE_PER_VOTE
  {
    RestoredContents(Tabulate(Restorable(t), DataOf(t)), Set(before, StateMarker, READY), ks, p);
    TabulatedPost(Restorable(t), DataOf(t), p);
    if p in Restorable(t) {
      DataOfPost(t, p);
    }
  }

  /** Accumulating per-vote deltas and recomputing from final directions agree. */
  lemma RestoredBalance(t: Tables, before: Keyspace, ks: Keyspace, p: int)
    requires Rebuilt(t, before, ks) && p in Restorable(t)
    ensures Balanced(ks, p, Net(ks, p))
  {
    RestoredVotes(t, before, ks, p);
    RestoredIndex(t, before, ks, p);
  }

  lemma RestoredPair(h: History, t: Tables, before: Keyspace, ks: Keyspace, k: Pair)
    requires Rebuilt(t, before, ks) && UpToDate(h, t.votes, k)
    requires k in h ==> h[k] != [] && h[k][|h[k]| - 1].version == |h[k]| && k.post in Restorable(t)
    ensures Agrees(h, ks, k)
  {
    RestoredVotes(t, before, ks, k.post);
    assert Pair(k.user, k.post) == k;
  }

  lemma CommunityIsSet(d: SnapshotMap, base: Keyspace, ks: Keyspace, c: int)
    requires RestoredTo(d, base, ks)
    ensures TypeIs(ks, Community(c), SetKind)
  {
    assert RestoredAt(d, base, ks, Community(c));
  }

  lemma RestoredCommunity(t: Tables, before: Keyspace, ks: Keyspace, c: int)
    requires Rebuilt(t, before, ks)
    ensures TypeIs(ks, Community(c), SetKind)
  {
    CommunityIsSet(Tabulate(Restorable(t), DataOf(t)), Set(before, StateMarker, READY), ks, c);
  }

  lemma RestoredAgrees(h: History, issued: Tickets, t: Tables, before: Keyspace, ks: Keyspace, k: Pair)
    requires HistoryInv(h, issued, t.posts) && Converged(h, t.votes) && Rebuilt(t, before, ks)
    ensures Agrees(h, ks, k)
  {
    assert UpToDate(h, t.votes, k);
    if k in h {
      assert LogEntry(h, issued, k, |h[k]| - 1);
    }
    RestoredPair(h, t, before, ks, k);
  }

  lemma RestoredOutbox(t: Tables, before: Keyspace, ks: Keyspace)
    requires Rebuilt(t, before, ks)
    ensures Outbox(ks) == Outbox(before)
    ensures TypeIs(before, VoteOutbox, StreamKind) ==> TypeIs(ks, VoteOutbox, StreamKind)
  {
    assert RestoredAt(Tabulate(Restorable(t), DataOf(t)), Set(before, StateMarker, READY), ks, VoteOutbox);
  }

  lemma RebuildKeepsRedis(h: History, issued: Tickets, t: Tables, before: Keyspace, ks: Keyspace)
    requires HistoryInv(h, issued, t.posts) && Converged(h, t.votes)
    requires Emptied(before) && Rebuilt(t, before, ks)
    ensures RedisInv(h, t.posts, ks)
    ensures Outbox(ks) == Outbox(before)
  {
    RestoredOutbox(t, before, ks);
    forall p
      ensures VoteKeysTyped(ks, p)
      ensures p in ZSetAt(ks, PostTime) <==> p in Restorable(t)
      ensures p in ZSetAt(ks, PostScore) <==> p in Restorable(t)
    {
      RestoredVotes(t, before, ks, p);
      RestoredIndex(t, before, ks, p);
    }
    forall k: Pair
      ensures Agrees(h, ks, k)
    {
      RestoredAgrees(h, issued, t, before, ks, k);
    }
    forall c
      ensures TypeIs(ks, Community(c), SetKind)
    {
      RestoredCommunity(t, before, ks, c);
    }
  }

  /** A rebuild leaves no difference between scores and net votes, whatever was lost before. */
  lemma RebuildKeepsBalance(t: Tables, before: Keyspace, ks: Keyspace)
    requires Rebuilt(t, before, ks)
    ensures BalanceInv(map[], ks)
  {
    forall p | p in ZSetAt(ks, PostTime)
      ensures Balanced(ks, p, Net(ks, p))
    {
      RestoredIndex(t, before, ks, p);
      RestoredBalance(t, before, ks, p);
    }
  }
}
