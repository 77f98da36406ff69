/** Every step of the pipeline keeps the invariant. */
module PipelineInvariant {
  import opened VoteModel
  import opened RedisStore
  import opened VoteScript
  import opened VoteDatabase
  import opened VoteBroker
  import opened VoteDelivery
  import opened VotePipeline
  import RecoveryTarget
  import Totals

  // The log

  lemma LogIsUnique(h: History, issued: Tickets, posts: map<int, PostRow>, a: VoteEvent, b: VoteEvent)
    requires HistoryInv(h, issued, posts) && Emitted(h, a) && Emitted(h, b)
    ensures a.id == b.id ==> a == b
    ensures WellFormed(a) && a.id in issued && PostActive(posts, a.post)
  {
    assert LogEntry(h, issued, a.Key(), a.version - 1);
    assert LogEntry(h, issued, b.Key(), b.version - 1);
  }

  lemma LogGrows(h: History, e: VoteEvent, x: VoteEvent)
    requires e.version == Count(h, e.Key()) + 1
    ensures Emitted(Recorded(h, e), x) <==> x == e || Emitted(h, x)
  {
  }

  lemma CastKeepsHistory(h: History, issued: Tickets, posts: map<int, PostRow>, e: VoteEvent, sid: nat)
    requires HistoryInv(h, issued, posts) && WellFormed(e) && e.id !in issued
    requires e.version == Count(h, e.Key()) + 1 && e.direction != Standing(h, e.Key())
    requires PostActive(posts, e.post)
    ensures HistoryInv(Recorded(h, e), issued[e.id := Ticket(SlotOf(e), sid)], posts)
  {
    var h', issued' := Recorded(h, e), issued[e.id := Ticket(SlotOf(e), sid)];
    forall k, i | k in h' && 0 <= i < |h'[k]|
      ensures LogEntry(h', issued', k, i)
    {
      if k in h && i < |h[k]| {
        assert LogEntry(h, issued, k, i);
      }
    }
  }

  lemma CastKeepsDatabase(
    h: History, issued: Tickets, seen: set<string>, votes: map<Pair, VoteRow>, e: VoteEvent, sid: nat)
    requires DatabaseInv(h, issued, seen, votes) && e.id !in issued
    requires e.version == Count(h, e.Key()) + 1
    ensures DatabaseInv(Recorded(h, e), issued[e.id := Ticket(SlotOf(e), sid)], seen, votes)
  {
    var h' := Recorded(h, e);
    forall x | Emitted(h', x) && x.id in seen
      ensures x.Key() in votes && votes[x.Key()].version >= x.version
    {
      LogGrows(h, e, x);
    }
    forall k | k in votes
      ensures RowFromLog(h', votes, k)
    {
      assert RowFromLog(h, votes, k);
    }
  }

  lemma CastKeepsMessages(h: History, q: Queues, e: VoteEvent)
    requires MessagesInv(h, q) && e.version == Count(h, e.Key()) + 1
    ensures MessagesInv(Recorded(h, e), q)
  {
    forall m | m in Everywhere(q)
      ensures FromLog(Recorded(h, e), m)
    {
      assert FromLog(h, m);
      LogGrows(h, e, EventIn(m).value);
    }
  }

  lemma CastKeepsStream(h: History, issued: Tickets, st: Stream, e: VoteEvent)
    requires StreamInv(h, issued, st) && e.id !in issued
    requires e.version == Count(h, e.Key()) + 1
    ensures StreamInv(Recorded(h, e), issued[e.id := Ticket(SlotOf(e), st.lastId + 1)], Appended(st, e))
  {
    var st' := Appended(st, e);
    forall sid | sid in st'.entries
      ensures Emitted(Recorded(h, e), st'.entries[sid])
    {
      LogGrows(h, e, st'.entries[sid]);
    }
  }

  lemma CastKeepsConservation(
    h: History, issued: Tickets, posts: map<int, PostRow>, st: Stream, published: set<VoteEvent>, q: Queues,
    seen: set<string>, e: VoteEvent)
    requires ConservationInv(h, issued, st, published, q, seen) && StreamInv(h, issued, st)
    requires HistoryInv(h, issued, posts) && e.id !in issued
    requires e.version == Count(h, e.Key()) + 1
    ensures ConservationInv(Recorded(h, e), issued[e.id := Ticket(SlotOf(e), st.lastId + 1)], Appended(st, e),
                            published, q, seen)
  {
    var issued', st' := issued[e.id := Ticket(SlotOf(e), st.lastId + 1)], Appended(st, e);
    forall x
      ensures Accounted(Recorded(h, e), issued', st', published, q, seen, x)
    {
      assert Accounted(h, issued, st, published, q, seen, x);
      LogGrows(h, e, x);
      if Emitted(h, x) && InStream(issued, st, x) {
        LogIsUnique(h, issued, posts, x, x);
        assert issued'[x.id] == issued[x.id];
      }
    }
  }

  // Redis

  lemma CastAgrees(h: History, a: Keyspace, b: Keyspace, e: VoteEvent, k: Pair)
    requires Agrees(h, a, k) && VoteApplied(a, b, e) && Agrees(h, a, e.Key())
    ensures Agrees(Recorded(h, e), b, k)
    ensures e.version == Count(h, e.Key()) + 1
  {
    if k.post != e.post {
      Untouched(a, b, e, PostVoted(k.post));
      Untouched(a, b, e, PostVersions(k.post));
    }
  }

  /** Score and net vote move together, whatever the two differed by before. */
  lemma CastBalances(a: Keyspace, b: Keyspace, e: VoteEvent, p: int, base: int)
    requires VoteApplied(a, b, e) && Balanced(a, p, Net(a, p) - base)
    ensures Balanced(b, p, Net(b, p) - base)
  {
    Untouched(a, b, e, PostTime);
    if p == e.post {
      var voted := ZSetAt(a, PostVoted(p));
      if e.direction == 0 {
        Totals.SumDelete(voted, e.user);
      } else {
        Totals.SumUpdate(voted, e.user, e.direction);
      }
    } else {
      Untouched(a, b, e, PostVoted(p));
    }
  }

  lemma CastKeepsBalance(baseline: map<int, int>, a: Keyspace, b: Keyspace, e: VoteEvent)
    requires BalanceInv(baseline, a) && VoteApplied(a, b, e)
    ensures BalanceInv(baseline, b)
  {
    Untouched(a, b, e, PostTime);
    forall p | p in ZSetAt(b, PostTime)
      ensures Balanced(b, p, Net(b, p) - Totals.ValueOr(baseline, p, 0))
    {
      CastBalances(a, b, e, p, Totals.ValueOr(baseline, p, 0));
    }
  }

  lemma CastKeepsTypes(a: Keyspace, b: Keyspace, e: VoteEvent, p: int)
    requires VoteKeysTyped(a, p) && VoteApplied(a, b, e)
    ensures VoteKeysTyped(b, p)
    ensures ZSetAt(b, PostTime) == ZSetAt(a, PostTime)
    ensures ZSetAt(b, PostScore).Keys == ZSetAt(a, PostScore).Keys
    ensures TypeIs(a, Community(p), SetKind) ==> TypeIs(b, Community(p), SetKind)
  {
    Untouched(a, b, e, PostTime);
    Untouched(a, b, e, Community(p));
    if p != e.post {
      Untouched(a, b, e, PostVoted(p));
      Untouched(a, b, e, PostVersions(p));
    }
  }

  lemma CastKeepsRedis(h: History, posts: map<int, PostRow>, a: Keyspace, b: Keyspace, e: VoteEvent)
    requires RedisInv(h, posts, a) && VoteApplied(a, b, e)
    ensures RedisInv(Recorded(h, e), posts, b)
  {
    CastKeepsTypes(a, b, e, e.post);
    forall p
      ensures VoteKeysTyped(b, p) && TypeIs(b, Community(p), SetKind)
    {
      CastKeepsTypes(a, b, e, p);
    }
    forall p
      ensures p in ZSetAt(b, PostTime) <==> p in ZSetAt(b, PostScore)
    {
      assert p in ZSetAt(b, PostScore).Keys <==> p in ZSetAt(a, PostScore).Keys;
    }
    forall k: Pair
      ensures Agrees(Recorded(h, e), b, k)
    {
      assert Agrees(h, a, k) && Agrees(h, a, e.Key());
      CastAgrees(h, a, b, e, k);
    }
  }

  lemma IndexKeepsPost(a: Keyspace, b: Keyspace, p: int, community: int, now: int, q: int)
    requires PostIndexed(a, b, p, community, now)
    ensures ZSetAt(b, PostVoted(q)) == ZSetAt(a, PostVoted(q)) && HashAt(b, PostVersions(q)) == HashAt(a, PostVersions(q))
    ensures VoteKeysTyped(a, q) ==> VoteKeysTyped(b, q)
    ensures TypeIs(a, Community(q), SetKind) ==> TypeIs(b, Community(q), SetKind)
  {
    Unindexed(a, b, p, community, now, VoteOutbox);
    Unindexed(a, b, p, community, now, PostVoted(q));
    Unindexed(a, b, p, community, now, PostVersions(q));
    if q == community {
      assert p in MembersAt(b, Community(q));
    } else {
      Unindexed(a, b, p, community, now, Community(q));
    }
  }

  lemma IndexKeepsRedis(h: History, posts: map<int, PostRow>, a: Keyspace, b: Keyspace, p: int, now: int)
    requires RedisInv(h, posts, a) && p in posts && PostIndexed(a, b, p, posts[p].community, now)
    ensures RedisInv(h, posts, b)
    ensures Outbox(b) == Outbox(a)
  {
    var c := posts[p].community;
    Unindexed(a, b, p, c, now, VoteOutbox);
    forall q
      ensures ZSetAt(b, PostVoted(q)) == ZSetAt(a, PostVoted(q)) && HashAt(b, PostVersions(q)) == HashAt(a, PostVersions(q))
      ensures VoteKeysTyped(b, q) && TypeIs(b, Community(q), SetKind)
    {
      IndexKeepsPost(a, b, p, c, now, q);
      assert VoteKeysTyped(a, q) && TypeIs(a, Community(q), SetKind);
    }
    forall k: Pair
      ensures Agrees(h, b, k)
    {
      assert Agrees(h, a, k);
    }
  }

  /** Indexing sets the score to the time, so the net vote of that moment becomes the baseline. */
  lemma IndexKeepsBalance(baseline: map<int, int>, a: Keyspace, b: Keyspace, p: int, community: int, now: int)
    requires BalanceInv(baseline, a) && PostIndexed(a, b, p, community, now)
    ensures BalanceInv(baseline[p := Net(a, p)], b)
  {
    forall q | q in ZSetAt(b, PostTime)
      ensures Balanced(b, q, Net(b, q) - Totals.ValueOr(baseline[p := Net(a, p)], q, 0))
    {
      IndexKeepsPost(a, b, p, community, now, q);
      if q != p {
        assert Balanced(a, q, Net(a, q) - Totals.ValueOr(baseline, q, 0));
      }
    }
  }

  /** `b` has the same indexes, directions, versions and key types as `a`. */
  ghost predicate SameVotes(a: Keyspace, b: Keyspace) {
    && ZSetAt(b, PostTime) == ZSetAt(a, PostTime) && ZSetAt(b, PostScore) == ZSetAt(a, PostScore)
    && (forall p :: ZSetAt(b, PostVoted(p)) == ZSetAt(a, PostVoted(p)))
    && (forall p :: HashAt(b, PostVersions(p)) == HashAt(a, PostVersions(p)))
    && (forall p :: VoteKeysTyped(a, p) ==> VoteKeysTyped(b, p))
    && (forall c :: TypeIs(a, Community(c), SetKind) ==> TypeIs(b, Community(c), SetKind))
  }

  lemma SameVotesKeepRedis(h: History, posts: map<int, PostRow>, baseline: map<int, int>, a: Keyspace, b: Keyspace)
    requires RedisInv(h, posts, a) && BalanceInv(baseline, a) && SameVotes(a, b)
    ensures RedisInv(h, posts, b) && BalanceInv(baseline, b)
  {
    forall k: Pair
      ensures Agrees(h, b, k)
    {
      assert Agrees(h, a, k);
    }
    forall p | p in ZSetAt(b, PostTime)
      ensures Balanced(b, p, Net(b, p) - Totals.ValueOr(baseline, p, 0))
    {
      assert Balanced(a, p, Net(a, p) - Totals.ValueOr(baseline, p, 0));
    }
  }

  /** Outbox bookkeeping leaves the rest of Redis alone. */
  lemma OutboxKeepsVotes(a: Keyspace, st: Stream)
    ensures SameVotes(a, a[VoteOutbox := Log(st)])
    ensures Outbox(a[VoteOutbox := Log(st)]) == st
  {
  }

  lemma SameVoteKey(a: Keyspace, b: Keyspace, k: Key)
    requires SameVoteKeys(a, b) && !(k.Foreign? || k.Listing? || k.StateMarker?)
    ensures (k in a <==> k in b) && (k in a ==> a[k] == b[k])
  {
    assert RecoveryTarget.Lookup(a, k) == RecoveryTarget.Lookup(b, k);
  }

  lemma OtherWritesKeepVotes(a: Keyspace, b: Keyspace)
    requires SameVoteKeys(a, b)
    ensures SameVotes(a, b)
    ensures Outbox(b) == Outbox(a)
    ensures TypeIs(a, VoteOutbox, StreamKind) ==> TypeIs(b, VoteOutbox, StreamKind)
  {
    SameVoteKey(a, b, VoteOutbox);
    SameVoteKey(a, b, PostTime);
    SameVoteKey(a, b, PostScore);
    forall p
      ensures ZSetAt(b, PostVoted(p)) == ZSetAt(a, PostVoted(p)) && HashAt(b, PostVersions(p)) == HashAt(a, PostVersions(p))
      ensures VoteKeysTyped(a, p) ==> VoteKeysTyped(b, p)
      ensures TypeIs(a, Community(p), SetKind) ==> TypeIs(b, Community(p), SetKind)
    {
      SameVoteKey(a, b, PostVoted(p));
      SameVoteKey(a, b, PostVersions(p));
      SameVoteKey(a, b, Community(p));
    }
  }

  lemma PostsGrow(h: History, issued: Tickets, posts: map<int, PostRow>, p: int, row: PostRow)
    requires HistoryInv(h, issued, posts) && p !in posts
    requires p > 0 && row.status == ACTIVE && row.createUnix > 0
    ensures HistoryInv(h, issued, posts[p := row])
  {
    forall k, i | k in h && 0 <= i < |h[k]|
      ensures LogEntry(h, issued, k, i)
    {
    }
  }

  // The stream

  lemma ReadKeepsStream(h: History, issued: Tickets, st: Stream, g: Group)
    requires StreamInv(h, issued, st) && Advances(st, g)
    ensures StreamInv(h, issued, st.(group := Some(g)))
  {
  }

  lemma ReadKeepsConservation(
    h: History, issued: Tickets, st: Stream, published: set<VoteEvent>, q: Queues, seen: set<string>, g: Group)
    requires ConservationInv(h, issued, st, published, q, seen)
    ensures ConservationInv(h, issued, st.(group := Some(g)), published, q, seen)
  {
    forall e
      ensures Accounted(h, issued, st.(group := Some(g)), published, q, seen, e)
    {
      assert Accounted(h, issued, st, published, q, seen, e);
    }
  }

  lemma AckKeepsStream(
    h: History, issued: Tickets, st: Stream, published: set<VoteEvent>, q: Queues, seen: set<string>, sid: nat)
    requires StreamInv(h, issued, st) && ConservationInv(h, issued, st, published, q, seen)
    requires sid in st.entries && st.entries[sid] in published
    ensures StreamInv(h, issued, WithoutEntry(st, sid))
    ensures ConservationInv(h, issued, WithoutEntry(st, sid), published, q, seen)
  {
    forall e
      ensures Accounted(h, issued, WithoutEntry(st, sid), published, q, seen, e)
    {
      assert Accounted(h, issued, st, published, q, seen, e);
    }
  }

  // The queues

  lemma StillHeld(q: Queues, r: Queues, e: VoteEvent)
    requires Held(q, e) && LiveCopies(q) <= LiveCopies(r)
    ensures Held(r, e)
  {
    var m :| m in LiveCopies(q) && Carries(m, e);
    assert m in LiveCopies(r);
  }

  /** Queues may grow by good messages and reshuffle, as long as nothing live disappears. */
  lemma QueuesKeep(
    h: History, issued: Tickets, st: Stream, published: set<VoteEvent>, q: Queues, r: Queues, seen: set<string>)
    requires ConservationInv(h, issued, st, published, q, seen) && LiveCopies(q) <= LiveCopies(r)
    ensures ConservationInv(h, issued, st, published, r, seen)
  {
    forall e
      ensures Accounted(h, issued, st, published, r, seen, e)
    {
      assert Accounted(h, issued, st, published, q, seen, e);
      if Held(q, e) {
        StillHeld(q, r, e);
      }
    }
  }

  lemma MoveOne<T>(a: multiset<T>, b: multiset<T>, m: T)
    requires m in a
    ensures (a - multiset{m}) + (b + multiset{m}) == a + b
  {
  }

  lemma Regroup(q: Queues)
    ensures Everywhere(q) == (q.main + q.open) + (q.settled + q.retry + q.dead)
    ensures Everywhere(q) == (q.main + q.settled) + (q.open + q.retry + q.dead)
    ensures Everywhere(q) == (q.main + q.retry) + (q.open + q.settled + q.dead)
    ensures LiveCopies(q) == (q.main + q.open) + (q.retry + q.dead)
    ensures LiveCopies(q) == (q.main + q.retry) + (q.open + q.dead)
  {
  }

  /** `r` is `q` after messages moved between queues without a live one disappearing. */
  predicate Shuffled(q: Queues, r: Queues) {
    Everywhere(r) <= Everywhere(q) && LiveCopies(q) <= LiveCopies(r)
  }

  lemma DeliverShuffles(q: Queues, m: Message)
    requires m in q.main
    ensures Shuffled(q, Transferred(q, Deliver(m)))
  {
    Regroup(q);
    Regroup(Transferred(q, Deliver(m)));
    MoveOne(q.main, q.open, m);
  }

  lemma AckShuffles(q: Queues, m: Message)
    requires m in q.settled
    ensures Shuffled(q, Transferred(q, AckDelivery(m)))
  {
    Regroup(q);
    Regroup(Transferred(q, AckDelivery(m)));
    MoveOne(q.settled, multiset{}, m);
  }

  lemma RequeueShuffles(q: Queues, m: Message)
    requires m in q.open
    ensures Shuffled(q, Transferred(q, Requeue(m)))
  {
    Regroup(q);
    Regroup(Transferred(q, Requeue(m)));
    MoveOne(q.open, q.main, m);
  }

  lemma RequeueSettledShuffles(q: Queues, m: Message)
    requires m in q.settled
    ensures Shuffled(q, Transferred(q, RequeueSettled(m)))
  {
    Regroup(q);
    Regroup(Transferred(q, RequeueSettled(m)));
    MoveOne(q.settled, q.main, m);
  }

  lemma ExpireShuffles(q: Queues, m: Message)
    requires m in q.retry
    ensures Shuffled(q, Transferred(q, ExpireRetry(m)))
  {
    Regroup(q);
    Regroup(Transferred(q, ExpireRetry(m)));
    MoveOne(q.retry, q.main, m);
  }

  lemma MessagesShrink(h: History, q: Queues, r: Queues, maxRetries: nat)
    requires MessagesInv(h, q) && Everywhere(r) <= Everywhere(q)
    ensures MessagesInv(h, r)
    ensures RetriesInv(q, maxRetries) ==> RetriesInv(r, maxRetries)
  {
    forall m | m in Everywhere(r)
      ensures m in Everywhere(q)
    {
    }
  }

  lemma StoredAdds(q: Queues, x: Exchange, m: Message)
    ensures Everywhere(Stored(q, x, m)) == Everywhere(q) + multiset{m}
    ensures LiveCopies(Stored(q, x, m)) == LiveCopies(q) + multiset{m}
  {
  }

  lemma MessagesGrow(h: History, q: Queues, x: Exchange, m: Message, maxRetries: nat)
    requires MessagesInv(h, q) && FromLog(h, m)
    ensures MessagesInv(h, Stored(q, x, m))
    ensures RetriesInv(q, maxRetries) && 0 <= HeaderInt(m.retries) <= maxRetries ==>
      RetriesInv(Stored(q, x, m), maxRetries)
    ensures LiveCopies(q) <= LiveCopies(Stored(q, x, m))
  {
    StoredAdds(q, x, m);
    forall n | n in Everywhere(Stored(q, x, m))
      ensures n == m || n in Everywhere(q)
    {
    }
  }

  lemma SettleKeepsMessages(h: History, q: Queues, m: Message, maxRetries: nat)
    requires MessagesInv(h, q) && m in q.open
    ensures MessagesInv(h, Settled(q, m))
    ensures RetriesInv(q, maxRetries) ==> RetriesInv(Settled(q, m), maxRetries)
  {
    MessagesShrink(h, q, Settled(q, m), maxRetries);
  }

  lemma StillHeldWhenSettled(
    h: History, issued: Tickets, posts: map<int, PostRow>, q: Queues, seen: set<string>, m: Message, e: VoteEvent)
    requires HistoryInv(h, issued, posts) && Emitted(h, e) && Held(q, e) && e.id !in seen
    requires m in q.open && FromLog(h, m)
    requires EventIn(m).value.id in seen || exists c :: c in LiveCopies(Settled(q, m)) && c.body == m.body
    ensures Held(Settled(q, m), e)
  {
    var w :| w in LiveCopies(q) && Carries(w, e);
    if w == m {
      LogIsUnique(h, issued, posts, e, e);
      MessageCarriesEvent(e, m.retries);
      assert EventIn(m) == Some(e);
      var c :| c in LiveCopies(Settled(q, m)) && c.body == m.body;
      assert Carries(c, e);
    } else {
      assert w in LiveCopies(Settled(q, m));
    }
  }

  /** Settling a delivery is safe when its event was consumed or another live copy exists. */
  lemma SettleKeepsConservation(
    h: History, issued: Tickets, posts: map<int, PostRow>, st: Stream, published: set<VoteEvent>, q: Queues,
    seen: set<string>, m: Message)
    requires HistoryInv(h, issued, posts)
    requires ConservationInv(h, issued, st, published, q, seen) && m in q.open && FromLog(h, m)
    requires EventIn(m).value.id in seen || exists c :: c in LiveCopies(Settled(q, m)) && c.body == m.body
    ensures ConservationInv(h, issued, st, published, Settled(q, m), seen)
  {
    forall e
      ensures Accounted(h, issued, st, published, Settled(q, m), seen, e)
    {
      assert Accounted(h, issued, st, published, q, seen, e);
      if e in published && e.id !in seen {
        StillHeldWhenSettled(h, issued, posts, q, seen, m, e);
      }
    }
  }

  lemma CopyIsLive(q: Queues, x: Exchange, c: Message, m: Message)
    requires x != MainExchange && m in q.open && c.body == m.body
    ensures c in LiveCopies(Settled(Stored(q, x, c), m)) && m in Stored(q, x, c).open
  {
  }

  lemma CopyFromLog(h: History, m: Message, retries: Header)
    requires FromLog(h, m)
    ensures FromLog(h, Message(m.body, retries))
  {
  }

  lemma MessageFromLog(h: History, e: VoteEvent)
    requires WellFormed(e) && Emitted(h, e)
    ensures FromLog(h, MessageOf(e)) && Carries(MessageOf(e), e) && HeaderInt(MessageOf(e).retries) == 0
  {
    MessageCarriesEvent(e, Absent);
  }

  lemma RetryCounts(m: Message, maxRetries: nat)
    requires !Exhausted(m, maxRetries) && 0 <= HeaderInt(m.retries) <= maxRetries < INT32_LIMIT
    ensures 0 <= HeaderInt(RetryCopy(m).retries) <= maxRetries
  {
    CopyCountsUp(m, maxRetries);
  }

  lemma PublishKeepsConservation(
    h: History, issued: Tickets, st: Stream, published: set<VoteEvent>, q: Queues, seen: set<string>, e: VoteEvent)
    requires ConservationInv(h, issued, st, published, q, seen) && Emitted(h, e)
    ensures ConservationInv(h, issued, st, published, Stored(q, MainExchange, MessageOf(e)), seen)
    ensures ConservationInv(h, issued, st, published + {e}, Stored(q, MainExchange, MessageOf(e)), seen)
  {
    var r := Stored(q, MainExchange, MessageOf(e));
    QueuesKeep(h, issued, st, published, q, r, seen);
    assert MessageOf(e) in LiveCopies(r) && Carries(MessageOf(e), e);
    forall x
      ensures Accounted(h, issued, st, published + {e}, r, seen, x)
    {
      assert Accounted(h, issued, st, published, r, seen, x);
    }
  }

  // The database

  lemma NoConflict(h: History, votes: map<Pair, VoteRow>, e: VoteEvent, t: Tables)
    requires Emitted(h, e) && t.votes == votes
    requires e.Key() in votes ==> RowFromLog(h, votes, e.Key())
    ensures !Conflicts(t, e)
  {
  }

  lemma AppliedEffect(t: Tables, e: VoteEvent, k: Pair)
    ensures Applied(t, e).consumed == t.consumed + {e.id} && Applied(t, e).posts == t.posts
    ensures k in t.votes ==> k in Applied(t, e).votes && Applied(t, e).votes[k].version >= t.votes[k].version
    ensures k in Applied(t, e).votes ==>
      (k in t.votes && Applied(t, e).votes[k] == t.votes[k]) || (k == e.Key() && Applied(t, e).votes[k] == RowOf(e))
    ensures e.id !in t.consumed && k == e.Key() ==>
      k in Applied(t, e).votes && Applied(t, e).votes[k].version >= e.version
  {
    assert e.id in t.consumed ==> t.consumed + {e.id} == t.consumed;
  }

  lemma PersistKeepsVersions(
    h: History, issued: Tickets, posts: map<int, PostRow>, t: Tables, purged: set<string>, e: VoteEvent, x: VoteEvent)
    requires HistoryInv(h, issued, posts) && DatabaseInv(h, issued, t.consumed + purged, t.votes)
    requires Emitted(h, e) && Emitted(h, x) && x.id in Applied(t, e).consumed + purged
    ensures x.Key() in Applied(t, e).votes && Applied(t, e).votes[x.Key()].version >= x.version
  {
    LogIsUnique(h, issued, posts, x, e);
    AppliedEffect(t, e, x.Key());
    assert x.id in t.consumed + purged ==> x.Key() in t.votes && t.votes[x.Key()].version >= x.version;
  }

  lemma PersistKeepsRows(h: History, t: Tables, e: VoteEvent, k: Pair)
    requires Emitted(h, e) && k in Applied(t, e).votes
    requires k in t.votes ==> RowFromLog(h, t.votes, k)
    ensures RowFromLog(h, Applied(t, e).votes, k)
  {
    AppliedEffect(t, e, k);
  }

  lemma PersistKeepsDatabase(
    h: History, issued: Tickets, posts: map<int, PostRow>, t: Tables, purged: set<string>, e: VoteEvent)
    requires HistoryInv(h, issued, posts) && DatabaseInv(h, issued, t.consumed + purged, t.votes) && Emitted(h, e)
    ensures DatabaseInv(h, issued, Applied(t, e).consumed + purged, Applied(t, e).votes)
    ensures t.consumed + purged <= Applied(t, e).consumed + purged && e.id in Applied(t, e).consumed + purged
    ensures Applied(t, e).posts == t.posts
  {
    var after := Applied(t, e);
    LogIsUnique(h, issued, posts, e, e);
    AppliedEffect(t, e, e.Key());
    forall x | Emitted(h, x) && x.id in after.consumed + purged
      ensures x.Key() in after.votes && after.votes[x.Key()].version >= x.version
    {
      PersistKeepsVersions(h, issued, posts, t, purged, e, x);
    }
    forall k | k in after.votes
      ensures RowFromLog(h, after.votes, k)
    {
      PersistKeepsRows(h, t, e, k);
    }
  }

  lemma ConsumedGrows(
    h: History, issued: Tickets, st: Stream, published: set<VoteEvent>, q: Queues, one: set<string>, more: set<string>)
    requires ConservationInv(h, issued, st, published, q, one) && one <= more
    ensures ConservationInv(h, issued, st, published, q, more)
  {
    forall e
      ensures Accounted(h, issued, st, published, q, more, e)
    {
      assert Accounted(h, issued, st, published, q, one, e);
    }
  }
}
