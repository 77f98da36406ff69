/** The vote pipeline as one state machine over Redis, the broker, MySQL and every way their
    clients can fail, duplicate or reorder. */
module VotePipeline {
  import opened VoteModel
  import opened RedisStore
  import opened VoteScript
  import opened VoteDatabase
  import opened VoteBroker
  import opened VoteDelivery
  import OutboxCodec
  import RecoveryTarget
  import Runs
  import Totals

  /** Every event the script ever emitted, per pair, in order. */
  type History = map<Pair, seq<VoteEvent>>

  /** What an event id was issued for, and the stream entry it went to. */
  datatype Ticket = Ticket(slot: Slot, streamId: nat)

  type Tickets = map<string, Ticket>

  /** `history`, `issued`, `published` and `purged` record what happened; nothing in the system
      reads them. `baseline` is the net vote a post had when it was last indexed or rebuilt.
      `serving` is false from the loss of Redis to the end of the rebuild. */
  datatype State = State(
    redis: Keyspace, queues: Queues, tables: Tables, serving: bool, maxRetries: nat,
    history: History, issued: Tickets, published: set<VoteEvent>, purged: set<string>,
    baseline: map<int, int>) {
    /** The ids consumed at some time, including those whose record was purged since. */
    function Seen(): set<string> {
      tables.consumed + purged
    }
  }

  function Count(h: History, k: Pair): nat {
    if k in h then |h[k]| else 0
  }

  /** The direction of a pair's last event. */
  function Standing(h: History, k: Pair): int {
    if Count(h, k) == 0 then 0 else h[k][Count(h, k) - 1].direction
  }

  function Recorded(h: History, e: VoteEvent): History {
    h[e.Key() := (if e.Key() in h then h[e.Key()] else []) + [e]]
  }

  predicate Emitted(h: History, e: VoteEvent) {
    0 < e.version <= Count(h, e.Key()) && h[e.Key()][e.version - 1] == e
  }

  function Everywhere(q: Queues): multiset<Message> {
    q.main + q.open + q.settled + q.retry + q.dead
  }

  /** The copies that still stand for their event. */
  function LiveCopies(q: Queues): multiset<Message> {
    q.main + q.open + q.retry + q.dead
  }

  predicate Carries(m: Message, e: VoteEvent) {
    m.body == Json(OutboxCodec.WireOf(e))
  }

  ghost predicate Held(q: Queues, e: VoteEvent) {
    exists m :: m in LiveCopies(q) && Carries(m, e)
  }

  predicate InStream(issued: Tickets, st: Stream, e: VoteEvent) {
    && e.id in issued
    && issued[e.id].streamId in st.entries
    && st.entries[issued[e.id].streamId] == e
  }

  ghost function Net(ks: Keyspace, p: int): int {
    Totals.Sum(ZSetAt(ks, PostVoted(p)))
  }

  // The steps

  datatype Action =
    | CastVote(call: VoteCall, redis: Keyspace)
    | InsertPost(post: int, row: PostRow)
    | IndexPost(post: int, now: int, redis: Keyspace)
    | ReadOutbox(group: Group)
    | PublishOutbox(event: VoteEvent, confirmed: bool)
    | AckOutbox(streamId: nat)
    | Deliver(m: Message)
    | Persist(m: Message, reported: bool)
    | PurgeConsumed(ids: set<string>)
    | Retry(m: Message, confirmed: bool)
    | DeadLetter(m: Message, confirmed: bool)
    | AckDelivery(m: Message)
    | Requeue(m: Message)
    | RequeueSettled(m: Message)
    | ExpireRetry(m: Message)
    | OtherWrites(redis: Keyspace)
    | LoseRedis(redis: Keyspace)
    | Scramble(redis: Keyspace)
    | Rebuild(redis: Keyspace)

  predicate ValidCall(issued: Tickets, c: VoteCall) {
    && c.eventId !in issued && 0 < |c.eventId| <= 64
    && IsPositiveInt64(c.user) && IsPositiveInt64(c.post) && IsPositiveInt64(c.now)
  }

  function DeliveredUpTo(st: Stream): nat {
    if st.group.Some? then st.group.value.delivered else 0
  }

  predicate IsPending(st: Stream, sid: nat) {
    st.group.Some? && sid in st.group.value.pending
  }

  /** XGROUP CREATE, XREADGROUP and XCLAIM: the group moves forward, takes over what it hands
      out, and drops nothing that is still in the stream. */
  ghost predicate Advances(st: Stream, g: Group) {
    && DeliveredUpTo(st) <= g.delivered
    && (g.delivered <= st.lastId || g.delivered == DeliveredUpTo(st))
    && (forall sid | sid in st.entries && sid <= g.delivered ::
      IsPending(st, sid) || sid > DeliveredUpTo(st) ==> sid in g.pending)
  }

  /** XACK and XDEL. */
  function WithoutEntry(st: Stream, sid: nat): Stream {
    st.(entries := st.entries - {sid},
        group := match st.group case None => None case Some(g) => Some(g.(pending := g.pending - {sid})))
  }

  ghost predicate DeadLettered(t: Tables, m: Message, maxRetries: nat) {
    || EventIn(m).None?
    || Conflicts(t, EventIn(m).value)
    || Exhausted(m, maxRetries)
  }

  predicate NothingInFlight(q: Queues) {
    Everywhere(q) == multiset{}
  }

  /** A Redis that lost its data, or is being rebuilt: whatever keys are left, no events. */
  predicate Emptied(ks: Keyspace) {
    TypeIs(ks, VoteOutbox, StreamKind) && Outbox(ks).entries == map[] && DeliveredUpTo(Outbox(ks)) <= Outbox(ks).lastId
  }

  /** Sessions, caches, rate limits and the state marker live in keys of their own. */
  ghost predicate SameVoteKeys(a: Keyspace, b: Keyspace) {
    forall k: Key | !(k.Foreign? || k.Listing? || k.StateMarker?) ::
      RecoveryTarget.Lookup(a, k) == RecoveryTarget.Lookup(b, k)
  }

  /** When a step can happen. A relay may publish any entry it ever read, even one that another
      relay has acknowledged since; a handler may fail and republish whatever the outcome of
      its transaction was. */
  ghost predicate Enabled(s: State, a: Action) {
    match a
    case CastVote(c, ks) =>
      && s.serving && ValidCall(s.issued, c) && Accepted(s.redis, c)
      && VoteApplied(s.redis, ks, EventOf(s.redis, c))
    case InsertPost(p, row) =>
      p !in s.tables.posts && p > 0 && row.status == ACTIVE && row.createUnix > 0
    case IndexPost(p, now, ks) =>
      && s.serving && p in s.tables.posts
      && PostIndexed(s.redis, ks, p, s.tables.posts[p].community, now)
    case ReadOutbox(g) => s.serving && Advances(Outbox(s.redis), g)
    case PublishOutbox(e, _) => s.serving && Emitted(s.history, e) && OutboxCodec.Decodable(e)
    case AckOutbox(sid) =>
      s.serving && sid in Outbox(s.redis).entries && Outbox(s.redis).entries[sid] in s.published
    case Deliver(m) => m in s.queues.main
    case Persist(m, _) =>
      m in s.queues.open && EventIn(m).Some? && !Conflicts(s.tables, EventIn(m).value)
    case PurgeConsumed(_) => true
    case Retry(m, _) => m in s.queues.open && !Exhausted(m, s.maxRetries)
    case DeadLetter(m, _) => m in s.queues.open && DeadLettered(s.tables, m, s.maxRetries)
    case AckDelivery(m) => m in s.queues.settled
    case Requeue(m) => m in s.queues.open
    case RequeueSettled(m) => m in s.queues.settled
    case ExpireRetry(m) => m in s.queues.retry
    case OtherWrites(ks) => s.serving && SameVoteKeys(s.redis, ks)
    case LoseRedis(ks) =>
      s.serving && NothingInFlight(s.queues) && Outbox(s.redis).entries == map[] && Emptied(ks)
    case Scramble(ks) => !s.serving && Emptied(ks)
    case Rebuild(ks) => !s.serving && RecoveryTarget.Rebuilt(s.tables, s.redis, ks)
  }

  function SettledIf(b: bool, q: Queues, m: Message): Queues {
    if b then Settled(q, m) else q
  }

  function Transferred(q: Queues, a: Action): Queues {
    match a
    case Deliver(m) => q.(main := q.main - multiset{m}, open := q.open + multiset{m})
    case AckDelivery(m) => Acked(q, m)
    case Requeue(m) => Requeued(q, m)
    case RequeueSettled(m) => q.(settled := q.settled - multiset{m}, main := q.main + multiset{m})
    case ExpireRetry(m) => q.(retry := q.retry - multiset{m}, main := q.main + multiset{m})
    case _ => q
  }

  ghost function After(s: State, a: Action): State
    requires Enabled(s, a)
  {
    match a
    case CastVote(c, ks) =>
      var e := EventOf(s.redis, c);
      s.(redis := ks, history := Recorded(s.history, e),
         issued := s.issued[e.id := Ticket(SlotOf(e), Outbox(ks).lastId)])
    case InsertPost(p, row) => s.(tables := s.tables.(posts := s.tables.posts[p := row]))
    case IndexPost(p, _, ks) => s.(redis := ks, baseline := s.baseline[p := Net(s.redis, p)])
    case ReadOutbox(g) => s.(redis := s.redis[VoteOutbox := Log(Outbox(s.redis).(group := Some(g)))])
    case PublishOutbox(e, confirmed) =>
      s.(queues := Stored(s.queues, MainExchange, MessageOf(e)),
         published := if confirmed then s.published + {e} else s.published)
    case AckOutbox(sid) => s.(redis := s.redis[VoteOutbox := Log(WithoutEntry(Outbox(s.redis), sid))])
    case Persist(m, reported) =>
      s.(tables := Applied(s.tables, EventIn(m).value), queues := SettledIf(reported, s.queues, m))
    case PurgeConsumed(ids) =>
      s.(tables := s.tables.(consumed := s.tables.consumed - ids), purged := s.purged + ids * s.tables.consumed)
    case Retry(m, confirmed) =>
      s.(queues := SettledIf(confirmed, Stored(s.queues, RetryExchange, RetryCopy(m)), m))
    case DeadLetter(m, confirmed) =>
      s.(queues := SettledIf(confirmed, Stored(s.queues, DeadExchange, DeadCopy(m)), m))
    case OtherWrites(ks) => s.(redis := ks)
    case LoseRedis(ks) => s.(redis := ks, serving := false)
    case Scramble(ks) => s.(redis := ks)
    case Rebuild(ks) => s.(redis := ks, serving := true, baseline := map[])
    case _ => s.(queues := Transferred(s.queues, a))
  }

  ghost predicate Initial(s: State) {
    && (forall k | k in s.redis :: k.Foreign? || k.StateMarker?)
    && s.queues == Queues(multiset{}, multiset{}, multiset{}, multiset{}, multiset{})
    && s.tables == Tables({}, map[], map[])
    && s.serving && s.history == map[] && s.issued == map[] && s.published == {} && s.purged == {}
    && s.baseline == map[]
  }

  ghost predicate Step(s: State, r: State) {
    exists a :: Enabled(s, a) && After(s, a) == r
  }

  ghost function Steps(): (State, State) -> bool {
    (s, r) => Step(s, r)
  }

  /** Some run of the system leads from `s` to `r`. */
  ghost predicate Reaches(s: State, r: State) {
    Runs.Leads(Steps(), s, r)
  }

  /** Some run leads from an empty deployment to `s`. */
  ghost predicate Reachable(s: State) {
    exists start :: Initial(start) && Reaches(start, s)
  }

  lemma OneStep(s: State, a: Action)
    requires Enabled(s, a)
    ensures Reaches(s, After(s, a))
  {
    assert Steps()(s, After(s, a));
    Runs.LeadsByStep(Steps(), s, After(s, a));
  }

  lemma StaysReachable(s: State, r: State)
    requires Reachable(s) && Reaches(s, r)
    ensures Reachable(r)
  {
    var start :| Initial(start) && Reaches(start, s);
    Runs.LeadsOnwards(Steps(), start, s, r);
  }

  // The invariant

  predicate LogEntry(h: History, issued: Tickets, k: Pair, i: nat)
    requires k in h && i < |h[k]|
  {
    var e := h[k][i];
    && WellFormed(e) && e.Key() == k && e.version == i + 1
    && e.id in issued && issued[e.id].slot == SlotOf(e)
    && e.direction != (if i == 0 then 0 else h[k][i - 1].direction)
  }

  predicate PostActive(posts: map<int, PostRow>, p: int) {
    p > 0 && p in posts && posts[p].status == ACTIVE
  }

  /** Per pair the log holds versions 1..n, each changing the direction; ids are unique. */
  ghost predicate HistoryInv(h: History, issued: Tickets, posts: map<int, PostRow>) {
    && (forall k | k in h :: h[k] != [] && PostActive(posts, k.post))
    && (forall k, i | k in h && 0 <= i < |h[k]| :: LogEntry(h, issued, k, i))
    && (forall p | p in posts :: PostActive(posts, p) && posts[p].createUnix > 0)
  }

  predicate RowFromLog(h: History, votes: map<Pair, VoteRow>, k: Pair)
    requires k in votes
  {
    0 < votes[k].version <= Count(h, k) && votes[k] == RowOf(h[k][votes[k].version - 1])
  }

  ghost predicate DatabaseInv(h: History, issued: Tickets, seen: set<string>, votes: map<Pair, VoteRow>) {
    && (forall id | id in seen :: id in issued)
    && (forall e | Emitted(h, e) && e.id in seen :: e.Key() in votes && votes[e.Key()].version >= e.version)
    && (forall k | k in votes :: RowFromLog(h, votes, k))
  }

  predicate FromLog(h: History, m: Message) {
    EventIn(m).Some? && Emitted(h, EventIn(m).value) && Carries(m, EventIn(m).value)
  }

  ghost predicate MessagesInv(h: History, q: Queues) {
    forall m | m in Everywhere(q) :: FromLog(h, m)
  }

  ghost predicate RetriesInv(q: Queues, maxRetries: nat) {
    forall m | m in Everywhere(q) :: 0 <= HeaderInt(m.retries) <= maxRetries
  }

  /** Entries come from the log, and the relay can still reach each of them. */
  ghost predicate StreamInv(h: History, issued: Tickets, st: Stream) {
    && (forall sid | sid in st.entries ::
      && sid <= st.lastId && Emitted(h, st.entries[sid])
      && st.entries[sid].id in issued && issued[st.entries[sid].id].streamId == sid)
    && (forall sid | sid in st.entries && sid <= DeliveredUpTo(st) :: IsPending(st, sid))
    && DeliveredUpTo(st) <= st.lastId
  }

  /** An emitted event is in the stream or published; a published one is in a live message or consumed. */
  ghost predicate Accounted(
    h: History, issued: Tickets, st: Stream, published: set<VoteEvent>, q: Queues, seen: set<string>, e: VoteEvent) {
    && (Emitted(h, e) ==> InStream(issued, st, e) || e in published)
    && (e in published ==> Emitted(h, e) && (Held(q, e) || e.id in seen))
  }

  /** Nothing emitted is lost. */
  ghost predicate ConservationInv(
    h: History, issued: Tickets, st: Stream, published: set<VoteEvent>, q: Queues, seen: set<string>) {
    forall e :: Accounted(h, issued, st, published, q, seen, e)
  }

  /** What Redis stores about a pair is what the log says. */
  predicate Agrees(h: History, ks: Keyspace, k: Pair) {
    && (k.user in ZSetAt(ks, PostVoted(k.post)) <==> Standing(h, k) != 0)
    && Direction(ks, k.user, k.post) == Standing(h, k)
    && (k.user in HashAt(ks, PostVersions(k.post)) <==> k in h)
    && Version(ks, k.user, k.post) == Count(h, k)
  }

  predicate Balanced(ks: Keyspace, p: int, net: int) {
    p in ZSetAt(ks, PostTime) && p in ZSetAt(ks, PostScore)
    && ZSetAt(ks, PostScore)[p] - ZSetAt(ks, PostTime)[p] == SCORE_PER_VOTE * net
  }

  ghost predicate RedisInv(h: History, posts: map<int, PostRow>, ks: Keyspace) {
    && (forall p :: VoteKeysTyped(ks, p))
    && (forall p :: p in ZSetAt(ks, PostTime) <==> p in ZSetAt(ks, PostScore))
    && (forall p | p in ZSetAt(ks, PostTime) :: p in posts)
    && (forall k | k in h :: k.post in ZSetAt(ks, PostTime))
    && (forall k: Pair :: Agrees(h, ks, k))
    && (forall c :: TypeIs(ks, Community(c), SetKind))
  }

  /** What the score of a post says: its time plus 432 per net vote since it was last indexed. */
  ghost predicate BalanceInv(baseline: map<int, int>, ks: Keyspace) {
    forall p | p in ZSetAt(ks, PostTime) :: Balanced(ks, p, Net(ks, p) - Totals.ValueOr(baseline, p, 0))
  }

  ghost predicate Inv(s: State) {
    && HistoryInv(s.history, s.issued, s.tables.posts)
    && DatabaseInv(s.history, s.issued, s.Seen(), s.tables.votes)
    && MessagesInv(s.history, s.queues)
    && (s.maxRetries < INT32_LIMIT ==> RetriesInv(s.queues, s.maxRetries))
    && StreamInv(s.history, s.issued, Outbox(s.redis))
    && ConservationInv(s.history, s.issued, Outbox(s.redis), s.published, s.queues, s.Seen())
    && (s.serving ==> RedisInv(s.history, s.tables.posts, s.redis) && BalanceInv(s.baseline, s.redis))
    && (!s.serving ==> NothingInFlight(s.queues) && Emptied(s.redis))
  }
}
