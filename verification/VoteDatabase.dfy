/** The MySQL side: dao/mysql/vote.go and dao/mysql/recovery.go. */
module VoteDatabase {
  import opened VoteModel
  import Totals
  import opened Ordering

  datatype VoteRow = VoteRow(direction: int, version: int, lastEventId: string)

  const ACTIVE := 1

  datatype PostRow = PostRow(community: int, createUnix: int, status: int)

  /** `consumed` is mq_consumed_message, `votes` is post_vote, `posts` is post. */
  datatype Tables = Tables(consumed: set<string>, votes: map<Pair, VoteRow>, posts: map<int, PostRow>)

  datatype PersistStatus = Persisted | Duplicate | SameVersion | Stale

  datatype PersistError = VoteEventConflict | DatabaseUnavailable

  /** Which step of the transaction fails; an unreported commit took effect. */
  datatype TxFault =
    | NoFault | AtBegin | AtInsert | AtUpsert | AtRowsAffected | AtSelect | CommitLost | CommitUnreported

  function RowOf(e: VoteEvent): VoteRow {
    VoteRow(e.direction, e.version, e.id)
  }

  predicate Superseded(t: Tables, e: VoteEvent) {
    e.Key() in t.votes && e.version <= t.votes[e.Key()].version
  }

  /** A new event that claims a stored version with another direction. */
  predicate Conflicts(t: Tables, e: VoteEvent) {
    && e.id !in t.consumed
    && e.Key() in t.votes
    && e.version == t.votes[e.Key()].version
    && e.direction != t.votes[e.Key()].direction
  }

  /** What a committed event leaves behind: its id is recorded, and its row replaces the
      stored one if and only if it is newer. */
  function Applied(t: Tables, e: VoteEvent): Tables {
    if e.id in t.consumed then t
    else if Superseded(t, e) then t.(consumed := t.consumed + {e.id})
    else t.(consumed := t.consumed + {e.id}, votes := t.votes[e.Key() := RowOf(e)])
  }

  class Database {
    var tables: Tables
    /** Fates of the next reads: `true` is an error. Empty means no more errors. */
    var readFaults: seq<bool>

    method NextRead() returns (fails: bool)
      modifies this`readFaults
      ensures old(readFaults) == [] ==> !fails && readFaults == []
    {
      fails := false;
      if readFaults != [] {
        fails := readFaults[0];
        readFaults := readFaults[1..];
      }
    }

    /** The INSERT ... ON DUPLICATE KEY UPDATE. MySQL assigns the columns from left to right,
        each assignment seeing the columns already assigned. */
    static method Upsert(votes: map<Pair, VoteRow>, e: VoteEvent)
      returns (after: map<Pair, VoteRow>, rowsAffected: int)
      ensures after ==
        if e.Key() in votes && e.version <= votes[e.Key()].version then votes
        else votes[e.Key() := RowOf(e)]
      ensures rowsAffected == 0 <==> e.Key() in votes && e.version <= votes[e.Key()].version
    {
      if e.Key() !in votes {
        return votes[e.Key() := RowOf(e)], 1;
      }
      var row := votes[e.Key()];
      row := row.(direction := if e.version > row.version then e.direction else row.direction);
      row := row.(lastEventId := if e.version > row.version then e.id else row.lastEventId);
      row := row.(version := if row.version >= e.version then row.version else e.version);
      rowsAffected := if row == votes[e.Key()] then 0 else 2;
      after := votes[e.Key() := row];
    }

    /** PersistVoteEvent: both writes happen in one transaction. */
    method PersistVoteEvent(e: VoteEvent, fault: TxFault) returns (r: Result<PersistStatus, PersistError>)
      modifies this`tables
      ensures tables == old(tables) || (tables == Applied(old(tables), e) && !Conflicts(old(tables), e))
      ensures r.Success? ==> tables == Applied(old(tables), e) && !Conflicts(old(tables), e)
      ensures r.Success? ==> (r.value == Duplicate <==> e.id in old(tables).consumed)
      ensures r.Success? ==> (r.value == Persisted <==> e.id !in old(tables).consumed && !Superseded(old(tables), e))
      ensures r == Success(Stale) ==> e.version < old(tables).votes[e.Key()].version
      ensures r == Success(SameVersion) ==> old(tables).votes[e.Key()].version == e.version
      ensures r == Failure(VoteEventConflict) ==> Conflicts(old(tables), e) && tables == old(tables)
      ensures fault == NoFault ==> r != Failure(DatabaseUnavailable)
      ensures fault == NoFault && Conflicts(old(tables), e) ==> r == Failure(VoteEventConflict)
    {
      if fault == AtBegin || fault == AtInsert {
        return Failure(DatabaseUnavailable);
      }
      if e.id in tables.consumed {
        if fault == CommitLost || fault == CommitUnreported {
          return Failure(DatabaseUnavailable);
        }
        return Success(Duplicate);
      }
      var working := tables.(consumed := tables.consumed + {e.id});
      if fault == AtUpsert {
        return Failure(DatabaseUnavailable);
      }
      var votes, rowsAffected := Upsert(working.votes, e);
      working := working.(votes := votes);
      if fault == AtRowsAffected {
        return Failure(DatabaseUnavailable);
      }
      var status := Persisted;
      if rowsAffected == 0 {
        if fault == AtSelect {
          return Failure(DatabaseUnavailable);
        }
        var current := working.votes[e.Key()];
        status := Stale;
        if current.version == e.version {
          if current.direction != e.direction {
            return Failure(VoteEventConflict);
          }
          status := SameVersion;
        }
      }
      if fault == CommitLost {
        return Failure(DatabaseUnavailable);
      }
      tables := working;
      if fault == CommitUnreported {
        return Failure(DatabaseUnavailable);
      }
      r := Success(status);
    }

    method CountPostUpVotes(post: int) returns (r: Result<int, ()>)
      modifies this`readFaults
      ensures r.Success? ==> r.value == |UpVotersOf(tables.votes, post)|
      ensures old(readFaults) == [] ==> r.Success? && readFaults == []
    {
      var fails := NextRead();
      r := if fails then Failure(()) else Success(|UpVotersOf(tables.votes, post)|);
    }

    method CountActivePosts() returns (r: Result<int, ()>)
      modifies this`readFaults
      ensures r.Success? ==> r.value == |ActivePosts(tables)|
      ensures old(readFaults) == [] ==> r.Success? && readFaults == []
    {
      var fails := NextRead();
      r := if fails then Failure(()) else Success(|ActivePosts(tables)|);
    }

    method GetPostRecoveryBatch(after: int, limit: int) returns (r: Result<seq<PostSnapshot>, ()>)
      modifies this`readFaults
      ensures r.Success? ==> limit > 0 && r.value == PostPage(tables, after, limit)
      ensures old(readFaults) == [] && limit > 0 ==> r.Success? && readFaults == []
    {
      if limit <= 0 {
        return Failure(());
      }
      var fails := NextRead();
      r := if fails then Failure(()) else Success(PostPage(tables, after, limit));
    }

    method GetVoteRecoverySnapshots(posts: seq<int>) returns (r: Result<seq<VoteSnapshot>, ()>)
      modifies this`readFaults
      ensures r.Success? ==> r.value == VotePage(tables, posts)
      ensures old(readFaults) == [] ==> r.Success? && readFaults == []
    {
      if posts == [] {
        return Success([]);
      }
      var fails := NextRead();
      r := if fails then Failure(()) else Success(VotePage(tables, posts));
    }
  }

  // Order and duplication of deliveries

  /** A version of a pair. */
  datatype Slot = Slot(pair: Pair, version: int)

  /** The events in circulation: each version of a pair names one event, and so does each id. */
  type Catalogue = map<Slot, VoteEvent>

  function SlotOf(e: VoteEvent): Slot {
    Slot(e.Key(), e.version)
  }

  ghost predicate Consistent(c: Catalogue) {
    && (forall s | s in c :: SlotOf(c[s]) == s)
    && (forall s, r | s in c && r in c && c[s].id == c[r].id :: s == r)
  }

  predicate Listed(c: Catalogue, e: VoteEvent) {
    SlotOf(e) in c && c[SlotOf(e)] == e
  }

  /** A seen event is recorded, and its pair has a row at least as new. */
  predicate SeenAt(t: Tables, c: Catalogue, seen: set<Slot>, s: Slot) {
    && (s in seen <==> s in c && c[s].id in t.consumed)
    && (s in seen ==> s.pair in t.votes && t.votes[s.pair].version >= s.version)
  }

  /** A row is the row of a seen event. */
  predicate RowSeen(t: Tables, c: Catalogue, seen: set<Slot>, k: Pair) {
    k in t.votes ==>
      var s := Slot(k, t.votes[k].version);
      s in seen && s in c && t.votes[k] == RowOf(c[s])
  }

  /** The tables of a consumer that has committed the events `seen`, each at least once. */
  ghost predicate Reflects(t: Tables, c: Catalogue, seen: set<Slot>) {
    && (forall s :: SeenAt(t, c, seen, s))
    && (forall k :: RowSeen(t, c, seen, k))
  }

  /** A delivery: committed, or rejected and rolled back. */
  function Delivered(t: Tables, e: VoteEvent): Tables {
    if Conflicts(t, e) then t else Applied(t, e)
  }

  function DeliverAll(t: Tables, deliveries: seq<VoteEvent>): Tables
    decreases |deliveries|
  {
    if deliveries == [] then t
    else Delivered(DeliverAll(t, deliveries[..|deliveries| - 1]), deliveries[|deliveries| - 1])
  }

  lemma ListedNeverConflicts(t: Tables, c: Catalogue, seen: set<Slot>, e: VoteEvent)
    requires Reflects(t, c, seen) && Listed(c, e)
    ensures !Conflicts(t, e)
  {
    assert RowSeen(t, c, seen, e.Key());
  }

  lemma DeliveryIsSeen(t: Tables, c: Catalogue, seen: set<Slot>, e: VoteEvent, s: Slot)
    requires Consistent(c) && Reflects(t, c, seen) && Listed(c, e)
    ensures SeenAt(Applied(t, e), c, seen + {SlotOf(e)}, s)
  {
    assert SeenAt(t, c, seen, s) && SeenAt(t, c, seen, SlotOf(e));
  }

  lemma DeliveryHasRow(t: Tables, c: Catalogue, seen: set<Slot>, e: VoteEvent, k: Pair)
    requires Reflects(t, c, seen) && Listed(c, e)
    ensures RowSeen(Applied(t, e), c, seen + {SlotOf(e)}, k)
  {
    assert RowSeen(t, c, seen, k);
  }

  lemma DeliveryReflects(t: Tables, c: Catalogue, seen: set<Slot>, e: VoteEvent)
    requires Consistent(c) && Reflects(t, c, seen) && Listed(c, e)
    ensures Delivered(t, e) == Applied(t, e)
    ensures Reflects(Delivered(t, e), c, seen + {SlotOf(e)})
  {
    ListedNeverConflicts(t, c, seen, e);
    var now := seen + {SlotOf(e)};
    forall s
      ensures SeenAt(Applied(t, e), c, now, s)
    {
      DeliveryIsSeen(t, c, seen, e, s);
    }
    forall k
      ensures RowSeen(Applied(t, e), c, now, k)
    {
      DeliveryHasRow(t, c, seen, e, k);
    }
  }

  function SlotsOf(deliveries: seq<VoteEvent>): set<Slot>
    decreases |deliveries|
  {
    if deliveries == [] then {}
    else SlotsOf(deliveries[..|deliveries| - 1]) + {SlotOf(deliveries[|deliveries| - 1])}
  }

  function IdsOf(deliveries: seq<VoteEvent>): set<string>
    decreases |deliveries|
  {
    if deliveries == [] then {}
    else IdsOf(deliveries[..|deliveries| - 1]) + {deliveries[|deliveries| - 1].id}
  }

  lemma {:induction false} DeliveredIsIn(deliveries: seq<VoteEvent>, i: nat)
    requires i < |deliveries|
    ensures SlotOf(deliveries[i]) in SlotsOf(deliveries) && deliveries[i].id in IdsOf(deliveries)
    decreases |deliveries|
  {
    if i < |deliveries| - 1 {
      DeliveredIsIn(deliveries[..|deliveries| - 1], i);
    }
  }

  lemma {:induction false} SubsetOfDeliveries(one: seq<VoteEvent>, other: seq<VoteEvent>)
    requires forall i | 0 <= i < |one| :: one[i] in other
    ensures SlotsOf(one) <= SlotsOf(other) && IdsOf(one) <= IdsOf(other)
    decreases |one|
  {
    if one != [] {
      var n := |one| - 1;
      SubsetOfDeliveries(one[..n], other);
      var j :| 0 <= j < |other| && other[j] == one[n];
      DeliveredIsIn(other, j);
    }
  }

  lemma {:induction false} DeliverAllReflects(
    t: Tables, c: Catalogue, seen: set<Slot>, deliveries: seq<VoteEvent>)
    requires Consistent(c) && Reflects(t, c, seen)
    requires forall i | 0 <= i < |deliveries| :: Listed(c, deliveries[i])
    ensures Reflects(DeliverAll(t, deliveries), c, seen + SlotsOf(deliveries))
    decreases |deliveries|
  {
    if deliveries == [] {
      assert seen + SlotsOf(deliveries) == seen;
    } else {
      var n := |deliveries| - 1;
      var init, e := deliveries[..n], deliveries[n];
      DeliverAllReflects(t, c, seen, init);
      DeliveryReflects(DeliverAll(t, init), c, seen + SlotsOf(init), e);
      assert seen + SlotsOf(deliveries) == seen + SlotsOf(init) + {SlotOf(e)};
    }
  }

  lemma {:induction false} DeliverAllConsumes(
    t: Tables, c: Catalogue, seen: set<Slot>, deliveries: seq<VoteEvent>)
    requires Consistent(c) && Reflects(t, c, seen)
    requires forall i | 0 <= i < |deliveries| :: Listed(c, deliveries[i])
    ensures DeliverAll(t, deliveries).posts == t.posts
    ensures DeliverAll(t, deliveries).consumed == t.consumed + IdsOf(deliveries)
    decreases |deliveries|
  {
    if deliveries != [] {
      var n := |deliveries| - 1;
      var init, e := deliveries[..n], deliveries[n];
      DeliverAllConsumes(t, c, seen, init);
      DeliverAllReflects(t, c, seen, init);
      DeliveryReflects(DeliverAll(t, init), c, seen + SlotsOf(init), e);
    }
  }

  /** Two consumers that have committed the same events store the same rows. */
  lemma SeenDecidesVotes(a: Tables, b: Tables, c: Catalogue, seen: set<Slot>)
    requires Reflects(a, c, seen) && Reflects(b, c, seen)
    ensures a.votes == b.votes
  {
    forall k | k in a.votes || k in b.votes
      ensures k in a.votes && k in b.votes && a.votes[k] == b.votes[k]
    {
      assert RowSeen(a, c, seen, k) && RowSeen(b, c, seen, k);
      if k in a.votes {
        assert SeenAt(b, c, seen, Slot(k, a.votes[k].version));
      }
      if k in b.votes {
        assert SeenAt(a, c, seen, Slot(k, b.votes[k].version));
      }
    }
  }

  lemma SeenDecidesTables(a: Tables, b: Tables, c: Catalogue, seen: set<Slot>)
    requires Reflects(a, c, seen) && Reflects(b, c, seen)
    requires a.posts == b.posts && a.consumed == b.consumed
    ensures a == b
  {
    SeenDecidesVotes(a, b, c, seen);
  }

  /** A row is an event's row exactly when no seen event of the pair is newer. */
  lemma RowIsNewest(t: Tables, c: Catalogue, seen: set<Slot>, s: Slot)
    requires Consistent(c) && Reflects(t, c, seen) && s in seen
    ensures s.pair in t.votes && s in c
    ensures t.votes[s.pair] == RowOf(c[s]) <==>
      forall r | r in seen && r.pair == s.pair :: r.version <= s.version
  {
    assert SeenAt(t, c, seen, s) && RowSeen(t, c, seen, s.pair);
    forall r | r in seen && r.pair == s.pair
      ensures r.version <= t.votes[s.pair].version
    {
      assert SeenAt(t, c, seen, r);
    }
    assert SlotOf(c[s]) == s;
  }

  /** Persistence is insensitive to order and duplication: from the tables of a consumer that
      has committed `seen`, any two delivery sequences carrying the same events end in the
      same tables, and those hold the newest event of every pair. */
  lemma DeliveryOrderIrrelevant(
    t: Tables, c: Catalogue, seen: set<Slot>, one: seq<VoteEvent>, other: seq<VoteEvent>)
    requires Consistent(c) && Reflects(t, c, seen)
    requires forall i | 0 <= i < |one| :: one[i] in other && Listed(c, one[i])
    requires forall i | 0 <= i < |other| :: other[i] in one && Listed(c, other[i])
    ensures DeliverAll(t, one) == DeliverAll(t, other)
    ensures Reflects(DeliverAll(t, one), c, seen + SlotsOf(one))
  {
    SubsetOfDeliveries(one, other);
    SubsetOfDeliveries(other, one);
    DeliverAllReflects(t, c, seen, one);
    DeliverAllReflects(t, c, seen, other);
    DeliverAllConsumes(t, c, seen, one);
    DeliverAllConsumes(t, c, seen, other);
    assert SlotsOf(one) == SlotsOf(other) && IdsOf(one) == IdsOf(other);
    SeenDecidesTables(DeliverAll(t, one), DeliverAll(t, other), c, seen + SlotsOf(one));
  }

  function StoredVersion(t: Tables, k: Pair): int {
    if k in t.votes then t.votes[k].version else 0
  }

  /** No delivery, of any event to any tables, takes a stored version back or drops a row. */
  lemma {:induction false} VersionsNeverDecrease(t: Tables, deliveries: seq<VoteEvent>, k: Pair)
    requires k in t.votes
    ensures k in DeliverAll(t, deliveries).votes
    ensures StoredVersion(t, k) <= StoredVersion(DeliverAll(t, deliveries), k)
    decreases |deliveries|
  {
    if deliveries != [] {
      VersionsNeverDecrease(t, deliveries[..|deliveries| - 1], k);
    }
  }

  // Recovery reads

  datatype PostSnapshot = PostSnapshot(post: int, community: int, createUnix: int, netVote: int)

  datatype VoteSnapshot = VoteSnapshot(user: int, post: int, direction: int, version: int)

  function ActivePosts(t: Tables): set<int> {
    set p | p in t.posts && t.posts[p].status == ACTIVE
  }

  /** The users with a row on `post`. */
  function UsersOn(votes: map<Pair, VoteRow>, post: int): (users: set<int>)
    ensures forall u :: u in users <==> Pair(u, post) in votes
  {
    set k | k in votes && k.post == post :: k.user
  }

  /** The users whose row on `post` is a vote up. */
  function UpVotersOf(votes: map<Pair, VoteRow>, post: int): (users: set<int>)
    ensures forall u :: u in users <==> Pair(u, post) in votes && votes[Pair(u, post)].direction == 1
  {
    set k | k in votes && k.post == post && votes[k].direction == 1 :: k.user
  }

  function DirectionsOn(votes: map<Pair, VoteRow>, post: int): map<int, int> {
    map u | u in UsersOn(votes, post) :: votes[Pair(u, post)].direction
  }

  function VersionsOn(votes: map<Pair, VoteRow>, post: int): map<int, int> {
    map u | u in UsersOn(votes, post) :: votes[Pair(u, post)].version
  }

  /** `COALESCE(SUM(pv.direction), 0)` for one post. */
  function NetVote(votes: map<Pair, VoteRow>, post: int): int {
    var directions := DirectionsOn(votes, post);
    SumInOrder(Ascending(UsersOn(votes, post)), directions)
  }

  lemma NetVoteIsSum(votes: map<Pair, VoteRow>, post: int)
    ensures NetVote(votes, post) == Totals.Sum(DirectionsOn(votes, post))
  {
    var directions := DirectionsOn(votes, post);
    SumInOrderIsSum(Ascending(UsersOn(votes, post)), directions, directions);
  }

  function SnapshotOf(t: Tables, post: int): PostSnapshot {
    if post in t.posts then
      PostSnapshot(post, t.posts[post].community, t.posts[post].createUnix, NetVote(t.votes, post))
    else
      PostSnapshot(post, 0, 0, 0)
  }

  /** The ids of the active posts after `after`, in order, at most `limit` of them. */
  function PageIds(t: Tables, after: int, limit: int): (ids: seq<int>)
    requires limit > 0
    ensures Increasing(ids)
    ensures forall i | 0 <= i < |ids| :: ids[i] in ActivePosts(t) && ids[i] > after
  {
    var all := Ascending(set p | p in ActivePosts(t) && p > after);
    assert forall i | 0 <= i < |all| :: all[i] in all;
    if |all| <= limit then all else all[..limit]
  }

  /** A page leaves out no active post below its last one. */
  lemma PageIsGapless(t: Tables, after: int, limit: int, p: int)
    requires limit > 0
    requires p in ActivePosts(t) && p > after && p !in PageIds(t, after, limit)
    ensures PageIds(t, after, limit) != []
    ensures p > PageIds(t, after, limit)[|PageIds(t, after, limit)| - 1]
  {
    var all := Ascending(set q | q in ActivePosts(t) && q > after);
    assert p in all;
    PrefixIsLower(all, limit, p);
  }

  function Each<T>(ids: seq<int>, f: int -> T): (r: seq<T>)
    ensures |r| == |ids|
    ensures forall i | 0 <= i < |ids| :: r[i] == f(ids[i])
  {
    if ids == [] then [] else [f(ids[0])] + Each(ids[1..], f)
  }

  function Snapshots(t: Tables): int -> PostSnapshot {
    p => SnapshotOf(t, p)
  }

  function PostPage(t: Tables, after: int, limit: int): seq<PostSnapshot>
    requires limit > 0
  {
    Each(PageIds(t, after, limit), Snapshots(t))
  }

  /** The rows of `users`, in that order. */
  function Rows(users: seq<int>, post: int, directions: map<int, int>, versions: map<int, int>): (rows: seq<VoteSnapshot>)
    requires forall u :: u in users ==> u in directions && u in versions
    ensures |rows| == |users|
    ensures forall i | 0 <= i < |rows| :: rows[i].post == post
    ensures forall i | 0 <= i < |rows| ::
      && users[i] in directions && users[i] in versions
      && rows[i] == VoteSnapshot(users[i], post, directions[users[i]], versions[users[i]])
    decreases |users|
  {
    if users == [] then []
    else
      var n := |users| - 1;
      var u := users[n];
      assert u in users && forall x | x in users[..n] :: x in users;
      Rows(users[..n], post, directions, versions) + [VoteSnapshot(u, post, directions[u], versions[u])]
  }

  /** The vote rows of one post in user order. */
  function VotesOf(t: Tables, post: int): (rows: seq<VoteSnapshot>)
    ensures forall i | 0 <= i < |rows| :: rows[i].post == post
  {
    Rows(Ascending(UsersOn(t.votes, post)), post,
      DirectionsOn(t.votes, post), VersionsOn(t.votes, post))
  }

  function PageRows(posts: seq<int>, rowsOf: int -> seq<VoteSnapshot>): seq<VoteSnapshot> {
    if posts == [] then [] else rowsOf(posts[0]) + PageRows(posts[1..], rowsOf)
  }

  function RowsByPost(t: Tables): int -> seq<VoteSnapshot> {
    p => VotesOf(t, p)
  }

  /** The vote rows of the posts, ordered by post and user. */
  function VotePage(t: Tables, posts: seq<int>): seq<VoteSnapshot> {
    PageRows(posts, RowsByPost(t))
  }
}
