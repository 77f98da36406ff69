/** What a rebuilt Redis must contain, and that replaying MySQL snapshots produces it. */
module RecoveryTarget {
  import opened VoteModel
  import opened RedisStore
  import opened VoteDatabase
  import opened Ordering
  import Totals

  const READY := "ready:v1"
  const REBUILDING := "rebuilding:v1"

  /** The key patterns the rebuild deletes. */
  datatype Pattern = TimePattern | ScorePattern | VotedPattern | VersionPattern | CommunityPattern

  predicate Matches(p: Pattern, k: Key) {
    match p
    case TimePattern => k == PostTime || (k.Listing? && !k.byScore)
    case ScorePattern => k == PostScore || (k.Listing? && k.byScore)
    case VotedPattern => k.PostVoted?
    case VersionPattern => k.PostVersions?
    case CommunityPattern => k.Community?
  }

  /** The keys derived from MySQL. */
  predicate Derived(k: Key) {
    k == PostTime || k == PostScore || k.PostVoted? || k.PostVersions? || k.Community? || k.Listing?
  }

  function Lookup(ks: Keyspace, k: Key): Option<Value> {
    if k in ks then Some(ks[k]) else None
  }

  function NonEmptyZSet(m: map<int, int>): Option<Value> {
    if m == map[] then None else Some(ZSet(m))
  }

  function NonEmptyHash(m: map<int, int>): Option<Value> {
    if m == map[] then None else Some(Hash(m))
  }

  function NonEmptySet(s: set<int>): Option<Value> {
    if s == {} then None else Some(Members(s))
  }

  /** Directions as Redis stores them: 0 is absence. */
  function Live(directions: map<int, int>): map<int, int> {
    map u | u in directions && directions[u] != 0 :: directions[u]
  }

  /** What MySQL says about one post: its snapshot and its vote rows. */
  datatype PostData = PostData(post: PostSnapshot, votes: seq<VoteSnapshot>)

  type SnapshotMap = map<int, PostData>

  /** Directions and versions collected from rows in order. */
  function LiveOf(votes: seq<VoteSnapshot>): map<int, int>
    decreases |votes|
  {
    if votes == [] then map[]
    else
      var v := votes[|votes| - 1];
      var m := LiveOf(votes[..|votes| - 1]);
      if v.direction != 0 then m[v.user := v.direction] else m
  }

  function VersionsOf(votes: seq<VoteSnapshot>): map<int, int>
    decreases |votes|
  {
    if votes == [] then map[]
    else VersionsOf(votes[..|votes| - 1])[votes[|votes| - 1].user := votes[|votes| - 1].version]
  }

  function Times(d: SnapshotMap): map<int, int> {
    map p | p in d :: d[p].post.createUnix
  }

  /** Scores recomputed from final directions. */
  function Scores(d: SnapshotMap): map<int, int> {
    map p | p in d :: d[p].post.createUnix + d[p].post.netVote * SCORE_PER_VOTE
  }

  function InCommunity(d: SnapshotMap, c: int): set<int> {
    set p | p in d && d[p].post.community == c
  }

  /** The content of a derived key when exactly the posts of `d` are restored. */
  function TargetAt(d: SnapshotMap, k: Key): Option<Value> {
    match k
    case PostTime => NonEmptyZSet(Times(d))
    case PostScore => NonEmptyZSet(Scores(d))
    case PostVoted(p) => if p in d then NonEmptyZSet(LiveOf(d[p].votes)) else None
    case PostVersions(p) => if p in d then NonEmptyHash(VersionsOf(d[p].votes)) else None
    case Community(c) => NonEmptySet(InCommunity(d, c))
    case _ => None
  }

  predicate RestoredAt(d: SnapshotMap, base: Keyspace, ks: Keyspace, k: Key) {
    Lookup(ks, k) == if Derived(k) then TargetAt(d, k) else Lookup(base, k)
  }

  /** `ks` has the derived keys of the posts `d` and, apart from them, is `base`. */
  ghost predicate RestoredTo(d: SnapshotMap, base: Keyspace, ks: Keyspace) {
    forall k :: RestoredAt(d, base, ks, k)
  }

  predicate KeptAt(before: Keyspace, after: Keyspace, k: Key) {
    !Derived(k) ==> Lookup(after, k) == Lookup(before, k)
  }

  /** Keys not derived from MySQL are as before. */
  ghost predicate KeepsOthers(before: Keyspace, after: Keyspace) {
    forall k :: KeptAt(before, after, k)
  }

  lemma KeepingChains(a: Keyspace, b: Keyspace, c: Keyspace)
    requires KeepsOthers(a, b) && KeepsOthers(b, c)
    ensures KeepsOthers(a, c)
  {
    forall k
      ensures KeptAt(a, c, k)
    {
      assert KeptAt(a, b, k) && KeptAt(b, c, k);
    }
  }

  lemma RestoredKeepsOthers(d: SnapshotMap, base: Keyspace, ks: Keyspace)
    requires RestoredTo(d, base, ks)
    ensures KeepsOthers(base, ks)
  {
    forall k
      ensures KeptAt(base, ks, k)
    {
      assert RestoredAt(d, base, ks, k);
    }
  }

  /** The posts a rebuild reaches: it pages upwards from id 0. */
  function Restorable(t: Tables): set<int> {
    set p | p in ActivePosts(t) && p > 0
  }

  function DataOf(t: Tables): int -> PostData {
    p => PostData(SnapshotOf(t, p), VotesOf(t, p))
  }

  function Tabulate(ids: set<int>, data: int -> PostData): SnapshotMap {
    map p | p in ids :: data(p)
  }

  /** The outcome of a completed rebuild. */
  ghost predicate Rebuilt(t: Tables, before: Keyspace, after: Keyspace) {
    RestoredTo(Tabulate(Restorable(t), DataOf(t)), Set(before, StateMarker, READY), after)
  }

  lemma SameLookups(one: Keyspace, other: Keyspace)
    requires forall k :: Lookup(one, k) == Lookup(other, k)
    ensures one == other
  {
    forall k
      ensures k in one <==> k in other
      ensures k in one && k in other ==> one[k] == other[k]
    {
      assert Lookup(one, k) == Lookup(other, k);
    }
  }

  /** Whatever was left in Redis, and whatever the batch size, there is one outcome. */
  lemma RebuiltIsUnique(t: Tables, before: Keyspace, leftover: Keyspace, one: Keyspace, other: Keyspace)
    requires forall k | !Derived(k) && k != StateMarker :: Lookup(before, k) == Lookup(leftover, k)
    requires Rebuilt(t, before, one) && Rebuilt(t, leftover, other)
    ensures one == other
  {
    forall k
      ensures Lookup(one, k) == Lookup(other, k)
    {
      assert RestoredAt(Tabulate(Restorable(t), DataOf(t)), Set(before, StateMarker, READY), one, k);
      assert RestoredAt(Tabulate(Restorable(t), DataOf(t)), Set(leftover, StateMarker, READY), other, k);
      if !Derived(k) && k != StateMarker {
        assert Lookup(before, k) == Lookup(leftover, k);
      }
    }
    SameLookups(one, other);
  }

  // Replaying one post

  function VoteCommands(votes: seq<VoteSnapshot>): seq<Command>
    decreases |votes|
  {
    if votes == [] then [] else VoteCommands(votes[..|votes| - 1]) + RowCommands(votes[|votes| - 1])
  }

  function PostCommands(post: PostSnapshot, votes: seq<VoteSnapshot>): seq<Command> {
    IndexCommands(post) + VoteCommands(votes)
  }

  ghost predicate HoldsVotes(ks: Keyspace, post: int, live: map<int, int>, versions: map<int, int>) {
    && Lookup(ks, PostVoted(post)) == NonEmptyZSet(live)
    && Lookup(ks, PostVersions(post)) == NonEmptyHash(versions)
  }

  ghost predicate SameBut(a: Keyspace, b: Keyspace, post: int) {
    forall k | k != PostVoted(post) && k != PostVersions(post) :: Lookup(a, k) == Lookup(b, k)
  }

  function RowCommands(v: VoteSnapshot): seq<Command> {
    (if v.direction != 0 then [ZAddOne(PostVoted(v.post), v.direction, v.user)] else [])
    + [HSetOne(PostVersions(v.post), v.user, v.version)]
  }

  lemma RunRowCommands(ks: Keyspace, v: VoteSnapshot, live: map<int, int>, versions: map<int, int>)
    requires HoldsVotes(ks, v.post, live, versions)
    ensures
      var after := RunAll(ks, RowCommands(v));
      && AllFit(ks, RowCommands(v))
      && HoldsVotes(after, v.post, if v.direction != 0 then live[v.user := v.direction] else live,
                    versions[v.user := v.version])
      && SameBut(after, ks, v.post)
  {
    var add, set_ := ZAddOne(PostVoted(v.post), v.direction, v.user), HSetOne(PostVersions(v.post), v.user, v.version);
    assert ZSetAt(ks, PostVoted(v.post)) == live && HashAt(ks, PostVersions(v.post)) == versions;
    assert v.user in live[v.user := v.direction] && v.user in versions[v.user := v.version];
    if v.direction != 0 {
      RunOne(ks, add);
      RunAppend(ks, [add], [set_]);
      RunOne(Effect(ks, add), set_);
      assert RowCommands(v) == [add] + [set_];
    } else {
      RunOne(ks, set_);
      assert RowCommands(v) == [set_];
    }
  }

  /** The vote commands of one post fill that post's two keys and touch no other. */
  lemma {:induction false} RunVoteCommands(ks: Keyspace, post: int, votes: seq<VoteSnapshot>)
    requires forall i | 0 <= i < |votes| :: votes[i].post == post
    requires PostVoted(post) !in ks && PostVersions(post) !in ks
    ensures AllFit(ks, VoteCommands(votes))
    ensures HoldsVotes(RunAll(ks, VoteCommands(votes)), post, LiveOf(votes), VersionsOf(votes))
    ensures SameBut(RunAll(ks, VoteCommands(votes)), ks, post)
    decreases |votes|
  {
    if votes != [] {
      var n := |votes| - 1;
      var init := votes[..n];
      RunVoteCommands(ks, post, init);
      RunRowCommands(RunAll(ks, VoteCommands(init)), votes[n], LiveOf(init), VersionsOf(init));
      RunAppend(ks, VoteCommands(init), RowCommands(votes[n]));
    }
  }

  lemma RunOne(ks: Keyspace, c: Command)
    ensures RunAll(ks, [c]) == Effect(ks, c)
    ensures AllFit(ks, [c]) <==> Fits(ks, c)
  {
    assert [c][..0] == [];
  }

  function IndexCommands(post: PostSnapshot): seq<Command> {
    [ZAddOne(PostTime, post.createUnix, post.post),
     ZAddOne(PostScore, post.createUnix + post.netVote * SCORE_PER_VOTE, post.post),
     SAddOne(Community(post.community), post.post)]
  }

  lemma RunIndexCommands(ks: Keyspace, post: PostSnapshot)
    requires TypeIs(ks, PostTime, ZSetKind) && TypeIs(ks, PostScore, ZSetKind)
    requires TypeIs(ks, Community(post.community), SetKind)
    ensures AllFit(ks, IndexCommands(post))
    ensures RunAll(ks, IndexCommands(post)) == AfterIndex(ks, post)
  {
    var cs := IndexCommands(post);
    RunOne(ks, cs[0]);
    var k1 := Effect(ks, cs[0]);
    RunAppend(ks, [cs[0]], [cs[1]]);
    RunOne(k1, cs[1]);
    var k2 := Effect(k1, cs[1]);
    RunAppend(ks, [cs[0]] + [cs[1]], [cs[2]]);
    RunOne(k2, cs[2]);
    assert cs == [cs[0]] + [cs[1]] + [cs[2]];
  }

  lemma CommunityGrows(d: SnapshotMap, p: int, data: PostData, c: int)
    requires p !in d
    ensures InCommunity(d[p := data], c) ==
            if c == data.post.community then InCommunity(d, c) + {p} else InCommunity(d, c)
  {
  }

  function AfterIndex(ks: Keyspace, post: PostSnapshot): Keyspace {
    ks[PostTime := ZSet(ZSetAt(ks, PostTime)[post.post := post.createUnix])]
      [PostScore := ZSet(ZSetAt(ks, PostScore)[post.post := post.createUnix + post.netVote * SCORE_PER_VOTE])]
      [Community(post.community) := Members(MembersAt(ks, Community(post.community)) + {post.post})]
  }

  /** One derived key after the index commands. */
  lemma IndexedKey(d: SnapshotMap, ks: Keyspace, p: int, data: PostData, k: Key)
    requires p !in d && data.post.post == p
    requires Derived(k) && k != PostVoted(p) && k != PostVersions(p)
    requires Lookup(ks, k) == TargetAt(d, k)
    ensures Lookup(AfterIndex(ks, data.post), k) == TargetAt(d[p := data], k)
  {
    match k
    case PostTime =>
      IndexTargets(d, p, data);
      assert ZSetAt(ks, PostTime) == Times(d);
    case PostScore =>
      IndexTargets(d, p, data);
      assert ZSetAt(ks, PostScore) == Scores(d);
    case Community(c) =>
      CommunityGrows(d, p, data, c);
      assert MembersAt(ks, k) == InCommunity(d, c);
    case _ =>
  }

  /** The three index commands bring every key but the post's own vote keys to target. */
  lemma IndexRestored(d: SnapshotMap, base: Keyspace, ks: Keyspace, p: int, data: PostData)
    requires RestoredTo(d, base, ks) && p !in d && data.post.post == p
    ensures
      var after, grown := RunAll(ks, IndexCommands(data.post)), d[p := data];
      && AllFit(ks, IndexCommands(data.post))
      && PostVoted(p) !in after && PostVersions(p) !in after
      && (forall k | k != PostVoted(p) && k != PostVersions(p) :: RestoredAt(grown, base, after, k))
  {
    var post, grown := data.post, d[p := data];
    assert RestoredAt(d, base, ks, PostTime) && RestoredAt(d, base, ks, PostScore);
    assert RestoredAt(d, base, ks, Community(post.community));
    assert RestoredAt(d, base, ks, PostVoted(p)) && RestoredAt(d, base, ks, PostVersions(p));
    RunIndexCommands(ks, post);
    forall k | k != PostVoted(p) && k != PostVersions(p)
      ensures RestoredAt(grown, base, AfterIndex(ks, post), k)
    {
      assert RestoredAt(d, base, ks, k);
      if Derived(k) {
        IndexedKey(d, ks, p, data, k);
      }
    }
  }

  lemma IndexTargets(d: SnapshotMap, p: int, data: PostData)
    requires p !in d && data.post.post == p
    ensures TargetAt(d[p := data], PostTime) == Some(ZSet(Times(d)[p := data.post.createUnix]))
    ensures TargetAt(d[p := data], PostScore)
      == Some(ZSet(Scores(d)[p := data.post.createUnix + data.post.netVote * SCORE_PER_VOTE]))
  {
    var grown := d[p := data];
    assert Times(grown) == Times(d)[p := data.post.createUnix] && p in Times(grown);
    assert Scores(grown) == Scores(d)[p := data.post.createUnix + data.post.netVote * SCORE_PER_VOTE];
    assert p in Scores(grown);
  }

  /** Replaying one more post's snapshot extends what is restored by that post. */
  lemma RestorePost(d: SnapshotMap, base: Keyspace, ks: Keyspace, p: int, data: PostData)
    requires RestoredTo(d, base, ks) && p !in d && data.post.post == p
    requires forall i | 0 <= i < |data.votes| :: data.votes[i].post == p
    ensures RestoredTo(d[p := data], base, RunAll(ks, PostCommands(data.post, data.votes)))
    ensures AllFit(ks, PostCommands(data.post, data.votes))
  {
    IndexRestored(d, base, ks, p, data);
    var k3 := RunAll(ks, IndexCommands(data.post));
    RunAppend(ks, IndexCommands(data.post), VoteCommands(data.votes));
    RunVoteCommands(k3, p, data.votes);
    var after, grown := RunAll(k3, VoteCommands(data.votes)), d[p := data];
    forall k
      ensures RestoredAt(grown, base, after, k)
    {
      if k != PostVoted(p) && k != PostVersions(p) {
        assert RestoredAt(grown, base, k3, k);
        assert Lookup(after, k) == Lookup(k3, k);
      }
    }
  }

  // What the replayed rows mean

  lemma LastRow(users: seq<int>, post: int, directions: map<int, int>, versions: map<int, int>)
    requires users != [] && forall u :: u in users ==> u in directions && u in versions
    ensures
      var rows, n := Rows(users, post, directions, versions), |users| - 1;
      && |rows| == |users| && rows[n] == VoteSnapshot(users[n], post, directions[users[n]], versions[users[n]])
      && rows[..n] == Rows(users[..n], post, directions, versions)
  {
  }

  lemma {:induction false} CollectLive(
    users: seq<int>, post: int, directions: map<int, int>, versions: map<int, int>, u: int)
    requires forall v :: v in users ==> v in directions && v in versions
    ensures
      var live := LiveOf(Rows(users, post, directions, versions));
      && (u in live <==> u in users && directions[u] != 0)
      && (u in live ==> live[u] == directions[u])
    decreases |users|
  {
    if users != [] {
      var n := |users| - 1;
      assert users == users[..n] + [users[n]];
      LastRow(users, post, directions, versions);
      CollectLive(users[..n], post, directions, versions, u);
    }
  }

  lemma {:induction false} CollectVersions(
    users: seq<int>, post: int, directions: map<int, int>, versions: map<int, int>, u: int)
    requires forall v :: v in users ==> v in directions && v in versions
    ensures
      var collected := VersionsOf(Rows(users, post, directions, versions));
      && (u in collected <==> u in users)
      && (u in collected ==> collected[u] == versions[u])
    decreases |users|
  {
    if users != [] {
      var n := |users| - 1;
      assert users == users[..n] + [users[n]];
      LastRow(users, post, directions, versions);
      CollectVersions(users[..n], post, directions, versions, u);
    }
  }

  lemma CollectedRows(t: Tables, post: int)
    ensures LiveOf(VotesOf(t, post)) == Live(DirectionsOn(t.votes, post))
    ensures VersionsOf(VotesOf(t, post)) == VersionsOn(t.votes, post)
  {
    var directions, versions := DirectionsOn(t.votes, post), VersionsOn(t.votes, post);
    var users := Ascending(UsersOn(t.votes, post));
    var live, collected := LiveOf(VotesOf(t, post)), VersionsOf(VotesOf(t, post));
    forall u
      ensures u in live <==> u in UsersOn(t.votes, post) && directions[u] != 0
      ensures u in live ==> live[u] == directions[u]
      ensures u in collected <==> u in versions
      ensures u in collected ==> collected[u] == versions[u]
    {
      CollectLive(users, post, directions, versions, u);
      CollectVersions(users, post, directions, versions, u);
    }
    Totals.SameMap(live, Live(directions));
    Totals.SameMap(collected, versions);
  }
}
