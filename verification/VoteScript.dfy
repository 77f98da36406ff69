/** dao/redis/vote.lua and the Go functions around it. */
module VoteScript {
  import opened VoteModel
  import opened RedisStore
  import Totals

  datatype VoteCall = VoteCall(user: int, post: int, direction: int, eventId: string, now: int)

  datatype VoteReply = VoteReply(
    code: int, oldDirection: int, direction: int, delta: int, version: int, streamId: nat)

  datatype VoteResult = VoteResult(direction: int, version: int, changed: bool)

  datatype VoteError =
    | VoteTimeExpired | PostNotInitialized | InvalidDirection | VoteKeyType | RedisUnavailable

  /** The five keys of the script have the types its commands need. */
  predicate VoteKeysTyped(ks: Keyspace, post: int) {
    && TypeIs(ks, PostTime, ZSetKind)
    && TypeIs(ks, PostScore, ZSetKind)
    && TypeIs(ks, PostVoted(post), ZSetKind)
    && TypeIs(ks, PostVersions(post), HashKind)
    && TypeIs(ks, VoteOutbox, StreamKind)
  }

  /** The post is too old to be voted on. */
  predicate Expired(ks: Keyspace, c: VoteCall)
    requires Indexed(ks, c.post)
  {
    c.now - ZSetAt(ks, PostTime)[c.post] > VOTE_WINDOW_SECONDS
  }

  /** The calls that change something. */
  predicate Accepted(ks: Keyspace, c: VoteCall) {
    && VoteKeysTyped(ks, c.post)
    && IsDirection(c.direction)
    && Indexed(ks, c.post)
    && !Expired(ks, c)
    && Direction(ks, c.user, c.post) != c.direction
  }

  function EventOf(ks: Keyspace, c: VoteCall): VoteEvent {
    VoteEvent(c.eventId, c.user, c.post, c.direction, Version(ks, c.user, c.post) + 1, c.now)
  }

  function Touched(post: int): set<Key> {
    {PostScore, PostVoted(post), PostVersions(post), VoteOutbox}
  }

  /** The direction set of a post after `user` moved to `direction`; 0 is stored as absence. */
  function WithDirection(voted: map<int, int>, user: int, direction: int): (r: map<int, int>)
    ensures Totals.ValueOr(r, user, 0) == direction
    ensures forall u | u != user :: Totals.ValueOr(r, u, 0) == Totals.ValueOr(voted, u, 0)
  {
    if direction == 0 then voted - {user} else voted[user := direction]
  }

  /** Keyspace `b` is `a` after event `e` took effect, whole: score, direction, version and
      outbox moved together, and nothing else moved. */
  ghost predicate VoteApplied(a: Keyspace, b: Keyspace, e: VoteEvent) {
    && e.version == Version(a, e.user, e.post) + 1
    && VoteKeysTyped(b, e.post)
    && Indexed(a, e.post)
    && ZSetAt(b, PostScore) == ZSetAt(a, PostScore)[e.post :=
      ZSetAt(a, PostScore)[e.post] + SCORE_PER_VOTE * (e.direction - Direction(a, e.user, e.post))]
    && ZSetAt(b, PostVoted(e.post)) == WithDirection(ZSetAt(a, PostVoted(e.post)), e.user, e.direction)
    && HashAt(b, PostVersions(e.post)) == HashAt(a, PostVersions(e.post))[e.user := e.version]
    && VoteOutbox in b && b[VoteOutbox] == Log(Appended(Outbox(a), e))
    && b - Touched(e.post) == a - Touched(e.post)
  }

  predicate Same(a: Keyspace, b: Keyspace, k: Key) {
    (k in a <==> k in b) && (k in a ==> a[k] == b[k])
  }

  ghost predicate OnlyAt(a: Keyspace, b: Keyspace, key: Key) {
    forall k | k != key :: Same(a, b, k)
  }

  // The four writes. None of them changes the type of a key or touches a key of the others.

  function Scored(a: Keyspace, post: int, delta: int): (b: Keyspace)
    requires VoteKeysTyped(a, post)
    ensures VoteKeysTyped(b, post) && OnlyAt(a, b, PostScore)
  {
    ZIncrBy(a, PostScore, delta * SCORE_PER_VOTE, post)
  }

  function Moved(a: Keyspace, post: int, user: int, direction: int): (b: Keyspace)
    requires VoteKeysTyped(a, post)
    ensures VoteKeysTyped(b, post) && OnlyAt(a, b, PostVoted(post))
    ensures ZSetAt(b, PostVoted(post)) == WithDirection(ZSetAt(a, PostVoted(post)), user, direction)
  {
    if direction == 0 then ZRem(a, PostVoted(post), user) else ZAdd(a, PostVoted(post), direction, user)
  }

  function Versioned(a: Keyspace, post: int, user: int, version: int): (b: Keyspace)
    requires VoteKeysTyped(a, post)
    ensures VoteKeysTyped(b, post) && OnlyAt(a, b, PostVersions(post))
    ensures HashAt(b, PostVersions(post)) == HashAt(a, PostVersions(post))[user := version]
  {
    HSet(a, PostVersions(post), user, version)
  }

  function Sent(a: Keyspace, e: VoteEvent): (b: Keyspace)
    requires VoteKeysTyped(a, e.post)
    ensures VoteKeysTyped(b, e.post) && OnlyAt(a, b, VoteOutbox)
    ensures VoteOutbox in b && b[VoteOutbox] == Log(Appended(Outbox(a), e))
  {
    XAdd(a, VoteOutbox, e)
  }

  /** The writes of an accepted call, in the script's order. */
  function Written(a: Keyspace, e: VoteEvent): Keyspace
    requires VoteKeysTyped(a, e.post)
  {
    var scored := Scored(a, e.post, e.direction - Direction(a, e.user, e.post));
    Sent(Versioned(Moved(scored, e.post, e.user, e.direction), e.post, e.user, e.version), e)
  }

  lemma UntouchedByWrites(a: Keyspace, k1: Keyspace, k2: Keyspace, k3: Keyspace, b: Keyspace, post: int)
    requires OnlyAt(a, k1, PostScore) && OnlyAt(k1, k2, PostVoted(post))
    requires OnlyAt(k2, k3, PostVersions(post)) && OnlyAt(k3, b, VoteOutbox)
    ensures b - Touched(post) == a - Touched(post)
    ensures Same(a, k1, PostVoted(post)) && Same(k1, b, PostScore) && Same(k2, b, PostVoted(post))
    ensures Same(a, k2, PostVersions(post)) && Same(k3, b, PostVersions(post)) && Same(a, k3, VoteOutbox)
  {
    assert Same(k1, k2, PostScore) && Same(k2, k3, PostScore) && Same(k3, b, PostScore);
    assert Same(a, k1, PostVoted(post)) && Same(k2, k3, PostVoted(post)) && Same(k3, b, PostVoted(post));
    assert Same(a, k1, PostVersions(post)) && Same(k1, k2, PostVersions(post)) && Same(k3, b, PostVersions(post));
    assert Same(a, k1, VoteOutbox) && Same(k1, k2, VoteOutbox) && Same(k2, k3, VoteOutbox);
    forall k | k !in Touched(post)
      ensures Same(a, b, k)
    {
      assert Same(a, k1, k) && Same(k1, k2, k) && Same(k2, k3, k) && Same(k3, b, k);
    }
    SameOutside(a, b, Touched(post));
  }

  lemma SameOutside(a: Keyspace, b: Keyspace, keys: set<Key>)
    requires forall k | k !in keys :: Same(a, b, k)
    ensures b - keys == a - keys
  {
    forall k
      ensures k in b - keys <==> k in a - keys
      ensures k in b - keys ==> (b - keys)[k] == (a - keys)[k]
    {
      assert k !in keys ==> Same(a, b, k);
    }
    Totals.SameMap(b - keys, a - keys);
  }

  /** Together the writes apply the event. */
  lemma WritesApply(a: Keyspace, e: VoteEvent)
    requires VoteKeysTyped(a, e.post) && Indexed(a, e.post)
    requires e.version == Version(a, e.user, e.post) + 1
    ensures VoteApplied(a, Written(a, e), e)
  {
    var k1 := Scored(a, e.post, e.direction - Direction(a, e.user, e.post));
    var k2 := Moved(k1, e.post, e.user, e.direction);
    var k3 := Versioned(k2, e.post, e.user, e.version);
    var b := Sent(k3, e);
    UntouchedByWrites(a, k1, k2, k3, b, e.post);
  }

  lemma VersionsUntouched(a: Keyspace, e: VoteEvent)
    requires VoteKeysTyped(a, e.post)
    ensures
      var k1 := Scored(a, e.post, e.direction - Direction(a, e.user, e.post));
      Version(Moved(k1, e.post, e.user, e.direction), e.user, e.post) == Version(a, e.user, e.post)
  {
    var k1 := Scored(a, e.post, e.direction - Direction(a, e.user, e.post));
    var k2 := Moved(k1, e.post, e.user, e.direction);
    assert Same(a, k1, PostVersions(e.post)) && Same(k1, k2, PostVersions(e.post));
  }

  /** The script's writes. */
  method WriteVote(server: RedisServer, c: VoteCall, oldDirection: int) returns (version: int)
    requires Accepted(server.keys, c) && oldDirection == Direction(server.keys, c.user, c.post)
    modifies server`keys
    ensures VoteApplied(old(server.keys), server.keys, EventOf(old(server.keys), c))
    ensures version == Version(server.keys, c.user, c.post)
  {
    ghost var a, e := server.keys, EventOf(server.keys, c);
    var delta := c.direction - oldDirection;
    server.keys := ZIncrBy(server.keys, PostScore, delta * SCORE_PER_VOTE, c.post);
    assert server.keys == Scored(a, c.post, delta);
    if c.direction == 0 {
      server.keys := ZRem(server.keys, PostVoted(c.post), c.user);
    } else {
      server.keys := ZAdd(server.keys, PostVoted(c.post), c.direction, c.user);
    }
    VersionsUntouched(a, e);
    version := Totals.ValueOr(HashAt(server.keys, PostVersions(c.post)), c.user, 0) + 1;
    server.keys := HSet(server.keys, PostVersions(c.post), c.user, version);
    server.keys := XAdd(server.keys, VoteOutbox,
      VoteEvent(c.eventId, c.user, c.post, c.direction, version, c.now));
    assert server.keys == Written(a, e);
    WritesApply(a, e);
  }

  /** What the script answers to a vote it does not accept. */
  function Refusal(ks: Keyspace, c: VoteCall): VoteReply {
    if !VoteKeysTyped(ks, c.post) then VoteReply(5, 0, 0, 0, 0, 0)
    else if !IsDirection(c.direction) then VoteReply(4, 0, 0, 0, 0, 0)
    else if !Indexed(ks, c.post) then VoteReply(3, 0, c.direction, 0, 0, 0)
    else if Expired(ks, c) then VoteReply(1, 0, c.direction, 0, 0, 0)
    else VoteReply(2, Direction(ks, c.user, c.post), c.direction, 0, Version(ks, c.user, c.post), 0)
  }

  /** The script. Redis runs it without interleaving; each command's precondition is
      that its key has the right type, so the script cannot stop half way. */
  method RunVoteScript(server: RedisServer, c: VoteCall) returns (r: VoteReply)
    modifies server`keys
    ensures r.code in {0, 1, 2, 3, 4, 5}
    ensures r.code == 0 <==> Accepted(old(server.keys), c)
    ensures r.code == 5 <==> !VoteKeysTyped(old(server.keys), c.post)
    ensures r.code == 4 <==> VoteKeysTyped(old(server.keys), c.post) && !IsDirection(c.direction)
    ensures r.code == 3 ==> !Indexed(old(server.keys), c.post)
    ensures r.code == 1 ==> Indexed(server.keys, c.post) && Expired(server.keys, c)
    ensures r.code == 2 ==> Indexed(server.keys, c.post) && !Expired(server.keys, c)
    ensures r.code == 2 ==> Direction(server.keys, c.user, c.post) == c.direction
    ensures r.code == 2 ==> r.version == Version(server.keys, c.user, c.post)
    ensures r.code != 0 ==> server.keys == old(server.keys) && r == Refusal(old(server.keys), c)
    ensures r.code == 0 ==> VoteApplied(old(server.keys), server.keys, EventOf(old(server.keys), c))
    ensures r.code == 0 ==> r.version == Version(server.keys, c.user, c.post)
    ensures r.code == 0 ==> r.oldDirection == Direction(old(server.keys), c.user, c.post)
    ensures r.code == 0 ==> r.delta == c.direction - r.oldDirection != 0
    ensures r.code == 0 ==> r.streamId == Outbox(server.keys).lastId
  {
    if !TypeIs(server.keys, PostTime, ZSetKind)
      || !TypeIs(server.keys, PostScore, ZSetKind)
      || !TypeIs(server.keys, PostVoted(c.post), ZSetKind)
      || !TypeIs(server.keys, PostVersions(c.post), HashKind)
      || !TypeIs(server.keys, VoteOutbox, StreamKind)
    {
      return VoteReply(5, 0, 0, 0, 0, 0);
    }
    if c.direction != -1 && c.direction != 0 && c.direction != 1 {
      return VoteReply(4, 0, 0, 0, 0, 0);
    }
    if c.post !in ZSetAt(server.keys, PostTime) || c.post !in ZSetAt(server.keys, PostScore) {
      return VoteReply(3, 0, c.direction, 0, 0, 0);
    }
    if c.now - ZSetAt(server.keys, PostTime)[c.post] > VOTE_WINDOW_SECONDS {
      return VoteReply(1, 0, c.direction, 0, 0, 0);
    }
    var oldDirection := Totals.ValueOr(ZSetAt(server.keys, PostVoted(c.post)), c.user, 0);
    var currentVersion := Totals.ValueOr(HashAt(server.keys, PostVersions(c.post)), c.user, 0);
    if oldDirection == c.direction {
      return VoteReply(2, oldDirection, c.direction, 0, currentVersion, 0);
    }
    var version := WriteVote(server, c, oldDirection);
    r := VoteReply(0, oldDirection, c.direction, c.direction - oldDirection, version, Outbox(server.keys).lastId);
  }

  /** dao/redis VoteForPost: run the script, translate its code. A lost reply is an error the
      caller cannot tell apart from a script that never ran. */
  method VoteForPost(server: RedisServer, c: VoteCall) returns (r: Result<VoteResult, VoteError>)
    modifies server
    ensures server.keys == old(server.keys)
      || (Accepted(old(server.keys), c) && VoteApplied(old(server.keys), server.keys, EventOf(old(server.keys), c)))
    ensures r.Success? ==> r.value.direction == c.direction == Direction(server.keys, c.user, c.post)
    ensures r.Success? ==> r.value.version == Version(server.keys, c.user, c.post)
    ensures r.Success? ==> (r.value.changed <==> Accepted(old(server.keys), c))
    ensures r.Success? && r.value.changed ==>
      VoteApplied(old(server.keys), server.keys, EventOf(old(server.keys), c))
    ensures r.Success? && !r.value.changed ==> server.keys == old(server.keys)
    ensures r.Failure? && r.error != RedisUnavailable ==> server.keys == old(server.keys)
    ensures r == Failure(VoteKeyType) ==> !VoteKeysTyped(old(server.keys), c.post)
    ensures r == Failure(InvalidDirection) ==> VoteKeysTyped(old(server.keys), c.post) && !IsDirection(c.direction)
    ensures r == Failure(PostNotInitialized) ==> IsDirection(c.direction) && !Indexed(old(server.keys), c.post)
    ensures r == Failure(VoteTimeExpired) ==> Indexed(old(server.keys), c.post) && Expired(old(server.keys), c)
    ensures old(server.faults) == [] ==> r != Failure(RedisUnavailable)
    ensures old(server.faults) == [] && Accepted(old(server.keys), c) ==> r.Success?
    ensures r.Failure? ==> r.error == RedisUnavailable || !Accepted(old(server.keys), c)
  {
    var fault := server.NextFault();
    if fault == Lost {
      return Failure(RedisUnavailable);
    }
    var reply := RunVoteScript(server, c);
    if fault == Unreported {
      return Failure(RedisUnavailable);
    }
    match reply.code
    case 0 => r := Success(VoteResult(c.direction, reply.version, true));
    case 1 => r := Failure(VoteTimeExpired);
    case 2 => r := Success(VoteResult(c.direction, reply.version, false));
    case 3 => r := Failure(PostNotInitialized);
    case 4 => r := Failure(InvalidDirection);
    case _ => r := Failure(VoteKeyType);
  }

  lemma Untouched(a: Keyspace, b: Keyspace, e: VoteEvent, k: Key)
    requires VoteApplied(a, b, e) && k !in Touched(e.post)
    ensures (k in a <==> k in b) && (k in a ==> a[k] == b[k])
  {
    assert k in a - Touched(e.post) <==> k in b - Touched(e.post);
    if k in a {
      assert (a - Touched(e.post))[k] == (b - Touched(e.post))[k];
    }
  }

  /** A client that lost the reply of an applied vote and repeats it is not accepted twice: the
      script reports no change and the version of the first, until the window of the post is
      over and the repeat is answered as too late. */
  lemma RepeatedVoteIsNoChange(a: Keyspace, b: Keyspace, c: VoteCall, retryId: string, now: int)
    requires Accepted(a, c) && VoteApplied(a, b, EventOf(a, c))
    ensures
      var e, repeat := EventOf(a, c), VoteCall(c.user, c.post, c.direction, retryId, now);
      && !Accepted(b, repeat) && Indexed(b, c.post)
      && Refusal(b, repeat)
        == if Expired(b, repeat) then VoteReply(1, 0, c.direction, 0, 0, 0)
           else VoteReply(2, c.direction, c.direction, 0, e.version, 0)
  {
    Untouched(a, b, EventOf(a, c), PostTime);
  }

  /** dao/redis CreatePost: one transaction adding the post to both indexes and its community. */
  ghost predicate PostIndexed(a: Keyspace, b: Keyspace, post: int, community: int, now: int) {
    && TypeIs(a, PostTime, ZSetKind) && TypeIs(a, PostScore, ZSetKind)
    && TypeIs(b, PostTime, ZSetKind) && TypeIs(b, PostScore, ZSetKind)
    && ZSetAt(b, PostTime) == ZSetAt(a, PostTime)[post := now]
    && ZSetAt(b, PostScore) == ZSetAt(a, PostScore)[post := now]
    && MembersAt(b, Community(community)) == MembersAt(a, Community(community)) + {post}
    && b - IndexKeys(community) == a - IndexKeys(community)
  }

  function IndexKeys(community: int): set<Key> {
    {PostTime, PostScore, Community(community)}
  }

  lemma Unindexed(a: Keyspace, b: Keyspace, post: int, community: int, now: int, k: Key)
    requires PostIndexed(a, b, post, community, now) && k !in IndexKeys(community)
    ensures (k in a <==> k in b) && (k in a ==> a[k] == b[k])
  {
    assert k in a - IndexKeys(community) <==> k in b - IndexKeys(community);
    if k in a {
      assert (a - IndexKeys(community))[k] == (b - IndexKeys(community))[k];
    }
  }

  lemma IndexWrites(a: Keyspace, post: int, community: int, now: int)
    requires IndexKeysTyped(a, community)
    ensures
      var k1 := ZAdd(a, PostTime, now, post);
      && TypeIs(k1, PostScore, ZSetKind)
      && var k2 := ZAdd(k1, PostScore, now, post);
      && TypeIs(k2, Community(community), SetKind)
      && PostIndexed(a, SAdd(k2, Community(community), post), post, community, now)
      && IndexKeysTyped(SAdd(k2, Community(community), post), community)
  {
    var k2 := ZAdd(ZAdd(a, PostTime, now, post), PostScore, now, post);
    var b := SAdd(k2, Community(community), post);
    assert MembersAt(k2, Community(community)) == MembersAt(a, Community(community));
    assert b - IndexKeys(community) == a - IndexKeys(community);
  }

  predicate IndexKeysTyped(ks: Keyspace, community: int) {
    && TypeIs(ks, PostTime, ZSetKind)
    && TypeIs(ks, PostScore, ZSetKind)
    && TypeIs(ks, Community(community), SetKind)
  }

  /** dao/redis CreatePost. A transaction is not rolled back: a command that meets a key of
      another type fails alone, and the caller gets its error. */
  method IndexPost(server: RedisServer, post: int, community: int, now: int) returns (ok: bool)
    modifies server
    ensures IndexKeysTyped(old(server.keys), community) ==>
      && (server.keys == old(server.keys) || PostIndexed(old(server.keys), server.keys, post, community, now))
      && IndexKeysTyped(server.keys, community)
    ensures ok ==> IndexKeysTyped(old(server.keys), community)
    ensures ok ==> PostIndexed(old(server.keys), server.keys, post, community, now)
    ensures old(server.faults) == [] ==> server.faults == [] && (ok <==> IndexKeysTyped(old(server.keys), community))
  {
    var fault := server.NextFault();
    if fault == Lost {
      return false;
    }
    ok := fault == Done && IndexKeysTyped(server.keys, community);
    if IndexKeysTyped(server.keys, community) {
      IndexWrites(server.keys, post, community, now);
    }
    server.keys := Effect(server.keys, ZAddOne(PostTime, now, post));
    server.keys := Effect(server.keys, ZAddOne(PostScore, now, post));
    server.keys := Effect(server.keys, SAddOne(Community(community), post));
  }
}
