/** logic/post.go CreatePost: MySQL first, then Redis with at most three attempts, between which
    other clients go on voting. */
module PostCreation {
  import opened VoteModel
  import opened RedisStore
  import opened VoteScript
  import opened VoteDatabase
  import opened VotePipeline
  import opened PipelineTheorems
  import RedisRebuild
  import Runs

  const MAX_ATTEMPTS := 3

  /** What the INSERT did, and whether the caller was told. */
  datatype InsertFate = Inserted | NotInserted | InsertedUnreported

  datatype CreateError = IndexUnavailable | InsertFailed | NotIndexed

  /** The system moved on by creation steps and votes: MySQL has lost nothing. */
  ghost predicate Continues(s: State, r: State) {
    Reaches(s, r) && Reachable(r) && r.serving
  }

  lemma ContinuesByStep(s: State, r: State, a: Action)
    requires Continues(s, r) && Enabled(r, a) && (a.CastVote? || a.InsertPost? || a.IndexPost?)
    ensures Continues(s, After(r, a))
  {
    OneStep(r, a);
    Runs.LeadsOnwards(Steps(), s, r, After(r, a));
    StaysReachable(r, After(r, a));
  }

  // One attempt

  /** What an attempt did: nothing, or it indexed the post while its net vote was `net`. */
  datatype Attempt = NoEffect | Effective(net: int)

  ghost predicate Attempted(s: State, r: State, p: int, a: Attempt) {
    match a
    case NoEffect => r == s
    case Effective(net) => net == Net(s.redis, p) && r == s.(redis := r.redis, baseline := s.baseline[p := net])
  }

  /** Every attempt is a step of the pipeline or no step, whoever voted before it; and one that
      takes effect leaves the score right exactly when the post's net vote is zero. */
  lemma AttemptIsStep(s: State, p: int, now: int, ks: Keyspace) returns (r: State, a: Attempt)
    requires Reachable(s) && s.serving && p in s.tables.posts
    requires ks == s.redis || PostIndexed(s.redis, ks, p, s.tables.posts[p].community, now)
    ensures Continues(s, r) && r.redis == ks && Attempted(s, r, p, a)
    ensures PostIndexed(s.redis, ks, p, s.tables.posts[p].community, now) ==>
      a == Effective(Net(s.redis, p)) && (Balanced(ks, p, Net(ks, p)) <==> a.net == 0)
    ensures a.NoEffect? ==> ks == s.redis
  {
    Runs.LeadsNowhere(Steps(), s);
    r, a := s, NoEffect;
    var community := s.tables.posts[p].community;
    if PostIndexed(s.redis, ks, p, community, now) {
      ReindexHarmlessIffNoNetVote(s, p, community, now, ks);
      ContinuesByStep(s, s, Action.IndexPost(p, now, ks));
      r, a := After(s, Action.IndexPost(p, now, ks)), Effective(Net(s.redis, p));
    }
  }

  // Votes between attempts

  function CallIds(calls: seq<VoteCall>): (ids: set<string>)
    ensures forall i | 0 <= i < |calls| :: calls[i].eventId in ids
    decreases |calls|
  {
    if calls == [] then {} else CallIds(calls[..|calls| - 1]) + {calls[|calls| - 1].eventId}
  }

  /** Calls with event ids of their own. */
  predicate FreshCalls(issued: Tickets, calls: seq<VoteCall>) {
    && (forall i | 0 <= i < |calls| :: ValidCall(issued, calls[i]))
    && (forall i, j | 0 <= i < j < |calls| :: calls[i].eventId != calls[j].eventId)
  }

  lemma {:induction false} NotAmongCalls(calls: seq<VoteCall>, id: string)
    requires forall i | 0 <= i < |calls| :: calls[i].eventId != id
    ensures id !in CallIds(calls)
    decreases |calls|
  {
    if calls != [] {
      NotAmongCalls(calls[..|calls| - 1], id);
    }
  }

  lemma LaterCallsAreFresh(issued: Tickets, later: Tickets, some: seq<VoteCall>, rest: seq<VoteCall>)
    requires FreshCalls(issued, some + rest) && later.Keys <= issued.Keys + CallIds(some)
    ensures FreshCalls(later, rest)
  {
    var all := some + rest;
    forall j | 0 <= j < |rest|
      ensures ValidCall(later, rest[j])
    {
      assert all[|some| + j] == rest[j];
      assert forall i | 0 <= i < |some| :: all[i] == some[i];
      NotAmongCalls(some, rest[j].eventId);
    }
    forall i, j | 0 <= i < j < |rest|
      ensures rest[i].eventId != rest[j].eventId
    {
      assert all[|some| + i] == rest[i] && all[|some| + j] == rest[j];
    }
  }

  method CastOne(server: RedisServer, c: VoteCall, ghost s: State) returns (ghost r: State)
    requires Reachable(s) && s.serving && s.redis == server.keys && ValidCall(s.issued, c)
    modifies server`keys
    ensures Continues(s, r) && r.redis == server.keys
    ensures r.tables == s.tables && r.baseline == s.baseline && r.issued.Keys <= s.issued.Keys + {c.eventId}
  {
    Runs.LeadsNowhere(Steps(), s);
    r := s;
    var reply := RunVoteScript(server, c);
    if reply.code == 0 {
      ContinuesByStep(s, s, CastVote(c, server.keys));
      r := After(s, CastVote(c, server.keys));
    }
  }

  lemma ContinuesOnwards(s: State, r: State, t: State)
    requires Continues(s, r) && Continues(r, t)
    ensures Continues(s, t)
  {
    Runs.LeadsOnwards(Steps(), s, r, t);
  }

  lemma NextCallIsFresh(issued: Tickets, later: Tickets, calls: seq<VoteCall>, i: nat)
    requires i < |calls| && FreshCalls(issued, calls) && later.Keys <= issued.Keys + CallIds(calls[..i])
    ensures ValidCall(later, calls[i])
    ensures CallIds(calls[..i + 1]) == CallIds(calls[..i]) + {calls[i].eventId}
  {
    assert calls == calls[..i] + calls[i..];
    LaterCallsAreFresh(issued, later, calls[..i], calls[i..]);
    assert calls[i..][0] == calls[i];
    assert calls[..i + 1][..i] == calls[..i];
  }

  /** The pause before the next attempt, in which other clients vote. */
  method Pause(server: RedisServer, calls: seq<VoteCall>, ghost s: State) returns (ghost r: State)
    requires Reachable(s) && s.serving && s.redis == server.keys && FreshCalls(s.issued, calls)
    modifies server`keys
    ensures Continues(s, r) && r.redis == server.keys
    ensures r.tables == s.tables && r.baseline == s.baseline
    ensures r.issued.Keys <= s.issued.Keys + CallIds(calls)
  {
    Runs.LeadsNowhere(Steps(), s);
    r := s;
    for i := 0 to |calls|
      invariant Continues(s, r) && r.redis == server.keys
      invariant r.tables == s.tables && r.baseline == s.baseline
      invariant r.issued.Keys <= s.issued.Keys + CallIds(calls[..i])
    {
      NextCallIsFresh(s.issued, r.issued, calls, i);
      ghost var before := r;
      r := CastOne(server, calls[i], r);
      ContinuesOnwards(s, before, r);
    }
    assert calls[..|calls|] == calls;
  }

  // Creation

  /** What the effective attempts did to the score: the post's baseline is the net vote it had
      at the last of them. */
  ghost predicate BaselineAfter(s: State, r: State, p: int, last: Attempt) {
    match last
    case NoEffect => r.baseline == s.baseline
    case Effective(net) => Baseline(r, p) == net
  }

  /** One attempt. */
  method TryIndex(server: RedisServer, p: int, community: int, now: int, ghost s: State)
    returns (ok: bool, ghost r: State, ghost a: Attempt)
    requires Reachable(s) && s.serving && s.redis == server.keys
    requires p in s.tables.posts && s.tables.posts[p].community == community
    modifies server
    ensures Continues(s, r) && r.redis == server.keys && Attempted(s, r, p, a)
    ensures ok ==> a.Effective? && p in ZSetAt(server.keys, PostTime)
    ensures old(server.faults) == [] ==> ok
  {
    KeysKeepTheirTypes(s, p, community);
    ok := VoteScript.IndexPost(server, p, community, now);
    r, a := AttemptIsStep(s, p, now, server.keys);
  }

  /** The votes cast in the pauses from before attempt number `attempt` on. */
  function CallsFrom(others: seq<seq<VoteCall>>, attempt: nat): seq<VoteCall>
    requires |others| == MAX_ATTEMPTS - 1
  {
    if attempt == 0 then others[0] + others[1] else if attempt == 1 then others[1] else []
  }

  /** The votes cast in the pause after attempt number `attempt`; the last one has no pause. */
  function CallsAfter(others: seq<seq<VoteCall>>, attempt: nat): seq<VoteCall>
    requires |others| == MAX_ATTEMPTS - 1
  {
    if attempt < MAX_ATTEMPTS - 1 then others[attempt] else []
  }

  lemma CallsGoOn(issued: Tickets, others: seq<seq<VoteCall>>, attempt: nat)
    requires |others| == MAX_ATTEMPTS - 1 && attempt < MAX_ATTEMPTS
    requires FreshCalls(issued, CallsFrom(others, attempt))
    ensures CallsFrom(others, attempt) == CallsAfter(others, attempt) + CallsFrom(others, attempt + 1)
    ensures FreshCalls(issued, CallsAfter(others, attempt))
  {
    var calls, rest := CallsAfter(others, attempt), CallsFrom(others, attempt + 1);
    assert CallsFrom(others, attempt) == calls + rest;
    assert forall i | 0 <= i < |calls| :: calls[i] == CallsFrom(others, attempt)[i];
  }

  /** Where the loop stands before attempt number `attempt`. */
  ghost predicate Trying(s: State, r: State, p: int, last: Attempt, others: seq<seq<VoteCall>>, attempt: nat)
    requires |others| == MAX_ATTEMPTS - 1
  {
    && Continues(s, r) && r.tables == s.tables && BaselineAfter(s, r, p, last)
    && FreshCalls(r.issued, CallsFrom(others, attempt))
  }

  lemma AfterAttempt(
    s: State, r: State, t: State, p: int, last: Attempt, a: Attempt, others: seq<seq<VoteCall>>, attempt: nat)
    requires |others| == MAX_ATTEMPTS - 1 && Trying(s, r, p, last, others, attempt)
    requires Continues(r, t) && Attempted(r, t, p, a)
    ensures Trying(s, t, p, if a.Effective? then a else last, others, attempt)
  {
    ContinuesOnwards(s, r, t);
  }

  lemma AfterPause(
    s: State, r: State, t: State, p: int, last: Attempt, others: seq<seq<VoteCall>>, attempt: nat)
    requires |others| == MAX_ATTEMPTS - 1 && attempt < MAX_ATTEMPTS && Trying(s, r, p, last, others, attempt)
    requires Continues(r, t) && t.tables == r.tables && t.baseline == r.baseline
    requires t.issued.Keys <= r.issued.Keys + CallIds(CallsAfter(others, attempt))
    ensures Trying(s, t, p, last, others, attempt + 1)
  {
    ContinuesOnwards(s, r, t);
    CallsGoOn(r.issued, others, attempt);
    LaterCallsAreFresh(r.issued, t.issued, CallsAfter(others, attempt), CallsFrom(others, attempt + 1));
  }

  /** One attempt and, if it fails, the pause after it. */
  method AttemptAndPause(
    server: RedisServer, p: int, community: int, now: int, others: seq<seq<VoteCall>>, attempt: nat,
    ghost s: State, ghost before: State, ghost last: Attempt)
    returns (ok: bool, ghost r: State, ghost after: Attempt)
    requires |others| == MAX_ATTEMPTS - 1 && attempt < MAX_ATTEMPTS
    requires Trying(s, before, p, last, others, attempt) && before.redis == server.keys
    requires p in s.tables.posts && s.tables.posts[p].community == community
    modifies server
    ensures r.redis == server.keys && Trying(s, r, p, after, others, if ok then attempt else attempt + 1)
    ensures ok ==> after.Effective? && p in ZSetAt(server.keys, PostTime)
    ensures old(server.faults) == [] ==> ok && after == Effective(Net(before.redis, p))
  {
    ghost var a: Attempt;
    ok, r, a := TryIndex(server, p, community, now, before);
    AfterAttempt(s, before, r, p, last, a, others, attempt);
    after := if a.Effective? then a else last;
    if !ok {
      ghost var tried := r;
      CallsGoOn(tried.issued, others, attempt);
      r := Pause(server, CallsAfter(others, attempt), tried);
      AfterPause(s, tried, r, p, after, others, attempt);
    }
  }

  /** The three attempts; `others` are the votes cast in the pauses between them. */
  method IndexWithRetries(
    server: RedisServer, p: int, community: int, nows: seq<int>, others: seq<seq<VoteCall>>, ghost s: State)
    returns (ok: bool, ghost r: State, ghost last: Attempt)
    requires Reachable(s) && s.serving && s.redis == server.keys
    requires p in s.tables.posts && s.tables.posts[p].community == community
    requires |nows| == MAX_ATTEMPTS && |others| == MAX_ATTEMPTS - 1 && FreshCalls(s.issued, others[0] + others[1])
    modifies server
    ensures Continues(s, r) && r.redis == server.keys && r.tables == s.tables
    ensures BaselineAfter(s, r, p, last)
    ensures ok ==> last.Effective? && p in ZSetAt(server.keys, PostTime)
    ensures old(server.faults) == [] ==> ok && last == Effective(Net(s.redis, p))
  {
    Runs.LeadsNowhere(Steps(), s);
    r, last := s, NoEffect;
    for attempt := 0 to MAX_ATTEMPTS
      invariant Trying(s, r, p, last, others, attempt) && r.redis == server.keys
      invariant old(server.faults) == [] ==> attempt == 0 && r == s && server.faults == []
    {
      ok, r, last := AttemptAndPause(server, p, community, nows[attempt], others, attempt, s, r, last);
      if ok {
        return;
      }
    }
    ok := false;
  }

  /** CreatePost. A post reaches Redis only once its row is in MySQL, and a failed
      initialization keeps the row. With every error and every vote in between it is a run of
      the pipeline; and an indexed post's score is right in the end exactly when its net vote
      was zero at the last attempt that took effect. */
  method CreatePost(
    server: RedisServer, db: Database, p: int, row: PostRow, fate: InsertFate, nows: seq<int>,
    others: seq<seq<VoteCall>>, ghost s: State)
    returns (result: Result<(), CreateError>, ghost r: State, ghost last: Attempt)
    requires Reachable(s) && s.serving && s.redis == server.keys && s.tables == db.tables
    requires p !in db.tables.posts && p > 0 && row.status == ACTIVE && row.createUnix > 0
    requires |nows| == MAX_ATTEMPTS && |others| == MAX_ATTEMPTS - 1 && FreshCalls(s.issued, others[0] + others[1])
    modifies server, db`tables
    ensures Continues(s, r) && r.redis == server.keys && r.tables == db.tables
    ensures db.tables in {old(db.tables), WithPost(old(db.tables), p, row)}
    ensures last.Effective? ==> p in db.tables.posts
    ensures last.Effective? && p in ZSetAt(server.keys, PostTime) ==>
      (Balanced(server.keys, p, Net(server.keys, p)) <==> last.net == 0)
    ensures result.Success? ==> p in db.tables.posts && last.Effective? && p in ZSetAt(server.keys, PostTime)
    ensures result == Failure(NotIndexed) ==> p in db.tables.posts
    ensures result in {Failure(IndexUnavailable), Failure(InsertFailed)} ==> server.keys == old(server.keys)
    ensures result == Failure(IndexUnavailable) ==> db.tables == old(db.tables)
    ensures !RedisRebuild.Readable(old(server.keys)) ==> result == Failure(IndexUnavailable)
    ensures old(server.faults) == [] && RedisRebuild.Readable(old(server.keys)) && fate == Inserted ==>
      result.Success? && last == Effective(0)
  {
    Runs.LeadsNowhere(Steps(), s);
    r, last := s, NoEffect;
    var ok := server.Query();
    if !ok || !RedisRebuild.Readable(server.keys) {
      return Failure(IndexUnavailable), r, last;
    }
    if fate != NotInserted {
      ContinuesByStep(s, s, InsertPost(p, row));
      r := After(s, InsertPost(p, row));
      db.tables := db.tables.(posts := db.tables.posts[p := row]);
    }
    if fate != Inserted {
      return Failure(InsertFailed), r, last;
    }
    ghost var inserted := r;
    NewPostHasNoVotes(s, p);
    ok, r, last := IndexWithRetries(server, p, row.community, nows, others, inserted);
    ContinuesOnwards(s, inserted, r);
    ScoreAfter(inserted, r, p, last);
    result := if ok then Success(()) else Failure(NotIndexed);
  }

  function WithPost(t: Tables, p: int, row: PostRow): Tables {
    t.(posts := t.posts[p := row])
  }

  lemma ScoreAfter(s: State, r: State, p: int, last: Attempt)
    requires Reachable(r) && r.serving && BaselineAfter(s, r, p, last)
    ensures last.Effective? && p in ZSetAt(r.redis, PostTime) ==>
      (Balanced(r.redis, p, Net(r.redis, p)) <==> last.net == 0)
  {
    if p in ZSetAt(r.redis, PostTime) {
      ScoreIsNetVote(r, p);
    }
  }

  lemma NewPostHasNoVotes(s: State, p: int)
    requires Reachable(s) && s.serving && p !in s.tables.posts
    ensures Net(s.redis, p) == 0
  {
    ReachableRedis(s);
    UnindexedHasNoVotes(s.history, s.tables.posts, s.redis, p);
  }

  // Creation among any other steps

  /** An attempt in state `b` that left the system in state `a`. */
  ghost predicate AttemptStep(b: State, a: State, p: int, now: int) {
    && b.serving && p in b.tables.posts
    && (a == b
      || (PostIndexed(b.redis, a.redis, p, b.tables.posts[p].community, now)
          && a == b.(redis := a.redis, baseline := b.baseline[p := Net(b.redis, p)])))
  }

  lemma AttemptReaches(b: State, a: State, p: int, now: int)
    requires AttemptStep(b, a, p, now)
    ensures Reaches(b, a)
  {
    Runs.LeadsNowhere(Steps(), b);
    if a != b {
      OneStep(b, Action.IndexPost(p, now, a.redis));
    }
  }

  datatype Try = Try(before: State, after: State, now: int)

  /** The attempts of one creation, with any steps of the system between them. */
  ghost predicate Tries(start: State, p: int, tries: seq<Try>)
    decreases |tries|
  {
    tries == [] ||
    (var last := tries[|tries| - 1];
     && Tries(start, p, tries[..|tries| - 1])
     && Reaches(if |tries| == 1 then start else tries[|tries| - 2].after, last.before)
     && AttemptStep(last.before, last.after, p, last.now))
  }

  /** A creation, whatever else the system does between its attempts, is a run of the pipeline:
      each attempt that takes effect is an enabled step. It leaves the score right exactly when
      the post's net vote is zero at that moment. */
  lemma {:induction false} CreationIsRun(start: State, p: int, tries: seq<Try>)
    requires Reachable(start) && tries != [] && Tries(start, p, tries)
    ensures
      var last := tries[|tries| - 1];
      && Reaches(start, last.after) && Reachable(last.after)
      && (last.after != last.before ==>
        (Balanced(last.after.redis, p, Net(last.after.redis, p)) <==> Net(last.before.redis, p) == 0))
    decreases |tries|
  {
    var last := tries[|tries| - 1];
    if |tries| > 1 {
      CreationIsRun(start, p, tries[..|tries| - 1]);
      Runs.LeadsOnwards(Steps(), start, tries[|tries| - 2].after, last.before);
    }
    StaysReachable(start, last.before);
    AttemptReaches(last.before, last.after, p, last.now);
    Runs.LeadsOnwards(Steps(), start, last.before, last.after);
    StaysReachable(start, last.after);
    if last.after != last.before {
      ReindexHarmlessIffNoNetVote(last.before, p, last.before.tables.posts[p].community, last.now, last.after.redis);
    }
  }
}
