/** dao/redis/recovery.go and logic/recovery.go: the startup check and the offline rebuild. */
module RedisRebuild {
  import opened VoteModel
  import opened RedisStore
  import opened VoteDatabase
  import opened RecoveryTarget
  import opened Ordering
  import Totals

  const SCAN_COUNT := 500
  const DEFAULT_BATCH := 500

  function Status(ks: Keyspace): string {
    TextAt(ks, StateMarker)
  }

  /** Reads of posts and votes are refused unless this holds. */
  predicate Readable(ks: Keyspace) {
    Status(ks) == READY
  }

  // Clearing the derived keys

  ghost predicate Enumerates(table: seq<Key>, ks: Keyspace) {
    forall k :: k in table <==> k in ks
  }

  /** The order in which SCAN visits the keys while nothing is written. */
  method Buckets(ks: Keyspace) returns (table: seq<Key>)
    ensures Enumerates(table, ks)
  {
    table := [];
    var rest := ks;
    while rest != map[]
      invariant forall k :: k in ks <==> k in rest || k in table
      decreases |rest|
    {
      var k :| k in rest;
      table := table + [k];
      rest := rest - {k};
    }
  }

  /** One SCAN call: the matching keys among the next `SCAN_COUNT` buckets, and the next
      cursor, which is 0 when the iteration is complete. */
  method Scan(server: RedisServer, table: seq<Key>, cursor: nat, p: Pattern)
    returns (ok: bool, batch: seq<Key>, next: nat)
    requires cursor == 0 || cursor < |table|
    modifies server`faults
    ensures old(server.faults) == [] ==> ok && server.faults == []
    ensures next == 0 || cursor < next < |table|
    ensures forall k :: k in batch ==> k in table && Matches(p, k)
    ensures ok ==>
      forall i :: cursor <= i < (if next == 0 then |table| else next) && Matches(p, table[i]) ==> table[i] in batch
  {
    ok := server.Query();
    batch, next := [], 0;
    if !ok {
      return;
    }
    var end := if cursor + SCAN_COUNT < |table| then cursor + SCAN_COUNT else |table|;
    var i := cursor;
    while i < end
      invariant cursor <= i <= end || end < cursor
      invariant forall k :: k in batch ==> k in table && Matches(p, k)
      invariant forall j :: cursor <= j < i && Matches(p, table[j]) ==> table[j] in batch
    {
      if Matches(p, table[i]) {
        batch := batch + [table[i]];
      }
      i := i + 1;
    }
    next := if end < |table| then end else 0;
  }

  ghost function Matching(ks: Keyspace, p: Pattern): set<Key> {
    set k | k in ks && Matches(p, k)
  }

  ghost predicate OnlyCleared(before: Keyspace, after: Keyspace, p: Pattern) {
    && (forall k | !Matches(p, k) :: Lookup(after, k) == Lookup(before, k))
    && (forall k | k in after :: k in before)
  }

  method CollectMatching(server: RedisServer, p: Pattern) returns (ok: bool, found: seq<Key>)
    modifies server`faults
    ensures old(server.faults) == [] ==> ok && server.faults == []
    ensures forall k :: k in found ==> k in server.keys && Matches(p, k)
    ensures ok ==> forall k :: k in server.keys && Matches(p, k) ==> k in found
  {
    var table := Buckets(server.keys);
    found := [];
    var cursor: nat := 0;
    ghost var seen: nat := 0;
    var complete := false;
    while !complete
      invariant old(server.faults) == [] ==> server.faults == []
      invariant complete ==> seen == |table|
      invariant !complete ==> seen == cursor && (cursor == 0 || cursor < |table|)
      invariant seen <= |table|
      invariant forall k :: k in found ==> k in table && Matches(p, k)
      invariant forall i :: 0 <= i < seen && Matches(p, table[i]) ==> table[i] in found
      decreases !complete, |table| - cursor
    {
      var batch, next;
      ok, batch, next := Scan(server, table, cursor, p);
      if !ok {
        return;
      }
      found := found + batch;
      complete := next == 0;
      seen := if complete then |table| else next;
      cursor := next;
    }
    ok := true;
  }

  method DeleteFound(server: RedisServer, p: Pattern, found: seq<Key>) returns (ok: bool)
    requires forall k :: k in found ==> Matches(p, k)
    modifies server
    ensures OnlyCleared(old(server.keys), server.keys, p)
    ensures ok ==> forall k :: k in found ==> k !in server.keys
    ensures old(server.faults) == [] ==> ok && server.faults == []
  {
    var start := 0;
    while start < |found|
      invariant 0 <= start <= |found|
      invariant OnlyCleared(old(server.keys), server.keys, p)
      invariant forall i :: 0 <= i < start ==> found[i] !in server.keys
      invariant old(server.faults) == [] ==> server.faults == []
    {
      var end := if start + SCAN_COUNT < |found| then start + SCAN_COUNT else |found|;
      var dead := set i | start <= i < end :: found[i];
      assert forall k | k in dead :: k in found;
      ok := server.Send(DelKeys(dead));
      if !ok {
        return;
      }
      assert forall i | start <= i < end :: found[i] in dead;
      start := end;
    }
    ok := true;
  }

  method DeleteKeysMatching(server: RedisServer, p: Pattern) returns (ok: bool)
    modifies server
    ensures OnlyCleared(old(server.keys), server.keys, p)
    ensures ok ==> forall k | Matches(p, k) :: k !in server.keys
    ensures old(server.faults) == [] ==> ok && server.faults == []
  {
    while true
      invariant OnlyCleared(old(server.keys), server.keys, p)
      invariant old(server.faults) == [] ==> server.faults == []
      decreases |Matching(server.keys, p)|
    {
      ghost var before := server.keys;
      var found;
      ok, found := CollectMatching(server, p);
      if !ok {
        return;
      }
      if |found| == 0 {
        return;
      }
      ok := DeleteFound(server, p, found);
      if !ok {
        return;
      }
      assert found[0] in found;
      Shrinks(Matching(server.keys, p), Matching(before, p), found[0]);
    }
  }

  lemma Shrinks<T>(a: set<T>, b: set<T>, x: T)
    requires a <= b && x in b && x !in a
    ensures |a| < |b|
  {
    Totals.SubsetCardinality(a, b - {x});
  }

  // Restoring one batch

  /** `votesByPost[post]` after grouping. */
  function OfPost(votes: seq<VoteSnapshot>, post: int): (rows: seq<VoteSnapshot>)
    ensures forall i | 0 <= i < |rows| :: rows[i].post == post
    decreases |votes|
  {
    if votes == [] then []
    else
      var rows := OfPost(votes[..|votes| - 1], post);
      var v := votes[|votes| - 1];
      if v.post == post then rows + [v] else rows
  }

  function BatchCommands(posts: seq<PostSnapshot>, votes: seq<VoteSnapshot>): seq<Command>
    decreases |posts|
  {
    if posts == [] then []
    else
      var p := posts[|posts| - 1];
      BatchCommands(posts[..|posts| - 1], votes) + PostCommands(p, OfPost(votes, p.post))
  }

  predicate ValidVote(v: VoteSnapshot) {
    IsDirection(v.direction) && v.version > 0
  }

  predicate ValidPost(p: PostSnapshot) {
    p.post > 0 && p.community > 0 && p.createUnix > 0
  }

  predicate AllValid(votes: seq<VoteSnapshot>) {
    forall i | 0 <= i < |votes| :: ValidVote(votes[i])
  }

  predicate ValidBatch(posts: seq<PostSnapshot>, votes: seq<VoteSnapshot>) {
    && (forall i | 0 <= i < |posts| :: ValidPost(posts[i]))
    && AllValid(votes)
  }

  /** `groups` is the rows by post; a post without rows has no entry. */
  ghost predicate GroupedAt(groups: map<int, seq<VoteSnapshot>>, votes: seq<VoteSnapshot>, p: int) {
    OfPost(votes, p) == if p in groups then groups[p] else []
  }

  ghost predicate Grouped(groups: map<int, seq<VoteSnapshot>>, votes: seq<VoteSnapshot>) {
    forall p :: GroupedAt(groups, votes, p)
  }

  lemma OneMoreRow(groups: map<int, seq<VoteSnapshot>>, votes: seq<VoteSnapshot>, v: VoteSnapshot)
    requires Grouped(groups, votes)
    ensures Grouped(groups[v.post := (if v.post in groups then groups[v.post] else []) + [v]], votes + [v])
  {
    var more := groups[v.post := (if v.post in groups then groups[v.post] else []) + [v]];
    assert (votes + [v])[..|votes|] == votes;
    forall p
      ensures GroupedAt(more, votes + [v], p)
    {
      assert GroupedAt(groups, votes, p);
    }
  }

  method GroupByPost(votes: seq<VoteSnapshot>) returns (ok: bool, groups: map<int, seq<VoteSnapshot>>)
    ensures ok <==> AllValid(votes)
    ensures ok ==> Grouped(groups, votes)
  {
    groups := map[];
    var i := 0;
    while i < |votes|
      invariant 0 <= i <= |votes|
      invariant forall j | 0 <= j < i :: ValidVote(votes[j])
      invariant Grouped(groups, votes[..i])
    {
      var v := votes[i];
      if v.direction != -1 && v.direction != 0 && v.direction != 1 {
        return false, groups;
      }
      if v.version <= 0 {
        return false, groups;
      }
      assert votes[..i + 1] == votes[..i] + [v];
      OneMoreRow(groups, votes[..i], v);
      groups := groups[v.post := (if v.post in groups then groups[v.post] else []) + [v]];
      i := i + 1;
    }
    assert votes[..|votes|] == votes;
    ok := true;
  }

  method AppendPost(commands: seq<Command>, p: PostSnapshot, rows: seq<VoteSnapshot>) returns (r: seq<Command>)
    requires forall i | 0 <= i < |rows| :: rows[i].post == p.post
    ensures r == commands + PostCommands(p, rows)
  {
    r := commands + IndexCommands(p);
    var m := 0;
    while m < |rows|
      invariant 0 <= m <= |rows|
      invariant r == commands + IndexCommands(p) + VoteCommands(rows[..m])
    {
      var v := rows[m];
      assert rows[..m + 1][..m] == rows[..m];
      if v.direction != 0 {
        r := r + [ZAddOne(PostVoted(p.post), v.direction, v.user)];
      }
      r := r + [HSetOne(PostVersions(p.post), v.user, v.version)];
      assert VoteCommands(rows[..m + 1]) == VoteCommands(rows[..m]) + RowCommands(v);
      m := m + 1;
    }
    assert rows[..|rows|] == rows;
  }

  method BuildBatch(posts: seq<PostSnapshot>, votes: seq<VoteSnapshot>)
    returns (ok: bool, commands: seq<Command>)
    ensures ok <==> ValidBatch(posts, votes)
    ensures ok ==> commands == BatchCommands(posts, votes)
  {
    commands := [];
    var groups;
    ok, groups := GroupByPost(votes);
    if !ok {
      return;
    }
    var j := 0;
    while j < |posts|
      invariant 0 <= j <= |posts|
      invariant forall i | 0 <= i < j :: ValidPost(posts[i])
      invariant commands == BatchCommands(posts[..j], votes)
    {
      var p := posts[j];
      if p.post <= 0 || p.community <= 0 || p.createUnix <= 0 {
        return false, commands;
      }
      assert posts[..j + 1][..j] == posts[..j];
      assert GroupedAt(groups, votes, p.post);
      commands := AppendPost(commands, p, if p.post in groups then groups[p.post] else []);
      j := j + 1;
    }
    assert posts[..|posts|] == posts;
  }

  /** RestoreVoteStateBatch: validation comes before the first write, and the writes are one
      pipeline that can stop anywhere. */
  method RestoreVoteStateBatch(server: RedisServer, posts: seq<PostSnapshot>, votes: seq<VoteSnapshot>)
    returns (ok: bool)
    modifies server
    ensures ok ==> ValidBatch(posts, votes) && server.keys == RunAll(old(server.keys), BatchCommands(posts, votes))
    ensures !ValidBatch(posts, votes) ==> server.keys == old(server.keys)
    ensures KeepsOthers(old(server.keys), server.keys)
    ensures old(server.faults) == [] ==> server.faults == []
    ensures old(server.faults) == [] && ValidBatch(posts, votes) ==>
      (AllFit(old(server.keys), BatchCommands(posts, votes)) ==> ok)
  {
    var commands;
    ok, commands := BuildBatch(posts, votes);
    if !ok {
      return;
    }
    ok := server.SendAll(commands);
    BatchIsRestoring(posts, votes);
    ghost var n :| 0 <= n <= |commands| && server.keys == RunAll(old(server.keys), commands[..n]);
    RestoringTouchesDerived(old(server.keys), commands[..n]);
  }

  /** Commands that write derived keys only. */
  predicate Restoring(c: Command) {
    match c
    case ZAddOne(k, _, _) => Derived(k)
    case SAddOne(k, _) => Derived(k)
    case HSetOne(k, _, _) => Derived(k)
    case _ => false
  }

  lemma {:induction false} RestoringTouchesDerived(ks: Keyspace, cs: seq<Command>)
    requires forall i | 0 <= i < |cs| :: Restoring(cs[i])
    ensures KeepsOthers(ks, RunAll(ks, cs))
    decreases |cs|
  {
    if cs != [] {
      var before := RunAll(ks, cs[..|cs| - 1]);
      RestoringTouchesDerived(ks, cs[..|cs| - 1]);
      forall k
        ensures KeptAt(ks, RunAll(ks, cs), k)
      {
        assert KeptAt(ks, before, k);
      }
    }
  }

  lemma {:induction false} VotesAreRestoring(votes: seq<VoteSnapshot>)
    ensures forall i | 0 <= i < |VoteCommands(votes)| :: Restoring(VoteCommands(votes)[i])
    decreases |votes|
  {
    if votes != [] {
      VotesAreRestoring(votes[..|votes| - 1]);
    }
  }

  lemma {:induction false} BatchIsRestoring(posts: seq<PostSnapshot>, votes: seq<VoteSnapshot>)
    ensures forall i | 0 <= i < |BatchCommands(posts, votes)| :: Restoring(BatchCommands(posts, votes)[i])
    decreases |posts|
  {
    if posts != [] {
      BatchIsRestoring(posts[..|posts| - 1], votes);
      VotesAreRestoring(OfPost(votes, posts[|posts| - 1].post));
    }
  }

  // What a batch restores

  function Elements(ids: seq<int>): set<int>
    decreases |ids|
  {
    if ids == [] then {} else Elements(ids[..|ids| - 1]) + {ids[|ids| - 1]}
  }

  lemma {:induction false} ElementsAre(ids: seq<int>)
    ensures forall x :: x in Elements(ids) <==> x in ids
    decreases |ids|
  {
    if ids != [] {
      var n := |ids| - 1;
      ElementsAre(ids[..n]);
      assert ids == ids[..n] + [ids[n]];
    }
  }

  lemma {:induction false} OfPostAppend(a: seq<VoteSnapshot>, b: seq<VoteSnapshot>, p: int)
    ensures OfPost(a + b, p) == OfPost(a, p) + OfPost(b, p)
    decreases |b|
  {
    if b == [] {
      assert a + b == a;
    } else {
      var n := |b| - 1;
      OfPostAppend(a, b[..n], p);
      assert (a + b)[..|a + b| - 1] == a + b[..n];
    }
  }

  lemma {:induction false} OfPostOwn(rows: seq<VoteSnapshot>, q: int, p: int)
    requires forall i | 0 <= i < |rows| :: rows[i].post == q
    ensures OfPost(rows, p) == if p == q then rows else []
    decreases |rows|
  {
    if rows != [] {
      var n := |rows| - 1;
      OfPostOwn(rows[..n], q, p);
      assert rows == rows[..n] + [rows[n]];
    }
  }

  /** Grouping a page of rows by post gives back each post's own rows. */
  lemma {:induction false} OfPostPage(ids: seq<int>, rowsOf: int -> seq<VoteSnapshot>, p: int)
    requires Increasing(ids)
    requires forall q :: forall i | 0 <= i < |rowsOf(q)| :: rowsOf(q)[i].post == q
    ensures OfPost(PageRows(ids, rowsOf), p) == if p in ids then rowsOf(p) else []
    decreases |ids|
  {
    if ids != [] {
      var q, rest := ids[0], ids[1..];
      assert ids == [q] + rest;
      OfPostPage(rest, rowsOf, p);
      OfPostOwn(rowsOf(q), q, p);
      OfPostAppend(rowsOf(q), PageRows(rest, rowsOf), p);
      assert q !in rest;
    }
  }

  lemma TabulateGrows(ids: set<int>, data: int -> PostData, p: int)
    ensures Tabulate(ids + {p}, data) == Tabulate(ids, data)[p := data(p)]
  {
  }

  lemma {:induction false} ElementsCount(ids: seq<int>, done: set<int>)
    requires Increasing(ids) && (forall i | 0 <= i < |ids| :: ids[i] !in done)
    ensures |done + Elements(ids)| == |done| + |ids|
    decreases |ids|
  {
    if ids == [] {
      assert done + Elements(ids) == done;
    } else {
      var n := |ids| - 1;
      ElementsCount(ids[..n], done);
      ElementsAre(ids[..n]);
      assert done + Elements(ids) == done + Elements(ids[..n]) + {ids[n]};
    }
  }

  /** `cs` brings `ks` to the restored state of the posts `ids`. */
  ghost predicate Restores(ids: set<int>, data: int -> PostData, base: Keyspace, ks: Keyspace, cs: seq<Command>) {
    AllFit(ks, cs) && RestoredTo(Tabulate(ids, data), base, RunAll(ks, cs))
  }

  predicate Describes(data: PostData, p: int) {
    data.post.post == p && forall i | 0 <= i < |data.votes| :: data.votes[i].post == p
  }

  lemma OneMorePost(ids: set<int>, data: int -> PostData, base: Keyspace, ks: Keyspace, cs: seq<Command>, p: int)
    requires Restores(ids, data, base, ks, cs) && p !in ids && Describes(data(p), p)
    ensures Restores(ids + {p}, data, base, ks, cs + PostCommands(data(p).post, data(p).votes))
  {
    TabulateGrows(ids, data, p);
    RestorePost(Tabulate(ids, data), base, RunAll(ks, cs), p, data(p));
    RunAppend(ks, cs, PostCommands(data(p).post, data(p).votes));
  }

  lemma LastIsNew(ids: seq<int>, done: set<int>)
    requires Increasing(ids) && ids != [] && forall i | 0 <= i < |ids| :: ids[i] !in done
    ensures
      var before := done + Elements(ids[..|ids| - 1]);
      ids[|ids| - 1] !in before && before + {ids[|ids| - 1]} == done + Elements(ids)
  {
    ElementsAre(ids[..|ids| - 1]);
  }

  /** The commands of a page restore exactly its posts, on top of those already restored. */
  lemma {:induction false} BatchRestores(
    ids: seq<int>, data: int -> PostData, done: set<int>, base: Keyspace, ks: Keyspace,
    posts: seq<PostSnapshot>, votes: seq<VoteSnapshot>)
    requires |ids| == |posts| && Increasing(ids)
    requires forall i | 0 <= i < |ids| :: ids[i] !in done && Describes(data(ids[i]), ids[i])
    requires forall i | 0 <= i < |ids| :: posts[i] == data(ids[i]).post && OfPost(votes, ids[i]) == data(ids[i]).votes
    requires Restores(done, data, base, ks, [])
    ensures Restores(done + Elements(ids), data, base, ks, BatchCommands(posts, votes))
    decreases |ids|
  {
    if ids == [] {
      assert done + Elements(ids) == done;
    } else {
      var n := |ids| - 1;
      var init, p := ids[..n], ids[n];
      BatchRestores(init, data, done, base, ks, posts[..n], votes);
      LastIsNew(ids, done);
      OneMorePost(done + Elements(init), data, base, ks, BatchCommands(posts[..n], votes), p);
    }
  }

  // The rebuild

  datatype RebuildError = VoteOutboxNotEmpty | StoreUnavailable | BatchFailed | CountMismatch

  datatype RebuildReport = RebuildReport(posts: int, votes: int)

  const PATTERNS := [TimePattern, ScorePattern, VotedPattern, VersionPattern, CommunityPattern]

  /** Keys not derived from MySQL, the state marker aside, are as before. */
  ghost predicate OthersKept(before: Keyspace, after: Keyspace) {
    forall k | !Derived(k) && k != StateMarker :: Lookup(after, k) == Lookup(before, k)
  }

  lemma NothingRestored(base: Keyspace, ks: Keyspace)
    requires forall k | Derived(k) :: k !in ks
    requires KeepsOthers(base, ks)
    ensures RestoredTo(map[], base, ks)
  {
    Totals.NoKeys(Times(map[]));
    Totals.NoKeys(Scores(map[]));
    forall k
      ensures RestoredAt(map[], base, ks, k)
    {
      assert KeptAt(base, ks, k);
      assert k.Community? ==> InCommunity(map[], k.community) == {};
    }
  }

  lemma ClearingKeepsOthers(start: Keyspace, before: Keyspace, after: Keyspace, p: Pattern)
    requires KeepsOthers(start, before) && OnlyCleared(before, after, p)
    ensures KeepsOthers(start, after)
  {
    forall k
      ensures KeptAt(start, after, k)
    {
      assert KeptAt(start, before, k);
      assert !Derived(k) ==> !Matches(p, k);
    }
  }

  method ClearDerived(server: RedisServer) returns (ok: bool)
    modifies server
    ensures KeepsOthers(old(server.keys), server.keys)
    ensures ok ==> forall k | Derived(k) :: k !in server.keys
    ensures old(server.faults) == [] ==> ok && server.faults == []
  {
    ok := server.Send(DelKeys({PostTime, PostScore}));
    if !ok {
      return;
    }
    var i := 0;
    while i < |PATTERNS|
      invariant 0 <= i <= |PATTERNS|
      invariant KeepsOthers(old(server.keys), server.keys)
      invariant forall j, k | 0 <= j < i && Matches(PATTERNS[j], k) :: k !in server.keys
      invariant old(server.faults) == [] ==> server.faults == []
    {
      ghost var before := server.keys;
      ok := DeleteKeysMatching(server, PATTERNS[i]);
      ClearingKeepsOthers(old(server.keys), before, server.keys, PATTERNS[i]);
      if !ok {
        return;
      }
      i := i + 1;
    }
    forall k | Derived(k)
      ensures k !in server.keys
    {
      assert Matches(PATTERNS[0], k) || Matches(PATTERNS[1], k) || Matches(PATTERNS[2], k)
        || Matches(PATTERNS[3], k) || Matches(PATTERNS[4], k);
    }
    ok := true;
  }

  /** The guard on the outbox comes first, the marker before the first deletion. */
  method PrepareVoteStateRebuild(server: RedisServer) returns (r: Result<(), RebuildError>)
    modifies server
    ensures r.Success? ==>
      RestoredTo(map[], Set(old(server.keys), StateMarker, REBUILDING), server.keys)
    ensures r.Failure? ==> server.keys == old(server.keys) || Status(server.keys) == REBUILDING
    ensures OthersKept(old(server.keys), server.keys)
    ensures Outbox(old(server.keys)).entries != map[] ==> r.Failure? && server.keys == old(server.keys)
    ensures old(server.faults) == [] ==> server.faults == []
    ensures old(server.faults) == [] && TypeIs(old(server.keys), VoteOutbox, StreamKind) ==>
      (r.Success? <==> Outbox(old(server.keys)).entries == map[])
  {
    var ok := server.Query();
    if !ok || !TypeIs(server.keys, VoteOutbox, StreamKind) {
      return Failure(StoreUnavailable);
    }
    if |Outbox(server.keys).entries| > 0 {
      return Failure(VoteOutboxNotEmpty);
    }
    ok := server.Send(SetText(StateMarker, REBUILDING));
    if !ok {
      return Failure(StoreUnavailable);
    }
    ghost var base := server.keys;
    ok := ClearDerived(server);
    OnlyMarked(old(server.keys), REBUILDING, server.keys);
    if !ok {
      StillRebuilding(base, server.keys);
      return Failure(StoreUnavailable);
    }
    NothingRestored(base, server.keys);
    r := Success(());
  }

  /** ZCARD of both indexes; they must agree. */
  method CountIndexedPosts(server: RedisServer) returns (r: Result<int, ()>)
    modifies server`faults
    ensures r.Success? ==>
      r.value == |ZSetAt(server.keys, PostTime)| == |ZSetAt(server.keys, PostScore)|
    ensures old(server.faults) == [] ==> server.faults == []
    ensures old(server.faults) == [] && IndexTyped(server.keys) ==>
      (r.Success? <==> |ZSetAt(server.keys, PostTime)| == |ZSetAt(server.keys, PostScore)|)
  {
    var ok := server.Query();
    if !ok || !TypeIs(server.keys, PostTime, ZSetKind) {
      return Failure(());
    }
    ok := server.Query();
    if !ok || !TypeIs(server.keys, PostScore, ZSetKind) {
      return Failure(());
    }
    if |ZSetAt(server.keys, PostTime)| != |ZSetAt(server.keys, PostScore)| {
      return Failure(());
    }
    r := Success(|ZSetAt(server.keys, PostTime)|);
  }

  predicate IndexTyped(ks: Keyspace) {
    TypeIs(ks, PostTime, ZSetKind) && TypeIs(ks, PostScore, ZSetKind)
  }

  /** The restorable posts up to an id. */
  function Upto(t: Tables, last: int): set<int> {
    set p | p in Restorable(t) && p <= last
  }

  /** The vote rows of some posts. */
  function VoteRows(t: Tables, posts: set<int>): set<Pair> {
    set k | k in t.votes && k.post in posts
  }

  predicate RowValid(row: VoteRow) {
    IsDirection(row.direction) && row.version > 0
  }

  /** The rebuild accepts the snapshot of this post and those of its votes. */
  ghost predicate SnapshotValid(t: Tables, p: int) {
    && p in t.posts && t.posts[p].community > 0 && t.posts[p].createUnix > 0
    && forall u | u in UsersOn(t.votes, p) :: RowValid(t.votes[Pair(u, p)])
  }

  /** Every snapshot the rebuild will read is acceptable. */
  ghost predicate SnapshotsValid(t: Tables) {
    forall p | p in Restorable(t) :: SnapshotValid(t, p)
  }

  /** So are those of the posts after `after` and up to `last`. */
  ghost predicate ValidBetween(t: Tables, after: int, last: int) {
    forall p | p in Restorable(t) && after < p <= last :: SnapshotValid(t, p)
  }

  lemma PageCovers(t: Tables, ids: seq<int>, after: int, last: int)
    requires Increasing(ids) && ids != [] && last == ids[|ids| - 1] && after >= 0
    requires forall i | 0 <= i < |ids| :: ids[i] in ActivePosts(t) && ids[i] > after
    requires forall p | p in Restorable(t) && p > after && p !in ids :: p > last
    ensures Upto(t, after) + Elements(ids) == Upto(t, last)
  {
    ElementsAre(ids);
    forall p
      ensures p in Upto(t, after) + Elements(ids) <==> p in Upto(t, last)
    {
      if p in ids {
        var i :| 0 <= i < |ids| && ids[i] == p;
      }
    }
    Totals.SameSet(Upto(t, after) + Elements(ids), Upto(t, last));
  }

  /** A page continues exactly where the last one ended. */
  lemma PageExtends(t: Tables, after: int, limit: int)
    requires limit > 0 && after >= 0
    ensures
      var ids := PageIds(t, after, limit);
      && (forall i | 0 <= i < |ids| :: ids[i] !in Upto(t, after))
      && (ids == [] ==> Upto(t, after) == Restorable(t))
      && (ids != [] ==> ids[|ids| - 1] > after && Upto(t, after) + Elements(ids) == Upto(t, ids[|ids| - 1]))
  {
    var ids := PageIds(t, after, limit);
    forall p | p in Restorable(t) && p > after && p !in ids
      ensures ids != [] && p > ids[|ids| - 1]
    {
      PageIsGapless(t, after, limit, p);
    }
    if ids == [] {
      assert forall p | p in Restorable(t) :: p in Upto(t, after);
    } else {
      PageCovers(t, ids, after, ids[|ids| - 1]);
    }
  }

  lemma {:induction false} UsersCount(votes: map<Pair, VoteRow>, post: int, users: set<int>)
    ensures |set u | u in users :: Pair(u, post)| == |users|
    decreases |users|
  {
    if users != {} {
      var u := Totals.SomeMember(users);
      UsersCount(votes, post, users - {u});
      assert (set x | x in users :: Pair(x, post)) == (set x | x in users - {u} :: Pair(x, post)) + {Pair(u, post)};
    } else {
      assert (set u | u in users :: Pair(u, post)) == {};
    }
  }

  lemma RowsOfOnePost(t: Tables, done: set<int>, p: int)
    requires p !in done
    ensures |VoteRows(t, done + {p})| == |VoteRows(t, done)| + |UsersOn(t.votes, p)|
  {
    var own := set u | u in UsersOn(t.votes, p) :: Pair(u, p);
    UsersCount(t.votes, p, UsersOn(t.votes, p));
    assert VoteRows(t, done + {p}) == VoteRows(t, done) + own by {
      forall k
        ensures k in VoteRows(t, done + {p}) <==> k in VoteRows(t, done) + own
      {
        assert k.post == p ==> k == Pair(k.user, p);
      }
    }
  }

  lemma {:induction false} RowsOfPage(
    t: Tables, ids: seq<int>, done: set<int>, rowsOf: int -> seq<VoteSnapshot>)
    requires Increasing(ids) && forall i | 0 <= i < |ids| :: ids[i] !in done
    requires forall p :: |rowsOf(p)| == |UsersOn(t.votes, p)|
    ensures |VoteRows(t, done + Elements(ids))| == |VoteRows(t, done)| + |PageRows(ids, rowsOf)|
    decreases |ids|
  {
    ElementsAre(ids);
    if ids == [] {
      assert done + Elements(ids) == done;
    } else {
      var p, rest := ids[0], ids[1..];
      assert ids == [p] + rest;
      RowsOfOnePost(t, done, p);
      RowsOfPage(t, rest, done + {p}, rowsOf);
      ElementsAre(rest);
      assert forall x :: x in ids <==> x == p || x in rest;
      var a, b := done + {p} + Elements(rest), done + Elements(ids);
      assert forall x :: x in a <==> x in b;
      Totals.SameSet(a, b);
    }
  }

  lemma PageRestores(
    ids: seq<int>, data: int -> PostData, snapshotOf: int -> PostSnapshot, rowsOf: int -> seq<VoteSnapshot>,
    done: set<int>, base: Keyspace, ks: Keyspace)
    requires Increasing(ids) && forall i | 0 <= i < |ids| :: ids[i] !in done
    requires forall p :: Describes(data(p), p) && data(p).post == snapshotOf(p) && data(p).votes == rowsOf(p)
    requires RestoredTo(Tabulate(done, data), base, ks)
    ensures Restores(done + Elements(ids), data, base, ks, BatchCommands(Each(ids, snapshotOf), PageRows(ids, rowsOf)))
  {
    var posts, votes := Each(ids, snapshotOf), PageRows(ids, rowsOf);
    forall q
      ensures forall i | 0 <= i < |rowsOf(q)| :: rowsOf(q)[i].post == q
    {
      assert Describes(data(q), q);
    }
    forall i | 0 <= i < |ids|
      ensures OfPost(votes, ids[i]) == data(ids[i]).votes
    {
      OfPostPage(ids, rowsOf, ids[i]);
      assert ids[i] in ids;
    }
    BatchRestores(ids, data, done, base, ks, posts, votes);
  }

  lemma SnapshotsAgree(t: Tables, p: int)
    ensures Describes(DataOf(t)(p), p)
    ensures DataOf(t)(p).post == Snapshots(t)(p) && DataOf(t)(p).votes == RowsByPost(t)(p)
  {
  }

  lemma OwnRows(t: Tables, p: int)
    ensures |VotesOf(t, p)| == |UsersOn(t.votes, p)|
    ensures AllValid(VotesOf(t, p)) <==> forall u | u in UsersOn(t.votes, p) :: RowValid(t.votes[Pair(u, p)])
  {
    var users, rows := Ascending(UsersOn(t.votes, p)), VotesOf(t, p);
    forall i | 0 <= i < |users|
      ensures users[i] in UsersOn(t.votes, p) && (ValidVote(rows[i]) <==> RowValid(t.votes[Pair(users[i], p)]))
    {
      assert users[i] in users;
    }
    if AllValid(rows) {
      forall u | u in UsersOn(t.votes, p)
        ensures RowValid(t.votes[Pair(u, p)])
      {
        assert u in users;
        var i :| 0 <= i < |users| && users[i] == u;
        assert ValidVote(rows[i]);
      }
    }
  }

  lemma AllValidParts(a: seq<VoteSnapshot>, b: seq<VoteSnapshot>)
    ensures AllValid(a + b) <==> AllValid(a) && AllValid(b)
  {
    assert forall i | 0 <= i < |a| :: (a + b)[i] == a[i];
    assert forall i | 0 <= i < |b| :: (a + b)[|a| + i] == b[i];
  }

  lemma {:induction false} RowsAreValid(ids: seq<int>, rowsOf: int -> seq<VoteSnapshot>)
    ensures AllValid(PageRows(ids, rowsOf)) <==> forall i | 0 <= i < |ids| :: AllValid(rowsOf(ids[i]))
    decreases |ids|
  {
    if ids != [] {
      RowsAreValid(ids[1..], rowsOf);
      AllValidParts(rowsOf(ids[0]), PageRows(ids[1..], rowsOf));
      assert forall i | 0 < i < |ids| :: ids[1..][i - 1] == ids[i];
    }
  }

  /** `ks` holds the restorable posts up to `last` and nothing else that is derived. */
  ghost predicate Progress(t: Tables, last: int, base: Keyspace, ks: Keyspace) {
    RestoredTo(Tabulate(Upto(t, last), DataOf(t)), base, ks)
  }

  datatype Page = PageFailed | NoMorePosts | PageRestored(posts: int, votes: int, last: int)

  lemma AllSnapshotsAgree(t: Tables)
    ensures forall p :: Describes(DataOf(t)(p), p)
    ensures forall p :: DataOf(t)(p).post == Snapshots(t)(p) && DataOf(t)(p).votes == RowsByPost(t)(p)
    ensures forall p :: |RowsByPost(t)(p)| == |UsersOn(t.votes, p)|
  {
    forall p
      ensures Describes(DataOf(t)(p), p)
      ensures DataOf(t)(p).post == Snapshots(t)(p) && DataOf(t)(p).votes == RowsByPost(t)(p)
      ensures |RowsByPost(t)(p)| == |UsersOn(t.votes, p)|
    {
      SnapshotsAgree(t, p);
      OwnRows(t, p);
    }
  }

  lemma PageProgress(t: Tables, after: int, limit: int, base: Keyspace, ks: Keyspace)
    requires limit > 0 && after >= 0 && Progress(t, after, base, ks)
    requires PageIds(t, after, limit) != []
    ensures
      var ids := PageIds(t, after, limit);
      var cs := BatchCommands(PostPage(t, after, limit), VotePage(t, ids));
      AllFit(ks, cs) && Progress(t, ids[|ids| - 1], base, RunAll(ks, cs))
  {
    var ids := PageIds(t, after, limit);
    PageExtends(t, after, limit);
    AllSnapshotsAgree(t);
    PageRestores(ids, DataOf(t), Snapshots(t), RowsByPost(t), Upto(t, after), base, ks);
  }

  lemma PageCounts(t: Tables, after: int, limit: int)
    requires limit > 0 && after >= 0 && PageIds(t, after, limit) != []
    ensures
      var ids := PageIds(t, after, limit);
      var last := ids[|ids| - 1];
      && |Upto(t, last)| == |Upto(t, after)| + |ids|
      && |VoteRows(t, Upto(t, last))| == |VoteRows(t, Upto(t, after))| + |VotePage(t, ids)|
  {
    var ids := PageIds(t, after, limit);
    PageExtends(t, after, limit);
    AllSnapshotsAgree(t);
    ElementsCount(ids, Upto(t, after));
    RowsOfPage(t, ids, Upto(t, after), RowsByPost(t));
  }

  lemma PagePosts(t: Tables, after: int, limit: int)
    requires limit > 0
    ensures |PostPage(t, after, limit)| == |PageIds(t, after, limit)|
    ensures forall i | 0 <= i < |PageIds(t, after, limit)| ::
      PostPage(t, after, limit)[i].post == PageIds(t, after, limit)[i]
  {
  }

  predicate BatchAccepts(snapshotOf: int -> PostSnapshot, rowsOf: int -> seq<VoteSnapshot>, p: int) {
    ValidPost(snapshotOf(p)) && AllValid(rowsOf(p))
  }

  lemma PostIsValid(t: Tables, p: int)
    requires p in Restorable(t)
    ensures BatchAccepts(Snapshots(t), RowsByPost(t), p) <==> SnapshotValid(t, p)
  {
    OwnRows(t, p);
  }

  lemma BatchIsValid(ids: seq<int>, snapshotOf: int -> PostSnapshot, rowsOf: int -> seq<VoteSnapshot>)
    ensures ValidBatch(Each(ids, snapshotOf), PageRows(ids, rowsOf))
      <==> forall i | 0 <= i < |ids| :: BatchAccepts(snapshotOf, rowsOf, ids[i])
  {
    RowsAreValid(ids, rowsOf);
    var posts := Each(ids, snapshotOf);
    assert forall i | 0 <= i < |ids| :: posts[i] == snapshotOf(ids[i]);
  }

  lemma PostsAreValid(t: Tables, ids: seq<int>)
    requires forall i | 0 <= i < |ids| :: ids[i] in Restorable(t)
    ensures (forall i | 0 <= i < |ids| :: BatchAccepts(Snapshots(t), RowsByPost(t), ids[i]))
      <==> forall i | 0 <= i < |ids| :: SnapshotValid(t, ids[i])
  {
    forall i | 0 <= i < |ids|
      ensures BatchAccepts(Snapshots(t), RowsByPost(t), ids[i]) <==> SnapshotValid(t, ids[i])
    {
      PostIsValid(t, ids[i]);
    }
  }

  lemma PageBetween(t: Tables, ids: seq<int>, after: int)
    requires Increasing(ids) && ids != [] && forall i | 0 <= i < |ids| :: ids[i] in Restorable(t) && ids[i] > after
    requires Upto(t, after) + Elements(ids) == Upto(t, ids[|ids| - 1])
    ensures ValidBetween(t, after, ids[|ids| - 1]) <==> forall i | 0 <= i < |ids| :: SnapshotValid(t, ids[i])
  {
    var last := ids[|ids| - 1];
    ElementsAre(ids);
    if forall i | 0 <= i < |ids| :: SnapshotValid(t, ids[i]) {
      forall p | p in Restorable(t) && after < p <= last
        ensures SnapshotValid(t, p)
      {
        assert p in Upto(t, last) && p !in Upto(t, after);
        var i :| 0 <= i < |ids| && ids[i] == p;
      }
    }
  }

  lemma PageAccepted(t: Tables, ids: seq<int>, after: int)
    requires Increasing(ids) && ids != [] && forall i | 0 <= i < |ids| :: ids[i] in Restorable(t) && ids[i] > after
    requires Upto(t, after) + Elements(ids) == Upto(t, ids[|ids| - 1])
    ensures ValidBatch(Each(ids, Snapshots(t)), VotePage(t, ids)) <==> ValidBetween(t, after, ids[|ids| - 1])
  {
    BatchIsValid(ids, Snapshots(t), RowsByPost(t));
    PostsAreValid(t, ids);
    PageBetween(t, ids, after);
  }

  /** A page passes the validation of the batch exactly if all its snapshots are acceptable. */
  lemma PageIsValid(t: Tables, after: int, limit: int)
    requires limit > 0 && after >= 0 && PageIds(t, after, limit) != []
    ensures
      var ids := PageIds(t, after, limit);
      ValidBatch(PostPage(t, after, limit), VotePage(t, ids)) <==> ValidBetween(t, after, ids[|ids| - 1])
  {
    var ids := PageIds(t, after, limit);
    PageExtends(t, after, limit);
    PageAccepted(t, ids, after);
  }

  method PostIds(posts: seq<PostSnapshot>) returns (ids: seq<int>)
    ensures |ids| == |posts| && forall i | 0 <= i < |posts| :: ids[i] == posts[i].post
  {
    ids := [];
    for i := 0 to |posts|
      invariant |ids| == i && forall j | 0 <= j < i :: ids[j] == posts[j].post
    {
      ids := ids + [posts[i].post];
    }
  }

  ghost predicate IsPage(t: Tables, after: int, limit: int, posts: seq<PostSnapshot>, votes: seq<VoteSnapshot>)
    requires limit > 0
  {
    posts == PostPage(t, after, limit) && votes == VotePage(t, PageIds(t, after, limit))
  }

  method ReadPage(db: Database, after: int, limit: int)
    returns (ok: bool, posts: seq<PostSnapshot>, votes: seq<VoteSnapshot>)
    requires limit > 0
    modifies db`readFaults
    ensures ok ==> IsPage(db.tables, after, limit, posts, votes)
    ensures old(db.readFaults) == [] ==> ok && db.readFaults == []
  {
    PagePosts(db.tables, after, limit);
    posts, votes := [], [];
    var postsRead := db.GetPostRecoveryBatch(after, limit);
    if postsRead.Failure? {
      return false, [], [];
    }
    posts := postsRead.value;
    var postIds := PostIds(posts);
    assert postIds == PageIds(db.tables, after, limit);
    var votesRead := db.GetVoteRecoverySnapshots(postIds);
    if votesRead.Failure? {
      return false, [], [];
    }
    ok, votes := true, votesRead.value;
  }

  /** From the posts up to `after` to those up to `last`, by that many posts and vote rows. */
  ghost predicate Advances(t: Tables, after: int, last: int, posts: int, votes: int) {
    && last > after && last in Restorable(t)
    && |Upto(t, last)| == |Upto(t, after)| + posts
    && |VoteRows(t, Upto(t, last))| == |VoteRows(t, Upto(t, after))| + votes
  }

  lemma LastPage(t: Tables, after: int, limit: int, posts: seq<PostSnapshot>, votes: seq<VoteSnapshot>)
    requires limit > 0 && after >= 0 && IsPage(t, after, limit, posts, votes) && posts == []
    ensures Upto(t, after) == Restorable(t)
  {
    PagePosts(t, after, limit);
    PageExtends(t, after, limit);
  }

  lemma PageAdvances(t: Tables, after: int, limit: int, posts: seq<PostSnapshot>, votes: seq<VoteSnapshot>)
    requires limit > 0 && after >= 0 && IsPage(t, after, limit, posts, votes) && posts != []
    ensures Advances(t, after, posts[|posts| - 1].post, |posts|, |votes|)
  {
    PagePosts(t, after, limit);
    PageExtends(t, after, limit);
    PageCounts(t, after, limit);
    var ids := PageIds(t, after, limit);
    ElementsAre(ids);
    assert ids[|ids| - 1] in Upto(t, after) + Elements(ids);
  }

  lemma PageFits(t: Tables, after: int, limit: int, base: Keyspace, ks: Keyspace,
                 posts: seq<PostSnapshot>, votes: seq<VoteSnapshot>)
    requires limit > 0 && after >= 0 && IsPage(t, after, limit, posts, votes) && posts != []
    requires Progress(t, after, base, ks)
    ensures AllFit(ks, BatchCommands(posts, votes))
    ensures Progress(t, posts[|posts| - 1].post, base, RunAll(ks, BatchCommands(posts, votes)))
    ensures ValidBatch(posts, votes) <==> ValidBetween(t, after, posts[|posts| - 1].post)
  {
    PagePosts(t, after, limit);
    PageProgress(t, after, limit, base, ks);
    PageIsValid(t, after, limit);
  }

  /** One round of the loop. */
  method RestoreNextPage(server: RedisServer, db: Database, after: int, limit: int, ghost base: Keyspace)
    returns (r: Page)
    requires limit > 0 && after >= 0 && Progress(db.tables, after, base, server.keys)
    modifies server, db`readFaults
    ensures r.PageFailed? ==> KeepsOthers(base, server.keys)
    ensures r.NoMorePosts? ==> Upto(db.tables, after) == Restorable(db.tables) && server.keys == old(server.keys)
    ensures r.PageRestored? ==>
      Advances(db.tables, after, r.last, r.posts, r.votes) && Progress(db.tables, r.last, base, server.keys)
    ensures r.PageRestored? ==> ValidBetween(db.tables, after, r.last)
    ensures old(server.faults) == [] ==> server.faults == []
    ensures old(db.readFaults) == [] ==> db.readFaults == []
    ensures old(server.faults) == [] && old(db.readFaults) == [] && SnapshotsValid(db.tables) ==> !r.PageFailed?
  {
    RestoredKeepsOthers(Tabulate(Upto(db.tables, after), DataOf(db.tables)), base, server.keys);
    var ok, posts, votes := ReadPage(db, after, limit);
    if !ok {
      return PageFailed;
    }
    if |posts| == 0 {
      LastPage(db.tables, after, limit, posts, votes);
      return NoMorePosts;
    }
    PageAdvances(db.tables, after, limit, posts, votes);
    PageFits(db.tables, after, limit, base, server.keys, posts, votes);
    ok := RestoreVoteStateBatch(server, posts, votes);
    if !ok {
      KeepingChains(base, old(server.keys), server.keys);
      return PageFailed;
    }
    r := PageRestored(|posts|, |votes|, posts[|posts| - 1].post);
  }

  lemma IndexAt(d: SnapshotMap, base: Keyspace, ks: Keyspace)
    requires RestoredTo(d, base, ks)
    ensures IndexTyped(ks) && ZSetAt(ks, PostTime) == Times(d) && ZSetAt(ks, PostScore) == Scores(d)
    ensures |ZSetAt(ks, PostTime)| == |ZSetAt(ks, PostScore)| == |d.Keys|
  {
    assert RestoredAt(d, base, ks, PostTime) && RestoredAt(d, base, ks, PostScore);
    assert Times(d).Keys == d.Keys == Scores(d).Keys;
    assert |Times(d)| == |Times(d).Keys| && |Scores(d)| == |Scores(d).Keys|;
  }

  lemma TabulatedKeys(ids: set<int>, data: int -> PostData)
    ensures Tabulate(ids, data).Keys == ids
  {
  }

  lemma MarkReady(d: SnapshotMap, before: Keyspace, ks: Keyspace)
    requires RestoredTo(d, Set(before, StateMarker, REBUILDING), ks)
    ensures RestoredTo(d, Set(before, StateMarker, READY), Set(ks, StateMarker, READY))
  {
    var after, base := Set(ks, StateMarker, READY), Set(before, StateMarker, REBUILDING);
    forall k
      ensures RestoredAt(d, Set(before, StateMarker, READY), after, k)
    {
      assert RestoredAt(d, base, ks, k);
    }
  }

  lemma OnlyMarked(before: Keyspace, status: string, after: Keyspace)
    requires KeepsOthers(Set(before, StateMarker, status), after)
    ensures OthersKept(before, after)
  {
    forall k | !Derived(k) && k != StateMarker
      ensures Lookup(after, k) == Lookup(before, k)
    {
      assert KeptAt(Set(before, StateMarker, status), after, k);
    }
  }

  lemma StillRebuilding(base: Keyspace, ks: Keyspace)
    requires KeepsOthers(base, ks)
    requires Status(base) == REBUILDING
    ensures Status(ks) == REBUILDING
  {
    assert KeptAt(base, ks, StateMarker);
  }

  /** The final check of the indexes, and the marker. */
  method FinishRebuild(server: RedisServer, report: RebuildReport, ghost d: SnapshotMap, ghost before: Keyspace)
    returns (r: Result<RebuildReport, RebuildError>)
    requires RestoredTo(d, Set(before, StateMarker, REBUILDING), server.keys) && report.posts == |d.Keys|
    modifies server
    ensures r.Success? ==> r.value == report && RestoredTo(d, Set(before, StateMarker, READY), server.keys)
    ensures r.Failure? ==>
      Status(server.keys) == REBUILDING || RestoredTo(d, Set(before, StateMarker, READY), server.keys)
    ensures OthersKept(before, server.keys)
    ensures old(server.faults) == [] ==> r.Success?
  {
    ghost var base := Set(before, StateMarker, REBUILDING);
    RestoredKeepsOthers(d, base, server.keys);
    StillRebuilding(base, server.keys);
    OnlyMarked(before, REBUILDING, server.keys);
    IndexAt(d, base, server.keys);
    MarkReady(d, before, server.keys);
    var indexed := CountIndexedPosts(server);
    if indexed.Failure? {
      return Failure(StoreUnavailable);
    }
    if indexed.value != report.posts {
      return Failure(CountMismatch);
    }
    var marked := server.Send(SetText(StateMarker, READY));
    if !marked {
      return Failure(StoreUnavailable);
    }
    r := Success(report);
  }

  function PostsLeft(t: Tables, after: int): nat {
    |Restorable(t) - Upto(t, after)|
  }

  lemma FewerPostsLeft(t: Tables, after: int, last: int)
    requires after < last && last in Restorable(t)
    ensures PostsLeft(t, last) < PostsLeft(t, after)
  {
    Shrinks(Restorable(t) - Upto(t, last), Restorable(t) - Upto(t, after), last);
  }

  /** The posts up to `after` are restored, and the report has counted them and their rows. */
  ghost predicate Checkpoint(t: Tables, after: int, base: Keyspace, ks: Keyspace, report: RebuildReport) {
    && after >= 0 && Progress(t, after, base, ks) && ValidBetween(t, 0, after)
    && report == RebuildReport(|Upto(t, after)|, |VoteRows(t, Upto(t, after))|)
  }

  lemma NothingYet(t: Tables, base: Keyspace, ks: Keyspace)
    requires RestoredTo(map[], base, ks)
    ensures Checkpoint(t, 0, base, ks, RebuildReport(0, 0))
  {
    assert Upto(t, 0) == {};
    assert VoteRows(t, {}) == {};
    assert Tabulate({}, DataOf(t)) == map[];
  }

  lemma OnePageFurther(
    t: Tables, after: int, base: Keyspace, before: Keyspace, ks: Keyspace, report: RebuildReport, page: Page)
    requires Checkpoint(t, after, base, before, report) && page.PageRestored?
    requires Advances(t, after, page.last, page.posts, page.votes) && Progress(t, page.last, base, ks)
    requires ValidBetween(t, after, page.last)
    ensures Checkpoint(t, page.last, base, ks, RebuildReport(report.posts + page.posts, report.votes + page.votes))
    ensures PostsLeft(t, page.last) < PostsLeft(t, after)
  {
    FewerPostsLeft(t, after, page.last);
  }

  lemma AllPages(t: Tables, after: int, base: Keyspace, ks: Keyspace, report: RebuildReport)
    requires Checkpoint(t, after, base, ks, report) && Upto(t, after) == Restorable(t)
    ensures RestoredTo(Tabulate(Restorable(t), DataOf(t)), base, ks)
    ensures report == RebuildReport(|Restorable(t)|, |VoteRows(t, Restorable(t))|)
    ensures SnapshotsValid(t)
  {
    forall p | p in Restorable(t)
      ensures SnapshotValid(t, p)
    {
      assert p in Upto(t, after);
    }
  }

  /** The keyset loop. */
  method RestoreAllPages(server: RedisServer, db: Database, limit: int, ghost base: Keyspace)
    returns (ok: bool, report: RebuildReport)
    requires limit > 0 && Checkpoint(db.tables, 0, base, server.keys, RebuildReport(0, 0))
    modifies server, db`readFaults
    ensures !ok ==> KeepsOthers(base, server.keys)
    ensures ok ==> RestoredTo(Tabulate(Restorable(db.tables), DataOf(db.tables)), base, server.keys)
    ensures ok ==>
      report == RebuildReport(|Restorable(db.tables)|, |VoteRows(db.tables, Restorable(db.tables))|)
    ensures old(server.faults) == [] ==> server.faults == []
    ensures ok ==> SnapshotsValid(db.tables)
    ensures old(server.faults) == [] && old(db.readFaults) == [] ==> (ok <==> SnapshotsValid(db.tables))
  {
    ghost var t := db.tables;
    report := RebuildReport(0, 0);
    var after := 0;
    while true
      invariant after >= 0 && db.tables == t && Checkpoint(t, after, base, server.keys, report)
      invariant old(server.faults) == [] ==> server.faults == []
      invariant old(db.readFaults) == [] ==> db.readFaults == []
      decreases PostsLeft(t, after)
    {
      ghost var before := server.keys;
      var page := RestoreNextPage(server, db, after, limit, base);
      match page
      case PageFailed => return false, report;
      case NoMorePosts =>
        AllPages(t, after, base, server.keys, report);
        return true, report;
      case PageRestored(posts, votes, last) =>
        OnePageFurther(t, after, base, before, server.keys, report, page);
        report := RebuildReport(report.posts + posts, report.votes + votes);
        after := last;
    }
  }

  /** RebuildRedisFromMySQL. A crash or error at any point is a run whose faults begin there,
      so the failure clauses describe every prefix of the rebuild. Snapshots are checked page by
      page, after everything was cleared: one bad snapshot leaves Redis marked as rebuilding. */
  method RebuildRedisFromMySQL(server: RedisServer, db: Database, batchSize: int)
    returns (r: Result<RebuildReport, RebuildError>)
    modifies server, db`readFaults
    ensures r.Success? ==> Rebuilt(db.tables, old(server.keys), server.keys)
    ensures r.Success? ==>
      r.value == RebuildReport(|Restorable(db.tables)|, |VoteRows(db.tables, Restorable(db.tables))|)
    ensures r.Failure? ==>
      || server.keys == old(server.keys)
      || Status(server.keys) == REBUILDING
      || Rebuilt(db.tables, old(server.keys), server.keys)
    ensures OthersKept(old(server.keys), server.keys)
    ensures Outbox(old(server.keys)).entries != map[] ==> r.Failure? && server.keys == old(server.keys)
    ensures r.Success? ==> SnapshotsValid(db.tables)
    ensures old(server.faults) == [] && old(db.readFaults) == [] && TypeIs(old(server.keys), VoteOutbox, StreamKind) ==>
      (r.Success? <==> Outbox(old(server.keys)).entries == map[] && SnapshotsValid(db.tables))
    ensures old(server.faults) == [] && TypeIs(old(server.keys), VoteOutbox, StreamKind) ==>
      (Outbox(old(server.keys)).entries == map[] && !SnapshotsValid(db.tables) ==> Status(server.keys) == REBUILDING)
  {
    var limit := if batchSize <= 0 then DEFAULT_BATCH else batchSize;
    var prepared := PrepareVoteStateRebuild(server);
    if prepared.Failure? {
      return Failure(prepared.error);
    }
    ghost var t, base := db.tables, Set(old(server.keys), StateMarker, REBUILDING);
    NothingYet(t, base, server.keys);
    var ok, report := RestoreAllPages(server, db, limit, base);
    if !ok {
      StillRebuilding(base, server.keys);
      OnlyMarked(old(server.keys), REBUILDING, server.keys);
      return Failure(BatchFailed);
    }
    TabulatedKeys(Restorable(t), DataOf(t));
    r := FinishRebuild(server, report, Tabulate(Restorable(t), DataOf(t)), old(server.keys));
  }

  // Startup

  datatype StartupError = StoreUnreadable | NeedsRebuild

  /** What the check accepts: equal counts, and a marker that is ready or was never set. */
  predicate Acceptable(t: Tables, ks: Keyspace) {
    && |ActivePosts(t)| == |ZSetAt(ks, PostTime)|
    && (Status(ks) == READY || Status(ks) == "")
  }

  /** Both indexes can be counted and have one size, and the marker can be read. */
  predicate Countable(ks: Keyspace) {
    && IndexTyped(ks) && TypeIs(ks, StateMarker, StringKind)
    && |ZSetAt(ks, PostTime)| == |ZSetAt(ks, PostScore)|
  }

  /** EnsureRedisStateReady. */
  method EnsureRedisStateReady(server: RedisServer, db: Database) returns (r: Result<(), StartupError>)
    modifies server, db`readFaults
    ensures r.Success? ==> Acceptable(db.tables, old(server.keys)) && Readable(server.keys)
    ensures r.Success? ==> |ZSetAt(server.keys, PostTime)| == |ZSetAt(server.keys, PostScore)|
    ensures server.keys == old(server.keys)
      || (Acceptable(db.tables, old(server.keys)) && Status(old(server.keys)) == ""
          && server.keys == Set(old(server.keys), StateMarker, READY))
    ensures r == Failure(NeedsRebuild) ==> !Acceptable(db.tables, old(server.keys)) && server.keys == old(server.keys)
    ensures Status(old(server.keys)) == REBUILDING ==> r.Failure?
    ensures old(server.faults) == [] && old(db.readFaults) == [] && Countable(old(server.keys)) ==>
      (r.Success? <==> Acceptable(db.tables, old(server.keys)))
  {
    var databasePosts := db.CountActivePosts();
    if databasePosts.Failure? {
      return Failure(StoreUnreadable);
    }
    var indexedPosts := CountIndexedPosts(server);
    if indexedPosts.Failure? {
      return Failure(StoreUnreadable);
    }
    var ok := server.Query();
    if !ok || !TypeIs(server.keys, StateMarker, StringKind) {
      return Failure(StoreUnreadable);
    }
    var status := Status(server.keys);
    if status == "" && databasePosts.value == indexedPosts.value {
      ok := server.Send(SetText(StateMarker, READY));
      return if ok then Success(()) else Failure(StoreUnreadable);
    }
    if status != READY || databasePosts.value != indexedPosts.value {
      return Failure(NeedsRebuild);
    }
    r := Success(());
  }

  /** Counting is enough: if the indexed posts are among the active ones, an accepted startup
      means the index is exactly the active posts. */
  lemma CountsDecideIndex(t: Tables, ks: Keyspace)
    requires ZSetAt(ks, PostTime).Keys == ZSetAt(ks, PostScore).Keys <= ActivePosts(t)
    ensures |ActivePosts(t)| == |ZSetAt(ks, PostTime)| <==> ZSetAt(ks, PostTime).Keys == ActivePosts(t)
  {
    assert |ZSetAt(ks, PostTime).Keys| == |ZSetAt(ks, PostTime)|;
    Totals.SubsetCardinality(ZSetAt(ks, PostTime).Keys, ActivePosts(t));
  }
}
