/** dao/redis/ratelimit.lua: a sorted-set log with pruning and key expiry is an exact sliding
    window. */
module VoteRateLimiter {
  import opened VoteModel
  import opened Ordering
  import Totals

  /** An allowed request. */
  datatype Grant = Grant(member: string, at: int)

  predicate Sorted(log: seq<Grant>) {
    forall i, j | 0 <= i <= j < |log| :: log[i].at <= log[j].at
  }

  predicate Distinct(log: seq<Grant>) {
    forall i, j | 0 <= i < j < |log| :: log[i].member != log[j].member
  }

  /** How many grants lie in the half-open interval (after, upTo]. */
  function Within(log: seq<Grant>, after: int, upTo: int): nat
    decreases |log|
  {
    if log == [] then 0
    else
      var g := log[|log| - 1];
      Within(log[..|log| - 1], after, upTo) + if after < g.at <= upTo then 1 else 0
  }

  /** The window rule: fewer than `limit` grants in (now - window, now]. */
  predicate HasRoom(log: seq<Grant>, now: int, window: int, limit: int) {
    Within(log, now - window, now) < limit
  }

  /** The first grant after `x` in a sorted log. */
  function First(log: seq<Grant>, x: int): (p: nat)
    ensures p <= |log|
    ensures Sorted(log) ==> (forall i | 0 <= i < p :: log[i].at <= x) && (forall i | p <= i < |log| :: log[i].at > x)
    decreases |log|
  {
    if log == [] then 0
    else if log[|log| - 1].at > x then First(log[..|log| - 1], x)
    else |log|
  }

  lemma {:induction false} WithinIsRange(log: seq<Grant>, after: int, upTo: int)
    requires Sorted(log) && after <= upTo
    ensures Within(log, after, upTo) == First(log, upTo) - First(log, after)
    decreases |log|
  {
    if log != [] {
      WithinIsRange(log[..|log| - 1], after, upTo);
    }
  }

  lemma RecentIsSuffix(log: seq<Grant>, after: int, now: int)
    requires Sorted(log) && after <= now && (forall i | 0 <= i < |log| :: log[i].at <= now)
    ensures Within(log, after, now) == |log| - First(log, after)
  {
    WithinIsRange(log, after, now);
  }

  // The sorted set as a view of the log

  /** The sorted set holding the grants from index `start` on. */
  function Entries(log: seq<Grant>, start: nat): map<string, int>
    decreases |log|
  {
    if |log| <= start then map[]
    else Entries(log[..|log| - 1], start)[log[|log| - 1].member := log[|log| - 1].at]
  }

  lemma {:induction false} Holds(log: seq<Grant>, start: nat, i: nat)
    requires Distinct(log) && start <= i < |log|
    ensures log[i].member in Entries(log, start) && Entries(log, start)[log[i].member] == log[i].at
    decreases |log|
  {
    if i < |log| - 1 {
      Holds(log[..|log| - 1], start, i);
    }
  }

  lemma {:induction false} IndexOf(log: seq<Grant>, start: nat, m: string) returns (i: nat)
    requires Distinct(log) && m in Entries(log, start)
    ensures start <= i < |log| && log[i].member == m && Entries(log, start)[m] == log[i].at
    decreases |log|
  {
    if log[|log| - 1].member == m {
      i := |log| - 1;
    } else {
      i := IndexOf(log[..|log| - 1], start, m);
    }
  }

  lemma {:induction false} EntriesCount(log: seq<Grant>, start: nat)
    requires Distinct(log) && start <= |log|
    ensures |Entries(log, start)| == |log| - start
    decreases |log|
  {
    if |log| > start {
      var init, g := log[..|log| - 1], log[|log| - 1];
      EntriesCount(init, start);
      if g.member in Entries(init, start) {
        var i := IndexOf(init, start, g.member);
        assert false;
      }
      assert Entries(log, start).Keys == Entries(init, start).Keys + {g.member};
    }
  }

  /** ZREMRANGEBYSCORE key 0 max. */
  function Pruned(entries: map<string, int>, max: int): map<string, int> {
    map m | m in entries && !(0 <= entries[m] <= max) :: entries[m]
  }

  lemma PruneAdvances(log: seq<Grant>, start: nat, max: int)
    requires Distinct(log) && Sorted(log) && start <= |log|
    requires forall i | 0 <= i < |log| :: log[i].at >= 0
    ensures
      var start' := if First(log, max) > start then First(log, max) else start;
      Pruned(Entries(log, start), max) == Entries(log, start')
  {
    var start' := if First(log, max) > start then First(log, max) else start;
    var a, b := Pruned(Entries(log, start), max), Entries(log, start');
    forall m | m in a
      ensures m in b && a[m] == b[m]
    {
      var i := IndexOf(log, start, m);
      assert log[i].at > max;
      Holds(log, start', i);
    }
    forall m | m in b
      ensures m in a
    {
      var i := IndexOf(log, start', m);
      Holds(log, start, i);
    }
    Totals.SameMap(a, b);
  }

  function Scores(entries: map<string, int>): set<int> {
    set m | m in entries :: entries[m]
  }

  lemma OldestIsFirst(log: seq<Grant>, start: nat)
    requires Distinct(log) && Sorted(log) && start < |log|
    ensures |Scores(Entries(log, start))| > 0
    ensures Least(Scores(Entries(log, start))) == log[start].at
  {
    Holds(log, start, start);
    var entries := Entries(log, start);
    var scores := Scores(entries);
    assert entries[log[start].member] in scores;
    forall x | x in scores
      ensures log[start].at <= x
    {
      var m :| m in entries && entries[m] == x;
      var i := IndexOf(log, start, m);
    }
  }

  // The run bound

  /** The time from a grant to the one `limit` places on. */
  function Span(log: seq<Grant>, limit: int, i: int): int
    requires limit > 0 && 0 <= i < |log| - limit
  {
    log[i + limit].at - log[i].at
  }

  /** Any limit + 1 consecutive grants span at least a window. */
  predicate Spaced(log: seq<Grant>, window: int, limit: int)
    requires limit > 0
  {
    forall i | 0 <= i < |log| - limit :: Span(log, limit, i) >= window
  }

  /** Over a whole run no half-open interval of the window's length holds more than `limit` grants. */
  lemma RunBound(log: seq<Grant>, window: int, limit: int, after: int)
    requires limit > 0 && window > 0 && Sorted(log) && Spaced(log, window, limit)
    ensures Within(log, after, after + window) <= limit
  {
    WithinIsRange(log, after, after + window);
    var p := First(log, after);
    if p + limit < |log| {
      assert Span(log, limit, p) >= window;
    }
  }

  /** No half-open interval of the window's length holds more than `limit` grants. */
  ghost predicate Bounded(log: seq<Grant>, window: int, limit: int) {
    forall after :: WindowFrom(log, after, window) <= limit
  }

  function WindowFrom(log: seq<Grant>, after: int, window: int): nat {
    Within(log, after, after + window)
  }

  lemma SpacedIsBounded(log: seq<Grant>, window: int, limit: int)
    requires limit > 0 && window > 0 && Sorted(log) && Spaced(log, window, limit)
    ensures Bounded(log, window, limit)
  {
    forall after
      ensures WindowFrom(log, after, window) <= limit
    {
      RunBound(log, window, limit, after);
    }
  }

  // Retrying

  lemma {:induction false} FirstMovesOn(log: seq<Grant>, x: int, y: int)
    requires x <= y
    ensures First(log, x) <= First(log, y)
    decreases |log|
  {
    if log != [] {
      FirstMovesOn(log[..|log| - 1], x, y);
    }
  }

  lemma RoomOnlyGrows(log: seq<Grant>, now: int, later: int, window: int)
    requires Sorted(log) && (forall i | 0 <= i < |log| :: log[i].at <= now) && now <= later && window > 0
    ensures Within(log, later - window, later) <= Within(log, now - window, now)
  {
    RecentIsSuffix(log, now - window, now);
    RecentIsSuffix(log, later - window, later);
    FirstMovesOn(log, now - window, later - window);
  }

  /** With no further grants, a rejected caller stays rejected until the oldest recent grant is
      a whole window old, and is admitted at that very instant. */
  lemma RetryIsExact(log: seq<Grant>, now: int, window: int, limit: int)
    requires limit > 0 && window > 0 && Sorted(log) && Spaced(log, window, limit)
    requires forall i | 0 <= i < |log| :: log[i].at <= now
    requires !HasRoom(log, now, window, limit)
    ensures
      var p := First(log, now - window);
      && p < |log| && 0 < log[p].at + window - now <= window
      && Within(log, now - window, now) == limit == |log| - p
      && HasRoom(log, log[p].at + window, window, limit)
      && forall t | now <= t < log[p].at + window :: !HasRoom(log, t, window, limit)
  {
    RecentIsSuffix(log, now - window, now);
    RunBound(log, window, limit, now - window);
    var p := First(log, now - window);
    RecentIsSuffix(log, log[p].at, log[p].at + window);
    forall t | now <= t < log[p].at + window
      ensures !HasRoom(log, t, window, limit)
    {
      RecentIsSuffix(log, t - window, t);
    }
  }

  /** The Retry-After header: whole seconds, one more than the milliseconds hold. */
  function RetryAfterSeconds(milliseconds: nat): nat {
    milliseconds / 1000 + 1
  }

  /** A client that waits as long as the header says is admitted. */
  lemma HeaderSuffices(log: seq<Grant>, now: int, window: int, limit: int)
    requires limit > 0 && window > 0 && Sorted(log) && Spaced(log, window, limit)
    requires forall i | 0 <= i < |log| :: log[i].at <= now
    requires !HasRoom(log, now, window, limit)
    ensures
      var p := First(log, now - window);
      p < |log| && log[p].at + window - now > 0
      && HasRoom(log, now + 1000 * RetryAfterSeconds(log[p].at + window - now), window, limit)
  {
    RetryIsExact(log, now, window, limit);
    var at := log[First(log, now - window)].at + window;
    RoomOnlyGrows(log, at, now + 1000 * RetryAfterSeconds(at - now), window);
  }

  // The closed window of the script's comment

  /** Grants in the closed interval [from, from + window]. */
  function ClosedWindowFrom(log: seq<Grant>, from: int, window: int): nat {
    Within(log, from - 1, from + window)
  }

  lemma ClosedWindowIsRange(log: seq<Grant>, from: int, window: int)
    requires Sorted(log) && window > 0
    ensures ClosedWindowFrom(log, from, window) == First(log, from + window) - First(log, from - 1)
  {
    WithinIsRange(log, from - 1, from + window);
  }

  /** No grant is followed at exactly one window's distance by the grant `limit` places on. */
  predicate NoExactSpan(log: seq<Grant>, window: int, limit: int)
    requires limit > 0
  {
    forall i | 0 <= i < |log| - limit :: Span(log, limit, i) != window
  }

  lemma ExactSpanExceeds(log: seq<Grant>, window: int, limit: int, i: nat)
    requires limit > 0 && window > 0 && Sorted(log) && i < |log| - limit
    requires Span(log, limit, i) == window
    ensures ClosedWindowFrom(log, log[i].at, window) > limit
  {
    ClosedWindowIsRange(log, log[i].at, window);
  }

  lemma NoExactSpanFits(log: seq<Grant>, window: int, limit: int, from: int)
    requires limit > 0 && window > 0 && Sorted(log) && Spaced(log, window, limit) && NoExactSpan(log, window, limit)
    ensures ClosedWindowFrom(log, from, window) <= limit
  {
    ClosedWindowIsRange(log, from, window);
    var p := First(log, from - 1);
    if p + limit < |log| {
      assert Span(log, limit, p) != window && Span(log, limit, p) >= window;
    }
  }

  /** Exactly when the closed windows of the script's comment hold no more than the limit: when
      no grant comes exactly one window after the grant `limit` places before it. */
  lemma ClosedWindowsFitIff(log: seq<Grant>, window: int, limit: int)
    requires limit > 0 && window > 0 && Sorted(log) && Spaced(log, window, limit)
    ensures (forall from :: ClosedWindowFrom(log, from, window) <= limit) <==> NoExactSpan(log, window, limit)
  {
    if NoExactSpan(log, window, limit) {
      forall from
        ensures ClosedWindowFrom(log, from, window) <= limit
      {
        NoExactSpanFits(log, window, limit, from);
      }
    } else {
      var i :| 0 <= i < |log| - limit && Span(log, limit, i) == window;
      ExactSpanExceeds(log, window, limit, i);
    }
  }

  /** The rule the comment describes: fewer than `limit` grants in [now - window, now]. */
  predicate HasClosedRoom(log: seq<Grant>, now: int, window: int, limit: int) {
    ClosedWindowFrom(log, now - window, window) < limit
  }

  /** Where the two rules part: the closed one counts the grants made exactly one window ago, and
      refuses a request the script admits exactly when these make the difference. */
  lemma RulesPartIff(log: seq<Grant>, now: int, window: int, limit: int)
    requires Sorted(log) && window > 0
    ensures ClosedWindowFrom(log, now - window, window)
      == Within(log, now - window, now) + Within(log, now - window - 1, now - window)
    ensures HasClosedRoom(log, now, window, limit) ==> HasRoom(log, now, window, limit)
    ensures (HasClosedRoom(log, now, window, limit) != HasRoom(log, now, window, limit))
      <==> Within(log, now - window, now) < limit <= ClosedWindowFrom(log, now - window, window)
  {
    WithinIsRange(log, now - window - 1, now);
    WithinIsRange(log, now - window, now);
    WithinIsRange(log, now - window - 1, now - window);
  }

  /** And that happens for every window: two grants exactly one window apart are within the
      script's rule, and the closed interval holds both. */
  lemma ClosedWindowExceedsLimit(window: int, first: string, second: string)
    requires window > 0
    ensures
      var log := [Grant(first, 0)];
      && HasRoom(log, window, window, 1) && !HasClosedRoom(log, window, window, 1)
      && ClosedWindowFrom(log + [Grant(second, window)], 0, window) == 2
  {
    var log := [Grant(first, 0)];
    var longer := log + [Grant(second, window)];
    assert log[..0] == [] && longer[..1] == log;
    assert Within(log, 0, window) == 0 && Within(log, -1, window) == 1;
  }

  // One key

  /** A log that obeyed the rule so far. */
  predicate Obeys(log: seq<Grant>, window: int, limit: int, clock: int)
    requires limit > 0
  {
    && Sorted(log) && Distinct(log) && Spaced(log, window, limit)
    && forall i | 0 <= i < |log| :: 0 <= log[i].at <= clock
  }

  /** The sorted set lacks nothing that is younger than `cutoff`. */
  ghost predicate Shows(log: seq<Grant>, start: nat, entries: map<string, int>, cutoff: int) {
    && start <= |log| && entries == Entries(log, start)
    && forall i | 0 <= i < start :: log[i].at <= cutoff
  }

  lemma {:induction false} FirstAtLeast(log: seq<Grant>, x: int, start: nat)
    requires start <= |log| && forall i | 0 <= i < start :: log[i].at <= x
    ensures First(log, x) >= start
    decreases |log|
  {
    if log != [] && log[|log| - 1].at > x {
      FirstAtLeast(log[..|log| - 1], x, start);
    }
  }

  lemma PruneShows(
    log: seq<Grant>, start: nat, entries: map<string, int>, cutoff: int, now: int, window: int, limit: int)
    requires limit > 0 && window > 0 && Obeys(log, window, limit, now)
    requires Shows(log, start, entries, cutoff) && cutoff <= now - window
    ensures Shows(log, First(log, now - window), Pruned(entries, now - window), now - window)
  {
    PruneAdvances(log, start, now - window);
    FirstAtLeast(log, now - window, start);
  }

  lemma PrunedCounts(log: seq<Grant>, entries: map<string, int>, now: int, window: int, limit: int)
    requires limit > 0 && window > 0 && Obeys(log, window, limit, now)
    requires entries == Entries(log, First(log, now - window))
    ensures |entries| == Within(log, now - window, now)
  {
    EntriesCount(log, First(log, now - window));
    RecentIsSuffix(log, now - window, now);
  }

  lemma GrantKeepsSpacing(log: seq<Grant>, window: int, limit: int, now: int, member: string)
    requires limit > 0 && window > 0 && Obeys(log, window, limit, now) && HasRoom(log, now, window, limit)
    ensures Spaced(log + [Grant(member, now)], window, limit)
  {
    var longer := log + [Grant(member, now)];
    RecentIsSuffix(log, now - window, now);
    forall i | 0 <= i < |longer| - limit
      ensures Span(longer, limit, i) >= window
    {
      if i + limit < |log| {
        assert Span(longer, limit, i) == Span(log, limit, i);
      } else {
        assert i < First(log, now - window);
      }
    }
  }

  lemma GrantCounts(log: seq<Grant>, window: int, now: int, member: string)
    requires window > 0
    ensures Within(log + [Grant(member, now)], now - window, now) == Within(log, now - window, now) + 1
  {
    assert (log + [Grant(member, now)])[..|log|] == log;
  }

  lemma GrantObeys(log: seq<Grant>, window: int, limit: int, now: int, member: string)
    requires limit > 0 && window > 0 && now >= 0 && Obeys(log, window, limit, now)
    requires HasRoom(log, now, window, limit) && NewMember(log, member)
    ensures Obeys(log + [Grant(member, now)], window, limit, now)
  {
    GrantKeepsSpacing(log, window, limit, now, member);
  }

  lemma GrantShows(log: seq<Grant>, start: nat, entries: map<string, int>, cutoff: int, g: Grant)
    requires Shows(log, start, entries, cutoff)
    ensures Shows(log + [g], start, entries[g.member := g.at], cutoff)
  {
    assert (log + [g])[..|log|] == log;
  }

  lemma OldestShown(log: seq<Grant>, entries: map<string, int>, now: int, window: int, limit: int)
    requires limit > 0 && window > 0 && Obeys(log, window, limit, now) && !HasRoom(log, now, window, limit)
    requires Shows(log, First(log, now - window), entries, now - window)
    ensures |Scores(entries)| > 0
    ensures
      var retryAfter := Least(Scores(entries)) + window - now;
      && 0 < retryAfter <= window && HasRoom(log, now + retryAfter, window, limit)
      && forall t | now <= t < now + retryAfter :: !HasRoom(log, t, window, limit)
  {
    RetryIsExact(log, now, window, limit);
    OldestIsFirst(log, First(log, now - window));
  }

  predicate OlderThan(log: seq<Grant>, bound: int) {
    forall i | 0 <= i < |log| :: log[i].at <= bound
  }

  predicate NewMember(log: seq<Grant>, member: string) {
    forall i | 0 <= i < |log| :: log[i].member != member
  }

  /** What Redis holds for a user, `entries` and `expiresAt`, against the whole history. */
  ghost predicate Tracks(
    window: int, limit: int, clock: int, log: seq<Grant>, start: nat, entries: map<string, int>, expiresAt: Option<int>) {
    && window > 0 && limit > 0 && clock >= 0
    && Obeys(log, window, limit, clock) && Shows(log, start, entries, clock - window)
    && (expiresAt.Some? ==> OlderThan(log, expiresAt.value - window))
  }

  lemma PruneTracks(
    window: int, limit: int, now: int, log: seq<Grant>, start: nat, entries: map<string, int>, expiresAt: Option<int>)
    requires Tracks(window, limit, now, log, start, entries, expiresAt)
    ensures Tracks(window, limit, now, log, First(log, now - window), Pruned(entries, now - window), expiresAt)
    ensures |Pruned(entries, now - window)| == Within(log, now - window, now)
  {
    PruneShows(log, start, entries, now - window, now, window, limit);
    PrunedCounts(log, Pruned(entries, now - window), now, window, limit);
  }

  lemma GrantTracks(
    window: int, limit: int, now: int, log: seq<Grant>, start: nat, entries: map<string, int>, expiresAt: Option<int>,
    member: string)
    requires Tracks(window, limit, now, log, start, entries, expiresAt)
    requires HasRoom(log, now, window, limit) && NewMember(log, member)
    ensures Tracks(window, limit, now, log + [Grant(member, now)], start, entries[member := now], Some(now + window))
    ensures Within(log + [Grant(member, now)], now - window, now) == Within(log, now - window, now) + 1
  {
    GrantObeys(log, window, limit, now, member);
    GrantCounts(log, window, now, member);
    GrantShows(log, start, entries, now - window, Grant(member, now));
  }

  lemma EvictionTracks(
    window: int, limit: int, now: int, log: seq<Grant>, start: nat, entries: map<string, int>, expiresAt: Option<int>)
    requires Tracks(window, limit, now, log, start, entries, expiresAt)
    requires expiresAt.Some? && now >= expiresAt.value
    ensures Tracks(window, limit, now, log, |log|, map[], None)
  {
  }

  lemma TimeTracks(
    window: int, limit: int, clock: int, now: int, log: seq<Grant>, start: nat, entries: map<string, int>,
    expiresAt: Option<int>)
    requires Tracks(window, limit, clock, log, start, entries, expiresAt) && now >= clock
    ensures Tracks(window, limit, now, log, start, entries, expiresAt)
  {
  }

  lemma TracksIsBounded(
    window: int, limit: int, now: int, log: seq<Grant>, start: nat, entries: map<string, int>, expiresAt: Option<int>)
    requires Tracks(window, limit, now, log, start, entries, expiresAt)
    ensures Bounded(log, window, limit)
  {
    SpacedIsBounded(log, window, limit);
  }

  /** One user's key in Redis. `log` is every grant of its history, without expiry. */
  class Limiter {
    const window: int
    const limit: int
    var entries: map<string, int>
    var expiresAt: Option<int>
    ghost var log: seq<Grant>
    ghost var start: nat
    ghost var clock: int

    ghost predicate Valid()
      reads this
    {
      Tracks(window, limit, clock, log, start, entries, expiresAt)
    }

    constructor (window: int, limit: int)
      requires window > 0 && limit > 0
      ensures Valid() && log == [] && this.window == window && this.limit == limit
    {
      this.window, this.limit := window, limit;
      entries, expiresAt := map[], None;
      log, start, clock := [], 0, 0;
    }

    /** Redis may drop the key once its expiry is reached, and need not do it at once. Its clock
        is taken to be that of the requests. */
    method Expire(now: int, evict: bool)
      requires Valid() && now >= clock
      modifies this`entries, this`expiresAt, this`start, this`clock
      ensures Valid() && clock == now
    {
      TimeTracks(window, limit, clock, now, log, start, entries, expiresAt);
      clock := now;
      if evict && expiresAt.Some? && now >= expiresAt.value {
        EvictionTracks(window, limit, now, log, start, entries, expiresAt);
        entries, expiresAt, start := map[], None, |log|;
      }
    }

    /** Prunes, then counts. */
    method Recent(now: int) returns (count: int)
      requires Valid() && clock == now
      modifies this`entries, this`start
      ensures Valid() && start == First(log, now - window)
      ensures count == Within(log, now - window, now)
    {
      PruneTracks(window, limit, now, log, start, entries, expiresAt);
      entries := Pruned(entries, now - window);
      start := First(log, now - window);
      count := |entries|;
    }

    /** The script. Timestamps do not go back and members are distinct; everything else,
        expiry included, is up to Redis. */
    method Admit(now: int, member: string, evict: bool) returns (allowed: bool, count: int, retryAfter: int)
      requires Valid() && now >= clock && NewMember(log, member)
      modifies this
      ensures Valid() && clock == now
      ensures allowed <==> HasRoom(old(log), now, window, limit)
      ensures log == if allowed then old(log) + [Grant(member, now)] else old(log)
      ensures count == Within(log, now - window, now)
      ensures allowed ==> retryAfter == 0
      ensures !allowed ==> 0 < retryAfter <= window && HasRoom(log, now + retryAfter, window, limit)
      ensures !allowed ==> forall t | now <= t < now + retryAfter :: !HasRoom(log, t, window, limit)
      ensures Bounded(log, window, limit)
    {
      Expire(now, evict);
      count := Recent(now);
      if count >= limit {
        retryAfter := RetryAfter(now);
        TracksIsBounded(window, limit, now, log, start, entries, expiresAt);
        return false, count, retryAfter;
      }
      Record(now, member);
      TracksIsBounded(window, limit, now, log, start, entries, expiresAt);
      return true, count + 1, 0;
    }

    method RetryAfter(now: int) returns (retryAfter: int)
      requires Valid() && clock == now && start == First(log, now - window) && !HasRoom(log, now, window, limit)
      ensures 0 < retryAfter <= window && HasRoom(log, now + retryAfter, window, limit)
      ensures forall t | now <= t < now + retryAfter :: !HasRoom(log, t, window, limit)
    {
      OldestShown(log, entries, now, window, limit);
      retryAfter := window;
      if |Scores(entries)| > 0 {
        retryAfter := Least(Scores(entries)) + window - now;
        if retryAfter < 0 {
          retryAfter := 0;
        }
      }
    }

    method Record(now: int, member: string)
      requires Valid() && clock == now && HasRoom(log, now, window, limit) && NewMember(log, member)
      modifies this`entries, this`expiresAt, this`log
      ensures Valid() && log == old(log) + [Grant(member, now)]
      ensures Within(log, now - window, now) == Within(old(log), now - window, now) + 1
    {
      GrantTracks(window, limit, now, log, start, entries, expiresAt, member);
      entries := entries[member := now];
      expiresAt := Some(now + window);
      log := log + [Grant(member, now)];
    }
  }
}
