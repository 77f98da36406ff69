/** logic/post.go and dao/redis/post_cache.go: the detail cache of one post, with its delayed
    double delete, as a timed interleaving of readers, writers and timers. */
module PostDetailCache {
  import opened VoteModel
  import Runs

  /** A cached detail: the row version it was read from, and when it was set. */
  datatype Entry = Entry(version: nat, setAt: int)

  /** A reader between its database read and its cache SET. */
  datatype Reader = Reader(version: nat, readAt: int)

  /** A write between commit and its last delete: `due` is set by the first delete. */
  datatype Writer = Committed | Waiting(due: int)

  /** `delay` and `ttl` are configuration; `gap` bounds the time between a reader's database
      read and its SET. `row` counts the committed updates. */
  datatype Timing = Timing(delay: nat, ttl: nat, gap: nat)

  datatype State = State(
    now: int, row: nat, entry: Option<Entry>, readers: map<int, Reader>, writers: map<nat, Writer>,
    committedAt: map<nat, int>, cleared: set<nat>)

  /** A delete is `effective` if Redis carried it out, whatever the client was told. */
  datatype Action =
    | Tick(elapsed: nat)
    | ReadMiss(reader: int)
    | SetCache(reader: int)
    | SetFails(reader: int)
    | Update
    | FirstDelete(update: nat, effective: bool)
    | SecondDelete(update: nat, effective: bool)
    | Expire

  /** What GET returns: a set entry lives for `ttl`. */
  predicate Visible(t: Timing, s: State) {
    s.entry.Some? && s.now < s.entry.value.setAt + t.ttl
  }

  predicate Enabled(t: Timing, s: State, a: Action) {
    match a
    case Tick(_) => true
    case ReadMiss(r) => r !in s.readers
    case SetCache(r) => r in s.readers && s.now - s.readers[r].readAt <= t.gap
    case SetFails(r) => r in s.readers
    case Update => true
    case FirstDelete(v, _) => v in s.writers && s.writers[v] == Committed
    case SecondDelete(v, _) => v in s.writers && s.writers[v].Waiting? && s.writers[v].due <= s.now
    case Expire => s.entry.Some? && !Visible(t, s)
  }

  function Deleted(s: State, effective: bool): State {
    if effective then s.(entry := None) else s
  }

  function After(t: Timing, s: State, a: Action): State
    requires Enabled(t, s, a)
  {
    match a
    case Tick(elapsed) => s.(now := s.now + elapsed)
    case ReadMiss(r) => s.(readers := s.readers[r := Reader(s.row, s.now)])
    case SetCache(r) => s.(entry := Some(Entry(s.readers[r].version, s.now)), readers := s.readers - {r})
    case SetFails(r) => s.(readers := s.readers - {r})
    case Update =>
      s.(row := s.row + 1, writers := s.writers[s.row + 1 := Committed], committedAt := s.committedAt[s.row + 1 := s.now])
    case FirstDelete(v, effective) => Deleted(s, effective).(writers := s.writers[v := Waiting(s.now + t.delay)])
    case SecondDelete(v, effective) =>
      Deleted(s, effective).(writers := s.writers - {v}, cleared := if effective then s.cleared + {v} else s.cleared)
    case Expire => s.(entry := None)
  }

  predicate Initial(s: State) {
    s.row == 0 && s.entry == None && s.readers == map[] && s.writers == map[] && s.committedAt == map[] && s.cleared == {}
  }

  ghost predicate Step(t: Timing, s: State, r: State) {
    exists a :: Enabled(t, s, a) && After(t, s, a) == r
  }

  ghost function Steps(t: Timing): (State, State) -> bool {
    (s, r) => Step(t, s, r)
  }

  ghost predicate Reachable(t: Timing, s: State) {
    exists start :: Initial(start) && Runs.Leads(Steps(t), start, s)
  }

  // The invariant

  type Commits = map<nat, int>

  /** Something read from version `version` at time `at` was read before every later commit. */
  ghost predicate ReadBefore(row: nat, committedAt: Commits, version: nat, at: int) {
    version <= row && forall v | version < v <= row :: v in committedAt && at <= committedAt[v]
  }

  ghost predicate CommitsInv(now: int, row: nat, committedAt: Commits) {
    forall v | 0 < v <= row :: v in committedAt && committedAt[v] <= now
  }

  ghost predicate ReaderInv(now: int, row: nat, committedAt: Commits, reader: Reader) {
    reader.readAt <= now && ReadBefore(row, committedAt, reader.version, reader.readAt)
  }

  ghost predicate ReadersInv(now: int, row: nat, committedAt: Commits, readers: map<int, Reader>) {
    forall r | r in readers :: ReaderInv(now, row, committedAt, readers[r])
  }

  /** A cached version was current at most `gap` before it was set. */
  ghost predicate EntryInv(t: Timing, now: int, row: nat, committedAt: Commits, entry: Option<Entry>) {
    entry.Some? ==>
      entry.value.setAt <= now && ReadBefore(row, committedAt, entry.value.version, entry.value.setAt - t.gap)
  }

  ghost predicate TimersInv(t: Timing, s: State) {
    && (forall v | v in s.writers :: 0 < v <= s.row && v in s.committedAt)
    && (forall v | v in s.writers && s.writers[v].Waiting? :: s.writers[v].due >= s.committedAt[v] + t.delay)
    && (forall v | v in s.cleared :: 0 < v <= s.row && v in s.committedAt && s.now >= s.committedAt[v] + t.delay)
  }

  ghost predicate Inv(t: Timing, s: State) {
    && CommitsInv(s.now, s.row, s.committedAt)
    && ReadersInv(s.now, s.row, s.committedAt, s.readers)
    && EntryInv(t, s.now, s.row, s.committedAt, s.entry)
    && TimersInv(t, s)
  }

  /** After its delayed delete took effect, an update is never hidden by an older entry. */
  ghost predicate Safe(s: State) {
    forall v | v in s.cleared :: s.entry.None? || s.entry.value.version >= v
  }

  lemma CommitKeepsReadBefore(now: int, row: nat, committedAt: Commits, version: nat, at: int)
    requires ReadBefore(row, committedAt, version, at) && at <= now
    ensures ReadBefore(row + 1, committedAt[row + 1 := now], version, at)
  {
  }

  lemma UpdateKeepsInv(t: Timing, s: State)
    requires Inv(t, s)
    ensures Inv(t, After(t, s, Update))
  {
    var r := After(t, s, Update);
    forall x | x in r.readers
      ensures ReaderInv(r.now, r.row, r.committedAt, r.readers[x])
    {
      CommitKeepsReadBefore(s.now, s.row, s.committedAt, s.readers[x].version, s.readers[x].readAt);
    }
    if s.entry.Some? {
      CommitKeepsReadBefore(s.now, s.row, s.committedAt, s.entry.value.version, s.entry.value.setAt - t.gap);
    }
  }

  lemma SetKeepsInv(t: Timing, s: State, r: int)
    requires Inv(t, s) && Enabled(t, s, SetCache(r))
    ensures Inv(t, After(t, s, SetCache(r)))
  {
    var reader := s.readers[r];
    assert ReaderInv(s.now, s.row, s.committedAt, reader);
  }

  lemma ReaderStepKeepsInv(t: Timing, s: State, a: Action)
    requires Inv(t, s) && Enabled(t, s, a) && (a.Tick? || a.ReadMiss? || a.SetFails? || a.Expire?)
    ensures Inv(t, After(t, s, a))
  {
  }

  lemma DeleteKeepsInv(t: Timing, s: State, a: Action)
    requires Inv(t, s) && Enabled(t, s, a) && (a.FirstDelete? || a.SecondDelete?)
    ensures Inv(t, After(t, s, a))
  {
  }

  lemma StepKeepsInv(t: Timing, s: State, a: Action)
    requires Inv(t, s) && Enabled(t, s, a)
    ensures Inv(t, After(t, s, a))
  {
    match a
    case Update => UpdateKeepsInv(t, s);
    case SetCache(r) => SetKeepsInv(t, s, r);
    case FirstDelete(_, _) => DeleteKeepsInv(t, s, a);
    case SecondDelete(_, _) => DeleteKeepsInv(t, s, a);
    case _ => ReaderStepKeepsInv(t, s, a);
  }

  lemma SetKeepsSafe(t: Timing, s: State, r: int)
    requires Inv(t, s) && Safe(s) && Enabled(t, s, SetCache(r)) && t.gap < t.delay
    ensures Safe(After(t, s, SetCache(r)))
  {
    assert ReaderInv(s.now, s.row, s.committedAt, s.readers[r]);
  }

  lemma StepKeepsSafe(t: Timing, s: State, a: Action)
    requires Inv(t, s) && Safe(s) && Enabled(t, s, a) && t.gap < t.delay
    ensures Safe(After(t, s, a))
  {
    if a.SetCache? {
      SetKeepsSafe(t, s, a.reader);
    }
  }

  lemma ReachableInv(t: Timing, s: State)
    requires Reachable(t, s)
    ensures Inv(t, s)
    ensures t.gap < t.delay ==> Safe(s)
  {
    var start :| Initial(start) && Runs.Leads(Steps(t), start, s);
    forall x, y | Inv(t, x) && (t.gap < t.delay ==> Safe(x)) && Steps(t)(x, y)
      ensures Inv(t, y) && (t.gap < t.delay ==> Safe(y))
    {
      var a :| Enabled(t, x, a) && After(t, x, a) == y;
      StepKeepsInv(t, x, a);
      if t.gap < t.delay {
        StepKeepsSafe(t, x, a);
      }
    }
    Runs.LeadsKeeps(Steps(t), x => Inv(t, x) && (t.gap < t.delay ==> Safe(x)), start, s);
  }

  // What readers see

  /** Delayed double delete: once the delayed delete of update `v` has taken effect, no reader
      ever again sees a version older than `v`. Only the second delete is needed. */
  lemma NeverOlder(t: Timing, s: State, v: nat)
    requires Reachable(t, s) && t.gap < t.delay && v in s.cleared && s.entry.Some?
    ensures v <= s.entry.value.version <= s.row
  {
    ReachableInv(t, s);
  }

  /** Once the latest update is cleared, the cache is empty or equal to the row, whatever
      readers are still under way. */
  lemma SettledCacheIsRow(t: Timing, s: State)
    requires Reachable(t, s) && t.gap < t.delay && (s.row > 0 ==> s.row in s.cleared)
    ensures s.entry.None? || s.entry.value.version == s.row
  {
    ReachableInv(t, s);
  }

  /** The backstop, deletes or not: a version can be seen for at most `gap + ttl` after the
      commit that replaced it. */
  lemma StalenessIsBounded(t: Timing, s: State, v: nat)
    requires Reachable(t, s) && Visible(t, s) && s.entry.value.version < v <= s.row
    ensures v in s.committedAt && s.now < s.committedAt[v] + t.gap + t.ttl
  {
    ReachableInv(t, s);
    assert ReadBefore(s.row, s.committedAt, s.entry.value.version, s.entry.value.setAt - t.gap);
  }

  // The condition is exact

  lemma Then(t: Timing, start: State, s: State, a: Action)
    requires Runs.Leads(Steps(t), start, s) && Enabled(t, s, a)
    ensures Runs.Leads(Steps(t), start, After(t, s, a))
  {
    assert Steps(t)(s, After(t, s, a));
    Runs.LeadsByStep(Steps(t), s, After(t, s, a));
    Runs.LeadsOnwards(Steps(t), start, s, After(t, s, a));
  }

  /** A reader as slow as the delay: it reads, the row is updated, both deletes succeed, and
      the reader's SET brings the old version back. */
  lemma SlowReaderBreaksSafety(t: Timing)
    requires t.gap >= t.delay
    ensures exists s :: Reachable(t, s) && !Safe(s)
  {
    var s0 := State(0, 0, None, map[], map[], map[], {});
    Runs.LeadsNowhere(Steps(t), s0);
    Then(t, s0, s0, ReadMiss(0));
    var s1 := After(t, s0, ReadMiss(0));
    Then(t, s0, s1, Update);
    var s2 := After(t, s1, Update);
    Then(t, s0, s2, FirstDelete(1, true));
    var s3 := After(t, s2, FirstDelete(1, true));
    Then(t, s0, s3, Tick(t.delay));
    var s4 := After(t, s3, Tick(t.delay));
    Then(t, s0, s4, SecondDelete(1, true));
    var s5 := After(t, s4, SecondDelete(1, true));
    Then(t, s0, s5, SetCache(0));
    var s6 := After(t, s5, SetCache(0));
    assert 1 in s6.cleared && s6.entry == Some(Entry(0, t.delay));
    assert Reachable(t, s6);
  }

  /** The double delete is safe in every run exactly when readers are faster than the delay. */
  lemma SafeIffReadersAreFaster(t: Timing)
    ensures (forall s | Reachable(t, s) :: Safe(s)) <==> t.gap < t.delay
  {
    if t.gap < t.delay {
      forall s | Reachable(t, s)
        ensures Safe(s)
      {
        ReachableInv(t, s);
      }
    } else {
      SlowReaderBreaksSafety(t);
    }
  }

  // The code, run without interruption, is a run of these steps

  /** What the UPDATE did, and whether the caller was told. */
  datatype UpdateFate = RowChanged | NothingChanged | UpdateFailed | UpdateUnreported

  /** Who wrote the post, asked when the UPDATE changed nothing. */
  datatype OwnerLookup = Owner(id: int) | NoSuchPost | LookupFailed

  datatype UpdateAnswer = Updated | Unchanged | PostNotFound | Forbidden | UpdateError

  class Post {
    const timing: Timing
    var state: State

    /** GetPostById up to the vote count. `gone` says what time passes between database read
        and SET; None is an error. */
    method GetPostById(reader: int, getFails: bool, readFails: bool, gone: nat, setFails: bool)
      returns (version: Option<nat>)
      requires reader !in state.readers && gone <= timing.gap
      modifies this`state
      ensures Runs.Leads(Steps(timing), old(state), state)
      ensures version.Some? && !getFails && Visible(timing, old(state)) ==>
        version.value == old(state).entry.value.version && state == old(state)
      ensures version.Some? && (getFails || !Visible(timing, old(state))) ==> version.value == state.row
      ensures version.None? ==> readFails && state == old(state)
      ensures !getFails && !Visible(timing, old(state)) && !readFails && !setFails ==>
        state.entry == Some(Entry(state.row, state.now))
      ensures state.row == old(state).row && state.readers == old(state).readers
    {
      Runs.LeadsNowhere(Steps(timing), state);
      if !getFails && Visible(timing, state) {
        return Some(state.entry.value.version);
      }
      if readFails {
        return None;
      }
      version := Some(state.row);
      if getFails {
        return;
      }
      ghost var s0 := state;
      ghost var s1 := After(timing, s0, ReadMiss(reader));
      ghost var s2 := After(timing, s1, Tick(gone));
      Then(timing, s0, s0, ReadMiss(reader));
      Then(timing, s0, s1, Tick(gone));
      Then(timing, s0, s2, SetCache(reader));
      Then(timing, s0, s2, SetFails(reader));
      assert s2.readers - {reader} == s0.readers;
      state := state.(now := state.now + gone);
      if !setFails {
        state := state.(entry := Some(Entry(version.value, state.now)));
      }
    }

    /** UpdatePost. Only a row that changed, and was reported as changed, is deleted from the
        cache, now and by a timer again later, whatever became of the first delete. */
    method UpdatePost(author: int, fate: UpdateFate, owner: OwnerLookup, effective: bool) returns (r: UpdateAnswer)
      modifies this`state
      ensures Runs.Leads(Steps(timing), old(state), state)
      ensures fate == RowChanged <==> r == Updated
      ensures fate in {UpdateFailed, UpdateUnreported} ==> r == UpdateError
      ensures fate == NothingChanged ==> state == old(state)
      ensures fate == NothingChanged && owner == NoSuchPost ==> r == PostNotFound
      ensures fate == NothingChanged && owner.Owner? ==> r == (if owner.id == author then Unchanged else Forbidden)
      ensures fate == NothingChanged && owner == LookupFailed ==> r == UpdateError
      ensures fate == UpdateFailed ==> state == old(state)
      ensures fate in {RowChanged, UpdateUnreported} ==> state.row == old(state).row + 1
      ensures r == Updated ==>
        state.row in state.writers && state.writers[state.row] == Waiting(state.now + timing.delay)
      ensures r == Updated && effective ==> state.entry == None
    {
      Runs.LeadsNowhere(Steps(timing), state);
      if fate == UpdateFailed {
        return UpdateError;
      }
      if fate == NothingChanged {
        match owner
        case NoSuchPost => return PostNotFound;
        case LookupFailed => return UpdateError;
        case Owner(id) => return if id != author then Forbidden else Unchanged;
      }
      Then(timing, state, state, Update);
      Then(timing, state, After(timing, state, Update), FirstDelete(state.row + 1, effective));
      state := After(timing, state, Update);
      if fate == UpdateUnreported {
        return UpdateError;
      }
      state := After(timing, state, FirstDelete(state.row, effective));
      r := Updated;
    }

    /** The timer of an update goes off. */
    method DeleteAgain(update: nat, effective: bool)
      requires update in state.writers && state.writers[update].Waiting? && state.writers[update].due <= state.now
      modifies this`state
      ensures Runs.Leads(Steps(timing), old(state), state)
      ensures effective ==> state.entry == None && update in state.cleared
      ensures state.writers == old(state).writers - {update}
    {
      Runs.LeadsNowhere(Steps(timing), state);
      Then(timing, state, state, SecondDelete(update, effective));
      state := After(timing, state, SecondDelete(update, effective));
    }
  }
}
