/** The part of Redis the repository uses: typed keys, the commands on them, and the
    connection whose commands can fail before or after taking effect. */
module RedisStore {
  import opened VoteModel
  import Totals

  /** The key names of dao/redis/keys.go; `Listing` is the cached per-community
      intersection, whose name extends `post:time` or `post:score`. */
  datatype Key =
    | PostTime
    | PostScore
    | PostVoted(post: int)
    | PostVersions(post: int)
    | Community(community: int)
    | Listing(byScore: bool, community: int)
    | VoteOutbox
    | StateMarker
    | Foreign(name: string)

  /** The consumer group of the relay: the last id handed out, and who holds what unacknowledged. */
  datatype Group = Group(delivered: nat, pending: map<nat, string>)

  datatype Stream = Stream(entries: map<nat, VoteEvent>, lastId: nat, group: Option<Group>)

  datatype Value =
    | ZSet(scores: map<int, int>)
    | Hash(fields: map<int, int>)
    | Members(ids: set<int>)
    | Log(stream: Stream)
    | Text(text: string)

  datatype Kind = ZSetKind | HashKind | SetKind | StreamKind | StringKind

  type Keyspace = map<Key, Value>

  const EMPTY_STREAM := Stream(map[], 0, None)

  function KindOf(v: Value): Kind {
    match v
    case ZSet(_) => ZSetKind
    case Hash(_) => HashKind
    case Members(_) => SetKind
    case Log(_) => StreamKind
    case Text(_) => StringKind
  }

  /** `TYPE key` is `none` or the expected type. */
  predicate TypeIs(ks: Keyspace, k: Key, kind: Kind) {
    k in ks ==> KindOf(ks[k]) == kind
  }

  // Reading

  function ZSetAt(ks: Keyspace, k: Key): map<int, int> {
    if k in ks && ks[k].ZSet? then ks[k].scores else map[]
  }

  function HashAt(ks: Keyspace, k: Key): map<int, int> {
    if k in ks && ks[k].Hash? then ks[k].fields else map[]
  }

  function MembersAt(ks: Keyspace, k: Key): set<int> {
    if k in ks && ks[k].Members? then ks[k].ids else {}
  }

  function TextAt(ks: Keyspace, k: Key): string {
    if k in ks && ks[k].Text? then ks[k].text else ""
  }

  function Outbox(ks: Keyspace): Stream {
    if VoteOutbox in ks && ks[VoteOutbox].Log? then ks[VoteOutbox].stream else EMPTY_STREAM
  }

  /** A user's current direction on a post; an absent member counts as 0. */
  function Direction(ks: Keyspace, user: int, post: int): int {
    Totals.ValueOr(ZSetAt(ks, PostVoted(post)), user, 0)
  }

  function Version(ks: Keyspace, user: int, post: int): int {
    Totals.ValueOr(HashAt(ks, PostVersions(post)), user, 0)
  }

  predicate Indexed(ks: Keyspace, post: int) {
    post in ZSetAt(ks, PostTime) && post in ZSetAt(ks, PostScore)
  }

  // Commands. A command on a key of another type is an error, hence the preconditions.

  function ZAdd(ks: Keyspace, k: Key, score: int, member: int): Keyspace
    requires TypeIs(ks, k, ZSetKind)
  {
    ks[k := ZSet(ZSetAt(ks, k)[member := score])]
  }

  function ZIncrBy(ks: Keyspace, k: Key, delta: int, member: int): Keyspace
    requires TypeIs(ks, k, ZSetKind)
  {
    ks[k := ZSet(ZSetAt(ks, k)[member := Totals.ValueOr(ZSetAt(ks, k), member, 0) + delta])]
  }

  /** A sorted set that loses its last member disappears from the keyspace. */
  function ZRem(ks: Keyspace, k: Key, member: int): Keyspace
    requires TypeIs(ks, k, ZSetKind)
  {
    var rest := ZSetAt(ks, k) - {member};
    if rest == map[] then ks - {k} else ks[k := ZSet(rest)]
  }

  function HSet(ks: Keyspace, k: Key, field: int, value: int): Keyspace
    requires TypeIs(ks, k, HashKind)
  {
    ks[k := Hash(HashAt(ks, k)[field := value])]
  }

  function SAdd(ks: Keyspace, k: Key, member: int): Keyspace
    requires TypeIs(ks, k, SetKind)
  {
    ks[k := Members(MembersAt(ks, k) + {member})]
  }

  /** `XADD key *`: the new id is above every id the stream ever had. */
  function Appended(s: Stream, e: VoteEvent): Stream {
    s.(entries := s.entries[s.lastId + 1 := e], lastId := s.lastId + 1)
  }

  function XAdd(ks: Keyspace, k: Key, e: VoteEvent): Keyspace
    requires k == VoteOutbox && TypeIs(ks, k, StreamKind)
  {
    ks[k := Log(Appended(Outbox(ks), e))]
  }

  function Set(ks: Keyspace, k: Key, text: string): Keyspace {
    ks[k := Text(text)]
  }

  function Del(ks: Keyspace, dead: set<Key>): Keyspace {
    ks - dead
  }

  /** What can happen to a command sent over the network. */
  datatype Fault = Done | Lost | Unreported

  /** The write commands sent outside scripts. */
  datatype Command =
    | SetText(key: Key, text: string)
    | DelKeys(dead: set<Key>)
    | ZAddOne(key: Key, score: int, member: int)
    | SAddOne(key: Key, member: int)
    | HSetOne(key: Key, field: int, value: int)

  predicate Fits(ks: Keyspace, c: Command) {
    match c
    case SetText(_, _) => true
    case DelKeys(_) => true
    case ZAddOne(k, _, _) => TypeIs(ks, k, ZSetKind)
    case SAddOne(k, _) => TypeIs(ks, k, SetKind)
    case HSetOne(k, _, _) => TypeIs(ks, k, HashKind)
  }

  /** A command on a key of another type changes nothing and is answered with an error. */
  function Effect(ks: Keyspace, c: Command): Keyspace {
    if !Fits(ks, c) then ks
    else
      match c
      case SetText(k, text) => Set(ks, k, text)
      case DelKeys(dead) => Del(ks, dead)
      case ZAddOne(k, score, member) => ZAdd(ks, k, score, member)
      case SAddOne(k, member) => SAdd(ks, k, member)
      case HSetOne(k, field, value) => HSet(ks, k, field, value)
  }

  function RunAll(ks: Keyspace, cs: seq<Command>): Keyspace
    decreases |cs|
  {
    if cs == [] then ks else Effect(RunAll(ks, cs[..|cs| - 1]), cs[|cs| - 1])
  }

  predicate AllFit(ks: Keyspace, cs: seq<Command>)
    decreases |cs|
  {
    cs == [] || (AllFit(ks, cs[..|cs| - 1]) && Fits(RunAll(ks, cs[..|cs| - 1]), cs[|cs| - 1]))
  }

  lemma {:induction false} RunAppend(ks: Keyspace, one: seq<Command>, two: seq<Command>)
    ensures RunAll(ks, one + two) == RunAll(RunAll(ks, one), two)
    ensures AllFit(ks, one) && AllFit(RunAll(ks, one), two) ==> AllFit(ks, one + two)
    decreases |two|
  {
    if two == [] {
      assert one + two == one;
    } else {
      var n := |two| - 1;
      RunAppend(ks, one, two[..n]);
      assert (one + two)[..|one + two| - 1] == one + two[..n];
    }
  }

  /** A Redis connection. `faults` says what happens to the next commands; when it is
      empty every further command succeeds. */
  class RedisServer {
    var keys: Keyspace
    var faults: seq<Fault>

    /** Consumes the fate of one command or script. */
    method NextFault() returns (f: Fault)
      modifies this`faults
      ensures old(faults) == [] ==> f == Done && faults == []
      ensures old(faults) != [] ==> f == old(faults)[0] && faults == old(faults)[1..]
    {
      f := Done;
      if faults != [] {
        f := faults[0];
        faults := faults[1..];
      }
    }

    method Send(c: Command) returns (ok: bool)
      modifies this
      ensures keys == old(keys) || keys == Effect(old(keys), c)
      ensures ok ==> keys == Effect(old(keys), c) && Fits(old(keys), c)
      ensures old(faults) == [] ==> faults == [] && (ok <==> Fits(old(keys), c))
    {
      var fault := NextFault();
      if fault == Lost {
        return false;
      }
      ok := fault == Done && Fits(keys, c);
      keys := Effect(keys, c);
    }

    /** A pipeline: the commands run one after the other, without isolation, until the
        connection fails. */
    method SendAll(cs: seq<Command>) returns (ok: bool)
      modifies this
      ensures exists n :: 0 <= n <= |cs| && keys == RunAll(old(keys), cs[..n])
      ensures ok ==> keys == RunAll(old(keys), cs)
      ensures old(faults) == [] ==> faults == []
      ensures old(faults) == [] && AllFit(old(keys), cs) ==> ok
    {
      ok := true;
      var i := 0;
      while i < |cs|
        invariant 0 <= i <= |cs|
        invariant keys == RunAll(old(keys), cs[..i])
        invariant old(faults) == [] ==> faults == []
        invariant old(faults) == [] && AllFit(old(keys), cs) ==> ok && AllFit(old(keys), cs[..i])
      {
        assert cs[..i + 1][..i] == cs[..i];
        AllFitPrefix(old(keys), cs, i + 1);
        var fault := NextFault();
        if fault == Lost {
          return false;
        }
        ok := ok && Fits(keys, cs[i]);
        keys := Effect(keys, cs[i]);
        i := i + 1;
        if fault == Unreported {
          return false;
        }
      }
      assert cs[..|cs|] == cs;
    }

    /** A read; only its failure matters. */
    method Query() returns (ok: bool)
      modifies this`faults
      ensures old(faults) == [] ==> ok && faults == []
    {
      var fault := NextFault();
      ok := fault == Done;
    }
  }

  lemma {:induction false} AllFitPrefix(ks: Keyspace, cs: seq<Command>, n: nat)
    requires n <= |cs|
    ensures AllFit(ks, cs) ==> AllFit(ks, cs[..n])
    decreases |cs|
  {
    if n == |cs| {
      assert cs[..n] == cs;
    } else {
      var m := |cs| - 1;
      AllFitPrefix(ks, cs[..m], n);
      assert cs[..m][..n] == cs[..n];
    }
  }
}
