/** Events as text: what the Lua script writes to the stream, what the relay reads back,
    and what the consumer accepts. */
module OutboxCodec {
  import opened VoteModel

  // Go's strconv

  datatype ParseError = SyntaxError | RangeError

  function Digit(d: nat): char
    requires d < 10
  {
    '0' + d as char
  }

  predicate IsDigit(c: char) {
    '0' <= c <= '9'
  }

  predicate AllDigits(s: string) {
    forall i | 0 <= i < |s| :: IsDigit(s[i])
  }

  /** Decimal digits of `n`, most significant first. */
  function Digits(n: nat): (s: string)
    ensures |s| > 0
    ensures AllDigits(s)
  {
    if n < 10 then [Digit(n)] else Digits(n / 10) + [Digit(n % 10)]
  }

  function FormatInt(n: int): string {
    if n < 0 then "-" + Digits(-n) else Digits(n)
  }

  function DigitsValue(s: string): nat
    requires AllDigits(s)
  {
    if s == "" then 0
    else
      assert IsDigit(s[|s| - 1]);
      10 * DigitsValue(s[..|s| - 1]) + (s[|s| - 1] as int - '0' as int)
  }

  /** `strconv.ParseInt(s, 10, bits)`, with `limit` = 2^(bits-1). Out of range is an error of
      its own; the value Go returns beside it is the nearest bound. */
  function ParseInt(s: string, limit: int): (r: Result<int, ParseError>)
    ensures r.Success? ==> -limit <= r.value < limit
  {
    var body := if s != "" && (s[0] == '+' || s[0] == '-') then s[1..] else s;
    if body == "" || !AllDigits(body) then Failure(SyntaxError)
    else
      var n: int := if s[0] == '-' then 0 - DigitsValue(body) else DigitsValue(body);
      if -limit <= n < limit then Success(n) else Failure(RangeError)
  }

  /** The number `strconv.Atoi` returns when its error is ignored: the nearest bound when the
      digits are out of range, 0 when they are no number. */
  function AtoiValue(s: string): (n: int)
    ensures -INT64_LIMIT <= n < INT64_LIMIT
  {
    match ParseInt(s, INT64_LIMIT)
    case Success(n) => n
    case Failure(SyntaxError) => 0
    case Failure(RangeError) => if s != "" && s[0] == '-' then -INT64_LIMIT else INT64_LIMIT - 1
  }

  const INT8_LIMIT := 0x80
  const INT64_LIMIT := 0x8000_0000_0000_0000

  lemma {:induction false} DigitsRoundTrip(n: nat)
    ensures DigitsValue(Digits(n)) == n
  {
    if n >= 10 {
      DigitsRoundTrip(n / 10);
      assert Digits(n)[..|Digits(n)| - 1] == Digits(n / 10);
    }
  }

  lemma ParseFormat(n: int, limit: int)
    ensures ParseInt(FormatInt(n), limit) == if -limit <= n < limit then Success(n) else Failure(RangeError)
  {
    DigitsRoundTrip(if n < 0 then -n else n);
    if n < 0 {
      assert FormatInt(n)[1..] == Digits(-n);
    }
  }

  // Lua 5.1's tostring, the C format %.14g

  const LUA_EXACT := 100_000_000_000_000

  function Power10(k: nat): (r: nat)
    ensures r > 0
  {
    if k == 0 then 1 else 10 * Power10(k - 1)
  }

  function RoundHalfEven(n: nat, unit: nat): nat
    requires unit > 0
  {
    var q, rest := n / unit, n % unit;
    if 2 * rest < unit || (2 * rest == unit && q % 2 == 0) then q else q + 1
  }

  function TrimZeros(s: string): string {
    if s != "" && s[|s| - 1] == '0' then TrimZeros(s[..|s| - 1]) else s
  }

  function TwoDigits(n: nat): string {
    if n < 10 then "0" + Digits(n) else Digits(n)
  }

  function Significand(mantissa: nat): (s: string)
    ensures |s| > 0 && IsDigit(s[0])
  {
    var tail := TrimZeros(Digits(mantissa)[1..]);
    [Digits(mantissa)[0]] + (if tail == "" then "" else "." + tail)
  }

  /** Fourteen significant digits: plain decimal below 10^14, exponent notation from there on. */
  function Magnitude(n: nat): (s: string)
    ensures n >= LUA_EXACT ==> |s| > 0 && IsDigit(s[0]) && exists i :: 0 < i < |s| && s[i] == 'e'
  {
    if n < LUA_EXACT then Digits(n)
    else
      var length := |Digits(n)|;
      var rounded := RoundHalfEven(n, Power10(if length >= 14 then length - 14 else 0));
      var (mantissa, exponent) :=
        if rounded >= LUA_EXACT then (rounded / 10, length) else (rounded, length - 1);
      var head := Significand(mantissa);
      var s := head + "e+" + TwoDigits(exponent);
      assert s[|head|] == 'e';
      s
  }

  function LuaToString(n: int): string {
    if n < 0 then "-" + Magnitude(-n) else Magnitude(n)
  }

  lemma NotANumber(s: string, i: nat, limit: int)
    requires i < |s| && IsDigit(s[0]) && !IsDigit(s[i])
    ensures ParseInt(s, limit) == Failure(SyntaxError)
  {
    assert !AllDigits(s);
  }

  /** A number Lua prints in exponent notation is not a decimal integer to Go. */
  lemma LuaToStringParses(n: int, limit: int)
    requires -LUA_EXACT < n
    ensures n < LUA_EXACT ==> LuaToString(n) == FormatInt(n)
    ensures n >= LUA_EXACT ==> ParseInt(LuaToString(n), limit) == Failure(SyntaxError)
  {
    if n >= LUA_EXACT {
      var s := Magnitude(n);
      var i :| 0 < i < |s| && s[i] == 'e';
      NotANumber(s, i, limit);
    }
  }

  // The stream entry

  /** models.VoteEvent, the JSON body between relay and consumer. */
  datatype WireEvent = WireEvent(
    eventId: string, eventType: string, userId: string, postId: string,
    direction: int, version: int, occurredAt: int)

  type Fields = map<string, string>

  /** The field list of the script's XADD. Ids and time arrive as decimal arguments;
      direction and version go through Lua's tostring. */
  function ScriptFields(e: VoteEvent): Fields {
    map[
      "event_id" := e.id,
      "event_type" := VOTE_CHANGED,
      "user_id" := FormatInt(e.user),
      "post_id" := FormatInt(e.post),
      "direction" := LuaToString(e.direction),
      "version" := LuaToString(e.version),
      "occurred_at" := FormatInt(e.occurredAt)]
  }

  datatype DecodeError = MissingField(name: string) | BadNumber(field: string, cause: ParseError)

  function Number(fields: Fields, name: string, limit: int): Result<int, DecodeError>
    requires name in fields
  {
    match ParseInt(fields[name], limit)
    case Success(n) => Success(n)
    case Failure(cause) => Failure(BadNumber(name, cause))
  }

  const FIELD_ORDER := ["event_id", "event_type", "user_id", "post_id", "direction", "version", "occurred_at"]

  function FirstMissing(fields: Fields, names: seq<string>): (r: Option<string>)
    ensures r == None <==> forall i | 0 <= i < |names| :: names[i] in fields
  {
    if names == [] then None
    else if names[0] !in fields then Some(names[0])
    else FirstMissing(fields, names[1..])
  }

  function VoteEventFromStream(fields: Fields): Result<WireEvent, DecodeError> {
    match FirstMissing(fields, FIELD_ORDER)
    case Some(name) => Failure(MissingField(name))
    case None =>
      assert FIELD_ORDER[0] in fields && FIELD_ORDER[1] in fields && FIELD_ORDER[2] in fields
        && FIELD_ORDER[3] in fields && FIELD_ORDER[4] in fields && FIELD_ORDER[5] in fields
        && FIELD_ORDER[6] in fields;
      match (Number(fields, "direction", INT8_LIMIT), Number(fields, "version", INT64_LIMIT),
             Number(fields, "occurred_at", INT64_LIMIT))
      case (Success(direction), Success(version), Success(at)) =>
        Success(WireEvent(fields["event_id"], fields["event_type"], fields["user_id"], fields["post_id"],
                          direction, version, at))
      case (Failure(cause), _, _) => Failure(cause)
      case (_, Failure(cause), _) => Failure(cause)
      case (_, _, Failure(cause)) => Failure(cause)
  }

  function WireOf(e: VoteEvent): WireEvent {
    WireEvent(e.id, VOTE_CHANGED, FormatInt(e.user), FormatInt(e.post), e.direction, e.version, e.occurredAt)
  }

  datatype InvalidEvent =
    | MissingRequiredFields | UnsupportedType | BadDirection | BadUserId | BadPostId

  /** validateVoteEvent, returning the event with its ids as the numbers MySQL stores. */
  function ValidateVoteEvent(w: WireEvent): (r: Result<VoteEvent, InvalidEvent>)
    ensures r.Success? ==>
      && 0 < |r.value.id| <= 64 && r.value.id == w.eventId
      && IsPositiveInt64(r.value.user) && IsPositiveInt64(r.value.post)
      && IsDirection(r.value.direction) && r.value.version > 0 && r.value.occurredAt > 0
  {
    if w.eventId == "" || |w.eventId| > 64 || w.userId == "" || w.postId == ""
      || w.version <= 0 || w.occurredAt <= 0
    then Failure(MissingRequiredFields)
    else if w.eventType != VOTE_CHANGED then Failure(UnsupportedType)
    else if !IsDirection(w.direction) then Failure(BadDirection)
    else
      match ParseInt(w.userId, INT64_LIMIT)
      case Failure(_) => Failure(BadUserId)
      case Success(user) =>
        if user <= 0 then Failure(BadUserId)
        else
          match ParseInt(w.postId, INT64_LIMIT)
          case Failure(_) => Failure(BadPostId)
          case Success(post) =>
            if post <= 0 then Failure(BadPostId)
            else Success(VoteEvent(w.eventId, user, post, w.direction, w.version, w.occurredAt))
  }

  /** Can the relay read the stream entry of `e`? */
  predicate Readable(e: VoteEvent) {
    VoteEventFromStream(ScriptFields(e)).Success?
  }

  /** By `OutboxRoundTrip`, exactly the emitted events the relay can read. */
  predicate Decodable(e: VoteEvent) {
    e.version < LUA_EXACT
  }

  /** The consumer accepts what the relay publishes for `e`, and gets `e` back. */
  lemma ValidateWire(e: VoteEvent)
    requires WellFormed(e)
    ensures ValidateVoteEvent(WireOf(e)) == Success(e)
  {
    ParseFormat(e.user, INT64_LIMIT);
    ParseFormat(e.post, INT64_LIMIT);
  }

  /** The outbox round trip, and exactly how far it reaches: an event comes back unchanged and
      is accepted if its version is below 10^14; from 10^14 on the relay cannot read it at all. */
  lemma OutboxRoundTrip(e: VoteEvent)
    requires WellFormed(e)
    ensures Readable(e) <==> Decodable(e)
    ensures Readable(e) ==> VoteEventFromStream(ScriptFields(e)) == Success(WireOf(e))
    ensures Readable(e) ==> ValidateVoteEvent(WireOf(e)) == Success(e)
  {
    var fields := ScriptFields(e);
    assert FirstMissing(fields, FIELD_ORDER) == None;
    LuaToStringParses(e.direction, INT8_LIMIT);
    LuaToStringParses(e.version, INT64_LIMIT);
    ParseFormat(e.direction, INT8_LIMIT);
    ParseFormat(e.version, INT64_LIMIT);
    ParseFormat(e.occurredAt, INT64_LIMIT);
    ValidateWire(e);
  }
}
