/** What the consumer reads out of a delivery, and the retry counter that travels with it. */
module VoteDelivery {
  import opened VoteModel
  import opened OutboxCodec
  import opened VoteBroker

  /** The event of a message, if its body is JSON and the event is valid. */
  function EventIn(m: Message): Option<VoteEvent> {
    match m.body
    case Garbage(_) => None
    case Json(w) =>
      match ValidateVoteEvent(w)
      case Success(e) => Some(e)
      case Failure(_) => None
  }

  /** What the relay publishes for an event. */
  function MessageOf(e: VoteEvent): Message {
    Message(Json(WireOf(e)), Absent)
  }

  lemma MessageCarriesEvent(e: VoteEvent, retries: Header)
    requires WellFormed(e)
    ensures EventIn(Message(Json(WireOf(e)), retries)) == Some(e)
  {
    ValidateWire(e);
  }

  // The retry counter

  const INT32_LIMIT := 0x8000_0000

  function Int32(n: int): (r: int)
    ensures -INT32_LIMIT <= r < INT32_LIMIT
    ensures -INT32_LIMIT <= n < INT32_LIMIT ==> r == n
  {
    (n + INT32_LIMIT) % (2 * INT32_LIMIT) - INT32_LIMIT
  }

  function Int64(n: int): (r: int)
    ensures -INT64_LIMIT <= r < INT64_LIMIT
    ensures -INT64_LIMIT <= n < INT64_LIMIT ==> r == n
  {
    (n + INT64_LIMIT) % (2 * INT64_LIMIT) - INT64_LIMIT
  }

  /** headerInt. Numbers arrive as Go integers of at most 64 bits. */
  function HeaderInt(h: Header): (n: int)
    ensures -INT64_LIMIT <= n < INT64_LIMIT
  {
    match h
    case Absent => 0
    case Number(n) => Int64(n)
    case Text(s) => AtoiValue(s)
    case Other => 0
  }

  function NextCount(h: Header): int {
    Int64(HeaderInt(h) + 1)
  }

  /** The copy a failed delivery puts in the retry queue. */
  function RetryCopy(m: Message): Message {
    Message(m.body, Number(Int32(NextCount(m.retries))))
  }

  /** The copy a rejected delivery puts in the dead-letter queue. */
  function DeadCopy(m: Message): Message {
    Message(m.body, Number(HeaderInt(m.retries)))
  }

  predicate Exhausted(m: Message, maxRetries: nat) {
    NextCount(m.retries) > maxRetries
  }

  /** The message in circulation after `failures` failed persists; None once dead-lettered. */
  function AfterFailures(m: Message, failures: nat, maxRetries: nat): Option<Message> {
    if failures == 0 then Some(m)
    else
      match AfterFailures(m, failures - 1, maxRetries)
      case None => None
      case Some(c) => if Exhausted(c, maxRetries) then None else Some(RetryCopy(c))
  }

  /** Bounded retries: the counter of a relayed message equals its number of failures, and the
      message is dead-lettered by failure number `maxRetries + 1`, no sooner and no later. */
  lemma {:induction false} RetriesAreBounded(m: Message, failures: nat, maxRetries: nat)
    requires m.retries == Absent && maxRetries < INT32_LIMIT
    ensures AfterFailures(m, failures, maxRetries).None? <==> failures > maxRetries
    ensures 0 < failures <= maxRetries ==>
      AfterFailures(m, failures, maxRetries) == Some(Message(m.body, Number(failures)))
  {
    if failures > 0 {
      RetriesAreBounded(m, failures - 1, maxRetries);
    }
  }

  /** A limit of 2^31 or more is never reached: the counter is stored as a 32-bit number. */
  lemma {:induction false} WideLimitNeverReached(m: Message, failures: nat, maxRetries: nat)
    requires m.retries == Absent && maxRetries >= INT32_LIMIT
    ensures var c := AfterFailures(m, failures, maxRetries); c.Some? && HeaderInt(c.value.retries) < INT32_LIMIT
  {
    if failures > 0 {
      WideLimitNeverReached(m, failures - 1, maxRetries);
    }
  }

  /** Exactly when the retry limit works at all. */
  lemma RetriesEndIffLimitFits(m: Message, maxRetries: nat)
    requires m.retries == Absent
    ensures (exists failures :: AfterFailures(m, failures, maxRetries).None?) <==> maxRetries < INT32_LIMIT
  {
    if maxRetries < INT32_LIMIT {
      RetriesAreBounded(m, maxRetries + 1, maxRetries);
    } else {
      forall failures: nat
        ensures AfterFailures(m, failures, maxRetries).Some?
      {
        WideLimitNeverReached(m, failures, maxRetries);
      }
    }
  }

  /** Whoever put the header there, a copy counts one more than its original and never beyond
      the limit, exactly as long as neither the addition nor the 32-bit header wraps. */
  lemma CopyCountsUp(m: Message, maxRetries: nat)
    requires !Exhausted(m, maxRetries) && maxRetries < INT32_LIMIT
    ensures HeaderInt(RetryCopy(m).retries) == HeaderInt(m.retries) + 1
      <==> -INT32_LIMIT - 1 <= HeaderInt(m.retries) < INT64_LIMIT - 1
    ensures -INT32_LIMIT - 1 <= HeaderInt(m.retries) < INT64_LIMIT - 1 ==>
      HeaderInt(RetryCopy(m).retries) <= maxRetries
  {
    var c := HeaderInt(m.retries);
    var n := Int64(c + 1);
    assert n == if c < INT64_LIMIT - 1 then c + 1 else -INT64_LIMIT;
    assert HeaderInt(RetryCopy(m).retries) == Int32(n);
  }
}
