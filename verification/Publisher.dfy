/** RabbitMQ: the queues of the topology, and mq/rabbitmq.go's confirmed publishing. */
module VoteBroker {
  import opened VoteModel
  import opened OutboxCodec

  /** A message body: JSON of a vote event, or bytes that are not. */
  datatype Body = Garbage(bytes: string) | Json(event: WireEvent)

  /** The value of the `x-retry-count` header as the AMQP library delivers it. */
  datatype Header = Absent | Number(n: int) | Text(s: string) | Other

  datatype Message = Message(body: Body, retries: Header)

  datatype Exchange = MainExchange | RetryExchange | DeadExchange

  /** Where messages are. `open` and `settled` together are the unacknowledged deliveries:
      a delivery is settled once its handler knows the event is safe elsewhere, which only
      the proofs need to tell apart. */
  datatype Queues = Queues(
    main: multiset<Message>, open: multiset<Message>, settled: multiset<Message>,
    retry: multiset<Message>, dead: multiset<Message>)

  function Stored(q: Queues, x: Exchange, m: Message): Queues {
    match x
    case MainExchange => q.(main := q.main + multiset{m})
    case RetryExchange => q.(retry := q.retry + multiset{m})
    case DeadExchange => q.(dead := q.dead + multiset{m})
  }

  function StoredIf(b: bool, q: Queues, x: Exchange, m: Message): Queues {
    if b then Stored(q, x, m) else q
  }

  function Settled(q: Queues, m: Message): Queues {
    q.(open := q.open - multiset{m}, settled := q.settled + multiset{m})
  }

  function Acked(q: Queues, m: Message): Queues {
    q.(settled := q.settled - multiset{m})
  }

  function Requeued(q: Queues, m: Message): Queues {
    q.(open := q.open - multiset{m}, main := q.main + multiset{m})
  }

  class Broker {
    var queues: Queues

    method Store(x: Exchange, m: Message)
      modifies this
      ensures queues == Stored(old(queues), x, m)
    {
      queues := Stored(queues, x, m);
    }

    /** Bookkeeping: the handler of `m` has proof that its event is safe. */
    method Settle(m: Message)
      requires m in queues.open
      modifies this
      ensures queues == Settled(old(queues), m)
    {
      queues := Settled(queues, m);
    }

    /** `basic.ack` of a delivery; it fails when the channel is gone. */
    method Ack(m: Message, fails: bool) returns (ok: bool)
      requires m in queues.settled
      modifies this
      ensures ok <==> !fails
      ensures queues == if ok then Acked(old(queues), m) else old(queues)
    {
      ok := !fails;
      if ok {
        queues := Acked(queues, m);
      }
    }

    /** `basic.nack` with requeue. */
    method NackRequeue(m: Message, fails: bool)
      requires m in queues.open
      modifies this
      ensures queues == if fails then old(queues) else Requeued(old(queues), m)
    {
      if !fails {
        queues := Requeued(queues, m);
      }
    }
  }

  // Confirmed publishing

  /** What the broker does with one published message: `confirm` is the ack or nack it sends,
      if it sends one. */
  datatype Fate = Fate(routed: bool, stored: bool, confirm: Option<bool>)

  /** RabbitMQ's side of the bargain: only routed messages are stored, and a routed message is
      acked only after it is stored. */
  predicate Honest(f: Fate) {
    && (f.stored ==> f.routed)
    && (f.routed && f.confirm == Some(true) ==> f.stored)
  }

  datatype Notice = Returned(tag: nat) | Confirmed(tag: nat, ack: bool)

  /** The notices for one message, in the order the broker sends them: `basic.return` of an
      unroutable mandatory message comes before its confirm. */
  function NoticesFor(f: Fate, tag: nat): seq<Notice> {
    (if !f.routed then [Returned(tag)] else [])
    + (match f.confirm case Some(ack) => [Confirmed(tag, ack)] case None => [])
  }

  /** A publishing channel in confirm mode: the last delivery tag, the notices still on the
      wire, and the two one-place Go channels the library dispatches them to. */
  datatype Channel = Channel(
    tag: nat, wire: seq<Notice>, returned: seq<nat>, confirms: seq<(nat, bool)>, closed: bool)

  /** What happens while Publish waits: the library dispatches the next notice, `select` picks
      a ready Go channel, or the AMQP channel dies. When the list ends the timeout fires. */
  datatype Waiting = Dispatch | TakeReturn | TakeConfirm | ChannelDies

  /** The environment of one call. */
  datatype Surroundings = Surroundings(
    connectionLost: bool, channelLost: bool, dialOk: bool, openOk: bool, confirmModeOk: bool, sendOk: bool,
    fate: Fate, waiting: seq<Waiting>)

  /** The library's reader hands notices over in order and blocks on a full Go channel. */
  function Dispatched(c: Channel): Channel {
    if c.wire == [] then c
    else
      match c.wire[0]
      case Returned(t) => if c.returned != [] then c else c.(wire := c.wire[1..], returned := [t])
      case Confirmed(t, ack) => if c.confirms != [] then c else c.(wire := c.wire[1..], confirms := [(t, ack)])
  }

  /** A channel with nothing outstanding: every message it ever carried has been answered and
      the answers have been read. */
  predicate Idle(c: Channel) {
    c.wire == [] && c.returned == [] && c.confirms == []
  }

  /** The notices of message `tag`, and nothing else, are between broker and reader: the first
      `k` are dispatched, the rest are on the wire. */
  predicate Underway(c: Channel, f: Fate, tag: nat, k: nat) {
    && k <= |NoticesFor(f, tag)|
    && c.wire == NoticesFor(f, tag)[k..]
    && c.returned == (if !f.routed && k >= 1 then [tag] else [])
    && c.confirms == (if f.confirm.Some? && k == |NoticesFor(f, tag)| then [(tag, f.confirm.value)] else [])
  }

  lemma DispatchStep(c: Channel, f: Fate, tag: nat, k: nat)
    requires Underway(c, f, tag, k)
    ensures Underway(Dispatched(c), f, tag, if k < |NoticesFor(f, tag)| then k + 1 else k)
  {
    if c.wire != [] {
      assert c.wire[0] == NoticesFor(f, tag)[k];
      assert c.wire[1..] == NoticesFor(f, tag)[k + 1..];
    }
  }

  /** An environment in which nothing goes wrong. */
  predicate Healthy(env: Surroundings) {
    && env.dialOk && env.openOk && env.confirmModeOk && env.sendOk
    && env.fate == Fate(true, true, Some(true))
    && env.waiting == [Dispatch, TakeConfirm]
  }

  class Client {
    var connected: bool
    /** The publishing channel with its confirm and return subscriptions. */
    var publisher: Option<Channel>

    /** An open channel is kept for the next call only when nothing is outstanding on it. */
    ghost predicate Valid()
      reads this
    {
      publisher.Some? && !publisher.value.closed ==> Idle(publisher.value)
    }

    /** An open channel on a live connection. */
    predicate Open()
      reads this
    {
      connected && publisher.Some? && !publisher.value.closed
    }

    constructor ()
      ensures Valid() && !connected
    {
      connected, publisher := false, None;
    }

    method Invalidate()
      modifies this`publisher
      ensures publisher == None
    {
      publisher := None;
    }

    /** connectLocked and publisherLocked. */
    method OpenPublisher(env: Surroundings) returns (ok: bool)
      requires Valid()
      modifies this
      ensures Valid()
      ensures old(Open()) ==> ok && connected && publisher == old(publisher)
      ensures !old(Open()) && ok ==> connected && publisher == Some(Channel(0, [], [], [], false))
      ensures !ok ==> !Open()
      ensures env.dialOk && env.openOk && env.confirmModeOk ==> ok
    {
      if !connected {
        if !env.dialOk {
          return false;
        }
        connected := true;
        publisher := None;
      }
      if publisher.Some? && !publisher.value.closed {
        return true;
      }
      if !env.openOk {
        connected := false;
        return false;
      }
      if !env.confirmModeOk {
        return false;
      }
      publisher := Some(Channel(0, [], [], [], false));
      ok := true;
    }

    /** The waiting loop after the message was sent as number `tag`. */
    method AwaitConfirm(fate: Fate, tag: nat, waiting: seq<Waiting>) returns (ok: bool)
      requires publisher.Some? && !publisher.value.closed && Underway(publisher.value, fate, tag, 0)
      modifies this`publisher
      ensures Valid()
      ensures ok ==> fate.routed && fate.confirm == Some(true)
      ensures fate.routed && fate.confirm == Some(true) && waiting == [Dispatch, TakeConfirm] ==> ok
    {
      ghost var k: nat := 0;
      for i := 0 to |waiting|
        invariant publisher.Some? && !publisher.value.closed && Underway(publisher.value, fate, tag, k)
        invariant fate.routed && fate.confirm == Some(true) && waiting == [Dispatch, TakeConfirm] ==> i == k <= 1
      {
        var channel := publisher.value;
        match waiting[i]
        case Dispatch =>
          DispatchStep(channel, fate, tag, k);
          publisher := Some(Dispatched(channel));
          k := if k < |NoticesFor(fate, tag)| then k + 1 else k;
        case TakeReturn =>
          if channel.returned != [] {
            Invalidate();
            return false;
          }
        case TakeConfirm =>
          if channel.confirms != [] {
            var (_, ack) := channel.confirms[0];
            publisher := Some(channel.(confirms := channel.confirms[1..]));
            if !ack || channel.returned != [] {
              Invalidate();
              return false;
            }
            return true;
          }
        case ChannelDies =>
          Invalidate();
          return false;
      }
      Invalidate();
      ok := false;
    }

    /** Publish. `ok` means this very message was acked and not returned; every other outcome
        leaves it open whether the broker stored the message. */
    method Publish(broker: Broker, exchange: Exchange, message: Message, env: Surroundings)
      returns (ok: bool, ghost stored: bool)
      requires Valid()
      modifies this, broker
      ensures Valid()
      ensures broker.queues == StoredIf(stored, old(broker.queues), exchange, message)
      ensures stored ==> env.fate.stored
      ensures ok ==> env.fate.routed && env.fate.confirm == Some(true)
      ensures ok && Honest(env.fate) ==> stored
      ensures Healthy(env) ==> ok
    {
      if env.connectionLost {
        connected := false;
      }
      if publisher.Some? && (env.connectionLost || env.channelLost) {
        publisher := Some(publisher.value.(closed := true));
      }
      stored := false;
      ok := OpenPublisher(env);
      if !ok {
        return;
      }
      stored := env.fate.stored;
      if env.fate.stored {
        broker.Store(exchange, message);
      }
      if !env.sendOk {
        Invalidate();
        ok := false;
        return;
      }
      var tag := publisher.value.tag + 1;
      publisher := Some(publisher.value.(tag := tag, wire := NoticesFor(env.fate, tag)));
      ok := AwaitConfirm(env.fate, tag, env.waiting);
    }
  }
}
