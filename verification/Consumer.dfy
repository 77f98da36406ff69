/** worker/vote_consumer.go: what the consumer does with one delivery, and that it is always a
    run of the pipeline. */
module VoteConsumer {
  import opened VoteModel
  import opened VoteDatabase
  import opened VoteBroker
  import opened VoteDelivery
  import opened VotePipeline
  import Runs

  /** The environment of one delivery: how the transaction fares, how a republish fares, and
      whether ack and nack still reach the broker. */
  datatype Fortune = Fortune(tx: TxFault, publish: Surroundings, ackFails: bool, nackFails: bool)

  /** How a republish ended. A message that was not confirmed may be stored all the same. */
  datatype Republished = Replaced(acked: bool) | Unanswered(stored: bool, requeued: bool)

  function AckedIf(acked: bool, q: Queues, m: Message): Queues {
    if acked then Acked(q, m) else q
  }

  /** The queues after copy `c` of the open delivery `m` was sent to `x`. The delivery is given
      up only when the copy is confirmed. */
  function AfterRepublish(q: Queues, x: Exchange, c: Message, m: Message, r: Republished): Queues {
    match r
    case Replaced(acked) => AckedIf(acked, Settled(Stored(q, x, c), m), m)
    case Unanswered(stored, requeued) =>
      var kept := StoredIf(stored, q, x, c);
      if requeued then Requeued(kept, m) else kept
  }

  /** The event of `m` is safe elsewhere: acknowledge the delivery. */
  method Acknowledge(broker: Broker, m: Message, ackFails: bool)
    requires m in broker.queues.open
    modifies broker
    ensures broker.queues == AckedIf(!ackFails, Settled(old(broker.queues), m), m)
  {
    broker.Settle(m);
    var _ := broker.Ack(m, ackFails);
  }

  method Republish(client: Client, broker: Broker, x: Exchange, c: Message, m: Message, f: Fortune)
    returns (ghost r: Republished)
    requires client.Valid() && m in broker.queues.open && x != MainExchange && Honest(f.publish.fate)
    modifies client, broker
    ensures client.Valid()
    ensures broker.queues == AfterRepublish(old(broker.queues), x, c, m, r)
    ensures Healthy(f.publish) ==> r == Replaced(!f.ackFails)
  {
    var ok, stored := client.Publish(broker, x, c, f.publish);
    if !ok {
      r := Unanswered(stored, !f.nackFails);
      broker.NackRequeue(m, f.nackFails);
      return;
    }
    Acknowledge(broker, m, f.ackFails);
    r := Replaced(!f.ackFails);
  }

  // A republish is a run of the pipeline

  function CopyStep(x: Exchange, m: Message, confirmed: bool): Action {
    if x == RetryExchange then Retry(m, confirmed) else DeadLetter(m, confirmed)
  }

  function CopyFor(x: Exchange, m: Message): Message {
    if x == RetryExchange then RetryCopy(m) else DeadCopy(m)
  }

  /** The reason for which the consumer sends a copy to `x`. */
  ghost predicate MaySend(t: Tables, x: Exchange, m: Message, maxRetries: nat) {
    match x
    case MainExchange => false
    case RetryExchange => !Exhausted(m, maxRetries)
    case DeadExchange => DeadLettered(t, m, maxRetries)
  }

  lemma CopyIsStep(s: State, x: Exchange, m: Message, confirmed: bool)
    requires m in s.queues.open && MaySend(s.tables, x, m, s.maxRetries)
    ensures Reaches(s, s.(queues := SettledIf(confirmed, Stored(s.queues, x, CopyFor(x, m)), m)))
  {
    OneStep(s, CopyStep(x, m, confirmed));
  }

  lemma Then(s: State, r: State, a: Action, t: State)
    requires Reaches(s, r) && Enabled(r, a) && After(r, a) == t
    ensures Reaches(s, t)
  {
    OneStep(r, a);
    Runs.LeadsOnwards(Steps(), s, r, t);
  }

  lemma RepublishIsRun(s: State, x: Exchange, m: Message, r: Republished)
    requires m in s.queues.open && MaySend(s.tables, x, m, s.maxRetries)
    ensures Reaches(s, s.(queues := AfterRepublish(s.queues, x, CopyFor(x, m), m, r)))
  {
    var q := Stored(s.queues, x, CopyFor(x, m));
    match r
    case Replaced(acked) =>
      var settled := s.(queues := Settled(q, m));
      CopyIsStep(s, x, m, true);
      if acked {
        Then(s, settled, AckDelivery(m), s.(queues := Acked(settled.queues, m)));
      }
    case Unanswered(stored, requeued) =>
      var kept := if stored then s.(queues := q) else s;
      Runs.LeadsNowhere(Steps(), s);
      if stored {
        CopyIsStep(s, x, m, false);
      }
      if requeued {
        Then(s, kept, Requeue(m), kept.(queues := Requeued(kept.queues, m)));
      }
  }

  // The handlers

  /** retryVoteDelivery. */
  method RetryVoteDelivery(client: Client, broker: Broker, m: Message, maxRetries: nat, f: Fortune)
    returns (ghost r: Republished)
    requires client.Valid() && m in broker.queues.open && Honest(f.publish.fate)
    modifies client, broker
    ensures client.Valid()
    ensures broker.queues ==
      (if Exhausted(m, maxRetries) then AfterRepublish(old(broker.queues), DeadExchange, DeadCopy(m), m, r)
       else AfterRepublish(old(broker.queues), RetryExchange, RetryCopy(m), m, r))
    ensures Healthy(f.publish) ==> r == Replaced(!f.ackFails)
  {
    var retryCount := NextCount(m.retries);
    if retryCount > maxRetries {
      r := MoveToDeadLetter(client, broker, m, f);
      return;
    }
    var copy := m.(retries := Number(Int32(retryCount)));
    assert copy == RetryCopy(m);
    r := Republish(client, broker, RetryExchange, copy, m, f);
  }

  /** moveToDeadLetter. */
  method MoveToDeadLetter(client: Client, broker: Broker, m: Message, f: Fortune) returns (ghost r: Republished)
    requires client.Valid() && m in broker.queues.open && Honest(f.publish.fate)
    modifies client, broker
    ensures client.Valid()
    ensures broker.queues == AfterRepublish(old(broker.queues), DeadExchange, DeadCopy(m), m, r)
    ensures Healthy(f.publish) ==> r == Replaced(!f.ackFails)
  {
    r := Republish(client, broker, DeadExchange, Message(m.body, Number(HeaderInt(m.retries))), m, f);
  }

  /** How one delivery ended. */
  datatype Outcome = Consumed(acked: bool) | Retried(r: Republished) | Rejected(r: Republished)

  function QueuesAfter(q: Queues, m: Message, o: Outcome): Queues {
    match o
    case Consumed(acked) => AckedIf(acked, Settled(q, m), m)
    case Retried(r) => AfterRepublish(q, RetryExchange, RetryCopy(m), m, r)
    case Rejected(r) => AfterRepublish(q, DeadExchange, DeadCopy(m), m, r)
  }

  /** What a delivery may do to the tables: nothing, or commit its event. */
  ghost predicate Committed(a: Tables, b: Tables, m: Message) {
    b == a || (EventIn(m).Some? && !Conflicts(a, EventIn(m).value) && b == Applied(a, EventIn(m).value))
  }

  /** Which outcomes are legitimate. */
  ghost predicate Justified(a: Tables, b: Tables, m: Message, maxRetries: nat, o: Outcome) {
    match o
    case Consumed(_) =>
      EventIn(m).Some? && !Conflicts(a, EventIn(m).value) && b == Applied(a, EventIn(m).value)
    case Retried(_) => EventIn(m).Some? && !Exhausted(m, maxRetries)
    case Rejected(_) => DeadLettered(a, m, maxRetries) && (b != a ==> Exhausted(m, maxRetries))
  }

  /** handleVoteDelivery. A delivery is acknowledged only once its event is committed or a
      confirmed copy of it exists. */
  method HandleVoteDelivery(
    client: Client, broker: Broker, db: Database, m: Message, maxRetries: nat, f: Fortune)
    returns (ghost o: Outcome)
    requires client.Valid() && m in broker.queues.open && Honest(f.publish.fate)
    modifies client, broker, db
    ensures client.Valid()
    ensures broker.queues == QueuesAfter(old(broker.queues), m, o)
    ensures Committed(old(db.tables), db.tables, m)
    ensures Justified(old(db.tables), db.tables, m, maxRetries, o)
    ensures f.tx == NoFault ==> (o.Consumed? <==> EventIn(m).Some? && !Conflicts(old(db.tables), EventIn(m).value))
    ensures Healthy(f.publish) && !f.ackFails ==>
      o in {Consumed(true), Retried(Replaced(true)), Rejected(Replaced(true))}
  {
    var event := EventIn(m);
    if event.None? {
      var r := MoveToDeadLetter(client, broker, m, f);
      o := Rejected(r);
      return;
    }
    var status := db.PersistVoteEvent(event.value, f.tx);
    if status.Success? {
      Acknowledge(broker, m, f.ackFails);
      o := Consumed(!f.ackFails);
      return;
    }
    if status.error == VoteEventConflict {
      var r := MoveToDeadLetter(client, broker, m, f);
      o := Rejected(r);
      return;
    }
    var r := RetryVoteDelivery(client, broker, m, maxRetries, f);
    o := if Exhausted(m, maxRetries) then Rejected(r) else Retried(r);
  }

  /** Refinement: whatever the handler does is a run of the pipeline. */
  lemma HandlingIsRun(s: State, m: Message, b: Tables, o: Outcome)
    requires m in s.queues.open
    requires Committed(s.tables, b, m) && Justified(s.tables, b, m, s.maxRetries, o)
    ensures Reaches(s, s.(tables := b, queues := QueuesAfter(s.queues, m, o)))
  {
    var t := s.(tables := b);
    Runs.LeadsNowhere(Steps(), s);
    match o
    case Consumed(acked) =>
      var settled := t.(queues := Settled(s.queues, m));
      Then(s, s, Persist(m, true), settled);
      if acked {
        Then(s, settled, AckDelivery(m), t.(queues := QueuesAfter(s.queues, m, o)));
      }
    case Retried(r) =>
      if b != s.tables {
        Then(s, s, Persist(m, false), t);
      }
      RepublishIsRun(t, RetryExchange, m, r);
      Runs.LeadsOnwards(Steps(), s, t, t.(queues := QueuesAfter(s.queues, m, o)));
    case Rejected(r) =>
      if b != s.tables {
        Then(s, s, Persist(m, false), t);
      }
      RepublishIsRun(t, DeadExchange, m, r);
      Runs.LeadsOnwards(Steps(), s, t, t.(queues := QueuesAfter(s.queues, m, o)));
  }
}
