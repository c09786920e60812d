/**
 The retry and dead-letter policy of the order service's outcome consumers: an attempt counter that travels in
 the message headers, and a publish, confirm, acknowledge discipline that must not lose the last copy.
 */
module RetryPolicy {
  import opened Prelude

  // Headers ---------------------------------------------------------------------------------

  // Signed stands for any signed Go integer; every other wire type is Other. A nil table behaves as the empty one.
  datatype HeaderValue = Signed(value: int) | Other(text: string)
  type Headers = map<string, HeaderValue>

  const ATTEMPT := "x-delivery-attempt"
  const LAST_FAILURE := "x-last-failure-reason"
  const DEAD_LETTER_REASON := "x-dead-letter-reason"
  const DEAD_LETTERED_AT := "x-dead-lettered-at"

  const POLICY_HEADERS: set<string> := {ATTEMPT, LAST_FAILURE, DEAD_LETTER_REASON, DEAD_LETTERED_AT}

  // What RabbitMQ stamps on a message that leaves a queue by expiring.
  const BROKER_HEADERS: set<string> := {
    "x-death", "x-first-death-queue", "x-first-death-reason", "x-first-death-exchange",
    "x-last-death-queue", "x-last-death-reason", "x-last-death-exchange"
  }

  /** Go's conversion to int32: the low 32 bits, read as two's complement. */
  function ToInt32(n: int): (r: int)
    ensures -INT_MAX - 1 <= r <= INT_MAX
    ensures (r - n) % 0x1_0000_0000 == 0
    ensures -INT_MAX - 1 <= n <= INT_MAX ==> r == n
  {
    (n + 0x8000_0000) % 0x1_0000_0000 - 0x8000_0000
  }

  function AtLeastOne(n: int): int {
    if n < 1 then 1 else n
  }

  function DeliveryAttempt(headers: Headers): (attempt: int)
    ensures attempt >= 1
  {
    if ATTEMPT in headers && headers[ATTEMPT].Signed? then AtLeastOne(headers[ATTEMPT].value) else 1
  }

  /** The attempt the next consumer reads after this one writes `attempt + 1`. */
  function NextAttempt(attempt: int): int {
    AtLeastOne(ToInt32(attempt + 1))
  }

  /** The attempt read after k passes through the retry queue by a message first delivered without the header. */
  function AttemptAfter(k: nat): int {
    if k == 0 then 1 else NextAttempt(AttemptAfter(k - 1))
  }

  lemma {:induction false} AttemptCycles(k: nat)
    ensures AttemptAfter(k) == k % INT_MAX + 1
  {
    if k > 0 {
      AttemptCycles(k - 1);
      ModStep(k);
    }
  }

  lemma ModStep(k: nat)
    requires k > 0
    ensures k % INT_MAX == if (k - 1) % INT_MAX == INT_MAX - 1 then 0 else (k - 1) % INT_MAX + 1
  {
    var q, r := (k - 1) / INT_MAX, (k - 1) % INT_MAX;
    assert k == q * INT_MAX + (r + 1);
    if r == INT_MAX - 1 {
      ModUnique(k, q + 1, 0);
    } else {
      ModUnique(k, q, r + 1);
    }
  }

  lemma ModUnique(k: nat, q: int, r: int)
    requires k == q * INT_MAX + r && 0 <= r < INT_MAX
    ensures k % INT_MAX == r
  {
    assert (k / INT_MAX - q) * INT_MAX == r - k % INT_MAX;
  }

  /**
   The counter reaches maxAttempts exactly when maxAttempts fits an int32, and then after exactly maxAttempts - 1
   passes. Above that it wraps to a negative number, is read back as 1, and the message is retried for ever.
   */
  lemma RetryTerminationExact(maxAttempts: int)
    requires maxAttempts > 0
    ensures (exists k: nat :: AttemptAfter(k) >= maxAttempts) <==> maxAttempts <= INT_MAX
    ensures maxAttempts <= INT_MAX ==>
              && AttemptAfter(maxAttempts - 1) == maxAttempts
              && forall k: nat | k < maxAttempts - 1 :: AttemptAfter(k) < maxAttempts
  {
    hide AttemptAfter;
    if maxAttempts <= INT_MAX {
      EarlyAttempt(maxAttempts - 1);
      forall k: nat | k < maxAttempts - 1 ensures AttemptAfter(k) < maxAttempts {
        EarlyAttempt(k);
      }
    } else {
      forall k: nat ensures AttemptAfter(k) < maxAttempts {
        AttemptInRange(k);
      }
    }
  }

  lemma EarlyAttempt(k: nat)
    requires k < INT_MAX
    ensures AttemptAfter(k) == k + 1
  {
    hide AttemptAfter;
    AttemptCycles(k);
    ModUnique(k, 0, k);
  }

  lemma AttemptInRange(k: nat)
    ensures AttemptAfter(k) <= INT_MAX
  {
    hide AttemptAfter;
    AttemptCycles(k);
    assert k % INT_MAX < INT_MAX;
  }

  // Broker ----------------------------------------------------------------------------------

  type Tag = nat

  // `id` names the original outcome message; `passes` counts this copy's trips through the retry queue.
  datatype Message = Message(id: nat, body: string, headers: Headers, passes: nat)

  // What `declare` and the consumer's own bindings set up.
  datatype Topology = Topology(retryQueue: bool, deadLetterQueue: bool, sourceBound: bool)

  datatype Broker = Broker(source: seq<Message>, unacked: map<Tag, Message>, retry: seq<Message>, dead: seq<Message>,
      handled: set<nat>)

  datatype Target = ToRetry | ToDeadLetter

  // Only a positive confirmation in time is Confirmed; an error, a nack and a timeout are treated alike.
  datatype Reply = Confirmed | Unconfirmed
  // What became of one publish, and whether the ack or nack of the original that followed took effect.
  datatype Fate = Fate(stored: bool, reply: Reply, settled: bool)

  predicate Routable(topology: Topology, target: Target) {
    match target case ToRetry => topology.retryQueue case ToDeadLetter => topology.deadLetterQueue
  }

  /**
   The broker stores only what it can route, and confirms what it stored, or what it could not route and silently
   returned.
   */
  predicate Honest(topology: Topology, target: Target, fate: Fate) {
    && (fate.stored ==> Routable(topology, target))
    && (fate.reply.Confirmed? && Routable(topology, target) ==> fate.stored)
  }

  function Store(b: Broker, target: Target, copy: Message): Broker {
    match target
    case ToRetry => b.(retry := b.retry + [copy.(passes := copy.passes + 1)])
    case ToDeadLetter => b.(dead := b.dead + [copy])
  }

  function PublishThenAck(b: Broker, tag: Tag, copy: Message, target: Target, fate: Fate): Broker
    requires tag in b.unacked
  {
    var b1 := if fate.stored then Store(b, target, copy) else b;
    if !fate.settled then b1
    else if fate.reply.Confirmed? then b1.(unacked := b1.unacked - {tag})
    else Requeue(b1, tag)
  }

  function Requeue(b: Broker, tag: Tag): Broker
    requires tag in b.unacked
  {
    b.(unacked := b.unacked - {tag}, source := b.source + [b.unacked[tag]])
  }

  function RetryCopy(m: Message, reason: string): Message {
    m.(headers := m.headers[ATTEMPT := Signed(ToInt32(DeliveryAttempt(m.headers) + 1))][LAST_FAILURE := Other(reason)])
  }

  function DeadLetterCopy(m: Message, reason: string, now: string): Message {
    m.(headers := m.headers[ATTEMPT := Signed(ToInt32(DeliveryAttempt(m.headers)))]
                           [DEAD_LETTER_REASON := Other(reason)][DEAD_LETTERED_AT := Other(now)])
  }

  /** The handler has done its work; `settled` says whether the acknowledgement that followed took effect. */
  function Succeed(b: Broker, tag: Tag, settled: bool): Broker
    requires tag in b.unacked
  {
    var b1 := b.(handled := b.handled + {b.unacked[tag].id});
    if settled then b1.(unacked := b1.unacked - {tag}) else b1
  }

  function TargetOf(maxAttempts: int, m: Message): Target {
    if DeliveryAttempt(m.headers) >= maxAttempts then ToDeadLetter else ToRetry
  }

  function CopyOf(maxAttempts: int, m: Message, reason: string, now: string): Message {
    if TargetOf(maxAttempts, m) == ToDeadLetter then DeadLetterCopy(m, reason, now) else RetryCopy(m, reason)
  }

  // The policy over its channel's queues. copyHeaders' loop is the value copy of a map.
  class Policy {
    const maxAttempts: int
    const topology: Topology
    var source: seq<Message>
    var unacked: map<Tag, Message>
    var retryQueue: seq<Message>
    var deadLetterQueue: seq<Message>
    ghost var handled: set<nat>

    ghost function State(): Broker
      reads this
    {
      Broker(source, unacked, retryQueue, deadLetterQueue, handled)
    }

    constructor (maxAttempts: int, topology: Topology)
      ensures State() == Broker([], map[], [], [], {})
      ensures this.maxAttempts == maxAttempts && this.topology == topology
    {
      this.maxAttempts, this.topology := maxAttempts, topology;
      source, unacked, retryQueue, deadLetterQueue, handled := [], map[], [], [], {};
    }

    method Retry(tag: Tag, reason: string, now: string, fate: Fate) returns (target: Target, ok: bool)
      requires tag in unacked
      modifies this
      ensures target == TargetOf(maxAttempts, old(unacked)[tag])
      ensures target.ToDeadLetter? <==> DeliveryAttempt(old(unacked)[tag].headers) >= maxAttempts
      ensures State() == PublishThenAck(old(State()), tag, CopyOf(maxAttempts, old(unacked)[tag], reason, now), target,
              fate)
      ensures ok <==> fate.reply.Confirmed? && fate.settled
    {
      var attempt := DeliveryAttempt(unacked[tag].headers);
      if attempt >= maxAttempts {
        target := ToDeadLetter;
        ok := DeadLetter(tag, reason, now, fate);
        return;
      }
      var headers := unacked[tag].headers;
      headers := headers[ATTEMPT := Signed(ToInt32(attempt + 1))];
      headers := headers[LAST_FAILURE := Other(reason)];
      target := ToRetry;
      ok := Send(tag, ToRetry, headers, fate);
    }

    method DeadLetter(tag: Tag, reason: string, now: string, fate: Fate) returns (ok: bool)
      requires tag in unacked
      modifies this
      ensures State() == PublishThenAck(old(State()), tag, DeadLetterCopy(old(unacked)[tag], reason, now), ToDeadLetter,
              fate)
      ensures ok <==> fate.reply.Confirmed? && fate.settled
    {
      var headers := unacked[tag].headers;
      headers := headers[ATTEMPT := Signed(ToInt32(DeliveryAttempt(unacked[tag].headers)))];
      headers := headers[DEAD_LETTER_REASON := Other(reason)];
      headers := headers[DEAD_LETTERED_AT := Other(now)];
      ok := Send(tag, ToDeadLetter, headers, fate);
    }

    method Acknowledge(tag: Tag, settled: bool)
      requires tag in unacked
      modifies this`unacked, this`handled
      ensures State() == Succeed(old(State()), tag, settled)
      ensures handled == old(handled) + {old(unacked)[tag].id}
      ensures unacked == if settled then old(unacked) - {tag} else old(unacked)
    {
      handled := handled + {unacked[tag].id};
      if settled {
        unacked := unacked - {tag};
      }
    }

    /**
     The delivery is given back unless its copy was confirmed: acknowledged then, requeued as it came otherwise, and
     kept only if neither got through.
     */
    method Send(tag: Tag, target: Target, headers: Headers, fate: Fate) returns (ok: bool)
      requires tag in unacked
      modifies this
      ensures State() == PublishThenAck(old(State()), tag, old(unacked)[tag].(headers := headers), target, fate)
      ensures ok <==> fate.reply.Confirmed? && fate.settled
      ensures unacked == if fate.settled then old(unacked) - {tag} else old(unacked)
      ensures source == if fate.settled && fate.reply.Unconfirmed? then old(source) + [old(unacked)[tag]]
              else old(source)
      ensures retryQueue == if fate.stored && target.ToRetry? then
                old(retryQueue) + [old(unacked)[tag].(headers := headers, passes := old(unacked)[tag].passes + 1)]
              else old(retryQueue)
      ensures deadLetterQueue == if fate.stored && target.ToDeadLetter? then
                old(deadLetterQueue) + [old(unacked)[tag].(headers := headers)]
              else old(deadLetterQueue)
      ensures handled == old(handled)
    {
      var delivery := unacked[tag];
      if fate.stored {
        var copy := delivery.(headers := headers);
        match target
        case ToRetry => retryQueue := retryQueue + [copy.(passes := copy.passes + 1)];
        case ToDeadLetter => deadLetterQueue := deadLetterQueue + [copy];
      }
      ok := fate.reply.Confirmed? && fate.settled;
      if fate.settled {
        unacked := unacked - {tag};
        if fate.reply.Unconfirmed? {
          source := source + [delivery];
        }
      }
    }
  }

  // No loss ---------------------------------------------------------------------------------

  ghost predicate HasCopy(s: seq<Message>, id: nat) {
    exists i :: 0 <= i < |s| && s[i].id == id
  }

  ghost predicate Present(b: Broker, id: nat) {
    || HasCopy(b.source, id) || HasCopy(b.retry, id) || HasCopy(b.dead, id)
    || exists tag :: tag in b.unacked && b.unacked[tag].id == id
  }

  lemma HasCopyAppend(s: seq<Message>, m: Message, id: nat)
    ensures HasCopy(s + [m], id) <==> HasCopy(s, id) || m.id == id
  {
    var all := s + [m];
    assert all[|s|] == m;
    if HasCopy(s, id) {
      var i :| 0 <= i < |s| && s[i].id == id;
      assert all[i].id == id;
    }
  }

  /** One settlement drops no message, unless it acknowledges an original whose copy could not be routed. */
  lemma SettlementKeeps(b: Broker, tag: Tag, copy: Message, target: Target, fate: Fate, id: nat)
    requires tag in b.unacked && copy.id == b.unacked[tag].id && Present(b, id)
    requires fate.reply.Confirmed? && fate.settled && b.unacked[tag].id == id ==> fate.stored
    ensures Present(PublishThenAck(b, tag, copy, target, fate), id)
  {
    var u := PublishThenAck(b, tag, copy, target, fate);
    var kept := if target == ToRetry then copy.(passes := copy.passes + 1) else copy;
    HasCopyAppend(b.retry, kept, id);
    HasCopyAppend(b.dead, kept, id);
    HasCopyAppend(b.source, b.unacked[tag], id);
    if exists t :: t in b.unacked && t != tag && b.unacked[t].id == id {
      var t :| t in b.unacked && t != tag && b.unacked[t].id == id;
      assert t in u.unacked && u.unacked[t].id == id;
    } else if tag in b.unacked && b.unacked[tag].id == id && !fate.settled {
      assert tag in u.unacked;
    }
  }

  /** For the last copy of a message: no fate of the publish can lose it if and only if the target was declared. */
  lemma LastCopySafeExact(topology: Topology, b: Broker, tag: Tag, copy: Message, target: Target)
    requires tag in b.unacked && copy.id == b.unacked[tag].id
    requires !Present(b.(unacked := b.unacked - {tag}), copy.id)
    ensures (forall fate | Honest(topology, target, fate) ::
            Present(PublishThenAck(b, tag, copy, target, fate), copy.id))
            <==> Routable(topology, target)
  {
    if Routable(topology, target) {
      forall fate | Honest(topology, target, fate)
        ensures Present(PublishThenAck(b, tag, copy, target, fate), copy.id)
      {
        SettlementKeeps(b, tag, copy, target, fate, copy.id);
      }
    } else {
      var fate := Fate(false, Confirmed, true);
      assert Honest(topology, target, fate);
      assert PublishThenAck(b, tag, copy, target, fate) == b.(unacked := b.unacked - {tag});
    }
  }

  // Runs ------------------------------------------------------------------------------------

  // Arrive(n): the outbox worker routes the n-th stored outcome, for the first time or again. RetryExpired: the broker
  // dead-letters a delayed copy back to the source exchange, with headers of its own.
  datatype Event =
    | Arrive(n: nat)
    | Deliver(at: nat, tag: Tag)
    | HandlerFailed(tag: Tag, reason: string, now: string, fate: Fate)
    | Malformed(tag: Tag, reason: string, now: string, fate: Fate)
    | HandlerSucceeded(tag: Tag, settled: bool)
    | RetryExpired(at: nat, stamp: Headers)
    | ChannelClosed(tag: Tag)

  datatype Stored = Stored(body: string, headers: Headers)
  datatype Setup = Setup(maxAttempts: int, topology: Topology, outbox: seq<Stored>)

  /**
   The configuration the service accepts, with a limit the counter can hold, and publishers that do not set the counter.
   */
  ghost predicate Sound(setup: Setup) {
    && 0 < setup.maxAttempts <= INT_MAX
    && Declared(setup)
    && forall n | 0 <= n < |setup.outbox| :: ATTEMPT !in setup.outbox[n].headers
  }

  // Both queues declared, and the source queue bound: what `declare` and the consumer's start leave behind.
  ghost predicate Declared(setup: Setup) {
    setup.topology == Topology(true, true, true)
  }

  function Drop<T>(s: seq<T>, at: nat): seq<T>
    requires at < |s|
  {
    s[..at] + s[at + 1..]
  }

  function Stamped(m: Message, stamp: Headers): Message {
    m.(headers := m.headers + stamp)
  }

  /** One event; an event that cannot happen leaves the broker as it is. */
  function Step(setup: Setup, b: Broker, e: Event): Broker {
    match e
    case Arrive(n) =>
      if n >= |setup.outbox| then b
      else b.(source := b.source + [Message(n, setup.outbox[n].body, setup.outbox[n].headers, 0)])
    case Deliver(at, tag) =>
      if at >= |b.source| || tag in b.unacked then b
      else b.(source := Drop(b.source, at), unacked := b.unacked[tag := b.source[at]])
    case HandlerFailed(tag, reason, now, fate) =>
      if tag !in b.unacked then b
      else
        var m := b.unacked[tag];
        var target := TargetOf(setup.maxAttempts, m);
        if !Honest(setup.topology, target, fate) then b
        else PublishThenAck(b, tag, CopyOf(setup.maxAttempts, m, reason, now), target, fate)
    case Malformed(tag, reason, now, fate) =>
      if tag !in b.unacked || !Honest(setup.topology, ToDeadLetter, fate) then b
      else PublishThenAck(b, tag, DeadLetterCopy(b.unacked[tag], reason, now), ToDeadLetter, fate)
    case HandlerSucceeded(tag, settled) =>
      if tag !in b.unacked then b else Succeed(b, tag, settled)
    case RetryExpired(at, stamp) =>
      if at >= |b.retry| || !(stamp.Keys <= BROKER_HEADERS) then b
      else
        var b1 := b.(retry := Drop(b.retry, at));
        if setup.topology.sourceBound then b1.(source := b1.source + [Stamped(b.retry[at], stamp)]) else b1
    case ChannelClosed(tag) => if tag !in b.unacked then b else Requeue(b, tag)
  }

  // What becomes of a failed delivery -------------------------------------------------------

  /** The delivery after a settlement: given back as it came, acknowledged, or still held. */
  ghost predicate Settles(b: Broker, u: Broker, tag: Tag, fate: Fate)
    requires tag in b.unacked
  {
    && (fate.settled ==> tag !in u.unacked)
    && (!fate.settled ==> tag in u.unacked && u.unacked[tag] == b.unacked[tag])
    && (forall t | t != tag ::
          (t in u.unacked <==> t in b.unacked) && (t in b.unacked ==> u.unacked[t] == b.unacked[t]))
    && u.source == (if fate.settled && fate.reply.Unconfirmed? then b.source + [b.unacked[tag]] else b.source)
    && u.handled == b.handled
  }

  /** One more copy of the message in the queue, if it was stored at all, changed in these headers only. */
  ghost predicate Adds(before: seq<Message>, after: seq<Message>, stored: bool, m: Message, own: Headers, pass: nat) {
    after == if stored then before + [Message(m.id, m.body, m.headers + own, m.passes + pass)] else before
  }

  /**
   A failed handling below the limit: a copy in the retry queue with the next attempt and the reason. At the limit: a
   copy in the dead-letter queue with the attempt, the reason and the time. And in both cases the delivery is settled.
   */
  lemma FailureExact(setup: Setup, b: Broker, tag: Tag, reason: string, now: string, fate: Fate)
    requires tag in b.unacked && Honest(setup.topology, TargetOf(setup.maxAttempts, b.unacked[tag]), fate)
    ensures
      var u, m := Step(setup, b, HandlerFailed(tag, reason, now, fate)), b.unacked[tag];
      var attempt := DeliveryAttempt(m.headers);
      && Settles(b, u, tag, fate)
      && if attempt >= setup.maxAttempts then
           && u.retry == b.retry
           && Adds(b.dead, u.dead, fate.stored, m,
                   map["x-delivery-attempt" := Signed(ToInt32(attempt)), "x-dead-letter-reason" := Other(reason),
                       "x-dead-lettered-at" := Other(now)], 0)
         else
           && u.dead == b.dead
           && Adds(b.retry, u.retry, fate.stored, m,
                   map["x-delivery-attempt" := Signed(ToInt32(attempt + 1)),
                       "x-last-failure-reason" := Other(reason)], 1)
  {
    var m := b.unacked[tag];
    DeadLetterHeaders(m, reason, now);
    RetryHeaders(m, reason);
    PublishSettles(b, tag, CopyOf(setup.maxAttempts, m, reason, now), TargetOf(setup.maxAttempts, m), fate);
    hide RetryCopy, DeadLetterCopy, PublishThenAck, Settles;
  }

  lemma PublishSettles(b: Broker, tag: Tag, copy: Message, target: Target, fate: Fate)
    requires tag in b.unacked
    ensures
      var u := PublishThenAck(b, tag, copy, target, fate);
      && Settles(b, u, tag, fate)
      && u.retry == (if fate.stored && target.ToRetry? then b.retry + [copy.(passes := copy.passes + 1)] else b.retry)
      && u.dead == (if fate.stored && target.ToDeadLetter? then b.dead + [copy] else b.dead)
  {}

  /** A malformed message is dead-lettered whatever its attempt. */
  lemma MalformedExact(setup: Setup, b: Broker, tag: Tag, reason: string, now: string, fate: Fate)
    requires tag in b.unacked && Honest(setup.topology, ToDeadLetter, fate)
    ensures
      var u, m := Step(setup, b, Malformed(tag, reason, now, fate)), b.unacked[tag];
      && Settles(b, u, tag, fate) && u.retry == b.retry
      && Adds(b.dead, u.dead, fate.stored, m,
              map["x-delivery-attempt" := Signed(ToInt32(DeliveryAttempt(m.headers))),
                  "x-dead-letter-reason" := Other(reason), "x-dead-lettered-at" := Other(now)], 0)
  {
    DeadLetterHeaders(b.unacked[tag], reason, now);
    PublishSettles(b, tag, DeadLetterCopy(b.unacked[tag], reason, now), ToDeadLetter, fate);
    hide DeadLetterCopy, PublishThenAck, Settles;
  }

  lemma DeadLetterHeaders(m: Message, reason: string, now: string)
    ensures DeadLetterCopy(m, reason, now)
            == m.(headers := m.headers + map["x-delivery-attempt" := Signed(ToInt32(DeliveryAttempt(m.headers))),
                    "x-dead-letter-reason" := Other(reason), "x-dead-lettered-at" := Other(now)])
  {
    assert m.headers + map["x-delivery-attempt" := Signed(ToInt32(DeliveryAttempt(m.headers))),
                           "x-dead-letter-reason" := Other(reason), "x-dead-lettered-at" := Other(now)]
           == m.headers[ATTEMPT := Signed(ToInt32(DeliveryAttempt(m.headers)))]
                       [DEAD_LETTER_REASON := Other(reason)][DEAD_LETTERED_AT := Other(now)];
  }

  lemma RetryHeaders(m: Message, reason: string)
    ensures RetryCopy(m, reason)
            == m.(headers := m.headers + map["x-delivery-attempt" := Signed(ToInt32(DeliveryAttempt(m.headers) + 1)),
                    "x-last-failure-reason" := Other(reason)])
  {
    assert m.headers + map["x-delivery-attempt" := Signed(ToInt32(DeliveryAttempt(m.headers) + 1)),
                           "x-last-failure-reason" := Other(reason)]
           == m.headers[ATTEMPT := Signed(ToInt32(DeliveryAttempt(m.headers) + 1))][LAST_FAILURE := Other(reason)];
  }

  /** What the header says: a signed number, read as at least 1, and 1 for anything else. */
  lemma AttemptRead(headers: Headers)
    ensures DeliveryAttempt(headers) == 1 <==>
              forall n | "x-delivery-attempt" in headers && headers["x-delivery-attempt"] == Signed(n) :: n <= 1
    ensures forall n | "x-delivery-attempt" in headers && headers["x-delivery-attempt"] == Signed(n) && n >= 1 ::
              DeliveryAttempt(headers) == n
  {}

  function Run(setup: Setup, events: seq<Event>): Broker {
    if events == [] then Broker([], map[], [], [], {})
    else Step(setup, Run(setup, events[..|events| - 1]), events[|events| - 1])
  }

  ghost predicate Kept(b: Broker, id: nat) {
    Present(b, id) || id in b.handled
  }

  lemma HasCopyDrop(s: seq<Message>, at: nat, id: nat)
    requires at < |s| && HasCopy(s, id) && s[at].id != id
    ensures HasCopy(Drop(s, at), id)
  {
    var i :| 0 <= i < |s| && s[i].id == id;
    assert Drop(s, at)[if i < at then i else i - 1].id == id;
  }

  lemma MoveKeeps(from: seq<Message>, to: seq<Message>, at: nat, moved: Message, id: nat)
    requires at < |from| && (HasCopy(from, id) || HasCopy(to, id)) && moved.id == from[at].id
    ensures HasCopy(Drop(from, at), id) || HasCopy(to + [moved], id)
  {
    HasCopyAppend(to, moved, id);
    if HasCopy(from, id) && from[at].id != id {
      HasCopyDrop(from, at, id);
    }
  }

  lemma RequeueKeeps(b: Broker, tag: Tag, id: nat)
    requires tag in b.unacked && Present(b, id)
    ensures Present(Requeue(b, tag), id)
  {
    HasCopyAppend(b.source, b.unacked[tag], id);
    if exists t :: t in b.unacked && t != tag && b.unacked[t].id == id {
      var t :| t in b.unacked && t != tag && b.unacked[t].id == id;
      assert t in Requeue(b, tag).unacked && Requeue(b, tag).unacked[t].id == id;
    }
  }

  lemma DeliverKeeps(b: Broker, at: nat, tag: Tag, id: nat)
    requires at < |b.source| && tag !in b.unacked && Present(b, id)
    ensures Present(b.(source := Drop(b.source, at), unacked := b.unacked[tag := b.source[at]]), id)
  {
    var u := b.(source := Drop(b.source, at), unacked := b.unacked[tag := b.source[at]]);
    if b.source[at].id == id {
      assert tag in u.unacked && u.unacked[tag].id == id;
    } else if HasCopy(b.source, id) {
      HasCopyDrop(b.source, at, id);
    } else if exists t :: t in b.unacked && b.unacked[t].id == id {
      var t :| t in b.unacked && b.unacked[t].id == id;
      assert t in u.unacked && u.unacked[t].id == id;
    }
  }

  lemma SuccessKeeps(b: Broker, tag: Tag, settled: bool, id: nat)
    requires tag in b.unacked && Present(b, id) && b.unacked[tag].id != id
    ensures Present(Succeed(b, tag, settled), id)
  {
    if exists t :: t in b.unacked && b.unacked[t].id == id {
      var t :| t in b.unacked && b.unacked[t].id == id;
      assert t in b.unacked - {tag} && (b.unacked - {tag})[t].id == id;
    }
  }

  lemma StepKeeps(setup: Setup, b: Broker, e: Event, id: nat)
    requires Declared(setup) && Kept(b, id)
    ensures Kept(Step(setup, b, e), id)
  {
    if id !in b.handled {
      match e
      case Arrive(n) =>
        if n < |setup.outbox| {
          HasCopyAppend(b.source, Message(n, setup.outbox[n].body, setup.outbox[n].headers, 0), id);
        }
      case Deliver(at, tag) =>
        if at < |b.source| && tag !in b.unacked {
          DeliverKeeps(b, at, tag, id);
        }
      case HandlerFailed(tag, reason, now, fate) =>
        if tag in b.unacked {
          var m := b.unacked[tag];
          var target := TargetOf(setup.maxAttempts, m);
          if Honest(setup.topology, target, fate) {
            SettlementKeeps(b, tag, CopyOf(setup.maxAttempts, m, reason, now), target, fate, id);
          }
        }
      case Malformed(tag, reason, now, fate) =>
        if tag in b.unacked && Honest(setup.topology, ToDeadLetter, fate) {
          SettlementKeeps(b, tag, DeadLetterCopy(b.unacked[tag], reason, now), ToDeadLetter, fate, id);
        }
      case HandlerSucceeded(tag, settled) =>
        if tag in b.unacked && b.unacked[tag].id != id {
          SuccessKeeps(b, tag, settled, id);
        }
      case RetryExpired(at, stamp) =>
        if at < |b.retry| && (HasCopy(b.retry, id) || HasCopy(b.source, id)) {
          MoveKeeps(b.retry, b.source, at, Stamped(b.retry[at], stamp), id);
        }
      case ChannelClosed(tag) =>
        if tag in b.unacked {
          RequeueKeeps(b, tag, id);
        }
    }
  }

  /**
   No loss: once an outcome message has been queued, a copy of it is queued, unacked, waiting to be retried or
   dead-lettered until it is handled.
   */
  lemma {:induction false} OutcomeNeverLost(setup: Setup, events: seq<Event>, i: nat, n: nat)
    requires Declared(setup)
    requires i < |events| && events[i] == Arrive(n) && n < |setup.outbox|
    ensures Kept(Run(setup, events), n)
  {
    var before := Run(setup, events[..|events| - 1]);
    if i == |events| - 1 {
      HasCopyAppend(before.source, Message(n, setup.outbox[n].body, setup.outbox[n].headers, 0), n);
    } else {
      OutcomeNeverLost(setup, events[..|events| - 1], i, n);
      StepKeeps(setup, before, events[|events| - 1], n);
    }
  }

  /** The last copy of a message survives the end of its retry delay if and only if the source queue is bound. */
  lemma ExpirySafeExact(setup: Setup, b: Broker, at: nat, stamp: Headers)
    requires at < |b.retry| && !Present(b.(retry := Drop(b.retry, at)), b.retry[at].id) && stamp.Keys <= BROKER_HEADERS
    ensures Present(Step(setup, b, RetryExpired(at, stamp)), b.retry[at].id) <==> setup.topology.sourceBound
  {
    HasCopyAppend(b.source, Stamped(b.retry[at], stamp), b.retry[at].id);
  }

  // What a copy carries ---------------------------------------------------------------------

  /** The same headers, apart from those the policy or the broker own. */
  ghost predicate SameStored(a: Headers, b: Headers) {
    forall k | k !in POLICY_HEADERS && k !in BROKER_HEADERS :: (k in a <==> k in b) && (k in a ==> a[k] == b[k])
  }

  /** A faithful copy: the stored body and headers, and a counter equal to its passes so far plus one. */
  ghost predicate Faithful(setup: Setup, m: Message) {
    && m.id < |setup.outbox|
    && m.body == setup.outbox[m.id].body
    && SameStored(setup.outbox[m.id].headers, m.headers)
    && DeliveryAttempt(m.headers) == m.passes + 1
    && m.passes <= setup.maxAttempts - 1
  }

  ghost predicate AllFaithful(setup: Setup, b: Broker) {
    && (forall i | 0 <= i < |b.source| :: Faithful(setup, b.source[i]))
    && (forall i | 0 <= i < |b.retry| :: Faithful(setup, b.retry[i]))
    && (forall i | 0 <= i < |b.dead| :: Faithful(setup, b.dead[i]))
    && (forall tag | tag in b.unacked :: Faithful(setup, b.unacked[tag]))
  }

  lemma SameStoredAfter(a: Headers, b: Headers, more: Headers)
    requires SameStored(a, b) && more.Keys <= POLICY_HEADERS + BROKER_HEADERS
    ensures SameStored(a, b + more)
  {}

  lemma RetryCopyFaithful(setup: Setup, m: Message, reason: string)
    requires Sound(setup) && Faithful(setup, m) && TargetOf(setup.maxAttempts, m) == ToRetry
    ensures Faithful(setup, RetryCopy(m, reason).(passes := m.passes + 1))
  {
    var own: Headers := map[ATTEMPT := Signed(ToInt32(DeliveryAttempt(m.headers) + 1)), LAST_FAILURE := Other(reason)];
    assert RetryCopy(m, reason).headers == m.headers + own;
    SameStoredAfter(setup.outbox[m.id].headers, m.headers, own);
    hide SameStored;
  }

  lemma DeadLetterCopyFaithful(setup: Setup, m: Message, reason: string, now: string)
    requires Sound(setup) && Faithful(setup, m)
    ensures Faithful(setup, DeadLetterCopy(m, reason, now))
  {
    var own: Headers := map[ATTEMPT := Signed(ToInt32(DeliveryAttempt(m.headers))),
                            DEAD_LETTER_REASON := Other(reason), DEAD_LETTERED_AT := Other(now)];
    assert DeadLetterCopy(m, reason, now).headers == m.headers + own;
    SameStoredAfter(setup.outbox[m.id].headers, m.headers, own);
    hide SameStored;
  }

  lemma StampedFaithful(setup: Setup, m: Message, stamp: Headers)
    requires Faithful(setup, m) && stamp.Keys <= BROKER_HEADERS
    ensures Faithful(setup, Stamped(m, stamp))
  {
    SameStoredAfter(setup.outbox[m.id].headers, m.headers, stamp);
    assert ATTEMPT !in BROKER_HEADERS;
    hide SameStored;
  }

  lemma SettlementFaithful(setup: Setup, b: Broker, tag: Tag, copy: Message, target: Target, fate: Fate)
    requires AllFaithful(setup, b) && tag in b.unacked
    requires Faithful(setup, if target == ToRetry then copy.(passes := copy.passes + 1) else copy)
    ensures AllFaithful(setup, PublishThenAck(b, tag, copy, target, fate))
  {
    hide Faithful;
  }

  lemma FailureFaithful(setup: Setup, b: Broker, tag: Tag, reason: string, now: string, fate: Fate)
    requires Sound(setup) && AllFaithful(setup, b) && tag in b.unacked
    ensures
      var m := b.unacked[tag];
      && AllFaithful(setup, PublishThenAck(b, tag, CopyOf(setup.maxAttempts, m, reason, now),
         TargetOf(setup.maxAttempts, m), fate))
      && AllFaithful(setup, PublishThenAck(b, tag, DeadLetterCopy(m, reason, now), ToDeadLetter, fate))
  {
    var m := b.unacked[tag];
    var target := TargetOf(setup.maxAttempts, m);
    hide AllFaithful, Faithful, Sound, PublishThenAck, TargetOf, RetryCopy, DeadLetterCopy;
    AllFaithfulAt(setup, b, tag);
    DeadLetterCopyFaithful(setup, m, reason, now);
    SettlementFaithful(setup, b, tag, DeadLetterCopy(m, reason, now), ToDeadLetter, fate);
    if target == ToRetry {
      RetryCopyFaithful(setup, m, reason);
      RetryKeepsPasses(m, reason);
      SettlementFaithful(setup, b, tag, RetryCopy(m, reason), ToRetry, fate);
    }
  }

  lemma RetryKeepsPasses(m: Message, reason: string)
    ensures RetryCopy(m, reason).passes == m.passes
  {}

  lemma AllFaithfulAt(setup: Setup, b: Broker, tag: Tag)
    requires AllFaithful(setup, b) && tag in b.unacked
    ensures Faithful(setup, b.unacked[tag])
  {
    hide Faithful;
  }

  lemma ExpiryFaithful(setup: Setup, b: Broker, at: nat, stamp: Headers)
    requires AllFaithful(setup, b) && at < |b.retry| && stamp.Keys <= BROKER_HEADERS
    ensures AllFaithful(setup, Step(setup, b, RetryExpired(at, stamp)))
  {
    StampedFaithful(setup, b.retry[at], stamp);
    hide Faithful, Stamped;
  }

  lemma ArrivalFaithful(setup: Setup, b: Broker, n: nat)
    requires Sound(setup) && AllFaithful(setup, b) && n < |setup.outbox|
    ensures AllFaithful(setup, Step(setup, b, Arrive(n)))
  {
    assert Faithful(setup, Message(n, setup.outbox[n].body, setup.outbox[n].headers, 0));
    hide Faithful;
  }

  // Deliveries, acknowledgements and closed channels only move copies or drop them.
  lemma MoveFaithful(setup: Setup, b: Broker, e: Event)
    requires AllFaithful(setup, b) && (e.Deliver? || e.HandlerSucceeded? || e.ChannelClosed?)
    ensures AllFaithful(setup, Step(setup, b, e))
  {
    hide Faithful;
  }

  lemma StepFaithful(setup: Setup, b: Broker, e: Event)
    requires Sound(setup) && AllFaithful(setup, b)
    ensures AllFaithful(setup, Step(setup, b, e))
  {
    hide AllFaithful, PublishThenAck, CopyOf, DeadLetterCopy, Sound;
    match e
    case Arrive(n) =>
      if n < |setup.outbox| {
        ArrivalFaithful(setup, b, n);
      }
    case HandlerFailed(tag, reason, now, fate) =>
      if tag in b.unacked {
        FailureFaithful(setup, b, tag, reason, now, fate);
      }
    case Malformed(tag, reason, now, fate) =>
      if tag in b.unacked {
        FailureFaithful(setup, b, tag, reason, now, fate);
      }
    case RetryExpired(at, stamp) =>
      if at < |b.retry| && stamp.Keys <= BROKER_HEADERS {
        ExpiryFaithful(setup, b, at, stamp);
      }
    case _ => MoveFaithful(setup, b, e);
  }

  /**
   In every run every copy is faithful; in particular none has passed the retry queue more than maxAttempts - 1 times.
   */
  lemma {:induction false} CopiesAlwaysFaithful(setup: Setup, events: seq<Event>)
    requires Sound(setup)
    ensures AllFaithful(setup, Run(setup, events))
  {
    if events != [] {
      CopiesAlwaysFaithful(setup, events[..|events| - 1]);
      StepFaithful(setup, Run(setup, events[..|events| - 1]), events[|events| - 1]);
    }
  }

  ghost predicate LastPass(setup: Setup, b: Broker) {
    forall i | 0 <= i < |b.dead| :: b.dead[i].passes == setup.maxAttempts - 1
  }

  /** Nothing well-formed is given up early: without malformed bodies every dead letter has used all its attempts. */
  lemma {:induction false} DeadOnlyAfterAllAttempts(setup: Setup, events: seq<Event>)
    requires Sound(setup) && forall i | 0 <= i < |events| :: !events[i].Malformed?
    ensures LastPass(setup, Run(setup, events))
  {
    if events != [] {
      var fewer, e := events[..|events| - 1], events[|events| - 1];
      DeadOnlyAfterAllAttempts(setup, fewer);
      CopiesAlwaysFaithful(setup, fewer);
      StepGivesUpLate(setup, Run(setup, fewer), e);
    }
  }

  lemma StepGivesUpLate(setup: Setup, b: Broker, e: Event)
    requires Sound(setup) && AllFaithful(setup, b) && LastPass(setup, b) && !e.Malformed?
    ensures LastPass(setup, Step(setup, b, e))
  {
    if e.HandlerFailed? && e.tag in b.unacked
        && Honest(setup.topology, TargetOf(setup.maxAttempts, b.unacked[e.tag]), e.fate) {
      AllFaithfulAt(setup, b, e.tag);
      FailureExact(setup, b, e.tag, e.reason, e.now, e.fate);
      hide Step, AllFaithful, SameStored;
    } else {
      hide AllFaithful, TargetOf, CopyOf;
    }
  }
}
