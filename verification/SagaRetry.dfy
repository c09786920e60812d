/**
 The saga's outcome copies as the retry policy sees them: every run of the saga is, for each of the two outcome
 consumers, a run of the policy over that consumer's own queues.
 */
module SagaRetry {
  import opened Prelude
  import Inventory
  import OutcomeConsumer
  import RetryPolicy
  import Saga

  // The copy that each message of the three queues is. The tag of an unacknowledged delivery is the copy's own index.
  datatype Layout = Layout(source: seq<nat>, retry: seq<nat>, dead: seq<nat>)

  datatype View = View(events: seq<RetryPolicy.Event>, layout: Layout)

  /** Whether a copy belongs to the consumer that confirms orders, or to the one that rejects them. */
  predicate Mine(confirms: bool, c: Saga.OutcomeCopy) {
    c.outcome.decision.Sufficient? == confirms
  }

  predicate At(confirms: bool, copies: seq<Saga.OutcomeCopy>, k: nat, place: Saga.OutcomePlace) {
    k < |copies| && Mine(confirms, copies[k]) && copies[k].place == place
  }

  predicate Held(confirms: bool, copies: seq<Saga.OutcomeCopy>, k: nat) {
    k < |copies| && Mine(confirms, copies[k]) && copies[k].place.InFlight?
  }

  /** The message carries the copy's outcome, by its outbox row, and the copy's counter, in its headers. */
  predicate Shows(outbox: seq<Inventory.Outcome>, m: RetryPolicy.Message, c: Saga.OutcomeCopy) {
    m.id < |outbox| && outbox[m.id] == c.outcome && RetryPolicy.DeliveryAttempt(m.headers) == c.attempt
  }

  ghost predicate QueueOk(confirms: bool, outbox: seq<Inventory.Outcome>, copies: seq<Saga.OutcomeCopy>,
                          place: Saga.OutcomePlace, queue: seq<RetryPolicy.Message>, ks: seq<nat>) {
    && |queue| == |ks|
    && (forall i | 0 <= i < |ks| :: At(confirms, copies, ks[i], place) && Shows(outbox, queue[i], copies[ks[i]]))
    && (forall i, j | 0 <= i < j < |ks| :: ks[i] != ks[j])
    && (forall k: nat | At(confirms, copies, k, place) :: k in ks)
  }

  ghost predicate UnackedOk(confirms: bool, outbox: seq<Inventory.Outcome>, copies: seq<Saga.OutcomeCopy>,
                            unacked: map<RetryPolicy.Tag, RetryPolicy.Message>) {
    && (forall k: nat :: k in unacked <==> Held(confirms, copies, k))
    && (forall k: nat | k in unacked :: Shows(outbox, unacked[k], copies[k]))
  }

  ghost predicate CountersOk(copies: seq<Saga.OutcomeCopy>) {
    forall k | 0 <= k < |copies| :: 1 <= copies[k].attempt <= INT_MAX
  }

  /** The consumer's queues hold exactly the saga's copies, each where the saga has it. */
  ghost predicate Represents(confirms: bool, outbox: seq<Inventory.Outcome>, copies: seq<Saga.OutcomeCopy>,
                             b: RetryPolicy.Broker, l: Layout) {
    && QueueOk(confirms, outbox, copies, Saga.InQueue, b.source, l.source)
    && QueueOk(confirms, outbox, copies, Saga.Delayed, b.retry, l.retry)
    && QueueOk(confirms, outbox, copies, Saga.DeadLettered, b.dead, l.dead)
    && UnackedOk(confirms, outbox, copies, b.unacked)
    && CountersOk(copies)
  }

  function IndexOf(s: seq<nat>, k: nat): (i: nat)
    requires k in s
    ensures i < |s| && s[i] == k
  {
    if s[0] == k then 0 else 1 + IndexOf(s[1..], k)
  }

  /** What a step of the saga is to the consumer's policy, if anything, and where its copy goes. */
  function EventOf(confirms: bool, maxAttempts: int, s: Saga.State, a: Saga.Action, l: Layout)
    : (Option<RetryPolicy.Event>, Layout)
    requires Saga.Enabled(s, a)
  {
    match a
    case PublishOutcome(row) =>
      if s.stock.outbox[row].decision.Sufficient? != confirms then (None, l)
      else (Some(RetryPolicy.Arrive(row)), l.(source := l.source + [|s.outcomeCopies|]))
    case DeliverOutcome(k) =>
      if k !in l.source then (None, l)
      else
        var at := IndexOf(l.source, k);
        (Some(RetryPolicy.Deliver(at, k)), l.(source := RetryPolicy.Drop(l.source, at)))
    case AckOutcome(k) =>
      if !Mine(confirms, s.outcomeCopies[k]) then (None, l) else (Some(RetryPolicy.HandlerSucceeded(k, true)), l)
    case RequeueOutcome(k) =>
      if !Mine(confirms, s.outcomeCopies[k]) then (None, l)
      else (Some(RetryPolicy.ChannelClosed(k)), l.(source := l.source + [k]))
    case FailOutcome(k, settled) =>
      if !Mine(confirms, s.outcomeCopies[k]) then (None, l)
      else
        var fate := RetryPolicy.Fate(true, RetryPolicy.Confirmed, settled);
        (Some(RetryPolicy.HandlerFailed(k, "processing failed", "", fate)),
         if s.outcomeCopies[k].attempt >= maxAttempts then l.(dead := l.dead + [|s.outcomeCopies|])
         else l.(retry := l.retry + [|s.outcomeCopies|]))
    case ExpireDelay(k) =>
      if k !in l.retry then (None, l)
      else
        var at := IndexOf(l.retry, k);
        (Some(RetryPolicy.RetryExpired(at, map[])),
         l.(retry := RetryPolicy.Drop(l.retry, at), source := l.source + [k]))
    case _ => (None, l)
  }

  /** A run of the saga as the consumer's policy sees it. */
  function Seen(confirms: bool, maxAttempts: int, seed: Inventory.Tables, actions: seq<Saga.Action>): View {
    if actions == [] then View([], Layout([], [], []))
    else
      var fewer, a := actions[..|actions| - 1], actions[|actions| - 1];
      var before, s := Seen(confirms, maxAttempts, seed, fewer), Saga.Run(maxAttempts, seed, fewer);
      if !Saga.Enabled(s, a) then before
      else
        var (e, l) := EventOf(confirms, maxAttempts, s, a, before.layout);
        View(if e.Some? then before.events + [e.value] else before.events, l)
  }

  function After(setup: RetryPolicy.Setup, b: RetryPolicy.Broker, e: Option<RetryPolicy.Event>): RetryPolicy.Broker {
    if e.Some? then RetryPolicy.Step(setup, b, e.value) else b
  }

  // One queue ---------------------------------------------------------------------------------

  // The copies keep their outcomes and counters; new ones may join.
  ghost predicate SameCopies(copies: seq<Saga.OutcomeCopy>, u: seq<Saga.OutcomeCopy>) {
    && |copies| <= |u|
    && forall k | 0 <= k < |copies| :: u[k].outcome == copies[k].outcome && u[k].attempt == copies[k].attempt
  }

  lemma QueueKept(confirms: bool, outbox: seq<Inventory.Outcome>, more: seq<Inventory.Outcome>,
                  copies: seq<Saga.OutcomeCopy>, u: seq<Saga.OutcomeCopy>, place: Saga.OutcomePlace,
                  queue: seq<RetryPolicy.Message>, ks: seq<nat>)
    requires QueueOk(confirms, outbox, copies, place, queue, ks) && SameCopies(copies, u) && outbox <= more
    requires forall k: nat :: At(confirms, u, k, place) <==> At(confirms, copies, k, place)
    ensures QueueOk(confirms, more, u, place, queue, ks)
  {
    hide RetryPolicy.DeliveryAttempt;
    forall i | 0 <= i < |ks| ensures At(confirms, u, ks[i], place) && Shows(more, queue[i], u[ks[i]]) {
      assert At(confirms, copies, ks[i], place);
    }
  }

  lemma QueueGrows(confirms: bool, outbox: seq<Inventory.Outcome>, copies: seq<Saga.OutcomeCopy>,
                   u: seq<Saga.OutcomeCopy>, place: Saga.OutcomePlace, queue: seq<RetryPolicy.Message>, ks: seq<nat>,
                   m: RetryPolicy.Message, k: nat)
    requires QueueOk(confirms, outbox, copies, place, queue, ks) && SameCopies(copies, u)
    requires forall j: nat :: At(confirms, u, j, place) <==> At(confirms, copies, j, place) || j == k
    requires !At(confirms, copies, k, place) && k < |u| && Shows(outbox, m, u[k])
    ensures QueueOk(confirms, outbox, u, place, queue + [m], ks + [k])
  {
    hide RetryPolicy.DeliveryAttempt;
    var longer := ks + [k];
    forall i | 0 <= i < |longer|
      ensures At(confirms, u, longer[i], place) && Shows(outbox, (queue + [m])[i], u[longer[i]])
      ensures i < |ks| ==> longer[i] != k
    {
      if i < |ks| {
        assert At(confirms, copies, ks[i], place);
      }
    }
    forall j: nat | At(confirms, u, j, place) ensures j in longer {
      if j != k {
        assert j in ks;
      }
    }
  }

  lemma Dropped<T>(s: seq<T>, at: nat)
    requires at < |s|
    ensures |RetryPolicy.Drop(s, at)| == |s| - 1
    ensures forall i | 0 <= i < |s| - 1 :: RetryPolicy.Drop(s, at)[i] == s[if i < at then i else i + 1]
  {}

  lemma ShorterInside(confirms: bool, outbox: seq<Inventory.Outcome>, copies: seq<Saga.OutcomeCopy>,
                      u: seq<Saga.OutcomeCopy>, place: Saga.OutcomePlace, queue: seq<RetryPolicy.Message>, ks: seq<nat>,
                      at: nat, i: nat)
    requires QueueOk(confirms, outbox, copies, place, queue, ks) && SameCopies(copies, u) && at < |ks| && i < |ks| - 1
    requires forall j: nat :: At(confirms, u, j, place) <==> At(confirms, copies, j, place) && j != ks[at]
    ensures |RetryPolicy.Drop(ks, at)| == |ks| - 1 && |RetryPolicy.Drop(queue, at)| == |ks| - 1
    ensures At(confirms, u, RetryPolicy.Drop(ks, at)[i], place)
    ensures Shows(outbox, RetryPolicy.Drop(queue, at)[i], u[RetryPolicy.Drop(ks, at)[i]])
  {
    hide RetryPolicy.DeliveryAttempt, RetryPolicy.Drop;
    Dropped(ks, at);
    Dropped(queue, at);
    var j := if i < at then i else i + 1;
    assert At(confirms, copies, ks[j], place);
    assert ks[j] != ks[at];
  }

  lemma QueueShrinks(confirms: bool, outbox: seq<Inventory.Outcome>, copies: seq<Saga.OutcomeCopy>,
                     u: seq<Saga.OutcomeCopy>, place: Saga.OutcomePlace, queue: seq<RetryPolicy.Message>, ks: seq<nat>,
                     at: nat)
    requires QueueOk(confirms, outbox, copies, place, queue, ks) && SameCopies(copies, u) && at < |ks|
    requires forall j: nat :: At(confirms, u, j, place) <==> At(confirms, copies, j, place) && j != ks[at]
    ensures QueueOk(confirms, outbox, u, place, RetryPolicy.Drop(queue, at), RetryPolicy.Drop(ks, at))
  {
    hide Shows, RetryPolicy.Drop;
    var shorter := RetryPolicy.Drop(ks, at);
    Dropped(ks, at);
    Dropped(queue, at);
    forall i: nat | i < |shorter|
      ensures At(confirms, u, shorter[i], place) && Shows(outbox, RetryPolicy.Drop(queue, at)[i], u[shorter[i]])
    {
      ShorterInside(confirms, outbox, copies, u, place, queue, ks, at, i);
    }
    forall j: nat | At(confirms, u, j, place) ensures j in shorter {
      var i :| 0 <= i < |ks| && ks[i] == j;
      assert shorter[if i < at then i else i - 1] == j;
    }
  }

  // One step ----------------------------------------------------------------------------------

  function Moved(copies: seq<Saga.OutcomeCopy>, k: nat, place: Saga.OutcomePlace): seq<Saga.OutcomeCopy>
    requires k < |copies|
  {
    copies[k := copies[k].(place := place)]
  }

  lemma ShowsMoved(outbox: seq<Inventory.Outcome>, m: RetryPolicy.Message, copies: seq<Saga.OutcomeCopy>, k: nat,
                   place: Saga.OutcomePlace)
    requires k < |copies|
    ensures Shows(outbox, m, Moved(copies, k, place)[k]) <==> Shows(outbox, m, copies[k])
  {}

  // A queue that copy k neither leaves nor joins.
  lemma NotInvolved(confirms: bool, outbox: seq<Inventory.Outcome>, copies: seq<Saga.OutcomeCopy>, k: nat,
                    to: Saga.OutcomePlace, place: Saga.OutcomePlace, queue: seq<RetryPolicy.Message>, ks: seq<nat>)
    requires QueueOk(confirms, outbox, copies, place, queue, ks) && k < |copies|
    requires !Mine(confirms, copies[k]) || (copies[k].place != place && to != place)
    ensures QueueOk(confirms, outbox, Moved(copies, k, to), place, queue, ks)
  {
    QueueKept(confirms, outbox, outbox, copies, Moved(copies, k, to), place, queue, ks);
    hide QueueOk;
  }

  // A queue that copy k joins at the end.
  lemma Joined(confirms: bool, outbox: seq<Inventory.Outcome>, copies: seq<Saga.OutcomeCopy>, k: nat,
               place: Saga.OutcomePlace, queue: seq<RetryPolicy.Message>, ks: seq<nat>, m: RetryPolicy.Message)
    requires QueueOk(confirms, outbox, copies, place, queue, ks) && k < |copies|
    requires Mine(confirms, copies[k]) && copies[k].place != place && Shows(outbox, m, copies[k])
    ensures QueueOk(confirms, outbox, Moved(copies, k, place), place, queue + [m], ks + [k])
  {
    ShowsMoved(outbox, m, copies, k, place);
    hide QueueOk, Shows;
    QueueGrows(confirms, outbox, copies, Moved(copies, k, place), place, queue, ks, m, k);
  }

  // A queue that copy k leaves, from wherever it stands.
  lemma Left(confirms: bool, outbox: seq<Inventory.Outcome>, copies: seq<Saga.OutcomeCopy>, k: nat,
             to: Saga.OutcomePlace, place: Saga.OutcomePlace, queue: seq<RetryPolicy.Message>, ks: seq<nat>)
    requires QueueOk(confirms, outbox, copies, place, queue, ks) && k < |copies|
    requires Mine(confirms, copies[k]) && copies[k].place == place && to != place
    ensures k in ks
    ensures
      var at := IndexOf(ks, k);
      && at < |queue| && Shows(outbox, queue[at], copies[k])
      && QueueOk(confirms, outbox, Moved(copies, k, to), place, RetryPolicy.Drop(queue, at), RetryPolicy.Drop(ks, at))
  {
    hide Shows, RetryPolicy.Drop;
    assert At(confirms, copies, k, place);
    var at := IndexOf(ks, k);
    assert Shows(outbox, queue[at], copies[ks[at]]);
    hide QueueOk;
    QueueShrinks(confirms, outbox, copies, Moved(copies, k, to), place, queue, ks, at);
  }

  // The other deliveries are not touched by a move of copy k.
  lemma UnackedMoved(confirms: bool, outbox: seq<Inventory.Outcome>, copies: seq<Saga.OutcomeCopy>,
                     unacked: map<RetryPolicy.Tag, RetryPolicy.Message>, k: nat, place: Saga.OutcomePlace)
    requires UnackedOk(confirms, outbox, copies, unacked) && k < |copies|
    ensures
      var u := Moved(copies, k, place);
      && (forall j: nat | j != k :: j in unacked <==> Held(confirms, u, j))
      && (forall j: nat | j in unacked :: Shows(outbox, unacked[j], u[j]))
  {}

  lemma CountersMoved(copies: seq<Saga.OutcomeCopy>, k: nat, place: Saga.OutcomePlace)
    requires CountersOk(copies) && k < |copies|
    ensures CountersOk(Moved(copies, k, place))
  {}

  lemma DeliversAlike(confirms: bool, outbox: seq<Inventory.Outcome>, copies: seq<Saga.OutcomeCopy>, k: nat,
                      b: RetryPolicy.Broker, l: Layout)
    requires Represents(confirms, outbox, copies, b, l)
    requires At(confirms, copies, k, Saga.InQueue)
    ensures k in l.source && k !in b.unacked
    ensures
      var at := IndexOf(l.source, k);
      && at < |b.source|
      && Represents(confirms, outbox, Moved(copies, k, Saga.InFlight(Saga.Delivered)),
                    b.(source := RetryPolicy.Drop(b.source, at), unacked := b.unacked[k := b.source[at]]),
                    l.(source := RetryPolicy.Drop(l.source, at)))
  {
    var to := Saga.InFlight(Saga.Delivered);
    hide QueueOk, Shows, RetryPolicy.Drop, CountersOk;
    Left(confirms, outbox, copies, k, to, Saga.InQueue, b.source, l.source);
    NotInvolved(confirms, outbox, copies, k, to, Saga.Delayed, b.retry, l.retry);
    NotInvolved(confirms, outbox, copies, k, to, Saga.DeadLettered, b.dead, l.dead);
    UnackedMoved(confirms, outbox, copies, b.unacked, k, to);
    ShowsMoved(outbox, b.source[IndexOf(l.source, k)], copies, k, to);
    CountersMoved(copies, k, to);
  }

  lemma ExpiresAlike(confirms: bool, outbox: seq<Inventory.Outcome>, copies: seq<Saga.OutcomeCopy>, k: nat,
                     b: RetryPolicy.Broker, l: Layout)
    requires Represents(confirms, outbox, copies, b, l)
    requires At(confirms, copies, k, Saga.Delayed)
    ensures k in l.retry
    ensures
      var at := IndexOf(l.retry, k);
      && at < |b.retry|
      && Represents(confirms, outbox, Moved(copies, k, Saga.InQueue),
                    b.(retry := RetryPolicy.Drop(b.retry, at), source := b.source + [b.retry[at]]),
                    l.(retry := RetryPolicy.Drop(l.retry, at), source := l.source + [k]))
  {
    hide QueueOk, Shows, RetryPolicy.Drop, CountersOk;
    Left(confirms, outbox, copies, k, Saga.InQueue, Saga.Delayed, b.retry, l.retry);
    Joined(confirms, outbox, copies, k, Saga.InQueue, b.source, l.source, b.retry[IndexOf(l.retry, k)]);
    NotInvolved(confirms, outbox, copies, k, Saga.InQueue, Saga.DeadLettered, b.dead, l.dead);
    UnackedMoved(confirms, outbox, copies, b.unacked, k, Saga.InQueue);
    CountersMoved(copies, k, Saga.InQueue);
  }

  // A delivery that is held stays held, is acknowledged, or goes back to its queue.
  lemma HeldAlike(confirms: bool, outbox: seq<Inventory.Outcome>, copies: seq<Saga.OutcomeCopy>, k: nat,
                  to: Saga.OutcomePlace, b: RetryPolicy.Broker, l: Layout)
    requires Represents(confirms, outbox, copies, b, l) && Held(confirms, copies, k)
    ensures k in b.unacked && Shows(outbox, b.unacked[k], copies[k])
    ensures to.InFlight? ==> Represents(confirms, outbox, Moved(copies, k, to), b, l)
    ensures to == Saga.Gone ==>
              Represents(confirms, outbox, Moved(copies, k, to), b.(unacked := b.unacked - {k}), l)
    ensures to == Saga.InQueue ==>
              Represents(confirms, outbox, Moved(copies, k, to), RetryPolicy.Requeue(b, k),
                         l.(source := l.source + [k]))
  {
    hide QueueOk, Shows, CountersOk;
    UnackedMoved(confirms, outbox, copies, b.unacked, k, to);
    CountersMoved(copies, k, to);
    if to.InFlight? || to == Saga.Gone || to == Saga.InQueue {
      NotInvolved(confirms, outbox, copies, k, to, Saga.Delayed, b.retry, l.retry);
      NotInvolved(confirms, outbox, copies, k, to, Saga.DeadLettered, b.dead, l.dead);
      if to == Saga.InQueue {
        Joined(confirms, outbox, copies, k, to, b.source, l.source, b.unacked[k]);
      } else {
        NotInvolved(confirms, outbox, copies, k, to, Saga.InQueue, b.source, l.source);
      }
    }
  }

  // A move of the other consumer's copy, to any place.
  lemma OtherMoves(confirms: bool, outbox: seq<Inventory.Outcome>, copies: seq<Saga.OutcomeCopy>, k: nat,
                   to: Saga.OutcomePlace, b: RetryPolicy.Broker, l: Layout)
    requires Represents(confirms, outbox, copies, b, l) && k < |copies| && !Mine(confirms, copies[k])
    ensures Represents(confirms, outbox, Moved(copies, k, to), b, l)
    ensures k !in l.source && k !in l.retry
  {
    assert k !in l.source && k !in l.retry;
    hide QueueOk, Shows, CountersOk;
    NotInvolved(confirms, outbox, copies, k, to, Saga.InQueue, b.source, l.source);
    NotInvolved(confirms, outbox, copies, k, to, Saga.Delayed, b.retry, l.retry);
    NotInvolved(confirms, outbox, copies, k, to, Saga.DeadLettered, b.dead, l.dead);
    UnackedMoved(confirms, outbox, copies, b.unacked, k, to);
    CountersMoved(copies, k, to);
  }

  // A new copy, for one queue or for the other consumer.
  lemma AddedTo(confirms: bool, outbox: seq<Inventory.Outcome>, copies: seq<Saga.OutcomeCopy>, c: Saga.OutcomeCopy,
                place: Saga.OutcomePlace, queue: seq<RetryPolicy.Message>, ks: seq<nat>, m: RetryPolicy.Message)
    requires QueueOk(confirms, outbox, copies, place, queue, ks)
    requires Mine(confirms, c) && c.place == place ==> Shows(outbox, m, c)
    ensures
      if Mine(confirms, c) && c.place == place
      then QueueOk(confirms, outbox, copies + [c], place, queue + [m], ks + [|copies|])
      else QueueOk(confirms, outbox, copies + [c], place, queue, ks)
  {
    var u := copies + [c];
    assert u[|copies|] == c;
    hide Shows, QueueOk;
    if Mine(confirms, c) && c.place == place {
      QueueGrows(confirms, outbox, copies, u, place, queue, ks, m, |copies|);
    } else {
      QueueKept(confirms, outbox, outbox, copies, u, place, queue, ks);
    }
  }

  function WithMessage(b: RetryPolicy.Broker, c: Saga.OutcomeCopy, m: RetryPolicy.Message): RetryPolicy.Broker {
    match c.place
    case InQueue => b.(source := b.source + [m])
    case Delayed => b.(retry := b.retry + [m])
    case DeadLettered => b.(dead := b.dead + [m])
    case _ => b
  }

  function WithIndex(l: Layout, c: Saga.OutcomeCopy, k: nat): Layout {
    match c.place
    case InQueue => l.(source := l.source + [k])
    case Delayed => l.(retry := l.retry + [k])
    case DeadLettered => l.(dead := l.dead + [k])
    case _ => l
  }

  lemma AddsAlike(confirms: bool, outbox: seq<Inventory.Outcome>, copies: seq<Saga.OutcomeCopy>, c: Saga.OutcomeCopy,
                  m: RetryPolicy.Message, b: RetryPolicy.Broker, l: Layout)
    requires Represents(confirms, outbox, copies, b, l) && !c.place.InFlight? && 1 <= c.attempt <= INT_MAX
    requires Mine(confirms, c) ==> Shows(outbox, m, c)
    ensures
      if Mine(confirms, c)
      then Represents(confirms, outbox, copies + [c], WithMessage(b, c, m), WithIndex(l, c, |copies|))
      else Represents(confirms, outbox, copies + [c], b, l)
  {
    hide QueueOk, Shows;
    AddedTo(confirms, outbox, copies, c, Saga.InQueue, b.source, l.source, m);
    AddedTo(confirms, outbox, copies, c, Saga.Delayed, b.retry, l.retry, m);
    AddedTo(confirms, outbox, copies, c, Saga.DeadLettered, b.dead, l.dead, m);
  }

  // The copy the policy publishes shows the copy the saga adds.
  lemma FailureShows(outbox: seq<Inventory.Outcome>, maxAttempts: int, m: RetryPolicy.Message, c: Saga.OutcomeCopy)
    requires Shows(outbox, m, c) && 1 <= c.attempt <= INT_MAX
    ensures
      var copy, failed := RetryPolicy.CopyOf(maxAttempts, m, "processing failed", ""), Saga.FailureCopy(maxAttempts, c);
      && Shows(outbox, copy, failed) && Shows(outbox, copy.(passes := copy.passes + 1), failed)
      && RetryPolicy.TargetOf(maxAttempts, m).ToDeadLetter? == (c.attempt >= maxAttempts)
  {
    OutcomeConsumer.FailureMatchesPolicy(maxAttempts, c, m, "processing failed", "");
  }

  lemma FailureKeeps(maxAttempts: int, c: Saga.OutcomeCopy)
    requires 1 <= c.attempt <= INT_MAX
    ensures
      var failed := Saga.FailureCopy(maxAttempts, c);
      && failed.outcome == c.outcome && 1 <= failed.attempt <= INT_MAX
      && failed.place == if c.attempt >= maxAttempts then Saga.DeadLettered else Saga.Delayed
  {}

  lemma StoresAlike(confirms: bool, maxAttempts: int, outbox: seq<Inventory.Outcome>, copies: seq<Saga.OutcomeCopy>,
                    k: nat, b: RetryPolicy.Broker, l: Layout)
    requires Represents(confirms, outbox, copies, b, l) && Held(confirms, copies, k)
    ensures k in b.unacked
    ensures
      var m, failed := b.unacked[k], Saga.FailureCopy(maxAttempts, copies[k]);
      var stored := RetryPolicy.Store(b, RetryPolicy.TargetOf(maxAttempts, m),
                                      RetryPolicy.CopyOf(maxAttempts, m, "processing failed", ""));
      && stored.unacked == b.unacked
      && Represents(confirms, outbox, copies + [failed], stored, WithIndex(l, failed, |copies|))
  {
    var c, failed := copies[k], Saga.FailureCopy(maxAttempts, copies[k]);
    HeldAlike(confirms, outbox, copies, k, c.place, b, l);
    var m := b.unacked[k];
    assert 1 <= c.attempt <= INT_MAX && Mine(confirms, c);
    hide Represents, Shows, Saga.FailureCopy, Held;
    FailureShows(outbox, maxAttempts, m, c);
    FailureKeeps(maxAttempts, c);
    hide *;
    var target := RetryPolicy.TargetOf(maxAttempts, m);
    var copy := RetryPolicy.CopyOf(maxAttempts, m, "processing failed", "");
    var kept := if target.ToRetry? then copy.(passes := copy.passes + 1) else copy;
    SameConsumer(confirms, c, failed);
    AddsAlike(confirms, outbox, copies, failed, kept, b, l);
    StoreAdds(b, target, copy, failed);
  }

  lemma SameConsumer(confirms: bool, c: Saga.OutcomeCopy, d: Saga.OutcomeCopy)
    requires c.outcome == d.outcome
    ensures Mine(confirms, c) <==> Mine(confirms, d)
  {}

  lemma StoreAdds(b: RetryPolicy.Broker, target: RetryPolicy.Target, copy: RetryPolicy.Message, c: Saga.OutcomeCopy)
    requires c.place == if target.ToDeadLetter? then Saga.DeadLettered else Saga.Delayed
    ensures RetryPolicy.Store(b, target, copy)
            == WithMessage(b, c, if target.ToRetry? then copy.(passes := copy.passes + 1) else copy)
    ensures RetryPolicy.Store(b, target, copy).unacked == b.unacked
  {}

  /** A failed handling of the consumer's own delivery: the copy is stored, and the original settled or not. */
  lemma FailsAlike(confirms: bool, maxAttempts: int, outbox: seq<Inventory.Outcome>, copies: seq<Saga.OutcomeCopy>,
                   k: nat, settled: bool, b: RetryPolicy.Broker, l: Layout)
    requires Represents(confirms, outbox, copies, b, l) && Held(confirms, copies, k)
    ensures k in b.unacked
    ensures
      var m, failed := b.unacked[k], Saga.FailureCopy(maxAttempts, copies[k]);
      var stored := copies + [failed];
      Represents(confirms, outbox, if settled then Moved(stored, k, Saga.Gone) else stored,
                 RetryPolicy.PublishThenAck(b, k, RetryPolicy.CopyOf(maxAttempts, m, "processing failed", ""),
                   RetryPolicy.TargetOf(maxAttempts, m), RetryPolicy.Fate(true, RetryPolicy.Confirmed, settled)),
                 WithIndex(l, failed, |copies|))
  {
    var failed := Saga.FailureCopy(maxAttempts, copies[k]);
    StoresAlike(confirms, maxAttempts, outbox, copies, k, b, l);
    var m := b.unacked[k];
    assert (copies + [failed])[k] == copies[k];
    hide Represents, Saga.FailureCopy, RetryPolicy.CopyOf, RetryPolicy.TargetOf, RetryPolicy.Store, WithIndex;
    var stored := RetryPolicy.Store(b, RetryPolicy.TargetOf(maxAttempts, m),
                                    RetryPolicy.CopyOf(maxAttempts, m, "processing failed", ""));
    if settled {
      HeldAlike(confirms, outbox, copies + [failed], k, Saga.Gone, stored, WithIndex(l, failed, |copies|));
    }
  }

  // Every step --------------------------------------------------------------------------------

  /** The queues are declared and bound, and the publisher does not set the counter. */
  ghost predicate Fits(setup: RetryPolicy.Setup) {
    && RetryPolicy.Declared(setup)
    && forall n | 0 <= n < |setup.outbox| :: RetryPolicy.ATTEMPT !in setup.outbox[n].headers
  }

  ghost predicate Alike(confirms: bool, setup: RetryPolicy.Setup, s: Saga.State, a: Saga.Action, b: RetryPolicy.Broker,
                        l: Layout)
    requires Saga.Enabled(s, a)
  {
    var u := Saga.Apply(setup.maxAttempts, s, a);
    var (e, more) := EventOf(confirms, setup.maxAttempts, s, a, l);
    Represents(confirms, u.stock.outbox, u.outcomeCopies, After(setup, b, e), more)
  }

  lemma PublishAlike(confirms: bool, setup: RetryPolicy.Setup, s: Saga.State, row: nat, b: RetryPolicy.Broker,
                     l: Layout)
    requires Fits(setup) && row < |s.stock.outbox| <= |setup.outbox|
    requires Represents(confirms, s.stock.outbox, s.outcomeCopies, b, l)
    ensures Alike(confirms, setup, s, Saga.PublishOutcome(row), b, l)
  {
    var c := Saga.OutcomeCopy(s.stock.outbox[row], 1, Saga.InQueue);
    var m := RetryPolicy.Message(row, setup.outbox[row].body, setup.outbox[row].headers, 0);
    assert Shows(s.stock.outbox, m, c);
    hide Represents, Shows;
    AddsAlike(confirms, s.stock.outbox, s.outcomeCopies, c, m, b, l);
  }

  lemma DeliverAlike(confirms: bool, setup: RetryPolicy.Setup, s: Saga.State, k: nat, b: RetryPolicy.Broker, l: Layout)
    requires Saga.OutcomeAt(s, k, Saga.InQueue)
    requires Represents(confirms, s.stock.outbox, s.outcomeCopies, b, l)
    ensures Alike(confirms, setup, s, Saga.DeliverOutcome(k), b, l)
  {
    hide Represents, RetryPolicy.Drop;
    if Mine(confirms, s.outcomeCopies[k]) {
      DeliversAlike(confirms, s.stock.outbox, s.outcomeCopies, k, b, l);
    } else {
      OtherMoves(confirms, s.stock.outbox, s.outcomeCopies, k, Saga.InFlight(Saga.Delivered), b, l);
    }
  }

  lemma ExpireAlike(confirms: bool, setup: RetryPolicy.Setup, s: Saga.State, k: nat, b: RetryPolicy.Broker, l: Layout)
    requires Fits(setup) && Saga.OutcomeAt(s, k, Saga.Delayed)
    requires Represents(confirms, s.stock.outbox, s.outcomeCopies, b, l)
    ensures Alike(confirms, setup, s, Saga.ExpireDelay(k), b, l)
  {
    hide Represents, RetryPolicy.Drop;
    if Mine(confirms, s.outcomeCopies[k]) {
      ExpiresAlike(confirms, s.stock.outbox, s.outcomeCopies, k, b, l);
      NoStamp(b.retry[IndexOf(l.retry, k)]);
      hide RetryPolicy.Stamped;
    } else {
      OtherMoves(confirms, s.stock.outbox, s.outcomeCopies, k, Saga.InQueue, b, l);
    }
  }

  lemma NoStamp(m: RetryPolicy.Message)
    ensures RetryPolicy.Stamped(m, map[]) == m
  {
    assert m.headers + map[] == m.headers;
  }

  lemma WorkAlike(confirms: bool, setup: RetryPolicy.Setup, s: Saga.State, a: Saga.Action, b: RetryPolicy.Broker,
                  l: Layout)
    requires Saga.Enabled(s, a) && (a.CheckInbox? || a.ApplyOutcome? || a.RecordOutcome?)
    requires Represents(confirms, s.stock.outbox, s.outcomeCopies, b, l)
    ensures Alike(confirms, setup, s, a, b, l)
  {
    hide Represents;
    var to := Saga.Apply(setup.maxAttempts, s, a).outcomeCopies[a.copy].place;
    if Mine(confirms, s.outcomeCopies[a.copy]) {
      HeldAlike(confirms, s.stock.outbox, s.outcomeCopies, a.copy, to, b, l);
    } else {
      OtherMoves(confirms, s.stock.outbox, s.outcomeCopies, a.copy, to, b, l);
    }
  }

  lemma AckAlike(confirms: bool, setup: RetryPolicy.Setup, s: Saga.State, k: nat, b: RetryPolicy.Broker, l: Layout)
    requires Saga.OutcomeAt(s, k, Saga.InFlight(Saga.Recorded))
    requires Represents(confirms, s.stock.outbox, s.outcomeCopies, b, l)
    ensures Alike(confirms, setup, s, Saga.AckOutcome(k), b, l)
  {
    hide Represents;
    if Mine(confirms, s.outcomeCopies[k]) {
      HeldAlike(confirms, s.stock.outbox, s.outcomeCopies, k, Saga.Gone, b, l);
      HandledIsNotShown(confirms, s.stock.outbox, Moved(s.outcomeCopies, k, Saga.Gone),
                        b.(unacked := b.unacked - {k}), l, b.handled + {b.unacked[k].id});
    } else {
      OtherMoves(confirms, s.stock.outbox, s.outcomeCopies, k, Saga.Gone, b, l);
    }
  }

  lemma RequeueAlike(confirms: bool, setup: RetryPolicy.Setup, s: Saga.State, k: nat, b: RetryPolicy.Broker, l: Layout)
    requires Saga.OutcomeInFlight(s, k)
    requires Represents(confirms, s.stock.outbox, s.outcomeCopies, b, l)
    ensures Alike(confirms, setup, s, Saga.RequeueOutcome(k), b, l)
  {
    hide Represents, RetryPolicy.Requeue;
    if Mine(confirms, s.outcomeCopies[k]) {
      HeldAlike(confirms, s.stock.outbox, s.outcomeCopies, k, Saga.InQueue, b, l);
    } else {
      OtherMoves(confirms, s.stock.outbox, s.outcomeCopies, k, Saga.InQueue, b, l);
    }
  }

  lemma HandledIsNotShown(confirms: bool, outbox: seq<Inventory.Outcome>, copies: seq<Saga.OutcomeCopy>,
                          b: RetryPolicy.Broker, l: Layout, handled: set<nat>)
    ensures Represents(confirms, outbox, copies, b.(handled := handled), l)
            <==> Represents(confirms, outbox, copies, b, l)
  {
    hide QueueOk, UnackedOk, CountersOk;
  }

  // What the saga and the policy make of a failed handling, side by side.
  lemma FailureSteps(confirms: bool, setup: RetryPolicy.Setup, s: Saga.State, k: nat, settled: bool,
                     b: RetryPolicy.Broker, l: Layout)
    requires Fits(setup) && Saga.OutcomeInFlight(s, k) && 1 <= s.outcomeCopies[k].attempt <= INT_MAX
    ensures
      var a, failed := Saga.FailOutcome(k, settled), Saga.FailureCopy(setup.maxAttempts, s.outcomeCopies[k]);
      var stored := s.outcomeCopies + [failed];
      var u := Saga.Apply(setup.maxAttempts, s, a);
      var (e, more) := EventOf(confirms, setup.maxAttempts, s, a, l);
      && u.stock == s.stock && u.outcomeCopies == (if settled then Moved(stored, k, Saga.Gone) else stored)
      && if Mine(confirms, s.outcomeCopies[k]) then
           && more == WithIndex(l, failed, |s.outcomeCopies|)
           && (k in b.unacked ==>
                 After(setup, b, e)
                 == RetryPolicy.PublishThenAck(b, k,
                      RetryPolicy.CopyOf(setup.maxAttempts, b.unacked[k], "processing failed", ""),
                      RetryPolicy.TargetOf(setup.maxAttempts, b.unacked[k]),
                      RetryPolicy.Fate(true, RetryPolicy.Confirmed, settled)))
         else After(setup, b, e) == b && more == l
  {
    FailureKeeps(setup.maxAttempts, s.outcomeCopies[k]);
    hide Saga.FailureCopy, RetryPolicy.CopyOf, RetryPolicy.TargetOf, RetryPolicy.PublishThenAck;
  }

  lemma FailAlike(confirms: bool, setup: RetryPolicy.Setup, s: Saga.State, k: nat, settled: bool, b: RetryPolicy.Broker,
                  l: Layout)
    requires Fits(setup) && Saga.OutcomeInFlight(s, k)
    requires Represents(confirms, s.stock.outbox, s.outcomeCopies, b, l)
    ensures Alike(confirms, setup, s, Saga.FailOutcome(k, settled), b, l)
  {
    var copies, failed := s.outcomeCopies, Saga.FailureCopy(setup.maxAttempts, s.outcomeCopies[k]);
    var stored := copies + [failed];
    assert stored[k] == copies[k] && 1 <= copies[k].attempt <= INT_MAX;
    assert Mine(confirms, copies[k]) ==> Held(confirms, copies, k);
    FailureKeeps(setup.maxAttempts, copies[k]);
    SameConsumer(confirms, copies[k], failed);
    hide Represents, Saga.FailureCopy, RetryPolicy.CopyOf, RetryPolicy.TargetOf, RetryPolicy.PublishThenAck,
         Saga.Apply, EventOf, After, Mine, Held, WithIndex, Moved;
    FailureSteps(confirms, setup, s, k, settled, b, l);
    if Mine(confirms, copies[k]) {
      FailsAlike(confirms, setup.maxAttempts, s.stock.outbox, copies, k, settled, b, l);
    } else {
      AddsAlike(confirms, s.stock.outbox, copies, failed, RetryPolicy.Message(0, "", map[], 0), b, l);
      if settled {
        OtherMoves(confirms, s.stock.outbox, stored, k, Saga.Gone, b, l);
      }
    }
  }

  // More answers in inventory's outbox change nothing for the copies there are.
  lemma MoreAnswers(confirms: bool, outbox: seq<Inventory.Outcome>, more: seq<Inventory.Outcome>,
                    copies: seq<Saga.OutcomeCopy>, b: RetryPolicy.Broker, l: Layout)
    requires Represents(confirms, outbox, copies, b, l) && outbox <= more
    ensures Represents(confirms, more, copies, b, l)
  {
    hide RetryPolicy.DeliveryAttempt;
    QueueKept(confirms, outbox, more, copies, copies, Saga.InQueue, b.source, l.source);
    QueueKept(confirms, outbox, more, copies, copies, Saga.Delayed, b.retry, l.retry);
    QueueKept(confirms, outbox, more, copies, copies, Saga.DeadLettered, b.dead, l.dead);
    hide QueueOk;
  }

  predicate OutcomeAction(a: Saga.Action) {
    || a.PublishOutcome? || a.DeliverOutcome? || a.CheckInbox? || a.ApplyOutcome? || a.RecordOutcome? || a.AckOutcome?
    || a.RequeueOutcome? || a.FailOutcome? || a.ExpireDelay?
  }

  lemma OutboxGrows(maxAttempts: int, s: Saga.State, a: Saga.Action)
    requires Saga.Enabled(s, a)
    ensures
      var u := Saga.Apply(maxAttempts, s, a);
      s.stock.outbox <= u.stock.outbox && (!OutcomeAction(a) ==> u.outcomeCopies == s.outcomeCopies)
  {
    if a.CommitRequest? {
      Inventory.EffectExact(s.stock, s.requestCopies[a.copy].request, a.outcomeId);
    }
    hide Inventory.Transact, Inventory.Written, Inventory.Rows, Inventory.Check, Saga.RequestRouted, Saga.OutcomeRouted;
  }

  lemma StepAlike(confirms: bool, setup: RetryPolicy.Setup, s: Saga.State, a: Saga.Action, b: RetryPolicy.Broker,
                  l: Layout)
    requires Fits(setup) && Saga.Enabled(s, a) && |s.stock.outbox| <= |setup.outbox|
    requires Represents(confirms, s.stock.outbox, s.outcomeCopies, b, l)
    ensures Alike(confirms, setup, s, a, b, l)
  {
    hide Represents, Fits, Alike, Saga.Apply;
    match a
    case PublishOutcome(row) => PublishAlike(confirms, setup, s, row, b, l);
    case DeliverOutcome(k) => DeliverAlike(confirms, setup, s, k, b, l);
    case CheckInbox(_) => WorkAlike(confirms, setup, s, a, b, l);
    case ApplyOutcome(_, _) => WorkAlike(confirms, setup, s, a, b, l);
    case RecordOutcome(_, _) => WorkAlike(confirms, setup, s, a, b, l);
    case AckOutcome(k) => AckAlike(confirms, setup, s, k, b, l);
    case RequeueOutcome(k) => RequeueAlike(confirms, setup, s, k, b, l);
    case FailOutcome(k, settled) => FailAlike(confirms, setup, s, k, settled, b, l);
    case ExpireDelay(k) => ExpireAlike(confirms, setup, s, k, b, l);
    case _ => NoEventAlike(confirms, setup, s, a, b, l);
  }

  lemma NoEventAlike(confirms: bool, setup: RetryPolicy.Setup, s: Saga.State, a: Saga.Action, b: RetryPolicy.Broker,
                     l: Layout)
    requires Saga.Enabled(s, a) && !OutcomeAction(a)
    requires Represents(confirms, s.stock.outbox, s.outcomeCopies, b, l)
    ensures Alike(confirms, setup, s, a, b, l)
  {
    OutboxGrows(setup.maxAttempts, s, a);
    hide Represents, Saga.Apply, Saga.Enabled;
    MoreAnswers(confirms, s.stock.outbox, Saga.Apply(setup.maxAttempts, s, a).stock.outbox, s.outcomeCopies, b, l);
  }

  // Every run ---------------------------------------------------------------------------------

  lemma Nothing(confirms: bool, outbox: seq<Inventory.Outcome>)
    ensures Represents(confirms, outbox, [], RetryPolicy.Broker([], map[], [], [], {}), Layout([], [], []))
  {}

  lemma PolicyRunMore(setup: RetryPolicy.Setup, events: seq<RetryPolicy.Event>, e: RetryPolicy.Event)
    ensures RetryPolicy.Run(setup, events + [e]) == RetryPolicy.Step(setup, RetryPolicy.Run(setup, events), e)
  {
    assert (events + [e])[..|events + [e]| - 1] == events;
  }

  /**
   Refinement: every run of the saga, whatever it repeats, reorders or cuts off, is for each outcome consumer a run of
   the retry policy, after which that consumer's queues hold exactly the saga's copies. So the policy's theorems hold of
   the saga.
   */
  lemma {:induction false} RefinesPolicy(confirms: bool, setup: RetryPolicy.Setup, seed: Inventory.Tables,
                                         actions: seq<Saga.Action>)
    requires Fits(setup)
    requires |Saga.Run(setup.maxAttempts, seed, actions).stock.outbox| <= |setup.outbox|
    requires seed.outbox == []
    ensures
      var s, view := Saga.Run(setup.maxAttempts, seed, actions), Seen(confirms, setup.maxAttempts, seed, actions);
      Represents(confirms, s.stock.outbox, s.outcomeCopies, RetryPolicy.Run(setup, view.events), view.layout)
  {
    hide Represents, Fits, Saga.Apply, Saga.Enabled, EventOf, RetryPolicy.Step;
    if actions == [] {
      Nothing(confirms, seed.outbox);
    } else {
      var fewer, a := actions[..|actions| - 1], actions[|actions| - 1];
      var s, view := Saga.Run(setup.maxAttempts, seed, fewer), Seen(confirms, setup.maxAttempts, seed, fewer);
      if Saga.Enabled(s, a) {
        OutboxGrows(setup.maxAttempts, s, a);
        RefinesPolicy(confirms, setup, seed, fewer);
        var b := RetryPolicy.Run(setup, view.events);
        var (e, _) := EventOf(confirms, setup.maxAttempts, s, a, view.layout);
        StepAlike(confirms, setup, s, a, b, view.layout);
        if e.Some? {
          PolicyRunMore(setup, view.events, e.value);
        }
      } else {
        RefinesPolicy(confirms, setup, seed, fewer);
      }
    }
  }

  // A message that the consumer's broker holds, wherever.
  predicate Holds(b: RetryPolicy.Broker, m: RetryPolicy.Message) {
    m in b.source || m in b.retry || m in b.dead || m in b.unacked.Values
  }

  lemma QueuedIsHeld(confirms: bool, outbox: seq<Inventory.Outcome>, copies: seq<Saga.OutcomeCopy>,
                     place: Saga.OutcomePlace, queue: seq<RetryPolicy.Message>, ks: seq<nat>, k: nat)
    requires QueueOk(confirms, outbox, copies, place, queue, ks) && At(confirms, copies, k, place)
    ensures exists m :: m in queue && Shows(outbox, m, copies[k])
  {
    hide Shows;
    var i :| 0 <= i < |ks| && ks[i] == k;
    assert queue[i] in queue && Shows(outbox, queue[i], copies[ks[i]]);
  }

  lemma CopyIsHeld(confirms: bool, outbox: seq<Inventory.Outcome>, copies: seq<Saga.OutcomeCopy>,
                   b: RetryPolicy.Broker, l: Layout, k: nat)
    requires Represents(confirms, outbox, copies, b, l)
    requires k < |copies| && Mine(confirms, copies[k]) && copies[k].place != Saga.Gone
    ensures exists m :: Holds(b, m) && Shows(outbox, m, copies[k])
  {
    hide Shows, QueueOk;
    if copies[k].place.InFlight? {
      assert Held(confirms, copies, k);
      assert Holds(b, b.unacked[k]);
    } else if copies[k].place == Saga.InQueue {
      QueuedIsHeld(confirms, outbox, copies, Saga.InQueue, b.source, l.source, k);
    } else if copies[k].place == Saga.Delayed {
      QueuedIsHeld(confirms, outbox, copies, Saga.Delayed, b.retry, l.retry, k);
    } else {
      QueuedIsHeld(confirms, outbox, copies, Saga.DeadLettered, b.dead, l.dead, k);
    }
  }

  lemma HeldIsFaithful(setup: RetryPolicy.Setup, b: RetryPolicy.Broker, m: RetryPolicy.Message)
    requires RetryPolicy.AllFaithful(setup, b) && Holds(b, m)
    ensures RetryPolicy.Faithful(setup, m)
  {
    hide RetryPolicy.Faithful;
  }

  /**
   What the saga's copies carry, by the policy's own theorem: every copy that is not gone is a message with the body and
   the foreign headers of its outbox row, that has passed its retry queue once for every attempt but the first, and at
   most maxAttempts - 1 times.
   */
  lemma CopiesCarryTheirRow(confirms: bool, setup: RetryPolicy.Setup, seed: Inventory.Tables, actions: seq<Saga.Action>,
                            k: nat)
    requires RetryPolicy.Sound(setup) && seed.outbox == []
    requires |Saga.Run(setup.maxAttempts, seed, actions).stock.outbox| <= |setup.outbox|
    requires
      var copies := Saga.Run(setup.maxAttempts, seed, actions).outcomeCopies;
      k < |copies| && Mine(confirms, copies[k]) && copies[k].place != Saga.Gone
    ensures
      var s := Saga.Run(setup.maxAttempts, seed, actions);
      exists m :: Shows(s.stock.outbox, m, s.outcomeCopies[k]) && RetryPolicy.Faithful(setup, m)
  {
    var s, view := Saga.Run(setup.maxAttempts, seed, actions), Seen(confirms, setup.maxAttempts, seed, actions);
    var b := RetryPolicy.Run(setup, view.events);
    assert Fits(setup);
    hide *;
    RefinesPolicy(confirms, setup, seed, actions);
    RetryPolicy.CopiesAlwaysFaithful(setup, view.events);
    CopyIsHeld(confirms, s.stock.outbox, s.outcomeCopies, b, view.layout, k);
    var m :| Holds(b, m) && Shows(s.stock.outbox, m, s.outcomeCopies[k]);
    HeldIsFaithful(setup, b, m);
  }
}
