/**
 The order service's two outcome consumers: parse, handle, and then acknowledge, retry or dead-letter the delivery.
 */
module OutcomeConsumer {
  import opened Prelude
  import Inventory
  import Orders
  import Publisher
  import RetryPolicy
  import Saga

  // A decoded body; None stands for a field that is not a UUID.
  datatype Body = NotJson | Fields(messageId: Option<MessageId>, orderId: Option<OrderId>)

  datatype Verdict = Handled | Retried | DeadLettered

  predicate Parses(body: Body) {
    body.Fields? && body.messageId.Some? && body.orderId.Some?
  }

  function Complaint(body: Body): string {
    if body.NotJson? then "invalid JSON" else if body.messageId.None? then "invalid message_id" else "invalid order_id"
  }

  function VerdictOf(body: Body, confirms: bool): Orders.Verdict
    requires Parses(body)
  {
    Orders.Verdict(body.messageId.value, body.orderId.value, confirms)
  }

  /**
   One delivery. A malformed body goes to the dead letters untried; a handling that reported an error is retried, or
   dead-lettered at the last attempt; and the delivery is acknowledged only once its message is in the inbox. The
   confirming consumer leaves a pending order CONFIRMED, the other one FAILED, and neither touches any other order.
   */
  method HandleMessage(service: Orders.OrderService, policy: RetryPolicy.Policy, confirms: bool, tag: RetryPolicy.Tag,
                       body: Body, now: string, fate: RetryPolicy.Fate, acked: bool)
    returns (verdict: Verdict, stop: Orders.Stop)
    requires tag in policy.unacked && (service as object) != policy
    modifies service, policy
    ensures Parses(body) && verdict == Handled && body.messageId.value !in old(service.inbox) ==>
              service.orders == Orders.Updated(old(service.orders), body.orderId.value,
                                               if confirms then Orders.Confirmed else Orders.Failed)
    ensures Parses(body) && verdict != Handled ==>
              || service.orders == old(service.orders)
              || service.orders == Orders.Updated(old(service.orders), body.orderId.value,
                                                  if confirms then Orders.Confirmed else Orders.Failed)
    ensures Parses(body) && body.messageId.value in old(service.inbox) ==>
              service.orders == old(service.orders) && service.inbox == old(service.inbox)
    ensures !Parses(body) && fate.stored ==>
              && |policy.deadLetterQueue| == |old(policy.deadLetterQueue)| + 1
              && var headers := policy.deadLetterQueue[|old(policy.deadLetterQueue)|].headers;
                 && "x-dead-letter-reason" in headers
                 && headers["x-dead-letter-reason"]
                    == RetryPolicy.Other(if body.NotJson? then "invalid JSON"
                                         else if body.messageId.None? then "invalid message_id" else "invalid order_id")
    ensures !Parses(body) ==>
              && verdict == DeadLettered && service.Current() == old(service.Current())
              && policy.State() == RetryPolicy.PublishThenAck(old(policy.State()), tag,
                   RetryPolicy.DeadLetterCopy(old(policy.unacked)[tag], Complaint(body), now), RetryPolicy.ToDeadLetter,
                       fate)
    ensures Parses(body) ==>
              && (service.Current(), verdict == Handled)
                 == Orders.HandleVerdict(old(service.Current()), VerdictOf(body, confirms), stop)
              && (verdict == Handled ==>
                    && body.messageId.value in service.inbox
                    && policy.State() == RetryPolicy.Succeed(old(policy.State()), tag, acked))
              && (verdict != Handled ==>
                    && (verdict == DeadLettered
                       <==> RetryPolicy.TargetOf(policy.maxAttempts, old(policy.unacked)[tag]).ToDeadLetter?)
                    && policy.State() == RetryPolicy.PublishThenAck(old(policy.State()), tag,
                         RetryPolicy.CopyOf(policy.maxAttempts, old(policy.unacked)[tag], "processing failed", now),
                         RetryPolicy.TargetOf(policy.maxAttempts, old(policy.unacked)[tag]), fate))
  {
    stop := Orders.Never;
    if !Parses(body) {
      var _ := policy.DeadLetter(tag, Complaint(body), now, fate);
      return DeadLettered, stop;
    }
    var ok;
    if confirms {
      ok, stop := service.HandleConfirmOrder(body.orderId.value, body.messageId.value);
    } else {
      ok, stop := service.HandleRejectOrder(body.orderId.value, body.messageId.value);
    }
    if ok {
      policy.Acknowledge(tag, acked);
      return Handled, stop;
    }
    var target, _ := policy.Retry(tag, "processing failed", now, fate);
    verdict := if target.ToDeadLetter? then DeadLettered else Retried;
  }

  // Routing -----------------------------------------------------------------------------------

  function EventTypeOf(o: Inventory.Outcome): Publisher.EventType {
    if o.decision.Sufficient? then Publisher.StockReserved else Publisher.StockReservationFailed
  }

  /** Which consumer's queue is bound to a key: the confirming one, the rejecting one, or neither. */
  function ConsumerOf(key: Publisher.Key): Option<bool> {
    match key
    case StockReservedKey => Some(true)
    case StockNotReservedKey => Some(false)
    case _ => None
  }

  /**
   Every outcome inventory stores has a route, and it leads to the consumer that sets the status the outcome stands for.
   */
  lemma RoutedToItsHandler(o: Inventory.Outcome)
    ensures
      var consumer := ConsumerOf(Publisher.RoutingKey(Publisher.InventoryService, EventTypeOf(o)));
      && consumer.Some?
      && Orders.Verdict(o.messageId, o.orderId, consumer.value).Target() == Saga.StatusOf(o)
    ensures Publisher.RoutingKey(Publisher.OrderService, Publisher.ReserveStockRequested) == Publisher.OrderCreated
  {}

  /** The body an outcome is written as. */
  function BodyOf(o: Inventory.Outcome): Body {
    Fields(Some(o.messageId), Some(o.orderId))
  }

  /**
   From inventory's decision to the order's status: an outcome, written, routed and handled by the consumer its key is
   bound to, leaves its pending order CONFIRMED if stock was reserved and FAILED if not, and leaves every other order
   alone.
   */
  lemma OutcomeReachesItsOrder(l: Orders.Ledger, o: Inventory.Outcome)
    requires o.messageId !in l.inbox && o.orderId in l.status && l.status[o.orderId] == Orders.Pending
    ensures
      var consumer := ConsumerOf(Publisher.RoutingKey(Publisher.InventoryService, EventTypeOf(o)));
      && consumer.Some? && Parses(BodyOf(o))
      && var (u, ok) := Orders.HandleVerdict(l, VerdictOf(BodyOf(o), consumer.value), Orders.Never);
         && ok && u.status.Keys == l.status.Keys
         && u.status[o.orderId] == Saga.StatusOf(o)
         && u.status[o.orderId] == (if o.decision.Sufficient? then Orders.Confirmed else Orders.Failed)
         && forall id | id in l.status && id != o.orderId :: u.status[id] == l.status[id]
  {}

  /**
   The order the service creates is the saga's: once its input is accepted, the request it wrote is the one of an
   enabled Create step, with the lines the customer sent.
   */
  lemma CreateOrderIsCreate(s: Saga.State, maxAttempts: int, input: Orders.OrderInput, orderId: OrderId,
                            messageId: MessageId, items: seq<Inventory.Item>)
    requires Orders.InputValid(input) && Orders.ColumnsFit(input) && Orders.AsksFor(items, input)
    requires orderId !in s.minted && messageId !in s.minted && orderId != messageId
    ensures Saga.Enabled(s, Saga.Create(orderId, messageId, items))
    ensures
      var u := Saga.Apply(maxAttempts, s, Saga.Create(orderId, messageId, items));
      && u.requests == s.requests + [Inventory.Request(messageId, orderId, items)]
      && u.orders == s.orders[orderId := Saga.OrderRow(items, Orders.Pending)]
  {
    forall i | 0 <= i < |items| ensures 0 < items[i].quantity <= INT_MAX {
      assert Orders.ItemValid(input.items[i]);
    }
  }

  // The saga's steps are the service's ----------------------------------------------------------

  /** The retry policy's decision and counter, as the saga takes them. */
  lemma FailureMatchesPolicy(maxAttempts: int, c: Saga.OutcomeCopy, m: RetryPolicy.Message, reason: string, now: string)
    requires RetryPolicy.DeliveryAttempt(m.headers) == c.attempt <= INT_MAX
    ensures
      var failed := Saga.FailureCopy(maxAttempts, c);
      && (failed.place == Saga.DeadLettered <==> RetryPolicy.TargetOf(maxAttempts, m) == RetryPolicy.ToDeadLetter)
      && failed.attempt == RetryPolicy.DeliveryAttempt(RetryPolicy.CopyOf(maxAttempts, m, reason, now).headers)
  {}

  function VerdictFor(o: Inventory.Outcome): Orders.Verdict {
    Orders.Verdict(o.messageId, o.orderId, o.decision.Sufficient?)
  }

  function LedgerFrom(orders: map<OrderId, Saga.OrderRow>, inbox: map<MessageId, Inventory.Outcome>): Orders.Ledger {
    Orders.Ledger(map id | id in orders :: orders[id].status, map m | m in inbox :: VerdictFor(inbox[m]))
  }

  /** The order service's own view of a saga state. */
  function LedgerOf(s: Saga.State): Orders.Ledger {
    LedgerFrom(s.orders, s.inbox)
  }

  // What the three steps write to the order service's tables.
  lemma StepsWrite(maxAttempts: int, s: Saga.State, k: nat)
    requires Saga.Enabled(s, Saga.CheckInbox(k)) && s.outcomeCopies[k].outcome.messageId !in s.inbox
    ensures
      var o, s1 := s.outcomeCopies[k].outcome, Saga.Apply(maxAttempts, s, Saga.CheckInbox(k));
      && Saga.Enabled(s1, Saga.ApplyOutcome(k, true))
      && var s2 := Saga.Apply(maxAttempts, s1, Saga.ApplyOutcome(k, true));
         && Saga.Enabled(s2, Saga.RecordOutcome(k, true))
         && var s3 := Saga.Apply(maxAttempts, s2, Saga.RecordOutcome(k, true));
            s3.orders == Saga.SettleOrder(s.orders, o) && s3.inbox == s.inbox[o.messageId := o]
  {
    hide Saga.SettleOrder;
  }

  /** The three steps of one delivery, taken without a cut, are one uninterrupted handling. */
  lemma StepsAreOneHandling(maxAttempts: int, s: Saga.State, k: nat)
    requires Saga.Enabled(s, Saga.CheckInbox(k)) && s.outcomeCopies[k].outcome.messageId !in s.inbox
    ensures
      var s1 := Saga.Apply(maxAttempts, s, Saga.CheckInbox(k));
      && Saga.Enabled(s1, Saga.ApplyOutcome(k, true))
      && var s2 := Saga.Apply(maxAttempts, s1, Saga.ApplyOutcome(k, true));
         && Saga.Enabled(s2, Saga.RecordOutcome(k, true))
         && var s3 := Saga.Apply(maxAttempts, s2, Saga.RecordOutcome(k, true));
            LedgerOf(s3) == Orders.HandleVerdict(LedgerOf(s), VerdictFor(s.outcomeCopies[k].outcome), Orders.Never).0
  {
    var o := s.outcomeCopies[k].outcome;
    StepsWrite(maxAttempts, s, k);
    hide Saga.Enabled, Saga.Apply;
    LedgerAfter(s, o);
  }

  lemma LedgerAfter(s: Saga.State, o: Inventory.Outcome)
    requires o.messageId !in s.inbox
    ensures LedgerFrom(Saga.SettleOrder(s.orders, o), s.inbox[o.messageId := o])
            == Orders.HandleVerdict(LedgerOf(s), VerdictFor(o), Orders.Never).0
  {
    SettlesAlike(s, o);
    RecordsAlike(s.inbox, o);
  }

  lemma SettlesAlike(s: Saga.State, o: Inventory.Outcome)
    ensures LedgerFrom(Saga.SettleOrder(s.orders, o), s.inbox).status
            == Orders.Settle(LedgerOf(s).status, VerdictFor(o))
  {}

  lemma RecordsAlike(inbox: map<MessageId, Inventory.Outcome>, o: Inventory.Outcome)
    ensures
      var more := inbox[o.messageId := o];
      (map m | m in more :: VerdictFor(more[m]))
          == (map m | m in inbox :: VerdictFor(inbox[m]))[o.messageId := VerdictFor(o)]
  {}

  function Verdicts(outbox: seq<Inventory.Outcome>): set<Orders.Verdict> {
    set i | 0 <= i < |outbox| :: VerdictFor(outbox[i])
  }

  /**
   What idempotent handling asks of the verdicts that reach the order service holds in every reachable state of the
   saga: the inbox is truthful, and inventory's answers never contradict each other or what has been settled.
   */
  lemma AnswersUnanimous(maxAttempts: int, seed: Inventory.Tables, actions: seq<Saga.Action>)
    requires Saga.Seeded(seed)
    ensures
      var s := Saga.Run(maxAttempts, seed, actions);
      Orders.Truthful(LedgerOf(s)) && Orders.Unanimous(LedgerOf(s), Verdicts(s.stock.outbox))
  {
    Saga.InvAlways(maxAttempts, seed, actions);
    var s := Saga.Run(maxAttempts, seed, actions);
    InboxTruthful(s.orders, s.stock.outbox, s.outcomesSent, s.outcomeCopies, s.inbox, s);
    hide *;
    forall i: nat | i < |s.stock.outbox| ensures AnswerFits(s, s.stock.outbox[i]) {
      OneAnswerFits(s, i);
    }
    forall i: nat, j: nat | i < |s.stock.outbox| && j < |s.stock.outbox| && i != j
      ensures s.stock.outbox[i].orderId != s.stock.outbox[j].orderId
              && s.stock.outbox[i].messageId != s.stock.outbox[j].messageId
    {
      AnswersApart(s, i, j);
    }
    UnanimousFrom(s);
  }

  lemma UnanimousFrom(s: Saga.State)
    requires forall i: nat | i < |s.stock.outbox| :: AnswerFits(s, s.stock.outbox[i])
    requires forall i: nat, j: nat | i < |s.stock.outbox| && j < |s.stock.outbox| && i != j ::
               s.stock.outbox[i].orderId != s.stock.outbox[j].orderId
                   && s.stock.outbox[i].messageId != s.stock.outbox[j].messageId
    ensures Orders.Unanimous(LedgerOf(s), Verdicts(s.stock.outbox))
  {
    var outbox, l := s.stock.outbox, LedgerOf(s);
    forall v | v in Verdicts(outbox)
      ensures v.order in l.status && (l.status[v.order] == Orders.Pending || l.status[v.order] == v.Target())
      ensures v.messageId in l.inbox ==> l.inbox[v.messageId] == v
    {
      var i: nat :| i < |outbox| && v == VerdictFor(outbox[i]);
      assert AnswerFits(s, outbox[i]);
    }
    forall v, w | v in Verdicts(outbox) && w in Verdicts(outbox) && (v.order == w.order || v.messageId == w.messageId)
      ensures v == w
    {
      var i: nat :| i < |outbox| && v == VerdictFor(outbox[i]);
      var j: nat :| j < |outbox| && w == VerdictFor(outbox[j]);
    }
    hide Verdicts, LedgerOf, AnswerFits, VerdictFor;
  }

  lemma InboxTruthful(orders: map<OrderId, Saga.OrderRow>, outbox: seq<Inventory.Outcome>, sent: set<nat>,
                      copies: seq<Saga.OutcomeCopy>, inbox: map<MessageId, Inventory.Outcome>, s: Saga.State)
    requires Saga.OutcomeCopiesOk(outbox, sent, copies, inbox) && Saga.StatusOk(orders, outbox, copies, inbox)
    requires s.orders == orders && s.inbox == inbox
    ensures Orders.Truthful(LedgerOf(s))
  {
    forall m | m in inbox ensures Saga.SettledBy(orders, inbox[m]) && inbox[m].messageId == m {}
  }

  // One answer against the ledger: its order exists and has not gone the other way, and a row under its id is its own.
  ghost predicate AnswerFits(s: Saga.State, o: Inventory.Outcome) {
    && o.orderId in s.orders
    && (s.orders[o.orderId].status == Orders.Pending || s.orders[o.orderId].status == Saga.StatusOf(o))
    && (o.messageId in s.inbox ==> s.inbox[o.messageId] == o)
  }

  lemma OneAnswerFits(s: Saga.State, i: nat)
    requires Saga.Inv(s) && i < |s.stock.outbox|
    ensures AnswerFits(s, s.stock.outbox[i])
  {
    hide Saga.RequestsOk, Saga.RequestCopiesOk;
    var o := s.stock.outbox[i];
    assert Saga.Ordered(s.orders, s.stock.outbox[i]);
    if s.orders[o.orderId].status != Orders.Pending {
      var j :| 0 <= j < |s.stock.outbox| && s.stock.outbox[j].orderId == o.orderId
               && Saga.StatusOf(s.stock.outbox[j]) == s.orders[o.orderId].status;
      assert j == i;
    }
    if o.messageId in s.inbox {
      var j :| 0 <= j < |s.stock.outbox| && s.stock.outbox[j] == s.inbox[o.messageId];
      assert j == i;
    }
  }

  lemma AnswersApart(s: Saga.State, i: nat, j: nat)
    requires Saga.Inv(s) && i < |s.stock.outbox| && j < |s.stock.outbox| && i != j
    ensures s.stock.outbox[i].orderId != s.stock.outbox[j].orderId
            && s.stock.outbox[i].messageId != s.stock.outbox[j].messageId
  {
    hide Saga.RequestsOk, Saga.RequestCopiesOk, Saga.OutcomeCopiesOk, Saga.StatusOk;
    if j < i {
      assert s.stock.outbox[j].orderId != s.stock.outbox[i].orderId;
    }
  }
}
