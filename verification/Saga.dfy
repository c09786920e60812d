/**
 The order and stock saga as one step system: the order service's tables, the inventory service's tables, and every
 copy of every message the broker has ever held. Steps are the single effects of the services; any of them may be
 repeated, reordered, cut off by a crash, or happen although its caller was told it failed.
 */
module Saga {
  import opened Prelude
  import opened Inventory
  import opened Orders
  import RetryPolicy

  datatype OrderRow = OrderRow(items: seq<Item>, status: Status)

  // Where one copy of a request is. `handled` says that the consumer's transaction committed without error.
  datatype RequestPlace = Queued | Unacked(handled: bool) | Acked
  datatype RequestCopy = RequestCopy(request: Request, place: RequestPlace)

  // What the outcome consumer has done with the delivery it holds.
  datatype Phase = Delivered | Checked | Applied | Recorded
  datatype OutcomePlace = InQueue | InFlight(phase: Phase) | Delayed | DeadLettered | Gone
  datatype OutcomeCopy = OutcomeCopy(outcome: Outcome, attempt: int, place: OutcomePlace)

  // The outbox payload columns are `requests` and `stock.outbox`; the `sent` sets are their processed_at columns.
  datatype State = State(
    orders: map<OrderId, OrderRow>,
    requests: seq<Request>,
    requestsSent: set<nat>,
    requestCopies: seq<RequestCopy>,
    stock: Tables,
    outcomesSent: set<nat>,
    outcomeCopies: seq<OutcomeCopy>,
    inbox: map<MessageId, Outcome>,
    minted: set<nat>
  )

  datatype Action =
    | Create(order: OrderId, message: MessageId, items: seq<Item>)
    | PublishRequest(row: nat)
    | MarkRequest(row: nat)
    | DeliverRequest(copy: nat)
    | CommitRequest(copy: nat, outcomeId: MessageId, reported: bool)
    | AckRequest(copy: nat)
    | RequeueRequest(copy: nat)
    | PublishOutcome(row: nat)
    | MarkOutcome(row: nat)
    | DeliverOutcome(copy: nat)
    | CheckInbox(copy: nat)
    | ApplyOutcome(copy: nat, reported: bool)
    | RecordOutcome(copy: nat, reported: bool)
    | AckOutcome(copy: nat)
    | RequeueOutcome(copy: nat)
    | FailOutcome(copy: nat, settled: bool)
    | ExpireDelay(copy: nat)

  function Init(stock: Tables): State {
    State(map[], [], {}, [], stock, {}, [], map[], {})
  }

  function StatusOf(o: Outcome): Status {
    if o.decision.Sufficient? then Confirmed else Failed
  }

  predicate RequestRouted(s: State, r: Request) {
    exists k | 0 <= k < |s.requestCopies| :: s.requestCopies[k].request == r
  }

  predicate OutcomeRouted(s: State, o: Outcome) {
    exists k | 0 <= k < |s.outcomeCopies| :: s.outcomeCopies[k].outcome == o
  }

  predicate RequestAt(s: State, k: nat, place: RequestPlace) {
    k < |s.requestCopies| && s.requestCopies[k].place == place
  }

  predicate OutcomeAt(s: State, k: nat, place: OutcomePlace) {
    k < |s.outcomeCopies| && s.outcomeCopies[k].place == place
  }

  predicate OutcomeInFlight(s: State, k: nat) {
    k < |s.outcomeCopies| && s.outcomeCopies[k].place.InFlight?
  }

  /**
   When a step can happen. A row is marked only after a publish of it reported success, which the publisher reports only
   of a message that was routed (OutboxPublisher.CallIsSound).
   */
  predicate Enabled(s: State, a: Action) {
    match a
    case Create(order, message, items) =>
      && order !in s.minted && message !in s.minted && order != message
      && items != [] && forall i | 0 <= i < |items| :: 0 < items[i].quantity <= INT_MAX
    case PublishRequest(row) => row < |s.requests|
    case MarkRequest(row) => row < |s.requests| && RequestRouted(s, s.requests[row])
    case DeliverRequest(k) => RequestAt(s, k, Queued)
    case CommitRequest(k, outcomeId, _) =>
      RequestAt(s, k, Unacked(false)) && outcomeId !in s.minted
          && Transact(s.stock, s.requestCopies[k].request, outcomeId).Some?
    case AckRequest(k) => RequestAt(s, k, Unacked(true))
    case RequeueRequest(k) => RequestAt(s, k, Unacked(false)) || RequestAt(s, k, Unacked(true))
    case PublishOutcome(row) => row < |s.stock.outbox|
    case MarkOutcome(row) => row < |s.stock.outbox| && OutcomeRouted(s, s.stock.outbox[row])
    case DeliverOutcome(k) => OutcomeAt(s, k, InQueue)
    case CheckInbox(k) => OutcomeAt(s, k, InFlight(Delivered))
    case ApplyOutcome(k, _) => OutcomeAt(s, k, InFlight(Checked))
    case RecordOutcome(k, _) => OutcomeAt(s, k, InFlight(Applied)) && s.outcomeCopies[k].outcome.messageId !in s.inbox
    case AckOutcome(k) => OutcomeAt(s, k, InFlight(Recorded))
    case RequeueOutcome(k) => OutcomeInFlight(s, k)
    case FailOutcome(k, _) => OutcomeInFlight(s, k)
    case ExpireDelay(k) => OutcomeAt(s, k, Delayed)
  }

  function PlaceRequest(s: State, k: nat, place: RequestPlace): State
    requires k < |s.requestCopies|
  {
    s.(requestCopies := s.requestCopies[k := s.requestCopies[k].(place := place)])
  }

  function PlaceOutcome(s: State, k: nat, place: OutcomePlace): State
    requires k < |s.outcomeCopies|
  {
    s.(outcomeCopies := s.outcomeCopies[k := s.outcomeCopies[k].(place := place)])
  }

  function SettleOrder(orders: map<OrderId, OrderRow>, o: Outcome): map<OrderId, OrderRow> {
    if o.orderId in orders && orders[o.orderId].status == Pending
    then orders[o.orderId := orders[o.orderId].(status := StatusOf(o))] else orders
  }

  /** The copy the retry policy publishes before it acknowledges a delivery whose handling failed. */
  function FailureCopy(maxAttempts: int, c: OutcomeCopy): OutcomeCopy {
    if c.attempt >= maxAttempts then c.(place := DeadLettered)
    else c.(attempt := RetryPolicy.NextAttempt(c.attempt), place := Delayed)
  }

  function Apply(maxAttempts: int, s: State, a: Action): State
    requires Enabled(s, a)
  {
    match a
    case Create(order, message, items) =>
      s.(orders := s.orders[order := OrderRow(items, Pending)],
         requests := s.requests + [Request(message, order, items)],
         minted := s.minted + {order, message})
    case PublishRequest(row) => s.(requestCopies := s.requestCopies + [RequestCopy(s.requests[row], Queued)])
    case MarkRequest(row) => s.(requestsSent := s.requestsSent + {row})
    case DeliverRequest(k) => PlaceRequest(s, k, Unacked(false))
    case CommitRequest(k, outcomeId, reported) =>
      PlaceRequest(s.(stock := Transact(s.stock, s.requestCopies[k].request, outcomeId).value,
          minted := s.minted + {outcomeId}),
                   k, Unacked(reported))
    case AckRequest(k) => PlaceRequest(s, k, Acked)
    case RequeueRequest(k) => PlaceRequest(s, k, Queued)
    case PublishOutcome(row) => s.(outcomeCopies := s.outcomeCopies + [OutcomeCopy(s.stock.outbox[row], 1, InQueue)])
    case MarkOutcome(row) => s.(outcomesSent := s.outcomesSent + {row})
    case DeliverOutcome(k) => PlaceOutcome(s, k, InFlight(Delivered))
    case CheckInbox(k) =>
      PlaceOutcome(s, k, InFlight(if s.outcomeCopies[k].outcome.messageId in s.inbox then Recorded else Checked))
    case ApplyOutcome(k, reported) =>
      PlaceOutcome(s.(orders := SettleOrder(s.orders, s.outcomeCopies[k].outcome)), k,
          InFlight(if reported then Applied else Checked))
    case RecordOutcome(k, reported) =>
      var o := s.outcomeCopies[k].outcome;
      PlaceOutcome(s.(inbox := s.inbox[o.messageId := o]), k, InFlight(if reported then Recorded else Applied))
    case AckOutcome(k) => PlaceOutcome(s, k, Gone)
    case RequeueOutcome(k) => PlaceOutcome(s, k, InQueue)
    case FailOutcome(k, settled) =>
      var stored := s.(outcomeCopies := s.outcomeCopies + [FailureCopy(maxAttempts, s.outcomeCopies[k])]);
      if settled then PlaceOutcome(stored, k, Gone) else stored
    case ExpireDelay(k) => PlaceOutcome(s, k, InQueue)
  }

  /** A delivery that is given back leaves everything as it was before it was taken, handled or not. */
  lemma RequeueUndoesDelivery(maxAttempts: int, s: State, k: nat)
    ensures Enabled(s, DeliverRequest(k)) ==>
              var u := Apply(maxAttempts, s, DeliverRequest(k));
              Enabled(u, RequeueRequest(k)) && Apply(maxAttempts, u, RequeueRequest(k)) == s
    ensures Enabled(s, DeliverOutcome(k)) ==>
              var u := Apply(maxAttempts, s, DeliverOutcome(k));
              Enabled(u, RequeueOutcome(k)) && Apply(maxAttempts, u, RequeueOutcome(k)) == s
  {
    if Enabled(s, DeliverRequest(k)) {
      var u := Apply(maxAttempts, s, DeliverRequest(k));
      assert Apply(maxAttempts, u, RequeueRequest(k)).requestCopies == s.requestCopies;
    }
    if Enabled(s, DeliverOutcome(k)) {
      var u := Apply(maxAttempts, s, DeliverOutcome(k));
      assert Apply(maxAttempts, u, RequeueOutcome(k)).outcomeCopies == s.outcomeCopies;
    }
  }

  /** Any sequence of steps, taken as far as each can happen. */
  function Run(maxAttempts: int, seed: Tables, actions: seq<Action>): State {
    if actions == [] then Init(seed)
    else
      var s, a := Run(maxAttempts, seed, actions[..|actions| - 1]), actions[|actions| - 1];
      if Enabled(s, a) then Apply(maxAttempts, s, a) else s
  }

  // The tables a run starts from: seeded stock, and nothing reserved, received or sent.
  ghost predicate Seeded(seed: Tables) {
    Valid(seed) && seed.reservations == [] && seed.inbox == map[] && seed.outbox == []
  }

  // Invariant -------------------------------------------------------------------------------

  /** Every order has its one request row, written with it. */
  ghost predicate RequestsOk(orders: map<OrderId, OrderRow>, requests: seq<Request>, minted: set<nat>) {
    && (forall i | 0 <= i < |requests| ::
          && requests[i].orderId in orders && orders[requests[i].orderId].items == requests[i].items
          && requests[i].orderId in minted && requests[i].messageId in minted
          && requests[i].items != []
          && forall j | 0 <= j < |requests[i].items| :: 0 < requests[i].items[j].quantity <= INT_MAX)
    && (forall i, j | 0 <= i < j < |requests| ::
          requests[i].orderId != requests[j].orderId && requests[i].messageId != requests[j].messageId)
    && (forall id | id in orders :: exists i :: 0 <= i < |requests| && requests[i].orderId == id)
  }

  ghost predicate RequestCopiesOk(requests: seq<Request>, sent: set<nat>, copies: seq<RequestCopy>,
                                  inbox: map<MessageId, Request>) {
    && (forall k | 0 <= k < |copies| :: copies[k].request in requests)
    && (forall k | 0 <= k < |copies| && (copies[k].place == Unacked(true) || copies[k].place == Acked) ::
          copies[k].request.messageId in inbox)
    && (forall row | row in sent ::
       row < |requests| && exists k :: 0 <= k < |copies| && copies[k].request == requests[row])
  }

  function RowsOf(rows: seq<Reservation>, order: OrderId): seq<Reservation> {
    if rows == [] then []
    else RowsOf(rows[..|rows| - 1], order) + if rows[|rows| - 1].order == order then [rows[|rows| - 1]] else []
  }

  ghost predicate Ordered(orders: map<OrderId, OrderRow>, o: Outcome) {
    o.orderId in orders && orders[o.orderId].items == o.items
  }

  ghost predicate Answered(outbox: seq<Outcome>, order: OrderId) {
    exists i :: 0 <= i < |outbox| && outbox[i].orderId == order
  }

  /** The reservation rows an outcome stands for: all its lines, or none. */
  function Promised(o: Outcome): seq<Reservation> {
    if o.decision.Sufficient? then Rows(o.orderId, o.items, |o.items|) else []
  }

  /**
   Inventory has answered exactly the requests in its inbox, each once, and holds exactly the rows it has promised.
   */
  ghost predicate StockOk(orders: map<OrderId, OrderRow>, requests: seq<Request>, stock: Tables, minted: set<nat>) {
    && (forall m | m in stock.inbox ::
       stock.inbox[m] in requests && stock.inbox[m].messageId == m && Answered(stock.outbox, stock.inbox[m].orderId))
    && (forall i | 0 <= i < |stock.outbox| ::
          && stock.outbox[i].messageId in minted
          && RowsOf(stock.reservations, stock.outbox[i].orderId) == Promised(stock.outbox[i])
          && Ordered(orders, stock.outbox[i]))
    && (forall i, j | 0 <= i < |stock.outbox| && 0 <= j < |requests|
       && stock.outbox[i].orderId == requests[j].orderId ::
          requests[j].messageId in stock.inbox)
    && (forall i, j | 0 <= i < j < |stock.outbox| ::
          stock.outbox[i].orderId != stock.outbox[j].orderId && stock.outbox[i].messageId != stock.outbox[j].messageId)
    && (forall k | 0 <= k < |stock.reservations| :: Answered(stock.outbox, stock.reservations[k].order))
  }

  ghost predicate Live(copies: seq<OutcomeCopy>, o: Outcome) {
    exists k :: 0 <= k < |copies| && copies[k].outcome == o && copies[k].place != Gone
  }

  ghost predicate OutcomeCopiesOk(outbox: seq<Outcome>, sent: set<nat>, copies: seq<OutcomeCopy>,
                                  inbox: map<MessageId, Outcome>) {
    && (forall k | 0 <= k < |copies| :: copies[k].outcome in outbox)
    && (forall k | 0 <= k < |copies| && copies[k].place == InFlight(Recorded) :: copies[k].outcome.messageId in inbox)
    && (forall k | 0 <= k < |copies| :: copies[k].outcome.messageId in inbox || Live(copies, copies[k].outcome))
    && (forall row | row in sent :: row < |outbox| && exists k :: 0 <= k < |copies| && copies[k].outcome == outbox[row])
    && (forall m | m in inbox :: inbox[m] in outbox && inbox[m].messageId == m)
  }

  ghost predicate SettledBy(orders: map<OrderId, OrderRow>, o: Outcome) {
    o.orderId in orders && orders[o.orderId].status == StatusOf(o)
  }

  /** An order leaves PENDING only by an outcome inventory has sent, and whatever claims to have settled it has. */
  ghost predicate StatusOk(orders: map<OrderId, OrderRow>, outbox: seq<Outcome>, copies: seq<OutcomeCopy>,
                           inbox: map<MessageId, Outcome>) {
    && (forall id | id in orders && orders[id].status != Pending ::
          exists i :: 0 <= i < |outbox| && outbox[i].orderId == id && StatusOf(outbox[i]) == orders[id].status)
    && (forall m | m in inbox :: SettledBy(orders, inbox[m]))
    && (forall k | 0 <= k < |copies| && copies[k].place == InFlight(Applied) :: SettledBy(orders, copies[k].outcome))
  }

  ghost predicate Inv(s: State) {
    && RequestsOk(s.orders, s.requests, s.minted)
    && RequestCopiesOk(s.requests, s.requestsSent, s.requestCopies, s.stock.inbox)
    && StockOk(s.orders, s.requests, s.stock, s.minted)
    && OutcomeCopiesOk(s.stock.outbox, s.outcomesSent, s.outcomeCopies, s.inbox)
    && StatusOk(s.orders, s.stock.outbox, s.outcomeCopies, s.inbox)
  }

  // Order service steps ---------------------------------------------------------------------

  lemma NewRequest(orders: map<OrderId, OrderRow>, requests: seq<Request>, minted: set<nat>, order: OrderId,
                   message: MessageId, items: seq<Item>)
    requires RequestsOk(orders, requests, minted)
    requires order !in minted && message !in minted && order != message
    requires items != [] && forall i | 0 <= i < |items| :: 0 < items[i].quantity <= INT_MAX
    ensures order !in orders
    ensures RequestsOk(orders[order := OrderRow(items, Pending)], requests + [Request(message, order, items)],
            minted + {order, message})
  {
    var more := requests + [Request(message, order, items)];
    assert more[|requests|].orderId == order;
    forall id | id in orders ensures exists i :: 0 <= i < |more| && more[i].orderId == id {
      var i :| 0 <= i < |requests| && requests[i].orderId == id;
      assert more[i].orderId == id;
    }
  }

  lemma NewRequestKeepsCopies(requests: seq<Request>, r: Request, sent: set<nat>, copies: seq<RequestCopy>,
                              inbox: map<MessageId, Request>)
    requires RequestCopiesOk(requests, sent, copies, inbox)
    ensures RequestCopiesOk(requests + [r], sent, copies, inbox)
  {
    assert forall q | q in requests :: q in requests + [r];
  }

  lemma NewRequestKeepsStock(orders: map<OrderId, OrderRow>, requests: seq<Request>, stock: Tables, minted: set<nat>,
                             r: Request, more: set<nat>)
    requires StockOk(orders, requests, stock, minted) && r.orderId !in orders && minted <= more
    ensures StockOk(orders[r.orderId := OrderRow(r.items, Pending)], requests + [r], stock, more)
  {
    assert forall q | q in requests :: q in requests + [r];
  }

  lemma NewOrderKeepsStatus(orders: map<OrderId, OrderRow>, outbox: seq<Outcome>, copies: seq<OutcomeCopy>,
                            inbox: map<MessageId, Outcome>,
                            order: OrderId, items: seq<Item>)
    requires StatusOk(orders, outbox, copies, inbox) && order !in orders
    ensures StatusOk(orders[order := OrderRow(items, Pending)], outbox, copies, inbox)
  {}

  lemma CreateKeeps(maxAttempts: int, s: State, a: Action)
    requires Inv(s) && a.Create? && Enabled(s, a)
    ensures Inv(Apply(maxAttempts, s, a))
  {
    hide RequestsOk, RequestCopiesOk, StockOk, OutcomeCopiesOk, StatusOk;
    var u, r := Apply(maxAttempts, s, a), Request(a.message, a.order, a.items);
    NewRequest(s.orders, s.requests, s.minted, a.order, a.message, a.items);
    NewRequestKeepsCopies(s.requests, r, s.requestsSent, s.requestCopies, s.stock.inbox);
    NewRequestKeepsStock(s.orders, s.requests, s.stock, s.minted, r, u.minted);
    NewOrderKeepsStatus(s.orders, s.stock.outbox, s.outcomeCopies, s.inbox, a.order, a.items);
  }

  lemma PlaceRequestKeeps(requests: seq<Request>, sent: set<nat>, copies: seq<RequestCopy>,
                          inbox: map<MessageId, Request>,
                          k: nat, place: RequestPlace)
    requires RequestCopiesOk(requests, sent, copies, inbox) && k < |copies|
    requires place == Unacked(true) || place == Acked ==> copies[k].request.messageId in inbox
    ensures RequestCopiesOk(requests, sent, copies[k := copies[k].(place := place)], inbox)
  {
    var u := copies[k := copies[k].(place := place)];
    forall row | row in sent ensures exists j :: 0 <= j < |u| && u[j].request == requests[row] {
      var j :| 0 <= j < |copies| && copies[j].request == requests[row];
      assert u[j].request == requests[row];
    }
  }

  lemma PublishRequestKeeps(requests: seq<Request>, sent: set<nat>, copies: seq<RequestCopy>,
                            inbox: map<MessageId, Request>, row: nat)
    requires RequestCopiesOk(requests, sent, copies, inbox) && row < |requests|
    ensures RequestCopiesOk(requests, sent, copies + [RequestCopy(requests[row], Queued)], inbox)
  {
    var u := copies + [RequestCopy(requests[row], Queued)];
    forall row | row in sent ensures exists j :: 0 <= j < |u| && u[j].request == requests[row] {
      var j :| 0 <= j < |copies| && copies[j].request == requests[row];
      assert u[j].request == requests[row];
    }
  }

  lemma RequestStepKeeps(maxAttempts: int, s: State, a: Action)
    requires Inv(s) && Enabled(s, a)
    requires a.PublishRequest? || a.MarkRequest? || a.DeliverRequest? || a.AckRequest? || a.RequeueRequest?
    ensures Inv(Apply(maxAttempts, s, a))
  {
    hide RequestsOk, StockOk, OutcomeCopiesOk, StatusOk;
    match a
    case PublishRequest(row) => PublishRequestKeeps(s.requests, s.requestsSent, s.requestCopies, s.stock.inbox, row);
    case MarkRequest(row) =>
    case DeliverRequest(k) => PlaceRequestKeeps(s.requests, s.requestsSent, s.requestCopies, s.stock.inbox, k,
      Unacked(false));
    case AckRequest(k) => PlaceRequestKeeps(s.requests, s.requestsSent, s.requestCopies, s.stock.inbox, k, Acked);
    case RequeueRequest(k) => PlaceRequestKeeps(s.requests, s.requestsSent, s.requestCopies, s.stock.inbox, k, Queued);
  }

  // The inventory step ----------------------------------------------------------------------

  lemma {:induction false} RowsOfAppend(a: seq<Reservation>, b: seq<Reservation>, order: OrderId)
    ensures RowsOf(a + b, order) == RowsOf(a, order) + RowsOf(b, order)
  {
    if b == [] {
      assert a + b == a;
    } else {
      var fewer := b[..|b| - 1];
      RowsOfAppend(a, fewer, order);
      assert (a + b)[..|a + b| - 1] == a + fewer;
    }
  }

  lemma {:induction false} RowsOfOther(rows: seq<Reservation>, order: OrderId)
    requires forall i | 0 <= i < |rows| :: rows[i].order != order
    ensures RowsOf(rows, order) == []
  {
    if rows != [] {
      RowsOfOther(rows[..|rows| - 1], order);
    }
  }

  lemma {:induction false} RowsOfOwn(order: OrderId, items: seq<Item>, n: nat)
    requires n <= |items|
    ensures RowsOf(Rows(order, items, n), order) == Rows(order, items, n)
  {
    if n > 0 {
      RowsOfOwn(order, items, n - 1);
      assert Rows(order, items, n)[..n - 1] == Rows(order, items, n - 1);
    }
  }

  /** What a commit that takes effect does to each order's rows: its own appear as promised, no other's change. */
  lemma CommitRows(t: Tables, r: Request, outcomeId: MessageId, order: OrderId)
    requires r.messageId !in t.inbox && Transact(t, r, outcomeId).Some?
    ensures
      var u := Transact(t, r, outcomeId).value;
      var o := Outcome(outcomeId, r.orderId, Check(t.inventory, r.items), r.items);
      && u.outbox == t.outbox + [o] && u.inbox == t.inbox[r.messageId := r]
      && RowsOf(u.reservations, order)
         == RowsOf(t.reservations, order) + (if order == r.orderId then Promised(o) else [])
      && forall k | 0 <= k < |u.reservations| ::
           (k < |t.reservations| && u.reservations[k] == t.reservations[k]) || u.reservations[k].order == r.orderId
  {
    EffectExact(t, r, outcomeId);
    hide Transact, Admissible, Written, RowsOf, Check;
    if Check(t.inventory, r.items).Sufficient? {
      NewRows(t.reservations, r, order);
    }
  }

  lemma NewRows(rows: seq<Reservation>, r: Request, order: OrderId)
    ensures
      var own := Rows(r.orderId, r.items, |r.items|);
      RowsOf(rows + own, order) == RowsOf(rows, order) + if order == r.orderId then own else []
  {
    var own := Rows(r.orderId, r.items, |r.items|);
    RowsOfAppend(rows, own, order);
    if order == r.orderId {
      RowsOfOwn(order, r.items, |r.items|);
    } else {
      RowsOfOther(own, order);
    }
    hide RowsOf;
  }

  lemma NotYetAnswered(orders: map<OrderId, OrderRow>, requests: seq<Request>, stock: Tables, minted: set<nat>,
                       r: Request)
    requires StockOk(orders, requests, stock, minted) && r in requests && r.messageId !in stock.inbox
    ensures !Answered(stock.outbox, r.orderId)
    ensures RowsOf(stock.reservations, r.orderId) == []
  {
    var j :| 0 <= j < |requests| && requests[j] == r;
    assert forall i | 0 <= i < |stock.outbox| :: stock.outbox[i].orderId != requests[j].orderId;
    RowsOfOther(stock.reservations, r.orderId);
  }

  lemma CommitKeepsRows(orders: map<OrderId, OrderRow>, requests: seq<Request>, stock: Tables, minted: set<nat>,
                        r: Request, outcomeId: MessageId, i: nat)
    requires RequestsOk(orders, requests, minted) && StockOk(orders, requests, stock, minted)
    requires r in requests && outcomeId !in minted && r.messageId !in stock.inbox && Transact(stock, r, outcomeId).Some?
    requires i < |Transact(stock, r, outcomeId).value.outbox|
    ensures
      var u := Transact(stock, r, outcomeId).value;
      RowsOf(u.reservations, u.outbox[i].orderId) == Promised(u.outbox[i]) && Ordered(orders, u.outbox[i])
  {
    var u := Transact(stock, r, outcomeId).value;
    hide Transact, Promised, RowsOf;
    NotYetAnswered(orders, requests, stock, minted, r);
    CommitRows(stock, r, outcomeId, u.outbox[i].orderId);
    if i < |stock.outbox| {
      hide RequestsOk;
      assert u.outbox[i] == stock.outbox[i];
    } else {
      RequestIsOrdered(orders, requests, minted, r);
      hide RequestsOk, StockOk;
    }
  }

  lemma RequestIsOrdered(orders: map<OrderId, OrderRow>, requests: seq<Request>, minted: set<nat>, r: Request)
    requires RequestsOk(orders, requests, minted) && r in requests
    ensures r.orderId in orders && orders[r.orderId].items == r.items
  {
    var j :| 0 <= j < |requests| && requests[j] == r;
  }

  lemma NewAnswerIsUnique(orders: map<OrderId, OrderRow>, requests: seq<Request>, stock: Tables, minted: set<nat>,
                          o: Outcome)
    requires StockOk(orders, requests, stock, minted) && !Answered(stock.outbox, o.orderId) && o.messageId !in minted
    ensures
      var more := stock.outbox + [o];
      forall i, j | 0 <= i < j < |more| :: more[i].orderId != more[j].orderId && more[i].messageId != more[j].messageId
  {
    forall i | 0 <= i < |stock.outbox|
        ensures stock.outbox[i].orderId != o.orderId && stock.outbox[i].messageId != o.messageId {}
  }

  lemma NewAnswerIsReceived(orders: map<OrderId, OrderRow>, requests: seq<Request>, stock: Tables, minted: set<nat>,
                            r: Request, o: Outcome)
    requires RequestsOk(orders, requests, minted) && StockOk(orders, requests, stock, minted) && r in requests
             && o.orderId == r.orderId
    ensures
      var more := stock.outbox + [o];
      forall i, j | 0 <= i < |more| && 0 <= j < |requests| && more[i].orderId == requests[j].orderId ::
        requests[j].messageId in stock.inbox[r.messageId := r]
  {
    var n :| 0 <= n < |requests| && requests[n] == r;
    forall j | 0 <= j < |requests| && requests[j].orderId == r.orderId ensures j == n {}
  }

  // The new answer is to an order that had none, under a fresh id, and its request is now in the inbox.
  lemma CommitKeepsUnique(orders: map<OrderId, OrderRow>, requests: seq<Request>, stock: Tables, minted: set<nat>,
                          r: Request, outcomeId: MessageId)
    requires RequestsOk(orders, requests, minted) && StockOk(orders, requests, stock, minted)
    requires r in requests && outcomeId !in minted && r.messageId !in stock.inbox && Transact(stock, r, outcomeId).Some?
    ensures
      var u := Transact(stock, r, outcomeId).value;
      && (forall i, j | 0 <= i < j < |u.outbox| ::
            u.outbox[i].orderId != u.outbox[j].orderId && u.outbox[i].messageId != u.outbox[j].messageId)
      && (forall i, j | 0 <= i < |u.outbox| && 0 <= j < |requests| && u.outbox[i].orderId == requests[j].orderId ::
            requests[j].messageId in u.inbox)
  {
    hide RequestsOk, StockOk, Transact;
    var o := Outcome(outcomeId, r.orderId, Check(stock.inventory, r.items), r.items);
    NotYetAnswered(orders, requests, stock, minted, r);
    CommitRows(stock, r, outcomeId, r.orderId);
    NewAnswerIsUnique(orders, requests, stock, minted, o);
    NewAnswerIsReceived(orders, requests, stock, minted, r, o);
  }

  lemma CommitKeepsAnswers(orders: map<OrderId, OrderRow>, requests: seq<Request>, stock: Tables, minted: set<nat>,
                           r: Request, outcomeId: MessageId)
    requires StockOk(orders, requests, stock, minted)
    requires r in requests && r.messageId !in stock.inbox && Transact(stock, r, outcomeId).Some?
    ensures
      var u := Transact(stock, r, outcomeId).value;
      && (forall m | m in u.inbox ::
         u.inbox[m] in requests && u.inbox[m].messageId == m && Answered(u.outbox, u.inbox[m].orderId))
      && (forall k | 0 <= k < |u.reservations| :: Answered(u.outbox, u.reservations[k].order))
  {
    var u, n := Transact(stock, r, outcomeId).value, |stock.outbox|;
    hide Transact, RowsOf, Promised;
    CommitRows(stock, r, outcomeId, r.orderId);
    assert u.outbox[n].orderId == r.orderId;
    assert Answered(u.outbox, r.orderId);
    hide Answered;
    forall order | Answered(stock.outbox, order) ensures Answered(u.outbox, order) {
      StillAnswered(stock.outbox, u.outbox, order);
    }
  }

  lemma StillAnswered(outbox: seq<Outcome>, more: seq<Outcome>, order: OrderId)
    requires Answered(outbox, order) && outbox <= more
    ensures Answered(more, order)
  {
    var i :| 0 <= i < |outbox| && outbox[i].orderId == order;
    assert more[i].orderId == order;
  }

  lemma CommitKeepsStock(orders: map<OrderId, OrderRow>, requests: seq<Request>, stock: Tables, minted: set<nat>,
                         r: Request, outcomeId: MessageId)
    requires RequestsOk(orders, requests, minted) && StockOk(orders, requests, stock, minted)
    requires r in requests && outcomeId !in minted && r.messageId !in stock.inbox && Transact(stock, r, outcomeId).Some?
    ensures StockOk(orders, requests, Transact(stock, r, outcomeId).value, minted + {outcomeId})
  {
    hide RequestsOk, Transact, Answered, RowsOf, Promised, Ordered;
    var u := Transact(stock, r, outcomeId).value;
    CommitKeepsUnique(orders, requests, stock, minted, r, outcomeId);
    CommitKeepsAnswers(orders, requests, stock, minted, r, outcomeId);
    CommitKeepsMinted(orders, requests, stock, minted, r, outcomeId);
    forall i: nat | i < |u.outbox|
      ensures RowsOf(u.reservations, u.outbox[i].orderId) == Promised(u.outbox[i]) && Ordered(orders, u.outbox[i])
    {
      CommitKeepsRows(orders, requests, stock, minted, r, outcomeId, i);
    }
  }

  lemma CommitKeepsMinted(orders: map<OrderId, OrderRow>, requests: seq<Request>, stock: Tables, minted: set<nat>,
                          r: Request, outcomeId: MessageId)
    requires StockOk(orders, requests, stock, minted) && r.messageId !in stock.inbox
             && Transact(stock, r, outcomeId).Some?
    ensures forall i | 0 <= i < |Transact(stock, r, outcomeId).value.outbox| ::
              Transact(stock, r, outcomeId).value.outbox[i].messageId in minted + {outcomeId}
  {
    CommitRows(stock, r, outcomeId, r.orderId);
  }

  lemma MoreOutcomes(outbox: seq<Outcome>, more: seq<Outcome>, sent: set<nat>, copies: seq<OutcomeCopy>,
                     inbox: map<MessageId, Outcome>,
                     orders: map<OrderId, OrderRow>)
    requires OutcomeCopiesOk(outbox, sent, copies, inbox) && StatusOk(orders, outbox, copies, inbox) && outbox <= more
    ensures OutcomeCopiesOk(more, sent, copies, inbox) && StatusOk(orders, more, copies, inbox)
  {
    assert forall o | o in outbox :: o in more;
    forall id | id in orders && orders[id].status != Pending
      ensures exists i :: 0 <= i < |more| && more[i].orderId == id && StatusOf(more[i]) == orders[id].status
    {
      var i :| 0 <= i < |outbox| && outbox[i].orderId == id && StatusOf(outbox[i]) == orders[id].status;
      assert more[i] == outbox[i];
    }
  }

  lemma MoreMinted(orders: map<OrderId, OrderRow>, requests: seq<Request>, stock: Tables, minted: set<nat>, id: nat)
    requires RequestsOk(orders, requests, minted) && StockOk(orders, requests, stock, minted)
    ensures RequestsOk(orders, requests, minted + {id}) && StockOk(orders, requests, stock, minted + {id})
  {}

  lemma MoreInbox(requests: seq<Request>, sent: set<nat>, copies: seq<RequestCopy>, inbox: map<MessageId, Request>,
                  m: MessageId, r: Request)
    requires RequestCopiesOk(requests, sent, copies, inbox)
    ensures RequestCopiesOk(requests, sent, copies, inbox[m := r])
  {}

  lemma CopyIsRequested(s: State, k: nat)
    requires Inv(s) && k < |s.requestCopies|
    ensures s.requestCopies[k].request in s.requests
  {
    hide RequestsOk, StockOk, OutcomeCopiesOk, StatusOk;
  }

  // The first commit of a request: its answer and its inbox row are new.
  lemma FirstCommitKeeps(s: State, r: Request, outcomeId: MessageId)
    requires Inv(s) && r in s.requests && outcomeId !in s.minted
    requires r.messageId !in s.stock.inbox && Transact(s.stock, r, outcomeId).Some?
    ensures Inv(s.(stock := Transact(s.stock, r, outcomeId).value, minted := s.minted + {outcomeId}))
  {
    hide RequestsOk, RequestCopiesOk, StockOk, OutcomeCopiesOk, StatusOk, Transact, RowsOf, Promised;
    MoreMinted(s.orders, s.requests, s.stock, s.minted, outcomeId);
    CommitKeepsStock(s.orders, s.requests, s.stock, s.minted, r, outcomeId);
    CommitRows(s.stock, r, outcomeId, r.orderId);
    var u := Transact(s.stock, r, outcomeId).value;
    MoreOutcomes(s.stock.outbox, u.outbox, s.outcomesSent, s.outcomeCopies, s.inbox, s.orders);
    MoreInbox(s.requests, s.requestsSent, s.requestCopies, s.stock.inbox, r.messageId, r);
  }

  lemma CommitKeeps(maxAttempts: int, s: State, a: Action)
    requires Inv(s) && a.CommitRequest? && Enabled(s, a)
    ensures Inv(Apply(maxAttempts, s, a))
  {
    var r := s.requestCopies[a.copy].request;
    CopyIsRequested(s, a.copy);
    EffectExact(s.stock, r, a.outcomeId);
    hide RequestsOk, RequestCopiesOk, StockOk, OutcomeCopiesOk, StatusOk, Transact, Check, Admissible, Written, Rows;
    var t := s.(stock := Transact(s.stock, r, a.outcomeId).value, minted := s.minted + {a.outcomeId});
    if r.messageId in s.stock.inbox {
      MoreMinted(s.orders, s.requests, s.stock, s.minted, a.outcomeId);
    } else {
      FirstCommitKeeps(s, r, a.outcomeId);
    }
    assert Inv(t);
    PlaceRequestKeeps(t.requests, t.requestsSent, t.requestCopies, t.stock.inbox, a.copy, Unacked(a.reported));
    assert Apply(maxAttempts, s, a) == PlaceRequest(t, a.copy, Unacked(a.reported));
  }

  // Outcome copies --------------------------------------------------------------------------

  ghost predicate OtherLive(copies: seq<OutcomeCopy>, k: nat)
    requires k < |copies|
  {
    exists j :: 0 <= j < |copies| && j != k && copies[j].outcome == copies[k].outcome && copies[j].place != Gone
  }

  lemma StillLive(copies: seq<OutcomeCopy>, k: nat, place: OutcomePlace, o: Outcome)
    requires k < |copies| && Live(copies, o)
    requires place == Gone && copies[k].outcome == o ==> OtherLive(copies, k)
    ensures Live(copies[k := copies[k].(place := place)], o)
  {
    var u := copies[k := copies[k].(place := place)];
    if copies[k].outcome == o && place == Gone {
      var j :| 0 <= j < |copies| && j != k && copies[j].outcome == o && copies[j].place != Gone;
      assert u[j] == copies[j];
    } else {
      var j :| 0 <= j < |copies| && copies[j].outcome == o && copies[j].place != Gone;
      assert u[j].outcome == o && u[j].place != Gone;
    }
  }

  lemma PlaceOutcomeKeeps(outbox: seq<Outcome>, sent: set<nat>, copies: seq<OutcomeCopy>,
                          inbox: map<MessageId, Outcome>,
                          k: nat, place: OutcomePlace)
    requires OutcomeCopiesOk(outbox, sent, copies, inbox) && k < |copies|
    requires place == InFlight(Recorded) ==> copies[k].outcome.messageId in inbox
    requires place == Gone ==> copies[k].outcome.messageId in inbox || OtherLive(copies, k)
    ensures OutcomeCopiesOk(outbox, sent, copies[k := copies[k].(place := place)], inbox)
  {
    var u := copies[k := copies[k].(place := place)];
    forall row | row in sent ensures exists j :: 0 <= j < |u| && u[j].outcome == outbox[row] {
      var j :| 0 <= j < |copies| && copies[j].outcome == outbox[row];
      assert u[j].outcome == outbox[row];
    }
    forall i | 0 <= i < |u| && u[i].outcome.messageId !in inbox ensures Live(u, u[i].outcome) {
      assert copies[i].outcome == u[i].outcome;
      StillLive(copies, k, place, u[i].outcome);
    }
  }

  lemma AppendOutcomeKeeps(outbox: seq<Outcome>, sent: set<nat>, copies: seq<OutcomeCopy>,
                           inbox: map<MessageId, Outcome>, c: OutcomeCopy)
    requires OutcomeCopiesOk(outbox, sent, copies, inbox) && c.outcome in outbox
    requires c.place == InQueue || c.place == Delayed || c.place == DeadLettered
    ensures OutcomeCopiesOk(outbox, sent, copies + [c], inbox)
  {
    var u := copies + [c];
    forall row | row in sent ensures exists j :: 0 <= j < |u| && u[j].outcome == outbox[row] {
      var j :| 0 <= j < |copies| && copies[j].outcome == outbox[row];
      assert u[j] == copies[j];
    }
    forall i | 0 <= i < |u| && u[i].outcome.messageId !in inbox ensures Live(u, u[i].outcome) {
      if i == |copies| {
        assert u[i] == c;
      } else {
        assert u[i] == copies[i];
        var j :| 0 <= j < |copies| && copies[j].outcome == copies[i].outcome && copies[j].place != Gone;
        assert u[j] == copies[j];
      }
    }
  }

  // Only a copy that newly claims to have applied its outcome needs a settled order.
  lemma CopiesKeepStatus(orders: map<OrderId, OrderRow>, outbox: seq<Outcome>, copies: seq<OutcomeCopy>,
                         more: seq<OutcomeCopy>,
                         inbox: map<MessageId, Outcome>)
    requires StatusOk(orders, outbox, copies, inbox)
    requires forall k | 0 <= k < |more| && more[k].place == InFlight(Applied) ::
               (k < |copies| && more[k] == copies[k]) || SettledBy(orders, more[k].outcome)
    ensures StatusOk(orders, outbox, more, inbox)
  {}

  lemma MarkOutcomeKeeps(outbox: seq<Outcome>, sent: set<nat>, copies: seq<OutcomeCopy>,
                         inbox: map<MessageId, Outcome>, row: nat)
    requires OutcomeCopiesOk(outbox, sent, copies, inbox) && row < |outbox|
    requires exists k :: 0 <= k < |copies| && copies[k].outcome == outbox[row]
    ensures OutcomeCopiesOk(outbox, sent + {row}, copies, inbox)
  {}

  lemma RecordedInInbox(outbox: seq<Outcome>, sent: set<nat>, copies: seq<OutcomeCopy>, inbox: map<MessageId, Outcome>,
                        k: nat)
    requires OutcomeCopiesOk(outbox, sent, copies, inbox) && k < |copies|
    ensures copies[k].outcome in outbox
    ensures copies[k].place == InFlight(Recorded) ==> copies[k].outcome.messageId in inbox
  {}

  lemma OutcomeStepKeeps(maxAttempts: int, s: State, a: Action)
    requires Inv(s) && Enabled(s, a)
    requires a.PublishOutcome? || a.MarkOutcome? || a.DeliverOutcome? || a.CheckInbox? || a.AckOutcome?
             || a.RequeueOutcome? || a.ExpireDelay?
    ensures Inv(Apply(maxAttempts, s, a))
  {
    hide RequestsOk, RequestCopiesOk, StockOk, OutcomeCopiesOk, StatusOk;
    var u := Apply(maxAttempts, s, a);
    if a.PublishOutcome? {
      AppendOutcomeKeeps(s.stock.outbox, s.outcomesSent, s.outcomeCopies, s.inbox,
          OutcomeCopy(s.stock.outbox[a.row], 1, InQueue));
      CopiesKeepStatus(s.orders, s.stock.outbox, s.outcomeCopies, u.outcomeCopies, s.inbox);
    } else if a.MarkOutcome? {
      MarkOutcomeKeeps(s.stock.outbox, s.outcomesSent, s.outcomeCopies, s.inbox, a.row);
    } else {
      RecordedInInbox(s.stock.outbox, s.outcomesSent, s.outcomeCopies, s.inbox, a.copy);
      PlaceOutcomeKeeps(s.stock.outbox, s.outcomesSent, s.outcomeCopies, s.inbox, a.copy,
          u.outcomeCopies[a.copy].place);
      CopiesKeepStatus(s.orders, s.stock.outbox, s.outcomeCopies, u.outcomeCopies, s.inbox);
    }
  }

  lemma FailKeeps(maxAttempts: int, s: State, a: Action)
    requires Inv(s) && a.FailOutcome? && Enabled(s, a)
    ensures Inv(Apply(maxAttempts, s, a))
  {
    hide RequestsOk, RequestCopiesOk, StockOk, OutcomeCopiesOk, StatusOk;
    var k, c := a.copy, FailureCopy(maxAttempts, s.outcomeCopies[a.copy]);
    var more := s.outcomeCopies + [c];
    RecordedInInbox(s.stock.outbox, s.outcomesSent, s.outcomeCopies, s.inbox, k);
    AppendOutcomeKeeps(s.stock.outbox, s.outcomesSent, s.outcomeCopies, s.inbox, c);
    if a.settled {
      assert more[|s.outcomeCopies|] == c && more[k].outcome == c.outcome;
      PlaceOutcomeKeeps(s.stock.outbox, s.outcomesSent, more, s.inbox, k, Gone);
    }
    CopiesKeepStatus(s.orders, s.stock.outbox, s.outcomeCopies, Apply(maxAttempts, s, a).outcomeCopies, s.inbox);
  }

  // Settling --------------------------------------------------------------------------------

  /** Applying an outcome always leaves its order in that outcome's status: it was pending, or already had it. */
  lemma ApplySettles(orders: map<OrderId, OrderRow>, requests: seq<Request>, stock: Tables, minted: set<nat>,
                     copies: seq<OutcomeCopy>, inbox: map<MessageId, Outcome>, o: Outcome)
    requires StockOk(orders, requests, stock, minted) && StatusOk(orders, stock.outbox, copies, inbox)
             && o in stock.outbox
    ensures SettledBy(SettleOrder(orders, o), o)
    ensures forall p | SettledBy(orders, p) :: SettledBy(SettleOrder(orders, o), p)
  {
    var n :| 0 <= n < |stock.outbox| && stock.outbox[n] == o;
    assert Ordered(orders, stock.outbox[n]);
    if orders[o.orderId].status != Pending {
      var i :| 0 <= i < |stock.outbox| && stock.outbox[i].orderId == o.orderId
          && StatusOf(stock.outbox[i]) == orders[o.orderId].status;
      assert i == n;
    }
  }

  lemma SettleKeepsStatus(orders: map<OrderId, OrderRow>, outbox: seq<Outcome>, copies: seq<OutcomeCopy>,
                          inbox: map<MessageId, Outcome>, o: Outcome)
    requires StatusOk(orders, outbox, copies, inbox) && o in outbox
    requires forall p | SettledBy(orders, p) :: SettledBy(SettleOrder(orders, o), p)
    ensures StatusOk(SettleOrder(orders, o), outbox, copies, inbox)
  {
    var u := SettleOrder(orders, o);
    var n :| 0 <= n < |outbox| && outbox[n] == o;
    forall id | id in u && u[id].status != Pending
      ensures exists i :: 0 <= i < |outbox| && outbox[i].orderId == id && StatusOf(outbox[i]) == u[id].status
    {
      if orders[id].status == Pending {
        assert outbox[n].orderId == id;
      }
    }
  }

  lemma SettleKeepsOrders(orders: map<OrderId, OrderRow>, requests: seq<Request>, stock: Tables, minted: set<nat>,
                          o: Outcome)
    requires RequestsOk(orders, requests, minted) && StockOk(orders, requests, stock, minted)
    ensures RequestsOk(SettleOrder(orders, o), requests, minted)
            && StockOk(SettleOrder(orders, o), requests, stock, minted)
  {
    hide RequestsOk, StockOk;
    var u := SettleOrder(orders, o);
    assert u.Keys == orders.Keys && forall id | id in orders :: u[id].items == orders[id].items;
    SameOrders(orders, u, requests, minted);
    SameOrdersStock(orders, u, requests, stock, minted);
  }

  lemma SameOrders(orders: map<OrderId, OrderRow>, u: map<OrderId, OrderRow>, requests: seq<Request>, minted: set<nat>)
    requires RequestsOk(orders, requests, minted)
    requires u.Keys == orders.Keys && forall id | id in orders :: u[id].items == orders[id].items
    ensures RequestsOk(u, requests, minted)
  {}

  lemma SameOrdersStock(orders: map<OrderId, OrderRow>, u: map<OrderId, OrderRow>, requests: seq<Request>,
                        stock: Tables, minted: set<nat>)
    requires StockOk(orders, requests, stock, minted)
    requires u.Keys == orders.Keys && forall id | id in orders :: u[id].items == orders[id].items
    ensures StockOk(u, requests, stock, minted)
  {}

  lemma ApplyKeeps(maxAttempts: int, s: State, a: Action)
    requires Inv(s) && a.ApplyOutcome? && Enabled(s, a)
    ensures Inv(Apply(maxAttempts, s, a))
  {
    hide RequestsOk, RequestCopiesOk, StockOk, OutcomeCopiesOk, StatusOk;
    var u := Apply(maxAttempts, s, a);
    var o := s.outcomeCopies[a.copy].outcome;
    RecordedInInbox(s.stock.outbox, s.outcomesSent, s.outcomeCopies, s.inbox, a.copy);
    ApplySettles(s.orders, s.requests, s.stock, s.minted, s.outcomeCopies, s.inbox, o);
    SettleKeepsOrders(s.orders, s.requests, s.stock, s.minted, o);
    SettleKeepsStatus(s.orders, s.stock.outbox, s.outcomeCopies, s.inbox, o);
    PlaceOutcomeKeeps(s.stock.outbox, s.outcomesSent, s.outcomeCopies, s.inbox, a.copy, u.outcomeCopies[a.copy].place);
    CopiesKeepStatus(u.orders, s.stock.outbox, s.outcomeCopies, u.outcomeCopies, s.inbox);
  }

  lemma RecordInboxKeeps(orders: map<OrderId, OrderRow>, outbox: seq<Outcome>, sent: set<nat>, copies: seq<OutcomeCopy>,
                         inbox: map<MessageId, Outcome>, k: nat)
    requires OutcomeCopiesOk(outbox, sent, copies, inbox) && StatusOk(orders, outbox, copies, inbox)
    requires k < |copies| && copies[k].place == InFlight(Applied)
    ensures
      var o := copies[k].outcome;
      && SettledBy(orders, o)
      && OutcomeCopiesOk(outbox, sent, copies, inbox[o.messageId := o])
         && StatusOk(orders, outbox, copies, inbox[o.messageId := o])
  {}

  lemma RecordKeeps(maxAttempts: int, s: State, a: Action)
    requires Inv(s) && a.RecordOutcome? && Enabled(s, a)
    ensures Inv(Apply(maxAttempts, s, a))
  {
    hide RequestsOk, RequestCopiesOk, StockOk, OutcomeCopiesOk, StatusOk;
    var u := Apply(maxAttempts, s, a);
    RecordInboxKeeps(s.orders, s.stock.outbox, s.outcomesSent, s.outcomeCopies, s.inbox, a.copy);
    PlaceOutcomeKeeps(s.stock.outbox, s.outcomesSent, s.outcomeCopies, u.inbox, a.copy, u.outcomeCopies[a.copy].place);
    CopiesKeepStatus(s.orders, s.stock.outbox, s.outcomeCopies, u.outcomeCopies, u.inbox);
  }

  // Every run -------------------------------------------------------------------------------

  lemma StepKeeps(maxAttempts: int, s: State, a: Action)
    requires Inv(s) && Enabled(s, a)
    ensures Inv(Apply(maxAttempts, s, a))
  {
    hide Inv;
    match a
    case Create(_, _, _) => CreateKeeps(maxAttempts, s, a);
    case CommitRequest(_, _, _) => CommitKeeps(maxAttempts, s, a);
    case ApplyOutcome(_, _) => ApplyKeeps(maxAttempts, s, a);
    case RecordOutcome(_, _) => RecordKeeps(maxAttempts, s, a);
    case FailOutcome(_, _) => FailKeeps(maxAttempts, s, a);
    case PublishRequest(_) => RequestStepKeeps(maxAttempts, s, a);
    case MarkRequest(_) => RequestStepKeeps(maxAttempts, s, a);
    case DeliverRequest(_) => RequestStepKeeps(maxAttempts, s, a);
    case AckRequest(_) => RequestStepKeeps(maxAttempts, s, a);
    case RequeueRequest(_) => RequestStepKeeps(maxAttempts, s, a);
    case _ => OutcomeStepKeeps(maxAttempts, s, a);
  }

  lemma {:induction false} InvAlways(maxAttempts: int, seed: Tables, actions: seq<Action>)
    requires Seeded(seed)
    ensures Inv(Run(maxAttempts, seed, actions))
  {
    if actions != [] {
      InvAlways(maxAttempts, seed, actions[..|actions| - 1]);
      var s, a := Run(maxAttempts, seed, actions[..|actions| - 1]), actions[|actions| - 1];
      if Enabled(s, a) {
        StepKeeps(maxAttempts, s, a);
      }
    }
  }

  // What every run guarantees ---------------------------------------------------------------

  ghost predicate Agrees(orders: map<OrderId, OrderRow>, rows: seq<Reservation>, order: OrderId)
    requires order in orders
  {
    var items, own := orders[order].items, RowsOf(rows, order);
    match orders[order].status
    case Confirmed => own == Rows(order, items, |items|)
    case Failed => own == []
    case Pending => own == [] || own == Rows(order, items, |items|)
  }

  lemma Agreement(orders: map<OrderId, OrderRow>, requests: seq<Request>, stock: Tables, minted: set<nat>,
                  copies: seq<OutcomeCopy>, inbox: map<MessageId, Outcome>, order: OrderId)
    requires StockOk(orders, requests, stock, minted) && StatusOk(orders, stock.outbox, copies, inbox)
             && order in orders
    ensures Agrees(orders, stock.reservations, order)
  {
    if orders[order].status != Pending {
      var i :| 0 <= i < |stock.outbox| && stock.outbox[i].orderId == order
          && StatusOf(stock.outbox[i]) == orders[order].status;
      assert Ordered(orders, stock.outbox[i]);
    } else if Answered(stock.outbox, order) {
      var i :| 0 <= i < |stock.outbox| && stock.outbox[i].orderId == order;
      assert Ordered(orders, stock.outbox[i]);
    } else {
      RowsOfOther(stock.reservations, order);
    }
  }

  lemma OneAnswer(orders: map<OrderId, OrderRow>, requests: seq<Request>, stock: Tables, minted: set<nat>, i: nat,
                  j: nat)
    requires StockOk(orders, requests, stock, minted) && i < |stock.outbox| && j < |stock.outbox|
    requires stock.outbox[i].orderId == stock.outbox[j].orderId
    ensures i == j
  {}

  /**
   Saga agreement, in every reachable state: a CONFIRMED order holds exactly its lines as reservations, a FAILED order
   holds none, a PENDING one holds all or none, and inventory has at most one answer for it.
   */
  lemma SagaAgreement(maxAttempts: int, seed: Tables, actions: seq<Action>, order: OrderId)
    requires Seeded(seed)
    ensures
      var s := Run(maxAttempts, seed, actions);
      && (order in s.orders ==> Agrees(s.orders, s.stock.reservations, order))
      && forall i, j | 0 <= i < |s.stock.outbox| && 0 <= j < |s.stock.outbox|
         && s.stock.outbox[i].orderId == s.stock.outbox[j].orderId :: i == j
  {
    InvAlways(maxAttempts, seed, actions);
    hide RequestsOk, RequestCopiesOk, OutcomeCopiesOk, StockOk, StatusOk, Agrees, Run;
    var s := Run(maxAttempts, seed, actions);
    forall i, j | 0 <= i < |s.stock.outbox| && 0 <= j < |s.stock.outbox|
        && s.stock.outbox[i].orderId == s.stock.outbox[j].orderId
      ensures i == j
    {
      OneAnswer(s.orders, s.requests, s.stock, s.minted, i, j);
    }
    if order in s.orders {
      Agreement(s.orders, s.requests, s.stock, s.minted, s.outcomeCopies, s.inbox, order);
    }
  }

  lemma {:induction false} RowsOfUnique(rows: seq<Reservation>, order: OrderId)
    requires UniqueRows(rows)
    ensures UniqueRows(RowsOf(rows, order))
    ensures forall r | r in RowsOf(rows, order) :: r in rows
  {
    if rows != [] {
      var fewer, last := rows[..|rows| - 1], rows[|rows| - 1];
      RowsOfUnique(fewer, order);
      forall r | r in RowsOf(fewer, order) ensures !(r.order == last.order && r.product == last.product) {
        var k :| 0 <= k < |fewer| && fewer[k] == r;
        assert rows[k] == r;
      }
    }
  }

  /** An order that repeats a product can never be confirmed. */
  lemma RepeatedProductNeverConfirmed(maxAttempts: int, seed: Tables, actions: seq<Action>, order: OrderId)
    requires Seeded(seed) && order in Run(maxAttempts, seed, actions).orders
    requires var items := Run(maxAttempts, seed, actions).orders[order].items; !Distinct(items, |items|)
    ensures Run(maxAttempts, seed, actions).orders[order].status != Confirmed
  {
    var s := Run(maxAttempts, seed, actions);
    var items := s.orders[order].items;
    SagaAgreement(maxAttempts, seed, actions, order);
    StockAlways(maxAttempts, seed, actions);
    RowsOfUnique(s.stock.reservations, order);
    var i, j :| 0 <= i < j < |items| && items[i].product == items[j].product;
    var rows := Rows(order, items, |items|);
    assert rows[i].product == rows[j].product && rows[i].order == rows[j].order;
  }

  /** Stock is conserved across the whole system, whatever is duplicated, reordered or cut off. */
  lemma {:induction false} StockAlways(maxAttempts: int, seed: Tables, actions: seq<Action>)
    requires Seeded(seed)
    ensures Valid(Run(maxAttempts, seed, actions).stock) && Balanced(seed, Run(maxAttempts, seed, actions).stock)
  {
    if actions != [] {
      StockAlways(maxAttempts, seed, actions[..|actions| - 1]);
      var s, a := Run(maxAttempts, seed, actions[..|actions| - 1]), actions[|actions| - 1];
      if Enabled(s, a) {
        StepKeepsStock(maxAttempts, seed, s, a);
      }
    }
  }

  lemma StepKeepsStock(maxAttempts: int, seed: Tables, s: State, a: Action)
    requires Valid(s.stock) && Balanced(seed, s.stock) && Enabled(s, a)
    ensures Valid(Apply(maxAttempts, s, a).stock) && Balanced(seed, Apply(maxAttempts, s, a).stock)
  {
    if a.CommitRequest? {
      TransactKeepsValid(s.stock, s.requestCopies[a.copy].request, a.outcomeId);
      TransactConserves(seed, s.stock, s.requestCopies[a.copy].request, a.outcomeId);
    }
  }

  lemma RunOneMore(maxAttempts: int, seed: Tables, actions: seq<Action>, a: Action)
    ensures
      var s := Run(maxAttempts, seed, actions);
      Run(maxAttempts, seed, actions + [a]) == if Enabled(s, a) then Apply(maxAttempts, s, a) else s
  {
    assert (actions + [a])[..|actions + [a]| - 1] == actions;
  }

  /** Once an order has left PENDING its status never changes again. */
  lemma {:induction false} TerminalForEver(maxAttempts: int, seed: Tables, actions: seq<Action>, more: seq<Action>,
                                           order: OrderId)
    requires Seeded(seed)
    requires order in Run(maxAttempts, seed, actions).orders
             && Run(maxAttempts, seed, actions).orders[order].status != Pending
    ensures
      var u := Run(maxAttempts, seed, actions + more);
      order in u.orders && u.orders[order] == Run(maxAttempts, seed, actions).orders[order]
  {
    hide Run, Inv, Enabled, Apply, Seeded;
    if more == [] {
      assert actions + more == actions;
    } else {
      var fewer, a := more[..|more| - 1], more[|more| - 1];
      TerminalForEver(maxAttempts, seed, actions, fewer, order);
      assert actions + more == actions + fewer + [a];
      RunOneMore(maxAttempts, seed, actions + fewer, a);
      InvAlways(maxAttempts, seed, actions + fewer);
      var s := Run(maxAttempts, seed, actions + fewer);
      if Enabled(s, a) {
        StepKeepsTerminal(maxAttempts, s, a, order);
      }
    }
  }

  lemma OrdersAreMinted(orders: map<OrderId, OrderRow>, requests: seq<Request>, minted: set<nat>, order: OrderId)
    requires RequestsOk(orders, requests, minted) && order in orders
    ensures order in minted
  {
    var i :| 0 <= i < |requests| && requests[i].orderId == order;
  }

  lemma StepKeepsTerminal(maxAttempts: int, s: State, a: Action, order: OrderId)
    requires Inv(s) && Enabled(s, a)
    requires order in s.orders && s.orders[order].status != Pending
    ensures order in Apply(maxAttempts, s, a).orders && Apply(maxAttempts, s, a).orders[order] == s.orders[order]
  {
    hide RequestsOk, RequestCopiesOk, OutcomeCopiesOk, StockOk, StatusOk, Transact;
    if a.Create? {
      OrdersAreMinted(s.orders, s.requests, s.minted, order);
    }
  }

  /**
   The outboxes never lie and the outcome path never loses: a row marked processed was routed with its stored payload,
   and an outcome once queued is still somewhere, dead letters included, until the order service has recorded it with
   its order settled.
   */
  lemma NothingLost(maxAttempts: int, seed: Tables, actions: seq<Action>)
    requires Seeded(seed)
    ensures
      var s := Run(maxAttempts, seed, actions);
      && (forall row | row in s.requestsSent :: row < |s.requests| && RequestRouted(s, s.requests[row]))
      && (forall row | row in s.outcomesSent :: row < |s.stock.outbox| && OutcomeRouted(s, s.stock.outbox[row]))
      && (forall k | 0 <= k < |s.outcomeCopies| ::
            || Live(s.outcomeCopies, s.outcomeCopies[k].outcome)
            || (s.outcomeCopies[k].outcome.messageId in s.inbox
                && SettledBy(s.orders, s.inbox[s.outcomeCopies[k].outcome.messageId])))
      && (forall k | 0 <= k < |s.requestCopies| && s.requestCopies[k].place == Acked ::
            s.requestCopies[k].request.messageId in s.stock.inbox)
  {
    InvAlways(maxAttempts, seed, actions);
  }
}
