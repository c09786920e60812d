/** The order service: creating an order with its outbox row, and settling it once inventory has answered. */
module Orders {
  import opened Prelude
  import opened Inventory

  datatype Status = Pending | Confirmed | Failed

  datatype ItemInput = ItemInput(product: ProductId, name: string, unitPrice: real, quantity: int)
  datatype OrderInput = OrderInput(customer: Option<nat>, items: seq<ItemInput>)

  datatype OrderItem = OrderItem(id: nat, order: OrderId, product: ProductId, name: string, unitPrice: real,
      quantity: int, subtotal: real)
  datatype Order = Order(id: OrderId, customer: nat, status: Status, total: real, items: seq<OrderItem>)

  // Creating an order -----------------------------------------------------------------------

  predicate ItemValid(item: ItemInput) {
    item.name != "" && item.unitPrice >= 0.0 && item.quantity >= 1
  }

  predicate InputValid(input: OrderInput) {
    input.customer.Some? && input.items != [] && forall i | 0 <= i < |input.items| :: ItemValid(input.items[i])
  }

  function Subtotal(item: OrderItem): real {
    item.unitPrice * item.quantity as real
  }

  function Total(items: seq<OrderItem>): real {
    if items == [] then 0.0 else Total(items[..|items| - 1]) + Subtotal(items[|items| - 1])
  }

  function Stamp(item: OrderItem, id: nat, order: OrderId): OrderItem {
    item.(id := id, order := order, subtotal := Subtotal(item))
  }

  // The CHECK constraints on order_items, and the width of product_name.
  predicate ItemStorable(item: OrderItem) {
    0 < item.quantity <= INT_MAX && item.unitPrice >= 0.0 && item.subtotal >= 0.0 && |item.name| <= 255
  }

  /** What a caller can test beforehand: the widths of the columns that validation does not look at. */
  predicate ColumnsFit(input: OrderInput) {
    forall i | 0 <= i < |input.items| :: input.items[i].quantity <= INT_MAX && |input.items[i].name| <= 255
  }

  /** What the event asks inventory for: the order's own lines, in order, repeats included. */
  function RequestedItems(items: seq<OrderItem>): seq<Item> {
    seq(|items|, i requires 0 <= i < |items| => Item(items[i].product, items[i].quantity))
  }

  /** Price times quantity over the lines a customer sends. */
  function Price(items: seq<ItemInput>): real {
    if items == [] then 0.0 else items[0].unitPrice * items[0].quantity as real + Price(items[1..])
  }

  /** The price of an order is the sum of the prices of its parts, however it is split. */
  lemma {:induction false} PriceSplits(a: seq<ItemInput>, b: seq<ItemInput>)
    ensures Price(a + b) == Price(a) + Price(b)
  {
    if a == [] {
      assert a + b == b;
    } else {
      assert (a + b)[1..] == a[1..] + b;
      PriceSplits(a[1..], b);
    }
  }

  /** The total accumulated over the stamped lines is the price of the input. */
  lemma {:induction false} TotalIsPrice(items: seq<OrderItem>, input: seq<ItemInput>)
    requires |items| == |input|
    requires forall i | 0 <= i < |items| ::
               items[i].unitPrice == input[i].unitPrice && items[i].quantity == input[i].quantity
    ensures Total(items) == Price(input)
  {
    if items != [] {
      var n := |items| - 1;
      TotalIsPrice(items[..n], input[..n]);
      assert input[..n] + [input[n]] == input;
      PriceSplits(input[..n], [input[n]]);
      assert [input[n]][1..] == [];
    }
  }

  /** A validated order can never violate the non-negative CHECKs on its amounts. */
  lemma {:induction false} TotalNonNegative(items: seq<OrderItem>)
    requires forall i | 0 <= i < |items| :: items[i].unitPrice >= 0.0 && items[i].quantity >= 1
    ensures Total(items) >= 0.0 && forall i | 0 <= i < |items| :: Subtotal(items[i]) >= 0.0
  {
    forall i | 0 <= i < |items| ensures Subtotal(items[i]) >= 0.0 {
      ProductNonNegative(items[i].unitPrice, items[i].quantity as real);
    }
    if items != [] {
      TotalNonNegative(items[..|items| - 1]);
      assert Subtotal(items[|items| - 1]) >= 0.0;
    }
  }

  lemma {:induction false} TotalOfLines(a: seq<OrderItem>, b: seq<OrderItem>)
    requires |a| == |b| && forall i | 0 <= i < |a| :: Subtotal(a[i]) == Subtotal(b[i])
    ensures Total(a) == Total(b)
  {
    if a != [] {
      TotalOfLines(a[..|a| - 1], b[..|b| - 1]);
    }
  }

  lemma ProductNonNegative(x: real, y: real)
    requires x >= 0.0 && y >= 0.0
    ensures x * y >= 0.0
  {}

  /** Ids and subtotals are written into the caller's items; the total is accumulated on the way. */
  method NewOrder(orderId: OrderId, customer: nat, items: array<OrderItem>, ids: seq<nat>) returns (order: Order)
    requires |ids| == items.Length
    modifies items
    ensures forall i | 0 <= i < items.Length ::
              items[i] == old(items[i]).(id := ids[i], order := orderId,
                                         subtotal := old(items[i].unitPrice) * old(items[i].quantity) as real)
    ensures order == Order(orderId, customer, Pending, Total(items[..]), items[..])
  {
    var total := 0.0;
    ghost var was := items[..];
    for i := 0 to items.Length
      invariant forall k | 0 <= k < i :: items[k] == Stamp(was[k], ids[k], orderId)
      invariant forall k | i <= k < items.Length :: items[k] == was[k]
      invariant total == Total(was[..i])
    {
      var subtotal := items[i].unitPrice * items[i].quantity as real;
      items[i] := items[i].(id := ids[i], order := orderId, subtotal := subtotal);
      total := total + subtotal;
      assert was[..i + 1][..i] == was[..i];
    }
    assert was[..items.Length] == was;
    TotalOfLines(was, items[..]);
    order := Order(orderId, customer, Pending, total, items[..]);
  }

  // Settling an order -----------------------------------------------------------------------

  // The status column and the inbox: all that handling an outcome reads or writes.
  datatype Ledger = Ledger(status: map<OrderId, Status>, inbox: map<MessageId, Verdict>)

  // StockReserved asks for Confirmed, StockReservationFailed for Failed.
  datatype Verdict = Verdict(messageId: MessageId, order: OrderId, confirmed: bool) {
    function Target(): Status {
      if confirmed then Confirmed else Failed
    }
  }

  // Where a handling was cut off, by a database error or a crash. A write that reported an error may still have
  // happened.
  datatype Stop = BeforeCheck | AfterCheck | AfterUpdate | AfterRecord | Never

  /** UPDATE ... WHERE status = 'PENDING': no row matching is not an error. */
  function Settle(status: map<OrderId, Status>, v: Verdict): map<OrderId, Status> {
    if v.order in status && status[v.order] == Pending then status[v.order := v.Target()] else status
  }

  /** Check the inbox, update the order, record the message: three separate statements. The flag is `no error`. */
  function HandleVerdict(l: Ledger, v: Verdict, stop: Stop): (Ledger, bool) {
    if stop == BeforeCheck then (l, false)
    else if v.messageId in l.inbox then (l, true)
    else if stop == AfterCheck then (l, false)
    else
      var updated := l.(status := Settle(l.status, v));
      if stop == AfterUpdate then (updated, false)
      else (updated.(inbox := updated.inbox[v.messageId := v]), stop == Never)
  }

  /**
   The stored order is the input: same customer, same lines, every line stamped, the total the sum of price times
   quantity.
   */
  ghost predicate Matches(order: Order, input: OrderInput, orderId: OrderId, ids: seq<nat>)
    requires |ids| == |input.items|
  {
    && input.customer == Some(order.customer) && order.id == orderId && order.status == Pending
    && |order.items| == |input.items|
    && order.total == Price(input.items)
    && forall i | 0 <= i < |input.items| ::
         var item, from := order.items[i], input.items[i];
         item == OrderItem(ids[i], orderId, from.product, from.name, from.unitPrice, from.quantity,
             from.unitPrice * from.quantity as real)
  }

  /** The lines a customer sent, one for one: the product and the quantity of each. */
  ghost predicate AsksFor(items: seq<Item>, input: OrderInput) {
    && |items| == |input.items|
    && forall i | 0 <= i < |items| ::
         items[i].product == input.items[i].product && items[i].quantity == input.items[i].quantity
  }

  lemma ValidExact(input: OrderInput)
    ensures InputValid(input) && ColumnsFit(input) <==>
            && input.customer.Some? && input.items != []
            && forall i | 0 <= i < |input.items| ::
                 var from := input.items[i];
                 0 < |from.name| <= 255 && from.unitPrice >= 0.0 && 1 <= from.quantity <= INT_MAX
  {
    if InputValid(input) && ColumnsFit(input) {
      forall i | 0 <= i < |input.items|
        ensures 0 < |input.items[i].name| <= 255 && input.items[i].unitPrice >= 0.0
        ensures 1 <= input.items[i].quantity <= INT_MAX
      {
        assert ItemValid(input.items[i]);
      }
    }
  }

  /** A valid order passes every column's constraint if and only if its quantities and names fit. */
  lemma StorableExact(input: OrderInput, order: Order, orderId: OrderId, ids: seq<nat>)
    requires |ids| == |input.items| && InputValid(input) && Matches(order, input, orderId, ids)
    ensures (forall i | 0 <= i < |order.items| :: ItemStorable(order.items[i])) <==> ColumnsFit(input)
  {
    forall i | 0 <= i < |input.items|
      ensures ItemStorable(order.items[i]) <==> input.items[i].quantity <= INT_MAX && |input.items[i].name| <= 255
    {
      var from := input.items[i];
      assert ItemValid(from);
      ProductNonNegative(from.unitPrice, from.quantity as real);
      assert order.items[i]
             == OrderItem(ids[i], orderId, from.product, from.name, from.unitPrice, from.quantity,
                 from.unitPrice * from.quantity as real);
    }
    hide ItemStorable, Matches, InputValid;
  }

  /** What the service stores and asks for is the input, and it can be stored if and only if the columns can hold it. */
  lemma StoredAsSent(input: OrderInput, order: Order, orderId: OrderId, ids: seq<nat>)
    requires |ids| == |input.items| && InputValid(input)
    requires order == Order(orderId, input.customer.value, Pending, Total(order.items), order.items)
    requires |order.items| == |input.items|
    requires forall i | 0 <= i < |input.items| ::
               var from := input.items[i];
               order.items[i] == OrderItem(ids[i], orderId, from.product, from.name, from.unitPrice, from.quantity,
                                           from.unitPrice * from.quantity as real)
    ensures Matches(order, input, orderId, ids) && AsksFor(RequestedItems(order.items), input)
    ensures (forall i | 0 <= i < |order.items| :: ItemStorable(order.items[i])) <==>
            forall i | 0 <= i < |input.items| ::
              var from := input.items[i];
              0 < |from.name| <= 255 && from.unitPrice >= 0.0 && 1 <= from.quantity <= INT_MAX
  {
    TotalIsPrice(order.items, input.items);
    assert Matches(order, input, orderId, ids);
    StorableExact(input, order, orderId, ids);
    ValidExact(input);
    hide *;
  }

  /** The same orders, which differ at most in their status. */
  ghost predicate SameButStatus(a: map<OrderId, Order>, b: map<OrderId, Order>) {
    a.Keys == b.Keys && forall id | id in a :: b[id] == a[id].(status := b[id].status)
  }

  /** The orders after an update of one of them that matches only while it is pending. */
  ghost function Updated(orders: map<OrderId, Order>, order: OrderId, status: Status): map<OrderId, Order> {
    if order in orders && orders[order].status == Pending
    then orders[order := orders[order].(status := status)] else orders
  }

  /**
   One handling, on the tables: a recorded message is acknowledged and changes nothing; success means the order has been
   updated and the message recorded; and an error leaves nothing, the update alone, or both.
   */
  ghost predicate Handled(orders: map<OrderId, Order>, inbox: map<MessageId, Verdict>, u: map<OrderId, Order>,
                          recorded: map<MessageId, Verdict>, v: Verdict, status: Status, ok: bool, stop: Stop) {
    if v.messageId in inbox then u == orders && recorded == inbox && (ok <==> stop != BeforeCheck)
    else
      && (ok <==> stop == Never)
      && (ok ==> u == Updated(orders, v.order, status) && recorded == inbox[v.messageId := v])
      && (!ok ==>
            || (u == orders && recorded == inbox)
            || (u == Updated(orders, v.order, status) && (recorded == inbox || recorded == inbox[v.messageId := v])))
  }

  class OrderService {
    var orders: map<OrderId, Order>
    var outbox: seq<Request>
    var inbox: map<MessageId, Verdict>

    function Current(): Ledger
      reads this
    {
      Ledger(map id | id in orders :: orders[id].status, inbox)
    }

    constructor ()
      ensures orders == map[] && outbox == [] && inbox == map[]
    {
      orders, outbox, inbox := map[], [], map[];
    }

    /**
     The order, its items and its event appear together or not at all, unless a failing commit took effect unheard.
     */
    method CreateOrder(input: OrderInput, orderId: OrderId, messageId: MessageId, ids: seq<nat>)
      returns (fault: bool, created: Option<Order>)
      requires |ids| == |input.items|
      modifies this
      ensures inbox == old(inbox)
      ensures !InputValid(input) ==> created == None && !fault
      ensures !fault ==>
                (created.Some? <==>
                  && input.customer.Some? && input.items != [] && orderId !in old(orders)
                  && forall i | 0 <= i < |input.items| ::
                       var from := input.items[i];
                       0 < |from.name| <= 255 && from.unitPrice >= 0.0 && 1 <= from.quantity <= INT_MAX)
      ensures created.Some? ==>
                && InputValid(input) && orderId !in old(orders)
                && Matches(created.value, input, orderId, ids)
                && orders == old(orders)[orderId := created.value]
                && exists items :: AsksFor(items, input) && outbox == old(outbox) + [Request(messageId, orderId, items)]
      ensures created.None? ==>
                || (orders == old(orders) && outbox == old(outbox))
                || (fault && exists order, items ::
                     && Matches(order, input, orderId, ids) && AsksFor(items, input)
                     && orders == old(orders)[orderId := order]
                     && outbox == old(outbox) + [Request(messageId, orderId, items)])
    {
      fault, created := false, None;
      if !InputValid(input) {
        return;
      }
      var items := new OrderItem[|input.items|](i requires 0 <= i < |input.items| =>
        var from := input.items[i];
        OrderItem(0, 0, from.product, from.name, from.unitPrice, from.quantity, 0.0));
      var order := NewOrder(orderId, input.customer.value, items, ids);
      StoredAsSent(input, order, orderId, ids);
      hide *;
      if * {
        fault := true;
        return;
      }
      if orderId in orders || exists i | 0 <= i < |order.items| :: !ItemStorable(order.items[i]) {
        return;
      }
      orders := orders[orderId := order];
      outbox := outbox + [Request(messageId, orderId, RequestedItems(order.items))];
      if * {
        fault := true;
        return;
      }
      created := Some(order);
    }

    method IsProcessed(messageId: MessageId) returns (fault: bool, processed: bool)
      ensures !fault ==> (processed <==> messageId in inbox)
    {
      fault, processed := *, messageId in inbox;
    }

    method ConfirmOrder(order: OrderId, ghost v: Verdict)
      requires v.order == order && v.confirmed
      modifies this`orders
      ensures orders == Updated(old(orders), order, Confirmed)
      ensures Current() == old(Current()).(status := Settle(old(Current().status), v))
      ensures SameButStatus(old(orders), orders)
    {
      if order in orders && orders[order].status == Pending {
        orders := orders[order := orders[order].(status := Confirmed)];
      }
      assert Current().status == Settle(old(Current().status), v);
    }

    method RejectOrder(order: OrderId, ghost v: Verdict)
      requires v.order == order && !v.confirmed
      modifies this`orders
      ensures orders == Updated(old(orders), order, Failed)
      ensures Current() == old(Current()).(status := Settle(old(Current().status), v))
      ensures SameButStatus(old(orders), orders)
    {
      if order in orders && orders[order].status == Pending {
        orders := orders[order := orders[order].(status := Failed)];
      }
      assert Current().status == Settle(old(Current().status), v);
    }

    method HandleConfirmOrder(order: OrderId, messageId: MessageId) returns (ok: bool, stop: Stop)
      modifies this`orders, this`inbox
      ensures (Current(), ok) == HandleVerdict(old(Current()), Verdict(messageId, order, true), stop)
      ensures Handled(old(orders), old(inbox), orders, inbox, Verdict(messageId, order, true), Confirmed, ok, stop)
      ensures SameButStatus(old(orders), orders)
    {
      var fault, processed := IsProcessed(messageId);
      if fault {
        return false, BeforeCheck;
      }
      if processed {
        return true, Never;
      }
      if * {
        return false, AfterCheck;
      }
      ConfirmOrder(order, Verdict(messageId, order, true));
      if * {
        return false, AfterUpdate;
      }
      inbox := inbox[messageId := Verdict(messageId, order, true)];
      if * {
        return false, AfterRecord;
      }
      return true, Never;
    }

    method HandleRejectOrder(order: OrderId, messageId: MessageId) returns (ok: bool, stop: Stop)
      modifies this`orders, this`inbox
      ensures (Current(), ok) == HandleVerdict(old(Current()), Verdict(messageId, order, false), stop)
      ensures Handled(old(orders), old(inbox), orders, inbox, Verdict(messageId, order, false), Failed, ok, stop)
      ensures SameButStatus(old(orders), orders)
    {
      var fault, processed := IsProcessed(messageId);
      if fault {
        return false, BeforeCheck;
      }
      if processed {
        return true, Never;
      }
      if * {
        return false, AfterCheck;
      }
      RejectOrder(order, Verdict(messageId, order, false));
      if * {
        return false, AfterUpdate;
      }
      inbox := inbox[messageId := Verdict(messageId, order, false)];
      if * {
        return false, AfterRecord;
      }
      return true, Never;
    }
  }

  // Replays ---------------------------------------------------------------------------------

  datatype Handling = Handling(verdict: Verdict, stop: Stop)

  function Replay(l: Ledger, run: seq<Handling>): Ledger {
    if run == [] then l
    else HandleVerdict(Replay(l, run[..|run| - 1]), run[|run| - 1].verdict, run[|run| - 1].stop).0
  }

  /** A terminal status never changes, whatever is replayed, and no order appears or disappears. */
  lemma {:induction false} TerminalStays(l: Ledger, run: seq<Handling>, order: OrderId)
    ensures order in Replay(l, run).status <==> order in l.status
    ensures order in l.status && l.status[order] != Pending ==> Replay(l, run).status[order] == l.status[order]
  {
    if run != [] {
      TerminalStays(l, run[..|run| - 1], order);
    }
  }

  /** A recorded message is acknowledged, wherever its handling would be cut after the check, and changes nothing. */
  lemma RecordedIsAcknowledged(l: Ledger, v: Verdict, stop: Stop)
    requires v.messageId in l.inbox && stop != BeforeCheck
    ensures HandleVerdict(l, v, stop) == (l, true)
  {}

  /** Without a record, only a handling that is not cut anywhere reports success. */
  lemma SuccessIsUncut(l: Ledger, v: Verdict, stop: Stop)
    requires v.messageId !in l.inbox
    ensures HandleVerdict(l, v, stop).1 <==> stop == Never
  {}

  /**
   When one uninterrupted handling leaves an inbox row that tells the truth: the order exists and has not gone the other
   way.
   */
  lemma HandlingTruthfulExact(l: Ledger, v: Verdict)
    requires v.messageId !in l.inbox
    ensures
      var (u, ok) := HandleVerdict(l, v, Never);
      && ok && v.messageId in u.inbox
      && ((v.order in u.status && u.status[v.order] == v.Target())
          <==> v.order in l.status && (l.status[v.order] == Pending || l.status[v.order] == v.Target()))
  {}

  ghost predicate Truthful(l: Ledger) {
    forall m | m in l.inbox ::
      l.inbox[m].messageId == m && l.inbox[m].order in l.status && l.status[l.inbox[m].order] == l.inbox[m].Target()
  }

  /** What the saga guarantees of the verdicts that reach the service: the order exists, and no order gets both. */
  ghost predicate Unanimous(l: Ledger, verdicts: set<Verdict>) {
    && (forall v | v in verdicts ::
       v.order in l.status && (l.status[v.order] == Pending || l.status[v.order] == v.Target()))
    && (forall v, w | v in verdicts && w in verdicts && v.order == w.order :: v.confirmed == w.confirmed)
    && (forall v, w | v in verdicts && w in verdicts && v.messageId == w.messageId :: v == w)
    && (forall v | v in verdicts && v.messageId in l.inbox :: l.inbox[v.messageId] == v)
  }

  ghost predicate Drawn(run: seq<Handling>, verdicts: set<Verdict>) {
    forall i | 0 <= i < |run| :: run[i].verdict in verdicts
  }

  lemma HandlingTruthful(l: Ledger, v: Verdict, stop: Stop, verdicts: set<Verdict>)
    requires Truthful(l) && Unanimous(l, verdicts) && v in verdicts
    ensures Truthful(HandleVerdict(l, v, stop).0)
  {}

  lemma HandlingUnanimous(l: Ledger, v: Verdict, stop: Stop, verdicts: set<Verdict>)
    requires Unanimous(l, verdicts) && v in verdicts
    ensures Unanimous(HandleVerdict(l, v, stop).0, verdicts)
  {}

  /**
   For any replay with any cuts, the inbox stays truthful, and every status is the one it was or its own verdict's.
   */
  lemma {:induction false} ReplayTruthful(l: Ledger, run: seq<Handling>, verdicts: set<Verdict>)
    requires Truthful(l) && Unanimous(l, verdicts) && Drawn(run, verdicts)
    ensures Truthful(Replay(l, run)) && Unanimous(Replay(l, run), verdicts)
  {
    if run != [] {
      var before, last := Replay(l, run[..|run| - 1]), run[|run| - 1];
      assert last.verdict in verdicts && Drawn(run[..|run| - 1], verdicts);
      hide Truthful, Unanimous, HandleVerdict, Drawn;
      ReplayTruthful(l, run[..|run| - 1], verdicts);
      HandlingTruthful(before, last.verdict, last.stop, verdicts);
      HandlingUnanimous(before, last.verdict, last.stop, verdicts);
    }
  }

  /**
   Once a message is recorded, its order and its inbox row are exactly what one uninterrupted handling would have left.
   */
  lemma ReplayEqualsOneHandling(l: Ledger, run: seq<Handling>, verdicts: set<Verdict>, v: Verdict)
    requires Truthful(l) && Unanimous(l, verdicts) && Drawn(run, verdicts) && v in verdicts
    requires v.messageId in Replay(l, run).inbox
    ensures
      var u, once := Replay(l, run), HandleVerdict(l, v, Never).0;
      && v.order in u.status && v.order in once.status && u.status[v.order] == once.status[v.order]
      && u.inbox[v.messageId] == v && once.inbox[v.messageId] == v
  {
    ReplayTruthful(l, run, verdicts);
  }

  // Whole ledgers -----------------------------------------------------------------------------

  predicate Holds(run: seq<Handling>, v: Verdict) {
    exists i :: 0 <= i < |run| && run[i].verdict == v
  }

  ghost predicate AllRecorded(l: Ledger, run: seq<Handling>) {
    forall v | Holds(run, v) :: v.messageId in Replay(l, run).inbox
  }

  /** Inbox rows are never overwritten, and every new one is a verdict of the run. */
  lemma {:induction false} ReplayInbox(l: Ledger, run: seq<Handling>, m: MessageId)
    ensures m in l.inbox ==> m in Replay(l, run).inbox && Replay(l, run).inbox[m] == l.inbox[m]
    ensures m in Replay(l, run).inbox && m !in l.inbox ==>
              var v := Replay(l, run).inbox[m]; v.messageId == m && Holds(run, v)
  {
    if run != [] {
      var fewer := run[..|run| - 1];
      ReplayInbox(l, fewer, m);
      HoldsMore(run);
      hide Holds;
    }
  }

  lemma HoldsMore(run: seq<Handling>)
    requires run != []
    ensures forall v :: Holds(run, v) <==> Holds(run[..|run| - 1], v) || v == run[|run| - 1].verdict
  {
    forall v | Holds(run[..|run| - 1], v) ensures Holds(run, v) {
      var i :| 0 <= i < |run| - 1 && run[..|run| - 1][i].verdict == v;
      assert run[i].verdict == v;
    }
  }

  /** A status changes only on a verdict for its order. */
  lemma {:induction false} ReplayStatus(l: Ledger, run: seq<Handling>, order: OrderId)
    requires order in l.status
    ensures order in Replay(l, run).status
    ensures (forall v | Holds(run, v) :: v.order != order) ==> Replay(l, run).status[order] == l.status[order]
  {
    if run != [] {
      ReplayStatus(l, run[..|run| - 1], order);
      HoldsMore(run);
      hide Holds;
    }
  }

  lemma SameInbox(l: Ledger, a: seq<Handling>, b: seq<Handling>, verdicts: set<Verdict>, m: MessageId)
    requires Truthful(l) && Unanimous(l, verdicts) && Drawn(a, verdicts) && Drawn(b, verdicts)
    requires (forall v | Holds(a, v) :: Holds(b, v)) && AllRecorded(l, b)
    ensures m in Replay(l, a).inbox ==> m in Replay(l, b).inbox && Replay(l, b).inbox[m] == Replay(l, a).inbox[m]
  {
    ReplayInbox(l, a, m);
    ReplayInbox(l, b, m);
    ReplayTruthful(l, b, verdicts);
    if m in Replay(l, a).inbox && m !in l.inbox {
      var v := Replay(l, a).inbox[m];
      var i :| 0 <= i < |a| && a[i].verdict == v;
      assert v in verdicts;
      hide Replay, Truthful, Drawn;
    }
  }

  lemma SameStatus(l: Ledger, a: seq<Handling>, b: seq<Handling>, verdicts: set<Verdict>, order: OrderId)
    requires Truthful(l) && Unanimous(l, verdicts) && Drawn(a, verdicts) && Drawn(b, verdicts)
    requires (forall v :: Holds(a, v) <==> Holds(b, v)) && AllRecorded(l, a) && AllRecorded(l, b) && order in l.status
    ensures order in Replay(l, a).status && order in Replay(l, b).status
    ensures Replay(l, a).status[order] == Replay(l, b).status[order]
  {
    ReplayStatus(l, a, order);
    ReplayStatus(l, b, order);
    if v :| Holds(a, v) && v.order == order {
      RecordedStatus(l, a, verdicts, v);
      RecordedStatus(l, b, verdicts, v);
    }
  }

  lemma RecordedStatus(l: Ledger, run: seq<Handling>, verdicts: set<Verdict>, v: Verdict)
    requires Truthful(l) && Unanimous(l, verdicts) && Drawn(run, verdicts) && AllRecorded(l, run) && Holds(run, v)
    ensures v.order in Replay(l, run).status && Replay(l, run).status[v.order] == v.Target()
  {
    ReplayTruthful(l, run, verdicts);
    var i :| 0 <= i < |run| && run[i].verdict == v;
    assert v in verdicts;
    hide Replay, Drawn;
    assert Replay(l, run).inbox[v.messageId] == v;
  }

  /**
   Two runs over the same verdicts that have recorded them all leave the same ledger, whatever they repeated or cut.
   */
  lemma RecordedRunsAgree(l: Ledger, a: seq<Handling>, b: seq<Handling>, verdicts: set<Verdict>)
    requires Truthful(l) && Unanimous(l, verdicts) && Drawn(a, verdicts) && Drawn(b, verdicts)
    requires (forall v :: Holds(a, v) <==> Holds(b, v)) && AllRecorded(l, a) && AllRecorded(l, b)
    ensures Replay(l, a) == Replay(l, b)
  {
    var x, y := Replay(l, a), Replay(l, b);
    forall m ensures m in x.inbox <==> m in y.inbox {
      SameInbox(l, a, b, verdicts, m);
      SameInbox(l, b, a, verdicts, m);
    }
    forall m | m in x.inbox ensures x.inbox[m] == y.inbox[m] {
      SameInbox(l, a, b, verdicts, m);
    }
    forall order ensures order in x.status <==> order in y.status {
      TerminalStays(l, a, order);
      TerminalStays(l, b, order);
    }
    forall order | order in x.status ensures x.status[order] == y.status[order] {
      TerminalStays(l, a, order);
      SameStatus(l, a, b, verdicts, order);
    }
    hide *;
    assert x.inbox == y.inbox && x.status == y.status;
  }

  function EachOnce(vs: seq<Verdict>): seq<Handling> {
    seq(|vs|, i requires 0 <= i < |vs| => Handling(vs[i], Never))
  }

  lemma {:induction false} EachOnceRecords(l: Ledger, vs: seq<Verdict>)
    ensures AllRecorded(l, EachOnce(vs))
  {
    var run := EachOnce(vs);
    if vs != [] {
      var fewer := vs[..|vs| - 1];
      EachOnceRecords(l, fewer);
      assert run[..|run| - 1] == EachOnce(fewer);
      HoldsMore(run);
      hide Holds;
    }
  }

  /**
   The non-atomic inbox is idempotent as a whole: a run that has recorded all its verdicts leaves the very ledger that
   handling each of them once, without interruption and in any order, would have left.
   */
  lemma ReplayEqualsEachOnce(l: Ledger, run: seq<Handling>, verdicts: set<Verdict>, vs: seq<Verdict>)
    requires Truthful(l) && Unanimous(l, verdicts) && Drawn(run, verdicts)
    requires forall v :: v in vs <==> Holds(run, v)
    ensures AllRecorded(l, run) <==> Replay(l, run) == Replay(l, EachOnce(vs))
  {
    var once := EachOnce(vs);
    forall v ensures Holds(once, v) <==> Holds(run, v) {
      if v in vs {
        var i :| 0 <= i < |vs| && vs[i] == v;
        assert once[i].verdict == v;
      }
    }
    forall i | 0 <= i < |once| ensures once[i].verdict in verdicts {
      assert once[i].verdict in vs;
      var k :| 0 <= k < |run| && run[k].verdict == once[i].verdict;
    }
    EachOnceRecords(l, vs);
    hide Replay, EachOnce, Truthful, Unanimous, Holds;
    if AllRecorded(l, run) {
      RecordedRunsAgree(l, run, once, verdicts);
    }
  }

  /** Any cut is repaired by one more handling, however often the message was cut before. */
  lemma CutThenRedelivered(l: Ledger, v: Verdict, cuts: seq<Stop>)
    requires v.messageId !in l.inbox
    ensures HandleVerdict(Replay(l, seq(|cuts|, i requires 0 <= i < |cuts| => Handling(v, cuts[i]))), v, Never).0
            == HandleVerdict(l, v, Never).0
  {
    CutsLeaveLittle(l, v, seq(|cuts|, i requires 0 <= i < |cuts| => Handling(v, cuts[i])));
  }

  lemma {:induction false} CutsLeaveLittle(l: Ledger, v: Verdict, run: seq<Handling>)
    requires v.messageId !in l.inbox && forall i | 0 <= i < |run| :: run[i].verdict == v
    ensures
      var u := Replay(l, run);
      || u == l
      || u == l.(status := Settle(l.status, v))
      || u == HandleVerdict(l, v, Never).0
  {
    if run != [] {
      CutsLeaveLittle(l, v, run[..|run| - 1]);
    }
  }
}
