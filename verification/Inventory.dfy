/**
 The inventory service's tables, the constraints its migration puts on them, and one
 stock-reservation transaction as a function from tables to tables.
 */
module Inventory {
  import opened Prelude

  datatype Item = Item(product: ProductId, quantity: int)
  datatype StockRow = StockRow(available: int, reserved: int)
  datatype Reservation = Reservation(order: OrderId, product: ProductId, quantity: int)

  // The body of a ReserveStockRequested message. Its id is minted once, with the order.
  datatype Request = Request(messageId: MessageId, orderId: OrderId, items: seq<Item>)

  datatype Reason = NotFound(product: ProductId) | Insufficient(product: ProductId)
  datatype Decision = Sufficient | Rejected(reason: Reason)

  // The body of StockReserved (Sufficient) or StockReservationFailed (Rejected).
  datatype Outcome = Outcome(messageId: MessageId, orderId: OrderId, decision: Decision, items: seq<Item>)

  // A UNIQUE column that nothing else refers to is a map key; reservations keep their rows so they can be summed.
  datatype Tables = Tables(
    inventory: map<ProductId, StockRow>,
    reservations: seq<Reservation>,
    inbox: map<MessageId, Request>,
    outbox: seq<Outcome>
  )

  // Constraints -----------------------------------------------------------------------------

  predicate RowOk(row: StockRow) {
    0 <= row.available <= INT_MAX && 0 <= row.reserved <= INT_MAX
  }

  predicate NoRow(rows: seq<Reservation>, order: OrderId, product: ProductId) {
    forall i | 0 <= i < |rows| :: !(rows[i].order == order && rows[i].product == product)
  }

  predicate InsertOk(rows: seq<Reservation>, r: Reservation) {
    0 < r.quantity <= INT_MAX && NoRow(rows, r.order, r.product)
  }

  ghost predicate Valid(t: Tables) {
    && (forall p | p in t.inventory :: RowOk(t.inventory[p]))
    && (forall i | 0 <= i < |t.reservations| :: 0 < t.reservations[i].quantity <= INT_MAX)
    && UniqueRows(t.reservations)
  }

  ghost predicate UniqueRows(rows: seq<Reservation>) {
    forall i, j | 0 <= i < j < |rows| :: !(rows[i].order == rows[j].order && rows[i].product == rows[j].product)
  }

  // Checking the lines ----------------------------------------------------------------------

  predicate LineOk(inventory: map<ProductId, StockRow>, line: Item) {
    line.product in inventory && line.quantity <= inventory[line.product].available
  }

  function RejectionOf(inventory: map<ProductId, StockRow>, line: Item): Reason {
    if line.product !in inventory then NotFound(line.product) else Insufficient(line.product)
  }

  /** Each line is tested alone against the locked row, in order, up to the first that fails. */
  function CheckFrom(inventory: map<ProductId, StockRow>, items: seq<Item>, i: nat): Decision
    requires i <= |items|
    decreases |items| - i
  {
    if i == |items| then Sufficient
    else if !LineOk(inventory, items[i]) then Rejected(RejectionOf(inventory, items[i]))
    else CheckFrom(inventory, items, i + 1)
  }

  function Check(inventory: map<ProductId, StockRow>, items: seq<Item>): Decision {
    CheckFrom(inventory, items, 0)
  }

  ghost predicate FirstBad(inventory: map<ProductId, StockRow>, items: seq<Item>, k: nat) {
    && k < |items|
    && (forall i | 0 <= i < k :: LineOk(inventory, items[i]))
    && !LineOk(inventory, items[k])
  }

  lemma {:induction false} CheckSkips(inventory: map<ProductId, StockRow>, items: seq<Item>, i: nat, k: nat)
    requires i <= k <= |items|
    requires forall j | i <= j < k :: LineOk(inventory, items[j])
    ensures CheckFrom(inventory, items, i) == CheckFrom(inventory, items, k)
    decreases k - i
  {
    if i < k {
      CheckSkips(inventory, items, i + 1, k);
    }
  }

  /**
   The decision is Sufficient exactly when every line has its row with enough stock; otherwise it names the first bad
   line.
   */
  lemma DecisionExact(inventory: map<ProductId, StockRow>, items: seq<Item>)
    ensures Check(inventory, items) == Sufficient <==> forall i | 0 <= i < |items| :: LineOk(inventory, items[i])
    ensures forall k: nat | FirstBad(inventory, items, k) ::
            Check(inventory, items) == Rejected(RejectionOf(inventory, items[k]))
    ensures Check(inventory, items).Rejected? ==> exists k: nat :: FirstBad(inventory, items, k)
  {
    forall k: nat | FirstBad(inventory, items, k)
      ensures Check(inventory, items) == Rejected(RejectionOf(inventory, items[k]))
    {
      CheckSkips(inventory, items, 0, k);
    }
    if forall i | 0 <= i < |items| :: LineOk(inventory, items[i]) {
      CheckSkips(inventory, items, 0, |items|);
    } else {
      var k := LeastBad(inventory, items);
    }
  }

  /**
   The same in terms of the stock: enough of every line's product, or the reason that goes with the first bad line.
   */
  lemma DecisionByStock(inventory: map<ProductId, StockRow>, items: seq<Item>)
    ensures Check(inventory, items) == Sufficient <==>
            forall i | 0 <= i < |items| ::
              items[i].product in inventory && inventory[items[i].product].available >= items[i].quantity
    ensures Check(inventory, items).Rejected? ==>
              exists k: nat ::
                && FirstBad(inventory, items, k)
                && var product := items[k].product;
                   && (product !in inventory ==> Check(inventory, items).reason == NotFound(product))
                   && (product in inventory ==>
                         && inventory[product].available < items[k].quantity
                         && Check(inventory, items).reason == Insufficient(product))
  {
    DecisionExact(inventory, items);
    hide Check;
  }

  lemma LeastBad(inventory: map<ProductId, StockRow>, items: seq<Item>) returns (k: nat)
    requires exists i :: 0 <= i < |items| && !LineOk(inventory, items[i])
    ensures FirstBad(inventory, items, k)
  {
    k := 0;
    while LineOk(inventory, items[k])
      invariant k < |items|
      invariant forall j | 0 <= j < k :: LineOk(inventory, items[j])
      invariant exists i :: k <= i < |items| && !LineOk(inventory, items[i])
      decreases |items| - k
    {
      k := k + 1;
    }
  }

  // Reserving the lines ---------------------------------------------------------------------

  function Take(row: StockRow, quantity: int): StockRow {
    StockRow(row.available - quantity, row.reserved + quantity)
  }

  /** One turn of the reservation loop; None is a constraint violation. The row written comes from the snapshot. */
  function ReserveLine(t: Tables, row: StockRow, order: OrderId, line: Item): Option<Tables> {
    var after := Take(row, line.quantity);
    var r := Reservation(order, line.product, line.quantity);
    if RowOk(after) && InsertOk(t.reservations, r)
    then Some(t.(inventory := t.inventory[line.product := after], reservations := t.reservations + [r]))
    else None
  }

  /** The tables after the first n turns of the reservation loop. */
  function ReserveLines(t: Tables, snapshot: map<ProductId, StockRow>, order: OrderId, items: seq<Item>,
                        n: nat): Option<Tables>
    requires n <= |items|
    requires forall i | 0 <= i < n :: items[i].product in snapshot
  {
    if n == 0 then Some(t)
    else match ReserveLines(t, snapshot, order, items, n - 1)
      case None => None
      case Some(u) => ReserveLine(u, snapshot[items[n - 1].product], order, items[n - 1])
  }

  function Rows(order: OrderId, items: seq<Item>, n: nat): (rows: seq<Reservation>)
    requires n <= |items|
    ensures |rows| == n
    ensures forall i | 0 <= i < n :: rows[i] == Reservation(order, items[i].product, items[i].quantity)
  {
    if n == 0 then [] else Rows(order, items, n - 1) + [Reservation(order, items[n - 1].product, items[n - 1].quantity)]
  }

  /** The stock rows the first n turns write; a repeated product keeps its last write. */
  function Written(snapshot: map<ProductId, StockRow>, items: seq<Item>, n: nat): (w: map<ProductId, StockRow>)
    requires n <= |items|
    requires forall i | 0 <= i < n :: items[i].product in snapshot
    ensures forall p :: p in w <==> exists i :: 0 <= i < n && items[i].product == p
  {
    if n == 0 then map[]
    else Written(snapshot, items, n - 1)[items[n - 1].product :=
        Take(snapshot[items[n - 1].product], items[n - 1].quantity)]
  }

  predicate Distinct(items: seq<Item>, n: nat)
    requires n <= |items|
  {
    forall i, j | 0 <= i < j < n :: items[i].product != items[j].product
  }

  /** When the constraints let the first n lines through. */
  predicate Admissible(rows: seq<Reservation>, snapshot: map<ProductId, StockRow>, order: OrderId, items: seq<Item>,
                       n: nat)
    requires n <= |items|
    requires forall i | 0 <= i < n :: items[i].product in snapshot
  {
    && Distinct(items, n)
    && forall i | 0 <= i < n :: LineFits(rows, snapshot[items[i].product], order, items[i])
  }

  predicate LineFits(rows: seq<Reservation>, row: StockRow, order: OrderId, line: Item) {
    && 0 < line.quantity <= INT_MAX
    && RowOk(Take(row, line.quantity))
    && NoRow(rows, order, line.product)
  }

  lemma AdmissibleStep(rows: seq<Reservation>, snapshot: map<ProductId, StockRow>, order: OrderId, items: seq<Item>,
                       n: nat)
    requires 0 < n <= |items|
    requires forall i | 0 <= i < n :: items[i].product in snapshot
    ensures Admissible(rows, snapshot, order, items, n) <==>
            && Admissible(rows, snapshot, order, items, n - 1)
            && LineFits(rows, snapshot[items[n - 1].product], order, items[n - 1])
            && forall i | 0 <= i < n - 1 :: items[i].product != items[n - 1].product
  {}

  lemma NoRowAmong(rows: seq<Reservation>, order: OrderId, items: seq<Item>, n: nat, p: ProductId)
    requires n <= |items|
    ensures NoRow(rows + Rows(order, items, n), order, p) <==>
            NoRow(rows, order, p) && forall i | 0 <= i < n :: items[i].product != p
  {
    var all := rows + Rows(order, items, n);
    assert forall i | 0 <= i < |rows| :: all[i] == rows[i];
    assert forall i | 0 <= i < n :: all[|rows| + i] == Reservation(order, items[i].product, items[i].quantity);
  }

  lemma UniqueRowsAppend(rows: seq<Reservation>, order: OrderId, items: seq<Item>, n: nat)
    requires n <= |items| && Distinct(items, n) && UniqueRows(rows)
    requires forall i | 0 <= i < n :: NoRow(rows, order, items[i].product)
    ensures UniqueRows(rows + Rows(order, items, n))
  {}

  lemma AppendLine(t: Tables, snapshot: map<ProductId, StockRow>, order: OrderId, items: seq<Item>, n: nat)
    requires 0 < n <= |items|
    requires forall i | 0 <= i < n :: items[i].product in snapshot
    ensures
      var line := items[n - 1];
      && t.reservations + Rows(order, items, n)
         == t.reservations + Rows(order, items, n - 1) + [Reservation(order, line.product, line.quantity)]
      && t.inventory + Written(snapshot, items, n)
         == (t.inventory + Written(snapshot, items, n - 1))[line.product := Take(snapshot[line.product], line.quantity)]
  {}

  /** The loop commits exactly on admissible lines, and then has one closed form. */
  lemma {:induction false} ReservationExact(t: Tables, snapshot: map<ProductId, StockRow>, order: OrderId,
                                            items: seq<Item>, n: nat)
    requires n <= |items|
    requires forall i | 0 <= i < n :: items[i].product in snapshot
    ensures ReserveLines(t, snapshot, order, items, n)
            == if Admissible(t.reservations, snapshot, order, items, n)
               then Some(t.(inventory := t.inventory + Written(snapshot, items, n),
                   reservations := t.reservations + Rows(order, items, n)))
               else None
  {
    if n == 0 {
      assert t.inventory + Written(snapshot, items, 0) == t.inventory;
      assert t.reservations + Rows(order, items, 0) == t.reservations;
    } else {
      ReservationExact(t, snapshot, order, items, n - 1);
      AdmissibleStep(t.reservations, snapshot, order, items, n);
      if Admissible(t.reservations, snapshot, order, items, n - 1) {
        NoRowAmong(t.reservations, order, items, n - 1, items[n - 1].product);
        AppendLine(t, snapshot, order, items, n);
      }
    }
  }

  lemma {:induction false} WrittenAt(snapshot: map<ProductId, StockRow>, items: seq<Item>, n: nat, i: nat)
    requires i < n <= |items| && Distinct(items, n)
    requires forall k | 0 <= k < n :: items[k].product in snapshot
    ensures Written(snapshot, items, n)[items[i].product] == Take(snapshot[items[i].product], items[i].quantity)
  {
    if i < n - 1 {
      WrittenAt(snapshot, items, n - 1, i);
    }
  }

  // The transaction -------------------------------------------------------------------------

  function Record(t: Tables, req: Request, outcome: Outcome): Tables {
    t.(outbox := t.outbox + [outcome], inbox := t.inbox[req.messageId := req])
  }

  /** One whole transaction; None means it rolled back and left nothing behind. */
  function Transact(t: Tables, req: Request, outcomeId: MessageId): Option<Tables> {
    if req.messageId in t.inbox then Some(t)
    else
      var decision := Check(t.inventory, req.items);
      var outcome := Outcome(outcomeId, req.orderId, decision, req.items);
      if decision.Rejected? then Some(Record(t, req, outcome))
      else
        DecisionExact(t.inventory, req.items);
        match ReserveLines(t, t.inventory, req.orderId, req.items, |req.items|)
        case None => None
        case Some(u) => Some(Record(u, req, outcome))
  }

  /** What a caller can test beforehand: the lines that pass the stock check but cannot commit. */
  predicate Acceptable(t: Tables, req: Request)
    requires forall i | 0 <= i < |req.items| :: req.items[i].product in t.inventory
  {
    && Distinct(req.items, |req.items|)
    && forall i | 0 <= i < |req.items| :: LineAcceptable(t, req.orderId, req.items[i])
  }

  predicate LineAcceptable(t: Tables, order: OrderId, line: Item)
    requires line.product in t.inventory
  {
    && 0 < line.quantity
    && t.inventory[line.product].reserved + line.quantity <= INT_MAX
    && NoRow(t.reservations, order, line.product)
  }

  lemma SufficientCommits(t: Tables, req: Request, outcomeId: MessageId)
    requires req.messageId !in t.inbox && Check(t.inventory, req.items) == Sufficient
    ensures forall i | 0 <= i < |req.items| :: req.items[i].product in t.inventory && LineOk(t.inventory, req.items[i])
    ensures Transact(t, req, outcomeId).Some?
            <==> Admissible(t.reservations, t.inventory, req.orderId, req.items, |req.items|)
  {
    DecisionExact(t.inventory, req.items);
    ReservationExact(t, t.inventory, req.orderId, req.items, |req.items|);
    hide Admissible, Check, Rows, Written, ReserveLines;
  }

  lemma AcceptableExact(t: Tables, req: Request)
    requires Valid(t)
    requires forall i | 0 <= i < |req.items| :: req.items[i].product in t.inventory && LineOk(t.inventory, req.items[i])
    ensures Admissible(t.reservations, t.inventory, req.orderId, req.items, |req.items|) <==> Acceptable(t, req)
  {
    forall i | 0 <= i < |req.items|
      ensures LineFits(t.reservations, t.inventory[req.items[i].product], req.orderId, req.items[i])
              <==> LineAcceptable(t, req.orderId, req.items[i])
    {}
    hide Distinct, LineFits, LineAcceptable, Valid, LineOk;
  }

  /** A sufficient request commits if and only if it is acceptable; every other request always commits. */
  lemma CommitExact(t: Tables, req: Request, outcomeId: MessageId)
    requires Valid(t)
    ensures req.messageId in t.inbox || Check(t.inventory, req.items).Rejected? ==> Transact(t, req, outcomeId).Some?
    ensures req.messageId !in t.inbox && Check(t.inventory, req.items) == Sufficient ==>
              && (forall i | 0 <= i < |req.items| :: LineOk(t.inventory, req.items[i]))
              && (Transact(t, req, outcomeId).Some? <==> Acceptable(t, req))
  {
    if req.messageId !in t.inbox && Check(t.inventory, req.items) == Sufficient {
      SufficientCommits(t, req, outcomeId);
      AcceptableExact(t, req);
      hide Valid, Acceptable, Admissible, Transact, Check, LineOk;
    }
  }

  /** A line that stock can serve but the reserved column cannot hold: its request is neither answered nor rejected. */
  lemma FullColumnRefuses()
    ensures
      var t, req := Tables(map[0 := StockRow(10, INT_MAX)], [], map[], []), Request(1, 0, [Item(0, 1)]);
      Valid(t) && Check(t.inventory, req.items) == Sufficient && Transact(t, req, 2) == None
  {
    var t, req := Tables(map[0 := StockRow(10, INT_MAX)], [], map[], []), Request(1, 0, [Item(0, 1)]);
    DecisionExact(t.inventory, req.items);
    assert !LineAcceptable(t, 0, req.items[0]);
    hide Transact, Check;
    CommitExact(t, req, 2);
  }

  /**
   A request that repeats a product commits if and only if the stock check rejects it; otherwise every delivery rolls
   back.
   */
  lemma RepeatedProductExact(t: Tables, req: Request, outcomeId: MessageId)
    requires Valid(t) && req.messageId !in t.inbox && !Distinct(req.items, |req.items|)
    ensures Transact(t, req, outcomeId).Some? <==> Check(t.inventory, req.items).Rejected?
  {
    CommitExact(t, req, outcomeId);
  }

  /** The whole effect of a committed transaction: nothing, a recorded rejection, or every line at once. */
  lemma EffectExact(t: Tables, req: Request, outcomeId: MessageId)
    requires Transact(t, req, outcomeId).Some?
    ensures
      var u := Transact(t, req, outcomeId).value;
      var n := |req.items|;
      var decision := Check(t.inventory, req.items);
      if req.messageId in t.inbox then u == t
      else
        && u.inbox == t.inbox[req.messageId := req]
        && u.outbox == t.outbox + [Outcome(outcomeId, req.orderId, decision, req.items)]
        && (decision.Rejected? ==> u.inventory == t.inventory && u.reservations == t.reservations)
        && (decision.Sufficient? ==>
              && (forall i | 0 <= i < n :: LineOk(t.inventory, req.items[i]))
              && Admissible(t.reservations, t.inventory, req.orderId, req.items, n)
              && u.inventory == t.inventory + Written(t.inventory, req.items, n)
              && u.reservations == t.reservations + Rows(req.orderId, req.items, n))
  {
    DecisionExact(t.inventory, req.items);
    if req.messageId !in t.inbox && Check(t.inventory, req.items).Sufficient? {
      ReservationExact(t, t.inventory, req.orderId, req.items, |req.items|);
    }
  }

  // Conservation ----------------------------------------------------------------------------

  function Reserved(rows: seq<Reservation>, p: ProductId): int {
    if rows == [] then 0
    else Reserved(rows[..|rows| - 1], p) + if rows[|rows| - 1].product == p then rows[|rows| - 1].quantity else 0
  }

  lemma {:induction false} ReservedRows(rows: seq<Reservation>, order: OrderId, items: seq<Item>, n: nat, p: ProductId)
    requires n <= |items| && Distinct(items, n)
    ensures (forall i | 0 <= i < n :: items[i].product != p) ==>
            Reserved(rows + Rows(order, items, n), p) == Reserved(rows, p)
    ensures forall i | 0 <= i < n && items[i].product == p ::
              Reserved(rows + Rows(order, items, n), p) == Reserved(rows, p) + items[i].quantity
  {
    if n == 0 {
      assert rows + Rows(order, items, 0) == rows;
    } else {
      ReservedRows(rows, order, items, n - 1, p);
      var all := rows + Rows(order, items, n);
      assert all[..|all| - 1] == rows + Rows(order, items, n - 1);
    }
  }

  /**
   Against the tables a run started from: each product's total is unchanged, and its reserved column grew by the sum of
   its new rows.
   */
  ghost predicate Balanced(seed: Tables, t: Tables) {
    && t.inventory.Keys == seed.inventory.Keys
    && forall p | p in seed.inventory :: BalancedAt(seed, t, p)
  }

  ghost predicate BalancedAt(seed: Tables, t: Tables, p: ProductId)
    requires p in seed.inventory && p in t.inventory
  {
    var was, row := seed.inventory[p], t.inventory[p];
    && row.available + row.reserved == was.available + was.reserved
    && row.reserved - was.reserved == Reserved(t.reservations, p) - Reserved(seed.reservations, p)
  }

  // The stock after the writes of distinct lines: a written row is its snapshot less its line, any other is unchanged.
  lemma WrittenStock(inventory: map<ProductId, StockRow>, items: seq<Item>, n: nat, p: ProductId)
    requires n <= |items| && Distinct(items, n) && p in inventory
    requires forall i | 0 <= i < n :: items[i].product in inventory
    ensures
      var u := inventory + Written(inventory, items, n);
      && (forall i | 0 <= i < n && items[i].product == p :: u[p] == Take(inventory[p], items[i].quantity))
      && ((forall i | 0 <= i < n :: items[i].product != p) ==> u[p] == inventory[p])
  {
    forall i: nat | i < n && items[i].product == p
      ensures Written(inventory, items, n)[p] == Take(inventory[p], items[i].quantity)
    {
      WrittenAt(inventory, items, n, i);
    }
  }

  lemma StockInRange(t: Tables, req: Request, p: ProductId)
    requires Valid(t) && p in t.inventory && forall i | 0 <= i < |req.items| :: req.items[i].product in t.inventory
    requires Admissible(t.reservations, t.inventory, req.orderId, req.items, |req.items|)
    ensures RowOk((t.inventory + Written(t.inventory, req.items, |req.items|))[p])
  {
    WrittenStock(t.inventory, req.items, |req.items|, p);
    hide Written, Distinct, UniqueRows;
    if i :| 0 <= i < |req.items| && req.items[i].product == p {
      assert LineFits(t.reservations, t.inventory[req.items[i].product], req.orderId, req.items[i]);
    }
  }

  lemma TransactKeepsValid(t: Tables, req: Request, outcomeId: MessageId)
    requires Valid(t) && Transact(t, req, outcomeId).Some?
    ensures Valid(Transact(t, req, outcomeId).value)
  {
    EffectExact(t, req, outcomeId);
    var u := Transact(t, req, outcomeId).value;
    if req.messageId !in t.inbox && Check(t.inventory, req.items).Sufficient? {
      RowsValid(t, req);
      hide Transact, Written, Rows, Admissible, RowOk, UniqueRows;
      forall p | p in u.inventory ensures RowOk(u.inventory[p]) {
        StockInRange(t, req, p);
      }
    }
  }

  lemma RowsValid(t: Tables, req: Request)
    requires Valid(t) && forall i | 0 <= i < |req.items| :: req.items[i].product in t.inventory
    requires Admissible(t.reservations, t.inventory, req.orderId, req.items, |req.items|)
    ensures
      var rows := t.reservations + Rows(req.orderId, req.items, |req.items|);
      UniqueRows(rows) && forall i | 0 <= i < |rows| :: 0 < rows[i].quantity <= INT_MAX
  {
    UniqueRowsAppend(t.reservations, req.orderId, req.items, |req.items|);
    hide UniqueRows, Written;
  }

  lemma LinesConserve(t: Tables, req: Request, p: ProductId)
    requires p in t.inventory && forall i | 0 <= i < |req.items| :: req.items[i].product in t.inventory
    requires Distinct(req.items, |req.items|)
    ensures
      var was, row := t.inventory[p], (t.inventory + Written(t.inventory, req.items, |req.items|))[p];
      && row.available + row.reserved == was.available + was.reserved
      && row.reserved - was.reserved
         == Reserved(t.reservations + Rows(req.orderId, req.items, |req.items|), p) - Reserved(t.reservations, p)
  {
    WrittenStock(t.inventory, req.items, |req.items|, p);
    ReservedRows(t.reservations, req.orderId, req.items, |req.items|, p);
    hide Written, Distinct, Rows, Reserved;
    if i :| 0 <= i < |req.items| && req.items[i].product == p {
    }
  }

  lemma BalancedStep(seed: Tables, t: Tables, u: Tables, p: ProductId)
    requires p in seed.inventory && p in t.inventory && p in u.inventory
    requires BalancedAt(seed, t, p) && BalancedAt(t, u, p)
    ensures BalancedAt(seed, u, p)
  {
    hide Reserved;
  }

  lemma TransactBalancesAt(t: Tables, req: Request, outcomeId: MessageId, p: ProductId)
    requires Transact(t, req, outcomeId).Some? && p in t.inventory
    ensures p in Transact(t, req, outcomeId).value.inventory && BalancedAt(t, Transact(t, req, outcomeId).value, p)
  {
    EffectExact(t, req, outcomeId);
    if req.messageId !in t.inbox && Check(t.inventory, req.items).Sufficient? {
      LinesConserve(t, req, p);
    }
    hide Transact, Written, Rows, Reserved, Admissible;
  }

  lemma TransactKeepsProducts(t: Tables, req: Request, outcomeId: MessageId)
    requires Transact(t, req, outcomeId).Some?
    ensures Transact(t, req, outcomeId).value.inventory.Keys == t.inventory.Keys
  {
    EffectExact(t, req, outcomeId);
  }

  lemma TransactConserves(seed: Tables, t: Tables, req: Request, outcomeId: MessageId)
    requires Balanced(seed, t) && Transact(t, req, outcomeId).Some?
    ensures Balanced(seed, Transact(t, req, outcomeId).value)
  {
    hide Transact, BalancedAt;
    var u := Transact(t, req, outcomeId).value;
    TransactKeepsProducts(t, req, outcomeId);
    forall p | p in seed.inventory ensures BalancedAt(seed, u, p) {
      TransactBalancesAt(t, req, outcomeId, p);
      BalancedStep(seed, t, u, p);
    }
  }

  // Without UNIQUE --------------------------------------------------------------------------

  /** What the reservation loop would leave if no constraint stopped it. */
  function Overwritten(t: Tables, order: OrderId, items: seq<Item>): Tables
    requires forall i | 0 <= i < |items| :: items[i].product in t.inventory
  {
    t.(inventory := t.inventory + Written(t.inventory, items, |items|),
       reservations := t.reservations + Rows(order, items, |items|))
  }

  /** The quantity the first n lines ask of a product altogether. */
  function Asked(items: seq<Item>, n: nat, p: ProductId): int
    requires n <= |items|
  {
    if n == 0 then 0 else Asked(items, n - 1, p) + if items[n - 1].product == p then items[n - 1].quantity else 0
  }

  ghost predicate Once(items: seq<Item>, n: nat, p: ProductId)
    requires n <= |items|
  {
    forall i, j | 0 <= i < j < n :: !(items[i].product == p && items[j].product == p)
  }

  lemma {:induction false} ReservedAsked(rows: seq<Reservation>, order: OrderId, items: seq<Item>, n: nat, p: ProductId)
    requires n <= |items|
    ensures Reserved(rows + Rows(order, items, n), p) == Reserved(rows, p) + Asked(items, n, p)
  {
    if n == 0 {
      assert rows + Rows(order, items, 0) == rows;
    } else {
      ReservedAsked(rows, order, items, n - 1, p);
      var all := rows + Rows(order, items, n);
      assert all[..|all| - 1] == rows + Rows(order, items, n - 1);
    }
  }

  ghost predicate Named(items: seq<Item>, n: nat, p: ProductId)
    requires n <= |items|
  {
    exists i :: 0 <= i < n && items[i].product == p
  }

  lemma NamedMore(items: seq<Item>, n: nat, p: ProductId)
    requires 0 < n <= |items|
    ensures Named(items, n, p) <==> Named(items, n - 1, p) || items[n - 1].product == p
    ensures Once(items, n, p) <==> Once(items, n - 1, p) && !(items[n - 1].product == p && Named(items, n - 1, p))
  {}

  lemma {:induction false} AskedOfNamed(items: seq<Item>, n: nat, p: ProductId)
    requires n <= |items| && forall i | 0 <= i < n :: items[i].quantity > 0
    ensures if Named(items, n, p) then Asked(items, n, p) > 0 else Asked(items, n, p) == 0
  {
    if n > 0 {
      AskedOfNamed(items, n - 1, p);
      NamedMore(items, n, p);
    }
  }

  lemma {:induction false} WrittenTotal(snapshot: map<ProductId, StockRow>, items: seq<Item>, n: nat, p: ProductId)
    requires n <= |items| && forall i | 0 <= i < n :: items[i].product in snapshot
    ensures p in Written(snapshot, items, n) <==> Named(items, n, p)
    ensures p in Written(snapshot, items, n) ==>
              var was, row := snapshot[p], Written(snapshot, items, n)[p];
              row.available + row.reserved == was.available + was.reserved
  {
    if n > 0 {
      WrittenTotal(snapshot, items, n - 1, p);
    }
  }

  // What the last write adds to a named product's reserved column.
  function LastAsked(items: seq<Item>, n: nat, p: ProductId): int
    requires n <= |items|
  {
    if n == 0 then 0 else if items[n - 1].product == p then items[n - 1].quantity else LastAsked(items, n - 1, p)
  }

  lemma {:induction false} WrittenLast(snapshot: map<ProductId, StockRow>, items: seq<Item>, n: nat, p: ProductId)
    requires n <= |items| && forall i | 0 <= i < n :: items[i].product in snapshot
    requires p in Written(snapshot, items, n)
    ensures Written(snapshot, items, n)[p].reserved - snapshot[p].reserved == LastAsked(items, n, p)
  {
    if items[n - 1].product != p {
      WrittenLast(snapshot, items, n - 1, p);
    }
  }

  // The last write takes one line's quantity, and the rows hold the sum: they agree exactly when there is one line.
  lemma {:induction false} LastAgainstSum(items: seq<Item>, n: nat, p: ProductId)
    requires n <= |items| && forall i | 0 <= i < n :: items[i].quantity > 0
    ensures LastAsked(items, n, p) <= Asked(items, n, p)
    ensures LastAsked(items, n, p) == Asked(items, n, p) <==> Once(items, n, p)
    ensures !Named(items, n, p) ==> LastAsked(items, n, p) == 0
  {
    if n > 0 {
      LastAgainstSum(items, n - 1, p);
      NamedMore(items, n, p);
      AskedOfNamed(items, n - 1, p);
      hide Once, Named;
    }
  }

  lemma OverwriteAt(t: Tables, order: OrderId, items: seq<Item>, p: ProductId)
    requires forall i | 0 <= i < |items| :: items[i].product in t.inventory && items[i].quantity > 0
    requires p in t.inventory
    ensures
      var u := Overwritten(t, order, items);
      p in u.inventory && (BalancedAt(t, u, p) <==> Once(items, |items|, p))
  {
    var u, w := Overwritten(t, order, items), Written(t.inventory, items, |items|);
    assert p in u.inventory && u.inventory[p] == if p in w then w[p] else t.inventory[p];
    assert u.reservations == t.reservations + Rows(order, items, |items|);
    ReservedAsked(t.reservations, order, items, |items|, p);
    WrittenTotal(t.inventory, items, |items|, p);
    if p in Written(t.inventory, items, |items|) {
      WrittenLast(t.inventory, items, |items|, p);
    }
    LastAgainstSum(items, |items|, p);
    hide Overwritten, Once, Asked, LastAsked, Reserved, Rows, Named, Written;
  }

  /**
   For positive lines, writing from the snapshot keeps stock and rows in balance if and only if no product is named
   twice.
   */
  lemma OverwriteBalancedExact(t: Tables, order: OrderId, items: seq<Item>)
    requires forall i | 0 <= i < |items| :: items[i].product in t.inventory && items[i].quantity > 0
    ensures Balanced(t, Overwritten(t, order, items)) <==> Distinct(items, |items|)
  {
    var u, n := Overwritten(t, order, items), |items|;
    assert u.inventory.Keys == t.inventory.Keys;
    DistinctOnce(items);
    hide Once, Reserved, Rows, Written, Overwritten, Distinct, BalancedAt;
    forall p | p in t.inventory ensures BalancedAt(t, u, p) <==> Once(items, n, p) {
      OverwriteAt(t, order, items, p);
    }
  }

  lemma DistinctOnce(items: seq<Item>)
    ensures Distinct(items, |items|) ==> forall p :: Once(items, |items|, p)
    ensures !Distinct(items, |items|) ==> exists i :: 0 <= i < |items| && !Once(items, |items|, items[i].product)
  {}

  /**
   An input that shows it: 3 and 4 of one product, of which 10 are available, would leave 4 reserved for 7 promised.
   */
  lemma SnapshotOverwriteBreaksBalance()
    ensures
      var t := Tables(map[0 := StockRow(10, 0)], [], map[], []);
      var items := [Item(0, 3), Item(0, 4)];
      && Check(t.inventory, items) == Sufficient
      && Overwritten(t, 1, items).inventory[0] == StockRow(6, 4)
      && Reserved(Overwritten(t, 1, items).reservations, 0) == 7
      && !Balanced(t, Overwritten(t, 1, items))
      && ReserveLines(t, t.inventory, 1, items, 2) == None
  {
    var t := Tables(map[0 := StockRow(10, 0)], [], map[], []);
    var items := [Item(0, 3), Item(0, 4)];
    DecisionExact(t.inventory, items);
    ReservedAsked([], 1, items, 2, 0);
    assert Asked(items, 1, 0) == 3;
    assert !Distinct(items, 2);
    hide Rows, Reserved, Balanced, Check, ReserveLines;
    ReservationExact(t, t.inventory, 1, items, 2);
    OverwriteBalancedExact(t, 1, items);
  }

  // Runs of deliveries ----------------------------------------------------------------------

  // One delivery handled to the end: it carries the outcome id it would mint and whether the database failed it.
  datatype Attempt = Attempt(req: Request, outcomeId: MessageId, failed: bool)

  function HandleDelivery(t: Tables, a: Attempt): Tables {
    var r := Transact(t, a.req, a.outcomeId);
    if a.failed || r.None? then t else r.value
  }

  function HandleAll(t: Tables, run: seq<Attempt>): Tables {
    if run == [] then t else HandleDelivery(HandleAll(t, run[..|run| - 1]), run[|run| - 1])
  }

  /** How many deliveries of message m changed anything. */
  function Effects(t: Tables, run: seq<Attempt>, m: MessageId): nat {
    if run == [] then 0
    else
      var before := HandleAll(t, run[..|run| - 1]);
      var last := run[|run| - 1];
      var takesEffect := last.req.messageId == m && HandleDelivery(before, last) != before;
      Effects(t, run[..|run| - 1], m) + if takesEffect then 1 else 0
  }

  /**
   At most one delivery of a message takes effect, however often it is delivered, and exactly when its inbox row
   appears.
   */
  lemma {:induction false} ExactlyOnce(t: Tables, run: seq<Attempt>, m: MessageId)
    ensures m in t.inbox ==> m in HandleAll(t, run).inbox && Effects(t, run, m) == 0
    ensures m !in t.inbox ==> Effects(t, run, m) == if m in HandleAll(t, run).inbox then 1 else 0
  {
    if run != [] {
      ExactlyOnce(t, run[..|run| - 1], m);
      var before := HandleAll(t, run[..|run| - 1]);
      var last := run[|run| - 1];
      if HandleDelivery(before, last) != before {
        EffectExact(before, last.req, last.outcomeId);
      } else if Transact(before, last.req, last.outcomeId).Some? {
        EffectExact(before, last.req, last.outcomeId);
      }
    }
  }

  /** Conservation over every run, repeated products and non-positive quantities included. */
  lemma {:induction false} StockConserved(seed: Tables, run: seq<Attempt>)
    requires Valid(seed)
    ensures Valid(HandleAll(seed, run)) && Balanced(seed, HandleAll(seed, run))
    ensures forall p | p in HandleAll(seed, run).inventory ::
              var row := HandleAll(seed, run).inventory[p];
              0 <= row.available <= INT_MAX && 0 <= row.reserved <= INT_MAX
  {
    if run != [] {
      StockConserved(seed, run[..|run| - 1]);
      var before := HandleAll(seed, run[..|run| - 1]);
      var last := run[|run| - 1];
      if !last.failed && Transact(before, last.req, last.outcomeId).Some? {
        TransactKeepsValid(before, last.req, last.outcomeId);
        TransactConserves(seed, before, last.req, last.outcomeId);
      }
    }
  }
}
