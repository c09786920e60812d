/**
 Reservation transactions interleaved statement by statement: row locks and uncommitted unique keys are
 held to the end, the inbox read takes no lock, and the loser of a unique key aborts.
 Every run leaves the tables that the committed transactions leave when run one at a time, in commit order.
 */
module InventoryInterleaving {
  import opened Prelude
  import opened Inventory
  import InventoryRepository

  type TxId = nat

  // What the transaction does next. `checked` is the number of lines that passed the stock check.
  datatype Phase =
    | ReadInbox
    | NothingToDo
    | Lock(next: nat)
    | Update(next: nat)
    | Insert(next: nat)
    | InsertOutbox(checked: nat, decision: Decision)
    | InsertInbox(checked: nat, decision: Decision)
    | Commit(checked: nat, decision: Decision)

  // A transaction's locks, its snapshot of the locked rows, and its uncommitted writes.
  datatype Tx = Tx(
    req: Request,
    outcomeId: MessageId,
    phase: Phase,
    locks: set<ProductId>,
    snapshot: map<ProductId, StockRow>,
    stock: map<ProductId, StockRow>,
    rows: seq<Reservation>,
    outcome: seq<Outcome>
  ) {
    ghost predicate Clean() {
      stock == map[] && rows == [] && outcome == []
    }
  }

  // `log` lists the committed transactions in commit order.
  datatype System = System(tables: Tables, active: map<TxId, Tx>, log: seq<Attempt>) {
    function With(id: TxId, tx: Tx): System {
      this.(active := active[id := tx])
    }

    function Without(id: TxId): System {
      this.(active := active - {id})
    }
  }

  datatype Move = Begin(id: TxId, req: Request, outcomeId: MessageId) | Advance(id: TxId) | Abort(id: TxId)

  predicate LockedByOther(s: System, id: TxId, p: ProductId) {
    exists other | other in s.active && other != id :: p in s.active[other].locks
  }

  predicate RowHeldByOther(s: System, id: TxId, order: OrderId, p: ProductId) {
    exists other | other in s.active && other != id :: !NoRow(s.active[other].rows, order, p)
  }

  predicate MessageHeldByOther(s: System, id: TxId, m: MessageId) {
    exists other | other in s.active && other != id ::
      s.active[other].phase.Commit? && s.active[other].req.messageId == m
  }

  /** The tables once the transaction's writes are published. */
  function Publish(t: Tables, tx: Tx): Tables {
    Tables(t.inventory + tx.stock, t.reservations + tx.rows, t.inbox[tx.req.messageId := tx.req], t.outbox + tx.outcome)
  }

  function Log(s: System, tx: Tx): seq<Attempt> {
    s.log + [Attempt(tx.req, tx.outcomeId, false)]
  }

  /** One statement of transaction id. A blocked statement leaves the system as it is; a constraint violation aborts. */
  function Statement(s: System, id: TxId): System
    requires id in s.active
  {
    var tx := s.active[id];
    var items := tx.req.items;
    match tx.phase
    case ReadInbox =>
      s.With(id, tx.(phase := if tx.req.messageId in s.tables.inbox then NothingToDo else Lock(0)))
    case NothingToDo => s.Without(id).(log := Log(s, tx))
    case Lock(i) =>
      if i >= |items| then s.With(id, tx.(phase := Update(0)))
      else LockLine(s, id, items[i], i)
    case Update(i) =>
      if i >= |items| then s.With(id, tx.(phase := InsertOutbox(|items|, Sufficient)))
      else if items[i].product !in tx.snapshot then s.Without(id)
      else
        var after := Take(tx.snapshot[items[i].product], items[i].quantity);
        if !RowOk(after) then s.Without(id)
        else s.With(id, tx.(stock := tx.stock[items[i].product := after], phase := Insert(i)))
    case Insert(i) =>
      if i >= |items| then s.Without(id) else InsertRow(s, id, items[i], i)
    case InsertOutbox(n, d) =>
      s.With(id, tx.(outcome := [Outcome(tx.outcomeId, tx.req.orderId, d, items)], phase := InsertInbox(n, d)))
    case InsertInbox(n, d) =>
      if tx.req.messageId in s.tables.inbox then s.Without(id)
      else if MessageHeldByOther(s, id, tx.req.messageId) then s
      else s.With(id, tx.(phase := Commit(n, d)))
    case Commit(_, _) => s.Without(id).(tables := Publish(s.tables, tx), log := Log(s, tx))
  }

  function LockLine(s: System, id: TxId, line: Item, i: nat): System
    requires id in s.active
  {
    var tx := s.active[id];
    var inventory := s.tables.inventory;
    if line.product !in inventory then s.With(id, tx.(phase := InsertOutbox(i, Rejected(NotFound(line.product)))))
    else if LockedByOther(s, id, line.product) then s
    else
      var row := inventory[line.product];
      var locked := tx.(locks := tx.locks + {line.product});
      if row.available < line.quantity
      then s.With(id, locked.(phase := InsertOutbox(i, Rejected(Insufficient(line.product)))))
      else s.With(id, locked.(snapshot := tx.snapshot[line.product := row], phase := Lock(i + 1)))
  }

  function InsertRow(s: System, id: TxId, line: Item, i: nat): System
    requires id in s.active
  {
    var tx := s.active[id];
    var r := Reservation(tx.req.orderId, line.product, line.quantity);
    if !InsertOk(s.tables.reservations, r) || !InsertOk(tx.rows, r) then s.Without(id)
    else if RowHeldByOther(s, id, r.order, r.product) then s
    else s.With(id, tx.(rows := tx.rows + [r], phase := Update(i + 1)))
  }

  function Apply(s: System, move: Move): System {
    match move
    case Begin(id, req, outcomeId) =>
      if id in s.active then s else s.With(id, Tx(req, outcomeId, ReadInbox, {}, map[], map[], [], []))
    case Advance(id) => if id in s.active then Statement(s, id) else s
    case Abort(id) => s.Without(id)
  }

  function Run(seed: Tables, moves: seq<Move>): System {
    if moves == [] then System(seed, map[], []) else Apply(Run(seed, moves[..|moves| - 1]), moves[|moves| - 1])
  }

  // Invariant -------------------------------------------------------------------------------

  ghost predicate Held(t: Tables, tx: Tx, n: nat) {
    && n <= |tx.req.items|
    && forall i | 0 <= i < n :: tx.req.items[i].product in tx.snapshot && LineOk(t.inventory, tx.req.items[i])
  }

  ghost predicate LocksAgree(t: Tables, tx: Tx) {
    && tx.snapshot.Keys <= tx.locks
    && tx.stock.Keys <= tx.snapshot.Keys
    && forall p | p in tx.snapshot :: p in t.inventory && t.inventory[p] == tx.snapshot[p]
  }

  /** The first n lines are checked, locked and written, and pass every constraint. */
  ghost predicate LinesWritten(t: Tables, tx: Tx, n: nat) {
    var items := tx.req.items;
    && Held(t, tx, |items|)
    && n <= |items|
    && tx.rows == Rows(tx.req.orderId, items, n)
    && Admissible(t.reservations, tx.snapshot, tx.req.orderId, items, n)
  }

  ghost predicate Decided(t: Tables, tx: Tx, n: nat, d: Decision) {
    var items := tx.req.items;
    && Held(t, tx, n)
    && if n == |items|
       then d == Sufficient && LinesWritten(t, tx, n) && tx.stock == Written(tx.snapshot, items, n)
       else
         && tx.stock == map[] && tx.rows == []
         && !LineOk(t.inventory, items[n])
         && d == Rejected(RejectionOf(t.inventory, items[n]))
         && (items[n].product in t.inventory ==> items[n].product in tx.locks)
  }

  ghost predicate PhaseOk(t: Tables, tx: Tx) {
    var items := tx.req.items;
    var outcome := (d: Decision) => [Outcome(tx.outcomeId, tx.req.orderId, d, items)];
    match tx.phase
    case ReadInbox => tx.Clean()
    case NothingToDo => tx.Clean() && tx.req.messageId in t.inbox
    case Lock(i) => tx.Clean() && Held(t, tx, i)
    case Update(i) => LinesWritten(t, tx, i) && tx.stock == Written(tx.snapshot, items, i) && tx.outcome == []
    case Insert(i) =>
      && LinesWritten(t, tx, i) && i < |items| && tx.outcome == []
      && tx.stock == Written(tx.snapshot, items, i + 1)
      && RowOk(Take(tx.snapshot[items[i].product], items[i].quantity))
    case InsertOutbox(n, d) => Decided(t, tx, n, d) && tx.outcome == []
    case InsertInbox(n, d) => Decided(t, tx, n, d) && tx.outcome == outcome(d)
    case Commit(n, d) => Decided(t, tx, n, d) && tx.outcome == outcome(d) && tx.req.messageId !in t.inbox
  }

  ghost predicate TxOk(t: Tables, tx: Tx) {
    LocksAgree(t, tx) && PhaseOk(t, tx)
  }

  /** Two running transactions hold no lock, no unique key and no message in common. */
  ghost predicate Apart(a: Tx, b: Tx) {
    && a.locks !! b.locks
    && (forall i, j | 0 <= i < |a.rows| && 0 <= j < |b.rows| ::
          !(a.rows[i].order == b.rows[j].order && a.rows[i].product == b.rows[j].product))
    && (a.phase.Commit? && b.phase.Commit? ==> a.req.messageId != b.req.messageId)
  }

  ghost predicate Inv(s: System) {
    && (forall id | id in s.active :: TxOk(s.tables, s.active[id]))
    && (forall a, b | a in s.active && b in s.active && a != b :: Apart(s.active[a], s.active[b]))
  }

  /** The log replayed one transaction at a time: every one of them commits, and together they leave t. */
  ghost predicate Replays(seed: Tables, log: seq<Attempt>, t: Tables) {
    && t == HandleAll(seed, log)
    && forall i | 0 <= i < |log| ::
       !log[i].failed && Transact(HandleAll(seed, log[..i]), log[i].req, log[i].outcomeId).Some?
  }

  // A transaction that is still running keeps its invariant while another one commits.
  lemma CommitKeepsOther(t: Tables, done: Tx, tx: Tx)
    requires TxOk(t, done) && done.phase.Commit?
    requires TxOk(t, tx) && Apart(done, tx) && Apart(tx, done)
    ensures TxOk(Publish(t, done), tx)
  {
    KeepsHeld(t, done, tx);
    match tx.phase
    case Update(i) => KeepsLines(t, done, tx, i);
    case Insert(i) => KeepsLines(t, done, tx, i);
    case InsertOutbox(n, d) => KeepsDecided(t, done, tx, n, d);
    case InsertInbox(n, d) => KeepsDecided(t, done, tx, n, d);
    case Commit(n, d) => KeepsDecided(t, done, tx, n, d);
    case _ =>
    hide Held, LocksAgree, LinesWritten, Decided, Written, RowOk, Take;
  }

  lemma KeepsDecided(t: Tables, done: Tx, tx: Tx, n: nat, d: Decision)
    requires LocksAgree(t, done) && LocksAgree(t, tx) && Apart(done, tx) && Decided(t, tx, n, d)
    ensures Decided(Publish(t, done), tx, n, d)
  {
    KeepsHeld(t, done, tx);
    if n == |tx.req.items| {
      KeepsLines(t, done, tx, n);
    }
    hide Held, LinesWritten, Written;
  }

  lemma KeepsHeld(t: Tables, done: Tx, tx: Tx)
    requires LocksAgree(t, done) && LocksAgree(t, tx) && done.locks !! tx.locks
    ensures LocksAgree(Publish(t, done), tx)
    ensures forall n: nat | Held(t, tx, n) :: Held(Publish(t, done), tx, n)
  {
    var u := Publish(t, done);
    assert forall p | p in tx.locks && p in t.inventory :: u.inventory[p] == t.inventory[p];
  }

  lemma KeepsLines(t: Tables, done: Tx, tx: Tx, n: nat)
    requires LocksAgree(t, done) && LocksAgree(t, tx) && Apart(done, tx)
    requires LinesWritten(t, tx, n)
    ensures LinesWritten(Publish(t, done), tx, n)
  {
    KeepsHeld(t, done, tx);
    var u := Publish(t, done);
    forall i | 0 <= i < n
      ensures LineFits(u.reservations, tx.snapshot[tx.req.items[i].product], tx.req.orderId, tx.req.items[i])
    {
      var p := tx.req.items[i].product;
      assert tx.rows[i].product == p && tx.rows[i].order == tx.req.orderId;
      assert NoRow(t.reservations, tx.req.orderId, p);
      forall k | 0 <= k < |u.reservations|
        ensures !(u.reservations[k].order == tx.req.orderId && u.reservations[k].product == p)
      {
        if k >= |t.reservations| {
          assert u.reservations[k] == done.rows[k - |t.reservations|];
        }
      }
    }
  }

  /** At its commit, a transaction's writes are exactly those of the atomic transaction run at that moment. */
  lemma CommitIsAtomic(t: Tables, tx: Tx)
    requires TxOk(t, tx) && tx.phase.Commit?
    ensures Transact(t, tx.req, tx.outcomeId) == Some(Publish(t, tx))
  {
    var items, n := tx.req.items, tx.phase.checked;
    DecisionExact(t.inventory, items);
    if n == |items| {
      InventoryRepository.SnapshotAgrees(t, tx.snapshot, t.inventory, tx.req.orderId, items, n);
      ReservationExact(t, tx.snapshot, tx.req.orderId, items, n);
    } else {
      assert FirstBad(t.inventory, items, n);
      assert t.inventory + map[] == t.inventory && t.reservations + [] == t.reservations;
    }
  }

  lemma StatementKeepsTx(s: System, id: TxId)
    requires Inv(s) && id in s.active
    requires !s.active[id].phase.Commit? && !s.active[id].phase.NothingToDo?
    ensures id in Statement(s, id).active ==> TxOk(s.tables, Statement(s, id).active[id])
  {
    var tx := s.active[id];
    assert TxOk(s.tables, tx);
    hide Inv, TxOk, Statement;
    match tx.phase
    case ReadInbox => RecordKeepsTx(s, id);
    case Lock(i) => LockKeepsTx(s, id);
    case Update(i) => UpdateKeepsTx(s, id);
    case Insert(i) => InsertKeepsTx(s, id);
    case InsertOutbox(_, _) => RecordKeepsTx(s, id);
    case InsertInbox(_, _) => RecordKeepsTx(s, id);
  }

  lemma RecordKeepsTx(s: System, id: TxId)
    requires id in s.active && TxOk(s.tables, s.active[id])
    requires var phase := s.active[id].phase; phase.ReadInbox? || phase.InsertOutbox? || phase.InsertInbox?
    ensures id in Statement(s, id).active ==> TxOk(s.tables, Statement(s, id).active[id])
  {
    hide Written, Rows, Admissible, LockLine, InsertRow, Publish, RowOk, Take;
  }

  lemma UpdateKeepsTx(s: System, id: TxId)
    requires id in s.active && TxOk(s.tables, s.active[id]) && s.active[id].phase.Update?
    ensures id in Statement(s, id).active ==> TxOk(s.tables, Statement(s, id).active[id])
  {
    hide Rows, Admissible, LockLine, InsertRow, Publish, RowOk;
  }

  // A line that passes the check joins the locks and the snapshot.
  lemma LockOneMore(t: Tables, tx: Tx, i: nat, more: Tx)
    requires LocksAgree(t, tx) && tx.Clean() && Held(t, tx, i) && i < |tx.req.items|
             && LineOk(t.inventory, tx.req.items[i])
    requires
      var p := tx.req.items[i].product;
      more == tx.(locks := tx.locks + {p}, snapshot := tx.snapshot[p := t.inventory[p]], phase := Lock(i + 1))
    ensures TxOk(t, more)
  {}

  lemma LockKeepsTx(s: System, id: TxId)
    requires id in s.active && TxOk(s.tables, s.active[id]) && s.active[id].phase.Lock?
    ensures id in Statement(s, id).active ==> TxOk(s.tables, Statement(s, id).active[id])
  {
    var tx := s.active[id];
    var items, i := tx.req.items, tx.phase.next;
    if i < |items| && LineOk(s.tables.inventory, items[i]) && !LockedByOther(s, id, items[i].product) {
      LockOneMore(s.tables, tx, i, Statement(s, id).active[id]);
    }
  }

  function WithLine(tx: Tx, i: nat): Tx
    requires i < |tx.req.items|
  {
    var line := tx.req.items[i];
    tx.(rows := tx.rows + [Reservation(tx.req.orderId, line.product, line.quantity)], phase := Update(i + 1))
  }

  // A line whose row can be inserted joins the lines written so far.
  lemma OneMoreLine(t: Tables, tx: Tx, i: nat)
    requires LinesWritten(t, tx, i) && i < |tx.req.items|
    requires
      var line := tx.req.items[i];
      && RowOk(Take(tx.snapshot[line.product], line.quantity))
      && InsertOk(t.reservations, Reservation(tx.req.orderId, line.product, line.quantity))
      && NoRow(tx.rows, tx.req.orderId, line.product)
    ensures LinesWritten(t, WithLine(tx, i), i + 1)
  {
    var items := tx.req.items;
    AdmissibleStep(t.reservations, tx.snapshot, tx.req.orderId, items, i + 1);
    forall k | 0 <= k < i ensures items[k].product != items[i].product {
      assert tx.rows[k].product == items[k].product && tx.rows[k].order == tx.req.orderId;
    }
    hide Admissible, Take, RowOk;
    assert Rows(tx.req.orderId, items, i + 1)
           == tx.rows + [Reservation(tx.req.orderId, items[i].product, items[i].quantity)];
  }

  lemma InsertOutcomes(s: System, id: TxId)
    requires id in s.active && s.active[id].phase.Insert? && s.active[id].phase.next < |s.active[id].req.items|
    requires id in Statement(s, id).active
    ensures
      var tx, i := s.active[id], s.active[id].phase.next;
      var line := tx.req.items[i];
      var r := Reservation(tx.req.orderId, line.product, line.quantity);
      || Statement(s, id).active[id] == tx
      || (Statement(s, id).active[id] == WithLine(tx, i) && InsertOk(s.tables.reservations, r) && InsertOk(tx.rows, r))
  {
    hide InsertOk, RowHeldByOther, LockLine, Publish;
  }

  lemma InsertPhase(t: Tables, tx: Tx)
    requires TxOk(t, tx) && tx.phase.Insert?
    ensures
      var i := tx.phase.next;
      && i < |tx.req.items| && LinesWritten(t, tx, i) && LocksAgree(t, tx) && tx.outcome == []
      && tx.req.items[i].product in tx.snapshot
      && RowOk(Take(tx.snapshot[tx.req.items[i].product], tx.req.items[i].quantity))
      && LocksAgree(t, WithLine(tx, i))
      && (LinesWritten(t, WithLine(tx, i), i + 1) ==> TxOk(t, WithLine(tx, i)))
  {
    hide Written, Admissible, Rows, RowOk, Take;
  }

  lemma WithLineOk(t: Tables, tx: Tx)
    requires TxOk(t, tx) && tx.phase.Insert?
    ensures tx.phase.next < |tx.req.items|
    ensures
      var line := tx.req.items[tx.phase.next];
      var r := Reservation(tx.req.orderId, line.product, line.quantity);
      InsertOk(t.reservations, r) && InsertOk(tx.rows, r) ==> TxOk(t, WithLine(tx, tx.phase.next))
  {
    InsertPhase(t, tx);
    var line := tx.req.items[tx.phase.next];
    var r := Reservation(tx.req.orderId, line.product, line.quantity);
    hide TxOk, LinesWritten, LocksAgree, WithLine, RowOk, Take, NoRow;
    if InsertOk(t.reservations, r) && InsertOk(tx.rows, r) {
      OneMoreLine(t, tx, tx.phase.next);
    }
  }

  lemma InsertKeepsTx(s: System, id: TxId)
    requires id in s.active && TxOk(s.tables, s.active[id]) && s.active[id].phase.Insert?
    ensures id in Statement(s, id).active ==> TxOk(s.tables, Statement(s, id).active[id])
  {
    hide *;
    WithLineOk(s.tables, s.active[id]);
    if id in Statement(s, id).active {
      InsertOutcomes(s, id);
    }
  }

  lemma InsertKeepsApart(s: System, id: TxId, other: TxId)
    requires id in s.active && other in s.active && other != id && s.active[id].phase.Insert?
    requires Apart(s.active[id], s.active[other]) && id in Statement(s, id).active
    ensures Apart(Statement(s, id).active[id], s.active[other])
  {
    var tx, o := s.active[id], s.active[other];
    var p := tx.req.items[tx.phase.next].product;
    if !RowHeldByOther(s, id, tx.req.orderId, p) {
      assert NoRow(o.rows, tx.req.orderId, p);
    }
  }

  lemma LockKeepsApart(s: System, id: TxId, other: TxId)
    requires id in s.active && other in s.active && other != id && s.active[id].phase.Lock?
    requires Apart(s.active[id], s.active[other]) && id in Statement(s, id).active
    ensures Apart(Statement(s, id).active[id], s.active[other])
  {
    var tx := s.active[id];
    if tx.phase.next < |tx.req.items| {
      var p := tx.req.items[tx.phase.next].product;
      assert p in s.active[other].locks ==> LockedByOther(s, id, p);
    }
  }

  lemma StatementKeepsApart(s: System, id: TxId, other: TxId)
    requires id in s.active && other in s.active && other != id
    requires Apart(s.active[id], s.active[other]) && id in Statement(s, id).active
    ensures Apart(Statement(s, id).active[id], s.active[other])
  {
    var tx := s.active[id];
    match tx.phase
    case Insert(_) => InsertKeepsApart(s, id, other);
    case Lock(_) => LockKeepsApart(s, id, other);
    case _ =>
  }

  lemma ApartSymmetric(a: Tx, b: Tx)
    requires Apart(a, b)
    ensures Apart(b, a)
  {}

  lemma ApplyKeepsInv(s: System, move: Move)
    requires Inv(s)
    ensures Inv(Apply(s, move))
  {
    if move.Advance? && move.id in s.active {
      if s.active[move.id].phase.Commit? {
        CommitKeepsInv(s, move.id);
      } else if !s.active[move.id].phase.NothingToDo? {
        StatementKeepsTx(s, move.id);
        AdvanceKeepsInv(s, move.id);
      }
    }
    hide TxOk, Apart;
    if move.Begin? && move.id !in s.active {
      NewTx(s.tables, move.req, move.outcomeId);
    }
  }

  lemma NewTx(t: Tables, req: Request, outcomeId: MessageId)
    ensures
      var tx := Tx(req, outcomeId, ReadInbox, {}, map[], map[], [], []);
      TxOk(t, tx) && forall other: Tx :: Apart(tx, other) && Apart(other, tx)
  {}

  lemma CommitKeepsInv(s: System, id: TxId)
    requires Inv(s) && id in s.active && s.active[id].phase.Commit?
    ensures Inv(Statement(s, id))
  {
    var u, tx := Statement(s, id), s.active[id];
    assert u == s.Without(id).(tables := Publish(s.tables, tx), log := Log(s, tx));
    hide Statement, TxOk, Apart, Publish;
    forall other | other in u.active ensures TxOk(u.tables, u.active[other]) {
      CommitKeepsOther(s.tables, tx, s.active[other]);
    }
  }

  lemma OneChanged(s: System, u: System, id: TxId)
    requires Inv(s) && u.tables == s.tables && u.active.Keys <= s.active.Keys
    requires forall other | other in u.active && other != id :: u.active[other] == s.active[other]
    requires id in u.active ==> TxOk(u.tables, u.active[id])
    requires id in u.active ==> forall other | other in s.active && other != id ::
               Apart(u.active[id], s.active[other]) && Apart(s.active[other], u.active[id])
    ensures Inv(u)
  {
    hide TxOk, Apart;
  }

  lemma AdvanceKeepsInv(s: System, id: TxId)
    requires Inv(s) && id in s.active && !s.active[id].phase.Commit? && !s.active[id].phase.NothingToDo?
    requires id in Statement(s, id).active ==> TxOk(s.tables, Statement(s, id).active[id])
    ensures Inv(Statement(s, id))
  {
    var u := Statement(s, id);
    StatementTouchesOne(s, id);
    hide Statement, TxOk, Apart;
    if id in u.active {
      forall other | other in s.active && other != id
        ensures Apart(u.active[id], s.active[other]) && Apart(s.active[other], u.active[id])
      {
        StatementKeepsApart(s, id, other);
        ApartSymmetric(u.active[id], s.active[other]);
      }
    }
    hide Inv;
    OneChanged(s, u, id);
  }

  lemma StatementTouchesOne(s: System, id: TxId)
    requires id in s.active && !s.active[id].phase.Commit? && !s.active[id].phase.NothingToDo?
    ensures Statement(s, id).tables == s.tables && Statement(s, id).log == s.log
    ensures Statement(s, id).active.Keys <= s.active.Keys
    ensures forall other | other in s.active && other != id ::
              other in Statement(s, id).active && Statement(s, id).active[other] == s.active[other]
  {}

  lemma ReplaysOneMore(seed: Tables, log: seq<Attempt>, t: Tables, a: Attempt)
    requires Replays(seed, log, t) && !a.failed && Transact(t, a.req, a.outcomeId).Some?
    ensures Replays(seed, log + [a], Transact(t, a.req, a.outcomeId).value)
  {
    var longer := log + [a];
    assert longer[..|longer| - 1] == log;
    forall i | 0 <= i < |longer|
      ensures !longer[i].failed && Transact(HandleAll(seed, longer[..i]), longer[i].req, longer[i].outcomeId).Some?
    {
      if i < |log| {
        assert longer[..i] == log[..i];
      }
    }
  }

  /**
   Interleaving refinement: whatever the interleaving, the tables are those of the committed transactions run in commit
   order.
   */
  lemma {:induction false} Serializable(seed: Tables, moves: seq<Move>)
    ensures Inv(Run(seed, moves))
    ensures Replays(seed, Run(seed, moves).log, Run(seed, moves).tables)
  {
    if moves != [] {
      var s, move := Run(seed, moves[..|moves| - 1]), moves[|moves| - 1];
      Serializable(seed, moves[..|moves| - 1]);
      ApplyKeepsInv(s, move);
      if move.Advance? && move.id in s.active {
        var tx := s.active[move.id];
        assert TxOk(s.tables, tx);
        if tx.phase.Commit? {
          CommitIsAtomic(s.tables, tx);
          ReplaysOneMore(seed, s.log, s.tables, Attempt(tx.req, tx.outcomeId, false));
        } else if tx.phase.NothingToDo? {
          ReplaysOneMore(seed, s.log, s.tables, Attempt(tx.req, tx.outcomeId, false));
        } else {
          StatementTouchesOne(s, move.id);
        }
      }
    }
  }

  /**
   However concurrently one message is delivered, at most one transaction for it commits with effects; and no
   interleaving loses stock.
   */
  lemma ConcurrentExactlyOnce(seed: Tables, moves: seq<Move>, m: MessageId)
    requires Valid(seed)
    ensures var s := Run(seed, moves);
            && Valid(s.tables) && Balanced(seed, s.tables)
            && Effects(seed, s.log, m) == if m in s.tables.inbox && m !in seed.inbox then 1 else 0
  {
    Serializable(seed, moves);
    StockConserved(seed, Run(seed, moves).log);
    ExactlyOnce(seed, Run(seed, moves).log, m);
  }
}
