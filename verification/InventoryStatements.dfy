/**
 What the statements of a reservation transaction have to do. A transaction that runs alone leaves exactly what the
 atomic one leaves; among others, each statement does what it would do alone, unless another transaction holds what it
 needs; and a transaction rolls back by itself only on a violated constraint.
 */
module InventoryStatements {
  import opened Prelude
  import opened Inventory
  import opened InventoryInterleaving

  // Alone -------------------------------------------------------------------------------------

  function Alone(t: Tables, id: TxId, tx: Tx, log: seq<Attempt>): System {
    System(t, map[id := tx], log)
  }

  function Advances(s: System, id: TxId, n: nat): System
    decreases n
  {
    if n == 0 then s else Advances(Apply(s, Advance(id)), id, n - 1)
  }

  /** How many statements a transaction still has to run, at most. */
  function StepsLeft(tx: Tx): nat {
    var n := |tx.req.items|;
    match tx.phase
    case ReadInbox => 3 * n + 7
    case NothingToDo => 1
    case Lock(i) => (if i <= n then n - i else 0) + 2 * n + 6
    case Update(i) => (if i <= n then 2 * (n - i) else 0) + 5
    case Insert(i) => (if i < n then 2 * (n - i) - 1 else 0) + 5
    case InsertOutbox(_, _) => 3
    case InsertInbox(_, _) => 2
    case Commit(_, _) => 1
  }

  /** The tables did not change since the inbox was read, so a transaction that went on has a new message. */
  ghost predicate NewMessage(t: Tables, tx: Tx) {
    tx.phase.ReadInbox? || tx.phase.NothingToDo? || tx.req.messageId !in t.inbox
  }

  lemma AloneInv(t: Tables, id: TxId, tx: Tx, log: seq<Attempt>)
    requires TxOk(t, tx)
    ensures Inv(Alone(t, id, tx, log))
  {
    hide TxOk, Apart;
  }

  ghost predicate Nearer(t: Tables, id: TxId, tx: Tx, log: seq<Attempt>) {
    var u := Statement(Alone(t, id, tx, log), id);
    && u.tables == t && u.log == log && u.active.Keys <= {id}
    && (id in u.active ==>
          && StepsLeft(u.active[id]) < StepsLeft(tx) && NewMessage(t, u.active[id])
          && u.active[id].req == tx.req && u.active[id].outcomeId == tx.outcomeId)
  }

  lemma LockMoves(t: Tables, id: TxId, tx: Tx, log: seq<Attempt>)
    requires tx.phase.Lock? && tx.phase.next <= |tx.req.items| && NewMessage(t, tx)
    ensures Nearer(t, id, tx, log)
  {
    hide InsertRow, RowOk, Take;
  }

  lemma InsertMoves(t: Tables, id: TxId, tx: Tx, log: seq<Attempt>)
    requires tx.phase.Insert? && tx.phase.next < |tx.req.items| && NewMessage(t, tx)
    ensures Nearer(t, id, tx, log)
  {
    hide LockLine, RowOk, Take, InsertOk;
  }

  lemma OtherMoves(t: Tables, id: TxId, tx: Tx, log: seq<Attempt>)
    requires tx.phase.ReadInbox? || tx.phase.Update? || tx.phase.InsertOutbox? || tx.phase.InsertInbox?
    requires (tx.phase.Update? ==> tx.phase.next <= |tx.req.items|) && NewMessage(t, tx)
    ensures Nearer(t, id, tx, log)
  {
    hide LockLine, InsertRow, RowOk, Take, Publish;
  }

  // A statement that neither commits nor aborts brings the transaction nearer to its end.
  lemma StatementMoves(t: Tables, id: TxId, tx: Tx, log: seq<Attempt>)
    requires TxOk(t, tx) && NewMessage(t, tx) && !tx.phase.Commit? && !tx.phase.NothingToDo?
    ensures Nearer(t, id, tx, log)
  {
    StepShape(t, tx);
    hide TxOk, Nearer, NewMessage;
    if tx.phase.Lock? {
      LockMoves(t, id, tx, log);
    } else if tx.phase.Insert? {
      InsertMoves(t, id, tx, log);
    } else {
      OtherMoves(t, id, tx, log);
    }
  }

  lemma StepShape(t: Tables, tx: Tx)
    requires TxOk(t, tx)
    ensures tx.phase.Lock? || tx.phase.Update? ==> tx.phase.next <= |tx.req.items|
    ensures tx.phase.Insert? ==> tx.phase.next < |tx.req.items|
  {
    hide Written, Rows, Admissible, RowOk, Take;
  }

  // All lines pass the check, but line i violates a constraint.
  lemma ViolationRefuses(t: Tables, tx: Tx, i: nat)
    requires LocksAgree(t, tx) && LinesWritten(t, tx, i) && i < |tx.req.items| && tx.req.messageId !in t.inbox
    requires
      var line := tx.req.items[i];
      var r := Reservation(tx.req.orderId, line.product, line.quantity);
      || !RowOk(Take(t.inventory[line.product], line.quantity))
      || !InsertOk(t.reservations, r) || !InsertOk(tx.rows, r)
    ensures Transact(t, tx.req, tx.outcomeId) == None
  {
    var items := tx.req.items;
    DecisionExact(t.inventory, items);
    ReservationExact(t, t.inventory, tx.req.orderId, items, |items|);
    if !NoRow(tx.rows, tx.req.orderId, items[i].product) {
      var k :| 0 <= k < |tx.rows| && tx.rows[k].order == tx.req.orderId && tx.rows[k].product == items[i].product;
      assert items[k].product == items[i].product;
    }
    hide Written, Rows, Check, ReserveLines;
    assert !Admissible(t.reservations, t.inventory, tx.req.orderId, items, |items|);
  }

  // A statement that rolls a lone transaction back has met a violation, so the atomic transaction is refused too.
  lemma DropIsRefusal(t: Tables, id: TxId, tx: Tx, log: seq<Attempt>)
    requires TxOk(t, tx) && NewMessage(t, tx) && !tx.phase.Commit? && !tx.phase.NothingToDo?
    requires id !in Statement(Alone(t, id, tx, log), id).active
    ensures Transact(t, tx.req, tx.outcomeId) == None
  {
    StepShape(t, tx);
    if tx.phase.Update? {
      UpdateDrops(t, id, tx, log);
      ViolationRefuses(t, tx, tx.phase.next);
    } else {
      OnlyInsertDrops(t, id, tx, log);
      ViolationRefuses(t, tx, tx.phase.next);
    }
  }

  lemma UpdateDrops(t: Tables, id: TxId, tx: Tx, log: seq<Attempt>)
    requires TxOk(t, tx) && tx.phase.Update? && id !in Statement(Alone(t, id, tx, log), id).active
    ensures
      var i, items := tx.phase.next, tx.req.items;
      && i < |items| && LinesWritten(t, tx, i) && LocksAgree(t, tx)
      && items[i].product in t.inventory && !RowOk(Take(t.inventory[items[i].product], items[i].quantity))
  {
    hide Written, Rows, Admissible, RowOk, Take;
  }

  lemma OnlyInsertDrops(t: Tables, id: TxId, tx: Tx, log: seq<Attempt>)
    requires TxOk(t, tx) && NewMessage(t, tx) && !tx.phase.Commit? && !tx.phase.NothingToDo? && !tx.phase.Update?
    requires id !in Statement(Alone(t, id, tx, log), id).active
    ensures
      var i, items := tx.phase.next, tx.req.items;
      && tx.phase.Insert? && i < |items| && LinesWritten(t, tx, i) && LocksAgree(t, tx)
      && var r := Reservation(tx.req.orderId, items[i].product, items[i].quantity);
         !InsertOk(t.reservations, r) || !InsertOk(tx.rows, r)
  {
    hide Written, Rows, Admissible, RowOk, Take, InsertOk;
  }

  lemma {:induction false} NothingLeft(s: System, id: TxId, n: nat)
    requires id !in s.active
    ensures Advances(s, id, n) == s
    decreases n
  {
    if n > 0 {
      NothingLeft(s, id, n - 1);
    }
  }

  ghost predicate EndsAs(u: System, t: Tables, req: Request, outcomeId: MessageId, log: seq<Attempt>) {
    && u.active == map[]
    && match Transact(t, req, outcomeId)
       case None => u.tables == t && u.log == log
       case Some(after) => u.tables == after && u.log == log + [Attempt(req, outcomeId, false)]
  }

  lemma CommitEnds(t: Tables, id: TxId, tx: Tx, log: seq<Attempt>)
    requires TxOk(t, tx) && tx.phase.Commit?
    ensures id !in Statement(Alone(t, id, tx, log), id).active
    ensures EndsAs(Statement(Alone(t, id, tx, log), id), t, tx.req, tx.outcomeId, log)
  {
    CommitIsAtomic(t, tx);
    hide Transact, Publish, TxOk, LockLine, InsertRow;
    assert Alone(t, id, tx, log).active - {id} == map[];
  }

  lemma DuplicateEnds(t: Tables, id: TxId, tx: Tx, log: seq<Attempt>)
    requires TxOk(t, tx) && tx.phase.NothingToDo?
    ensures id !in Statement(Alone(t, id, tx, log), id).active
    ensures EndsAs(Statement(Alone(t, id, tx, log), id), t, tx.req, tx.outcomeId, log)
  {
    assert Transact(t, tx.req, tx.outcomeId) == Some(t);
    hide Transact, Publish, TxOk, LockLine, InsertRow;
    assert Alone(t, id, tx, log).active - {id} == map[];
  }

  lemma OneTransaction(t: Tables, id: TxId, tx: Tx, log: seq<Attempt>)
    requires TxOk(t, tx) && NewMessage(t, tx) && !tx.phase.Commit? && !tx.phase.NothingToDo?
    ensures
      var u := Statement(Alone(t, id, tx, log), id);
      if id in u.active then TxOk(t, u.active[id]) && u == Alone(t, id, u.active[id], log)
      else u == System(t, map[], log)
  {
    var s := Alone(t, id, tx, log);
    AloneInv(t, id, tx, log);
    StatementKeepsTx(s, id);
    StatementMoves(t, id, tx, log);
    hide Statement, TxOk, NewMessage, StepsLeft;
    var u := Statement(s, id);
    if id in u.active {
      assert u.active == map[id := u.active[id]];
    } else {
      assert u.active == map[];
    }
  }

  lemma {:induction false} FinishesAlone(t: Tables, id: TxId, tx: Tx, log: seq<Attempt>, n: nat)
    requires TxOk(t, tx) && NewMessage(t, tx) && StepsLeft(tx) <= n
    ensures EndsAs(Advances(Alone(t, id, tx, log), id, n), t, tx.req, tx.outcomeId, log)
    decreases n
  {
    hide TxOk, NewMessage, EndsAs, Statement, Transact;
    var s := Alone(t, id, tx, log);
    var u := Statement(s, id);
    assert Apply(s, Advance(id)) == u;
    if tx.phase.Commit? || tx.phase.NothingToDo? {
      if tx.phase.Commit? {
        CommitEnds(t, id, tx, log);
      } else {
        DuplicateEnds(t, id, tx, log);
      }
      NothingLeft(u, id, n - 1);
    } else {
      StatementMoves(t, id, tx, log);
      OneTransaction(t, id, tx, log);
      if id in u.active {
        FinishesAlone(t, id, u.active[id], log, n - 1);
      } else {
        DropIsRefusal(t, id, tx, log);
        RolledBack(u, t, tx.req, tx.outcomeId, log);
        NothingLeft(u, id, n - 1);
      }
    }
  }

  lemma RolledBack(u: System, t: Tables, req: Request, outcomeId: MessageId, log: seq<Attempt>)
    requires u == System(t, map[], log) && Transact(t, req, outcomeId) == None
    ensures EndsAs(u, t, req, outcomeId, log)
  {
    hide Transact;
  }

  /**
   Run alone, from any tables, a transaction ends after at most 3 n + 7 statements; it has committed exactly if the
   atomic transaction commits, and has left the tables of the atomic transaction or, rolled back, the tables it found.
   */
  lemma RunsAlone(t: Tables, log: seq<Attempt>, id: TxId, req: Request, outcomeId: MessageId, n: nat)
    requires n >= 3 * |req.items| + 7
    ensures EndsAs(Advances(Apply(System(t, map[], log), Begin(id, req, outcomeId)), id, n), t, req, outcomeId, log)
  {
    var tx := Tx(req, outcomeId, ReadInbox, {}, map[], map[], [], []);
    NewTx(t, req, outcomeId);
    assert Apply(System(t, map[], log), Begin(id, req, outcomeId)) == Alone(t, id, tx, log);
    FinishesAlone(t, id, tx, log, n);
  }

  // Among others ------------------------------------------------------------------------------

  /** Another transaction holds the row lock, the unique row or the message that the next statement needs. */
  ghost predicate Waits(s: System, id: TxId)
    requires id in s.active
  {
    var tx := s.active[id];
    var items := tx.req.items;
    match tx.phase
    case Lock(i) =>
      && i < |items| && items[i].product in s.tables.inventory
      && exists other :: other in s.active && other != id && items[i].product in s.active[other].locks
    case Insert(i) =>
      && i < |items|
      && InsertOk(s.tables.reservations, Reservation(tx.req.orderId, items[i].product, items[i].quantity))
      && InsertOk(tx.rows, Reservation(tx.req.orderId, items[i].product, items[i].quantity))
      && exists other, r ::
           other in s.active && other != id && r in s.active[other].rows
           && r.order == tx.req.orderId && r.product == items[i].product
    case InsertInbox(_, _) =>
      && tx.req.messageId !in s.tables.inbox
      && exists other ::
           other in s.active && other != id && s.active[other].phase.Commit?
           && s.active[other].req.messageId == tx.req.messageId
    case _ => false
  }

  /** A statement that has to wait changes nothing. */
  lemma WaitingIsIdle(s: System, id: TxId)
    requires id in s.active && Waits(s, id)
    ensures Statement(s, id) == s
  {
    var tx := s.active[id];
    var items := tx.req.items;
    match tx.phase
    case Lock(i) => assert LockedByOther(s, id, items[i].product);
    case Insert(i) =>
      assert RowHeldByOther(s, id, tx.req.orderId, items[i].product);
    case InsertInbox(_, _) =>
    case _ =>
  }

  ghost predicate AsAlone(s: System, id: TxId)
    requires id in s.active
  {
    var u, alone := Statement(s, id), Statement(Alone(s.tables, id, s.active[id], s.log), id);
    && u.tables == alone.tables && u.log == alone.log
    && (id in u.active <==> id in alone.active)
    && (id in u.active ==> u.active[id] == alone.active[id])
  }

  lemma LockAsAlone(s: System, id: TxId)
    requires id in s.active && s.active[id].phase.Lock? && !Waits(s, id)
    ensures AsAlone(s, id)
  {
    var items, i := s.active[id].req.items, s.active[id].phase.next;
    assert i < |items| && items[i].product in s.tables.inventory ==> !LockedByOther(s, id, items[i].product);
    hide InsertRow, RowOk, Take;
  }

  lemma InsertAsAlone(s: System, id: TxId)
    requires id in s.active && s.active[id].phase.Insert? && !Waits(s, id)
    ensures AsAlone(s, id)
  {
    var tx := s.active[id];
    var items, i := tx.req.items, tx.phase.next;
    if i < |items| && RowHeldByOther(s, id, tx.req.orderId, items[i].product) {
      RowIsHeld(s, id, tx.req.orderId, items[i].product);
    }
    hide InsertOk, LockLine, NoRow;
  }

  /** A statement that need not wait does to its transaction, the tables and the log what it would do alone. */
  lemma OthersDoNotMatter(s: System, id: TxId)
    requires id in s.active && !Waits(s, id)
    ensures AsAlone(s, id)
  {
    if s.active[id].phase.Lock? {
      LockAsAlone(s, id);
    } else if s.active[id].phase.Insert? {
      InsertAsAlone(s, id);
    } else {
      hide LockLine, InsertRow, Publish, RowOk, Take;
    }
  }

  lemma RowIsHeld(s: System, id: TxId, order: OrderId, p: ProductId)
    requires RowHeldByOther(s, id, order, p)
    ensures exists other, r ::
              other in s.active && other != id && r in s.active[other].rows && r.order == order && r.product == p
  {
    var other :| other in s.active && other != id && !NoRow(s.active[other].rows, order, p);
    var rows := s.active[other].rows;
    var k :| 0 <= k < |rows| && rows[k].order == order && rows[k].product == p;
    assert rows[k] in rows;
  }

  /**
   What the next statement of a transaction would violate: a CHECK on the stock it writes, the CHECK or the UNIQUE key
   of the row it inserts, or the UNIQUE key of the inbox.
   */
  ghost predicate Violates(t: Tables, tx: Tx) {
    var items := tx.req.items;
    match tx.phase
    case Update(i) =>
      && i < |items| && items[i].product in t.inventory
      && var row, q := t.inventory[items[i].product], items[i].quantity;
         !(0 <= row.available - q <= INT_MAX && 0 <= row.reserved + q <= INT_MAX)
    case Insert(i) =>
      && i < |items|
      && (!(0 < items[i].quantity <= INT_MAX)
          || exists r ::
               (r in t.reservations || r in tx.rows) && r.order == tx.req.orderId && r.product == items[i].product)
    case InsertInbox(_, _) => tx.req.messageId in t.inbox
    case _ => false
  }

  /**
   In every reachable state a statement ends its transaction without a commit exactly when it violates a constraint. So
   insufficient or unknown stock never rolls back: it goes on to the answer that says so.
   */
  lemma DropsOnlyOnViolation(seed: Tables, moves: seq<Move>, id: TxId)
    requires id in Run(seed, moves).active
    ensures
      var s := Run(seed, moves);
      (id !in Statement(s, id).active && Statement(s, id).log == s.log) <==> Violates(s.tables, s.active[id])
  {
    var s := Run(seed, moves);
    var tx := s.active[id];
    Serializable(seed, moves);
    assert TxOk(s.tables, tx);
    hide Run, Inv, Replays, Written, Rows, Admissible, Publish;
    ViolationsByPhase(s, id);
  }

  lemma ViolationsByPhase(s: System, id: TxId)
    requires id in s.active && TxOk(s.tables, s.active[id])
    ensures (id !in Statement(s, id).active && Statement(s, id).log == s.log) <==> Violates(s.tables, s.active[id])
  {
    var tx := s.active[id];
    StepShape(s.tables, tx);
    if tx.phase.Insert? {
      InsertViolations(s, id);
    } else {
      hide Written, Rows, Admissible, InsertRow, InsertOk;
      assert |Log(s, tx)| == |s.log| + 1;
    }
  }

  lemma InsertViolations(s: System, id: TxId)
    requires id in s.active && s.active[id].phase.Insert? && s.active[id].phase.next < |s.active[id].req.items|
    ensures id !in Statement(s, id).active <==> Violates(s.tables, s.active[id])
    ensures Statement(s, id).log == s.log
  {
    var tx := s.active[id];
    var line := tx.req.items[tx.phase.next];
    RowExists(s.tables.reservations, tx.req.orderId, line.product);
    RowExists(tx.rows, tx.req.orderId, line.product);
    hide NoRow;
  }

  lemma RowExists(rows: seq<Reservation>, order: OrderId, p: ProductId)
    ensures !NoRow(rows, order, p) <==> exists r :: r in rows && r.order == order && r.product == p
  {
    if r :| r in rows && r.order == order && r.product == p {
      var i :| 0 <= i < |rows| && rows[i] == r;
    }
    if !NoRow(rows, order, p) {
      var i :| 0 <= i < |rows| && rows[i].order == order && rows[i].product == p;
      assert rows[i] in rows;
    }
  }
}
