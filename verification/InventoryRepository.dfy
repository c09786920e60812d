/**
 The inventory repository and the ReserveStockRequested consumer, statement by statement.
 A statement may fail for reasons the program cannot see: `fault` reports that one did.
 */
module InventoryRepository {
  import opened Prelude
  import opened Inventory

  lemma {:induction false} NoneStays(t: Tables, snapshot: map<ProductId, StockRow>, order: OrderId, items: seq<Item>,
                                     k: nat, n: nat)
    requires k <= n <= |items|
    requires forall i | 0 <= i < n :: items[i].product in snapshot
    requires ReserveLines(t, snapshot, order, items, k) == None
    ensures ReserveLines(t, snapshot, order, items, n) == None
  {
    if k < n {
      NoneStays(t, snapshot, order, items, k, n - 1);
    }
  }

  /** Only the snapshot's rows of the request's own products matter. */
  lemma {:induction false} SnapshotAgrees(t: Tables, s1: map<ProductId, StockRow>, s2: map<ProductId, StockRow>,
                                          order: OrderId, items: seq<Item>, n: nat)
    requires n <= |items|
    requires forall i | 0 <= i < n :: items[i].product in s1 && items[i].product in s2
    requires forall i | 0 <= i < n :: s1[items[i].product] == s2[items[i].product]
    ensures ReserveLines(t, s1, order, items, n) == ReserveLines(t, s2, order, items, n)
  {
    if n > 0 {
      SnapshotAgrees(t, s1, s2, order, items, n - 1);
    }
  }

  class InventoryRepositoryPG {
    var inventory: map<ProductId, StockRow>
    var reservations: seq<Reservation>
    var inbox: map<MessageId, Request>
    var outbox: seq<Outcome>

    function Contents(): Tables
      reads this
    {
      Tables(inventory, reservations, inbox, outbox)
    }

    method CheckAndLockStock(items: seq<Item>)
      returns (fault: bool, decision: Decision, inventories: map<ProductId, StockRow>)
      ensures !fault ==> decision == Check(inventory, items)
      ensures !fault && decision.Sufficient? ==>
                forall i | 0 <= i < |items| ::
                  && items[i].product in inventory
                  && items[i].product in inventories
                  && inventories[items[i].product] == inventory[items[i].product]
    {
      fault, decision, inventories := false, Sufficient, map[];
      DecisionExact(inventory, items);
      for i := 0 to |items|
        invariant forall k | 0 <= k < i ::
            && LineOk(inventory, items[k])
            && items[k].product in inventories
            && inventories[items[k].product] == inventory[items[k].product]
        invariant !fault && decision.Sufficient?
      {
        if * {
          fault := true;
          return;
        }
        if items[i].product !in inventory {
          assert FirstBad(inventory, items, i);
          decision := Rejected(NotFound(items[i].product));
          return;
        }
        var row := inventory[items[i].product];
        if row.available < items[i].quantity {
          assert FirstBad(inventory, items, i);
          decision := Rejected(Insufficient(items[i].product));
          return;
        }
        inventories := inventories[items[i].product := row];
      }
    }

    method ReserveStock(order: OrderId, items: seq<Item>, inventories: map<ProductId, StockRow>)
      returns (fault: bool, ok: bool)
      requires forall i | 0 <= i < |items| :: items[i].product in inventories
      modifies this`inventory, this`reservations
      ensures fault ==> !ok
      ensures ok ==> ReserveLines(old(Contents()), inventories, order, items, |items|) == Some(Contents())
      ensures !ok && !fault ==> ReserveLines(old(Contents()), inventories, order, items, |items|) == None
    {
      fault, ok := false, true;
      ghost var t := Contents();
      for i := 0 to |items|
        invariant ReserveLines(t, inventories, order, items, i) == Some(Contents())
        invariant !fault && ok
      {
        if * {
          fault, ok := true, false;
          return;
        }
        ghost var before := Contents();
        var after := Take(inventories[items[i].product], items[i].quantity);
        var r := Reservation(order, items[i].product, items[i].quantity);
        if !RowOk(after) || !InsertOk(reservations, r) {
          assert ReserveLines(t, inventories, order, items, i + 1) == None;
          NoneStays(t, inventories, order, items, i + 1, |items|);
          ok := false;
          return;
        }
        inventory := inventory[items[i].product := after];
        reservations := reservations + [r];
        assert ReserveLine(before, inventories[items[i].product], order, items[i]) == Some(Contents());
      }
    }

    /**
     One database transaction. An error leaves the tables as they were, unless the commit itself took effect unheard.
     */
    method ReserveStockWithInboxAndOutbox(req: Request, outcomeId: MessageId) returns (fault: bool, ok: bool)
      modifies this
      ensures ok ==> Transact(old(Contents()), req, outcomeId) == Some(Contents())
      ensures !ok && !fault ==> Transact(old(Contents()), req, outcomeId) == None && Contents() == old(Contents())
      ensures !ok && fault ==>
                Contents() == old(Contents()) || Transact(old(Contents()), req, outcomeId) == Some(Contents())
    {
      var inventory0, reservations0, inbox0, outbox0 := inventory, reservations, inbox, outbox;
      fault, ok := InTransaction(req, outcomeId);
      if !ok {
        inventory, reservations, inbox, outbox := inventory0, reservations0, inbox0, outbox0;
      } else if * {
        fault, ok := true, false;
      }
    }

    method InTransaction(req: Request, outcomeId: MessageId) returns (fault: bool, ok: bool)
      modifies this
      ensures fault ==> !ok
      ensures ok ==> Transact(old(Contents()), req, outcomeId) == Some(Contents())
      ensures !ok && !fault ==> Transact(old(Contents()), req, outcomeId) == None
    {
      fault, ok := false, true;
      if * {
        return true, false;
      }
      if req.messageId in inbox {
        return;
      }
      var decision, inventories;
      fault, decision, inventories := CheckAndLockStock(req.items);
      if fault {
        return true, false;
      }
      if decision.Sufficient? {
        SnapshotAgrees(Contents(), inventories, inventory, req.orderId, req.items, |req.items|);
        fault, ok := ReserveStock(req.orderId, req.items, inventories);
        if !ok {
          return;
        }
      }
      if * {
        return true, false;
      }
      outbox := outbox + [Outcome(outcomeId, req.orderId, decision, req.items)];
      if * {
        return true, false;
      }
      inbox := inbox[req.messageId := req];
    }
  }

  // The consumer ----------------------------------------------------------------------------

  // A decoded message body; None stands for a field that is not a UUID.
  datatype RawItem = RawItem(product: Option<ProductId>, quantity: int)
  datatype Body = NotJson | Event(messageId: Option<MessageId>, orderId: Option<OrderId>, items: seq<RawItem>)
  datatype Verdict = Ack | Requeue | Drop

  ghost predicate Parses(body: Body) {
    body.Event? && body.messageId.Some? && body.orderId.Some? && forall i | 0 <= i < |body.items| ::
        body.items[i].product.Some?
  }

  ghost function Parsed(body: Body): Request
    requires Parses(body)
  {
    Request(body.messageId.value, body.orderId.value,
            seq(|body.items|, i requires 0 <= i < |body.items| =>
                Item(body.items[i].product.value, body.items[i].quantity)))
  }

  function ToBody(req: Request): Body {
    Event(Some(req.messageId), Some(req.orderId),
          seq(|req.items|, i requires 0 <= i < |req.items| =>
              RawItem(Some(req.items[i].product), req.items[i].quantity)))
  }

  /** Every request the order service writes is read back by the consumer as it was written. */
  lemma RequestsRoundTrip(req: Request)
    ensures Parses(ToBody(req)) && Parsed(ToBody(req)) == req
    ensures
      var body := ToBody(req);
      && body.messageId == Some(req.messageId) && body.orderId == Some(req.orderId) && |body.items| == |req.items|
      && forall i | 0 <= i < |req.items| ::
           body.items[i].product == Some(req.items[i].product) && body.items[i].quantity == req.items[i].quantity
  {
    assert Parsed(ToBody(req)).items == req.items;
  }

  /** A body is dropped only if it does not parse; acknowledged only once handled; requeued otherwise, without bound. */
  method HandleMessage(repo: InventoryRepositoryPG, body: Body, outcomeId: MessageId)
    returns (fault: bool, verdict: Verdict)
    modifies repo
    ensures verdict == Drop <==> !Parses(body)
    ensures verdict == Drop ==> repo.Contents() == old(repo.Contents())
    ensures verdict == Ack ==> Transact(old(repo.Contents()), Parsed(body), outcomeId) == Some(repo.Contents())
    ensures verdict == Requeue ==>
              || repo.Contents() == old(repo.Contents())
              || (fault && Transact(old(repo.Contents()), Parsed(body), outcomeId) == Some(repo.Contents()))
    ensures verdict == Requeue && !fault ==> Transact(old(repo.Contents()), Parsed(body), outcomeId) == None
    ensures Parses(body) ==>
              exists failed ::
                repo.Contents() == HandleDelivery(old(repo.Contents()), Attempt(Parsed(body), outcomeId, failed))
  {
    fault, verdict := false, Drop;
    if body.NotJson? {
      return;
    }
    var items: seq<Item> := [];
    for i := 0 to |body.items|
      invariant |items| == i
      invariant forall k | 0 <= k < i ::
          body.items[k].product.Some? && items[k] == Item(body.items[k].product.value, body.items[k].quantity)
    {
      if body.items[i].product.None? {
        return;
      }
      items := items + [Item(body.items[i].product.value, body.items[i].quantity)];
    }
    if body.messageId.None? || body.orderId.None? {
      return;
    }
    var req := Request(body.messageId.value, body.orderId.value, items);
    assert req == Parsed(body);
    var ok;
    fault, ok := repo.ReserveStockWithInboxAndOutbox(req, outcomeId);
    verdict := if ok then Ack else Requeue;
    ghost var failed := repo.Contents() == old(repo.Contents());
    assert repo.Contents() == HandleDelivery(old(repo.Contents()), Attempt(req, outcomeId, failed));
  }
}
