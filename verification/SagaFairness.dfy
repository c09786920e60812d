/**
 Progress of the saga in runs without faults: an order's answer that died stays dead, and in a run that is fair to an
 order the order settles, unless it is lost or its transaction never commits.
 */
module SagaFairness {
  import opened Prelude
  import opened Inventory
  import opened Orders
  import opened Saga
  import opened SagaProgress

  // Calm runs ---------------------------------------------------------------------------------

  /** Any sequence of calm steps, taken as far as each can happen. */
  function RunCalm(maxAttempts: int, s: State, steps: seq<Calm>): State {
    if steps == [] then s
    else
      var before, c := RunCalm(maxAttempts, s, steps[..|steps| - 1]), steps[|steps| - 1];
      if Can(before, c) then Do(maxAttempts, before, c) else before
  }

  /** How many of them happened and mattered. */
  function Productive(who: Scope, maxAttempts: int, s: State, steps: seq<Calm>): nat {
    if steps == [] then 0
    else
      var before, c := RunCalm(maxAttempts, s, steps[..|steps| - 1]), steps[|steps| - 1];
      Productive(who, maxAttempts, s, steps[..|steps| - 1]) + if Useful(who, before, c) then 1 else 0
  }

  lemma DoKeepsInv(maxAttempts: int, s: State, c: Calm)
    requires Inv(s) && Can(s, c)
    ensures Inv(Do(maxAttempts, s, c))
  {
    hide Inv;
    StepKeeps(maxAttempts, s, StepOf(c));
    if c.SendRequest? {
      var s1 := Apply(maxAttempts, s, PublishRequest(c.row));
      assert s1.requestCopies[|s.requestCopies|].request == s.requests[c.row];
      StepKeeps(maxAttempts, s1, MarkRequest(c.row));
    } else if c.SendOutcome? {
      var s1 := Apply(maxAttempts, s, PublishOutcome(c.row));
      assert s1.outcomeCopies[|s.outcomeCopies|].outcome == s.stock.outbox[c.row];
      StepKeeps(maxAttempts, s1, MarkOutcome(c.row));
    }
  }

  /** A calm run is a run of the saga: every state it passes through is a reachable one. */
  lemma {:induction false} CalmIsRun(maxAttempts: int, seed: Tables, actions: seq<Action>, steps: seq<Calm>)
    returns (more: seq<Action>)
    ensures RunCalm(maxAttempts, Run(maxAttempts, seed, actions), steps) == Run(maxAttempts, seed, actions + more)
  {
    hide Run, Enabled, Apply, Do, Can;
    var s := Run(maxAttempts, seed, actions);
    if steps == [] {
      more := [];
      assert actions + more == actions;
    } else {
      var before, c := RunCalm(maxAttempts, s, steps[..|steps| - 1]), steps[|steps| - 1];
      var some := CalmIsRun(maxAttempts, seed, actions, steps[..|steps| - 1]);
      more := some;
      if Can(before, c) {
        var own := StepsOf(maxAttempts, seed, actions + some, c);
        more := some + own;
        assert actions + more == actions + some + own;
      }
    }
  }

  lemma StepsOf(maxAttempts: int, seed: Tables, actions: seq<Action>, c: Calm) returns (own: seq<Action>)
    requires Can(Run(maxAttempts, seed, actions), c)
    ensures Do(maxAttempts, Run(maxAttempts, seed, actions), c) == Run(maxAttempts, seed, actions + own)
  {
    hide Run, Transact;
    var s := Run(maxAttempts, seed, actions);
    RunOneMore(maxAttempts, seed, actions, StepOf(c));
    own := [StepOf(c)];
    if c.SendRequest? || c.SendOutcome? {
      var mark := if c.SendRequest? then MarkRequest(c.row) else MarkOutcome(c.row);
      var s1 := Apply(maxAttempts, s, StepOf(c));
      if c.SendRequest? {
        assert s1.requestCopies[|s.requestCopies|].request == s.requests[c.row];
      } else {
        assert s1.outcomeCopies[|s.outcomeCopies|].outcome == s.stock.outbox[c.row];
      }
      RunOneMore(maxAttempts, seed, actions + own, mark);
      assert actions + [StepOf(c), mark] == actions + own + [mark];
      own := [StepOf(c), mark];
    }
  }

  lemma {:induction false} InvRun(maxAttempts: int, s: State, steps: seq<Calm>)
    requires Inv(s)
    ensures Inv(RunCalm(maxAttempts, s, steps))
  {
    hide Inv, Can, Do;
    if steps != [] {
      var before, c := RunCalm(maxAttempts, s, steps[..|steps| - 1]), steps[|steps| - 1];
      InvRun(maxAttempts, s, steps[..|steps| - 1]);
      if Can(before, c) {
        DoKeepsInv(maxAttempts, before, c);
      }
    }
  }

  lemma {:induction false} SaneRun(maxAttempts: int, seed: Tables, s: State, steps: seq<Calm>)
    requires 0 < maxAttempts <= INT_MAX && Sane(maxAttempts, seed, s)
    ensures Sane(maxAttempts, seed, RunCalm(maxAttempts, s, steps))
  {
    hide Sane, Can, Do;
    if steps != [] {
      var before, c := RunCalm(maxAttempts, s, steps[..|steps| - 1]), steps[|steps| - 1];
      SaneRun(maxAttempts, seed, s, steps[..|steps| - 1]);
      if Can(before, c) {
        DoKeepsSane(maxAttempts, seed, before, c);
      }
    }
  }

  // A dead answer, and every other one, stays what it is ---------------------------------------

  predicate RequestStep(c: Calm) {
    c.New? || c.SendRequest? || c.TakeRequest? || c.Reserve? || c.ConfirmRequest? || c.GiveBack?
  }

  lemma RequestStepFrame(maxAttempts: int, s: State, c: Calm)
    requires Can(s, c) && RequestStep(c)
    ensures
      var u := Do(maxAttempts, s, c);
      && u.outcomesSent == s.outcomesSent && u.outcomeCopies == s.outcomeCopies && u.inbox == s.inbox
      && s.stock.outbox <= u.stock.outbox
      && u.orders == (if c.New? then s.orders[c.order := OrderRow(c.items, Pending)] else s.orders)
      && (c.New? ==> c.order !in s.minted)
  {
    if c.Reserve? {
      EffectExact(s.stock, s.requestCopies[c.copy].request, c.outcomeId);
    }
    hide Transact, RequestRouted, OutcomeRouted;
  }

  lemma SendOutcomeFrame(maxAttempts: int, s: State, row: nat)
    requires Can(s, SendOutcome(row))
    ensures
      var u := Do(maxAttempts, s, SendOutcome(row));
      && u.orders == s.orders && u.stock == s.stock && u.inbox == s.inbox
      && u.outcomesSent == s.outcomesSent + {row}
      && u.outcomeCopies == s.outcomeCopies + [OutcomeCopy(s.stock.outbox[row], 1, InQueue)]
  {}

  lemma MoveInbox(maxAttempts: int, s: State, c: Calm)
    requires Can(s, c) && OutcomeStep(c)
    ensures
      var u, o := Do(maxAttempts, s, c), s.outcomeCopies[c.copy].outcome;
      && u.inbox == (if c.Note? then s.inbox[o.messageId := o] else s.inbox)
      && u.orders == (if c.Settle? then SettleOrder(s.orders, o) else s.orders)
  {
    hide SettleOrder;
  }

  lemma AnswersDiffer(s: State, i: nat, j: nat)
    requires Inv(s) && i < |s.stock.outbox| && j < |s.stock.outbox| && i != j
    ensures s.stock.outbox[i].messageId != s.stock.outbox[j].messageId
            && s.stock.outbox[i].orderId != s.stock.outbox[j].orderId
  {
    hide RequestsOk, RequestCopiesOk, OutcomeCopiesOk, StatusOk;
    var lo, hi := if i < j then i else j, if i < j then j else i;
    assert s.stock.outbox[lo].messageId != s.stock.outbox[hi].messageId;
  }

  /** A copy that is not over belongs to an answer that is not dead: another message, and another order's. */
  lemma OtherAnswer(s: State, j: nat, k: nat)
    requires Inv(s) && DeadAt(s, j) && k < |s.outcomeCopies| && !Over(s.outcomeCopies[k].place)
    ensures
      var o, p := s.outcomeCopies[k].outcome, s.stock.outbox[j];
      o != p && o.messageId != p.messageId && o.orderId != p.orderId
  {
    hide RequestsOk, RequestCopiesOk, StockOk, StatusOk;
    var i: nat :| i < |s.stock.outbox| && s.stock.outbox[i] == s.outcomeCopies[k].outcome;
    AnswersDiffer(s, i, j);
  }

  /** What keeps an answer dead: nothing takes back its row or its mark, and no copy of it changes or joins. */
  lemma DeadKept(s: State, u: State, j: nat)
    requires DeadAt(s, j)
    requires s.stock.outbox <= u.stock.outbox && s.outcomesSent <= u.outcomesSent
    requires s.stock.outbox[j].messageId !in u.inbox
    requires forall k | 0 <= k < |u.outcomeCopies| && u.outcomeCopies[k].outcome == s.stock.outbox[j] ::
               k < |s.outcomeCopies| && u.outcomeCopies[k] == s.outcomeCopies[k]
    ensures DeadAt(u, j) && u.stock.outbox[j] == s.stock.outbox[j]
  {}

  lemma NotOver(s: State, c: Calm)
    requires Can(s, c) && (OutcomeStep(c) || c.Collide?)
    ensures c.copy < |s.outcomeCopies| && !Over(s.outcomeCopies[c.copy].place)
  {}

  lemma MoveKeepsDead(maxAttempts: int, s: State, c: Calm, j: nat)
    requires Inv(s) && Can(s, c) && OutcomeStep(c) && DeadAt(s, j)
    ensures DeadAt(Do(maxAttempts, s, c), j) && Do(maxAttempts, s, c).stock.outbox[j] == s.stock.outbox[j]
  {
    hide Inv, Do, Can;
    NotOver(s, c);
    OutcomeMove(maxAttempts, s, c);
    MoveInbox(maxAttempts, s, c);
    OtherAnswer(s, j, c.copy);
    DeadKept(s, Do(maxAttempts, s, c), j);
  }

  lemma CollideKeepsDead(maxAttempts: int, s: State, k: nat, j: nat)
    requires Inv(s) && Can(s, Collide(k)) && DeadAt(s, j)
    ensures
      var u := Do(maxAttempts, s, Collide(k));
      DeadAt(u, j) && u.stock.outbox[j] == s.stock.outbox[j]
  {
    hide Inv, Do, Can;
    NotOver(s, Collide(k));
    CollideFrame(maxAttempts, s, k);
    OtherAnswer(s, j, k);
    DeadKept(s, Do(maxAttempts, s, Collide(k)), j);
  }

  lemma SendKeepsDead(maxAttempts: int, s: State, row: nat, j: nat)
    requires Inv(s) && Can(s, SendOutcome(row)) && DeadAt(s, j)
    ensures
      var u := Do(maxAttempts, s, SendOutcome(row));
      DeadAt(u, j) && u.stock.outbox[j] == s.stock.outbox[j]
  {
    hide Inv, Do;
    SendOutcomeFrame(maxAttempts, s, row);
    AnswersDiffer(s, row, j);
    DeadKept(s, Do(maxAttempts, s, SendOutcome(row)), j);
  }

  lemma DeadStays(maxAttempts: int, s: State, c: Calm, j: nat)
    requires Inv(s) && Can(s, c) && DeadAt(s, j)
    ensures DeadAt(Do(maxAttempts, s, c), j) && Do(maxAttempts, s, c).stock.outbox[j] == s.stock.outbox[j]
  {
    hide Inv, Do, Can;
    if RequestStep(c) {
      RequestStepFrame(maxAttempts, s, c);
      DeadKept(s, Do(maxAttempts, s, c), j);
    } else if c.SendOutcome? {
      SendKeepsDead(maxAttempts, s, c.row, j);
    } else if c.Collide? {
      CollideKeepsDead(maxAttempts, s, c.copy, j);
    } else {
      MoveKeepsDead(maxAttempts, s, c, j);
    }
  }

  lemma RecordedCopy(s: State, k: nat)
    requires Inv(s) && k < |s.outcomeCopies| && s.outcomeCopies[k].place == InFlight(Recorded)
    ensures s.outcomeCopies[k].outcome.messageId in s.inbox
  {
    hide RequestsOk, RequestCopiesOk, StockOk, StatusOk;
  }

  lemma SentIsStored(s: State, j: nat)
    requires Inv(s) && j in s.outcomesSent
    ensures j < |s.stock.outbox|
  {
    hide RequestsOk, RequestCopiesOk, StockOk, StatusOk;
  }

  // A copy that a step takes to its end belongs to a recorded message.
  lemma EndIsRecorded(s: State, c: Calm)
    requires Inv(s) && Can(s, c) && ((OutcomeStep(c) && Over(PlaceAfter(s, c))) || c.Collide?)
    ensures c.copy < |s.outcomeCopies| && s.outcomeCopies[c.copy].outcome.messageId in s.inbox
  {
    hide Inv;
    if c.ConfirmOutcome? {
      RecordedCopy(s, c.copy);
    }
  }

  lemma MoveDeadBefore(maxAttempts: int, s: State, c: Calm, j: nat)
    requires Inv(s) && Can(s, c) && OutcomeStep(c) && DeadAt(Do(maxAttempts, s, c), j)
    ensures DeadAt(s, j) && Do(maxAttempts, s, c).stock.outbox[j] == s.stock.outbox[j]
  {
    hide Inv, Do, Can, PlaceAfter;
    var u := Do(maxAttempts, s, c);
    OutcomeMove(maxAttempts, s, c);
    MoveInbox(maxAttempts, s, c);
    if Over(PlaceAfter(s, c)) {
      EndIsRecorded(s, c);
    }
    assert u.outcomeCopies[c.copy].outcome == s.outcomeCopies[c.copy].outcome;
    assert forall k | 0 <= k < |s.outcomeCopies| && k != c.copy :: u.outcomeCopies[k] == s.outcomeCopies[k];
  }

  lemma CollideDeadBefore(maxAttempts: int, s: State, k: nat, j: nat)
    requires Inv(s) && Can(s, Collide(k)) && DeadAt(Do(maxAttempts, s, Collide(k)), j)
    ensures DeadAt(s, j) && Do(maxAttempts, s, Collide(k)).stock.outbox[j] == s.stock.outbox[j]
  {
    hide Inv, Do, Can;
    var u := Do(maxAttempts, s, Collide(k));
    CollideFrame(maxAttempts, s, k);
    EndIsRecorded(s, Collide(k));
    assert forall i | 0 <= i < |s.outcomeCopies| && i != k :: u.outcomeCopies[i] == s.outcomeCopies[i];
  }

  lemma SendDeadBefore(maxAttempts: int, s: State, row: nat, j: nat)
    requires Inv(s) && Can(s, SendOutcome(row)) && DeadAt(Do(maxAttempts, s, SendOutcome(row)), j)
    ensures DeadAt(s, j) && Do(maxAttempts, s, SendOutcome(row)).stock.outbox[j] == s.stock.outbox[j]
  {
    hide Inv, Do;
    var u := Do(maxAttempts, s, SendOutcome(row));
    SendOutcomeFrame(maxAttempts, s, row);
    assert u.outcomeCopies[|s.outcomeCopies|].outcome == s.stock.outbox[row];
    assert forall k | 0 <= k < |s.outcomeCopies| :: u.outcomeCopies[k] == s.outcomeCopies[k];
  }

  lemma DeadBefore(maxAttempts: int, s: State, c: Calm, j: nat)
    requires Inv(s) && Can(s, c) && DeadAt(Do(maxAttempts, s, c), j)
    ensures DeadAt(s, j) && Do(maxAttempts, s, c).stock.outbox[j] == s.stock.outbox[j]
  {
    hide Inv, Do, Can;
    if RequestStep(c) {
      RequestStepFrame(maxAttempts, s, c);
      SentIsStored(s, j);
    } else if c.SendOutcome? {
      SendDeadBefore(maxAttempts, s, c.row, j);
    } else if c.Collide? {
      CollideDeadBefore(maxAttempts, s, c.copy, j);
    } else {
      MoveDeadBefore(maxAttempts, s, c, j);
    }
  }

  lemma CalmOrders(maxAttempts: int, s: State, c: Calm, order: OrderId)
    requires Inv(s) && Can(s, c) && order in s.orders
    ensures
      var u := Do(maxAttempts, s, c);
      && order in u.orders && u.orders[order].items == s.orders[order].items
      && (s.orders[order].status != Pending ==> u.orders[order] == s.orders[order])
      && (u.orders[order] != s.orders[order] ==> c.Settle? && s.outcomeCopies[c.copy].outcome.orderId == order)
  {
    OrdersAreMinted(s.orders, s.requests, s.minted, order);
    hide Inv;
    if RequestStep(c) {
      hide Do, Can;
      RequestStepFrame(maxAttempts, s, c);
    } else if c.SendOutcome? {
      SendOutcomeFrame(maxAttempts, s, c.row);
      hide Do, Can;
    } else if c.Collide? {
      CollideFrame(maxAttempts, s, c.copy);
      hide Do, Can;
    } else {
      MoveInbox(maxAttempts, s, c);
      hide Do, Can;
    }
  }

  lemma LostStays(maxAttempts: int, s: State, c: Calm, j: nat)
    requires Inv(s) && Can(s, c) && DeadAt(s, j)
    requires var order := s.stock.outbox[j].orderId; order in s.orders && s.orders[order].status == Pending
    ensures
      var u, order := Do(maxAttempts, s, c), s.stock.outbox[j].orderId;
      order in u.orders && u.orders[order] == s.orders[order]
  {
    hide Inv, Do, Can;
    CalmOrders(maxAttempts, s, c, s.stock.outbox[j].orderId);
    if c.Settle? {
      NotOver(s, c);
      OtherAnswer(s, j, c.copy);
    }
  }

  /** No calm step kills an answer or revives one, and a lost order stays lost. */
  lemma CalmDeadExact(maxAttempts: int, s: State, c: Calm, order: OrderId)
    requires Inv(s) && Can(s, c)
    ensures AnswerDead(Do(maxAttempts, s, c), order) <==> AnswerDead(s, order)
    ensures Lost(s, order) ==> Lost(Do(maxAttempts, s, c), order)
  {
    hide Inv, Do, Can;
    var u := Do(maxAttempts, s, c);
    if AnswerDead(u, order) {
      var j: nat :| DeadAt(u, j) && u.stock.outbox[j].orderId == order;
      hide DeadAt;
      DeadBefore(maxAttempts, s, c, j);
    }
    if AnswerDead(s, order) {
      var j: nat :| DeadAt(s, j) && s.stock.outbox[j].orderId == order;
      hide DeadAt;
      DeadStays(maxAttempts, s, c, j);
      if Lost(s, order) {
        LostStays(maxAttempts, s, c, j);
      }
    }
  }

  lemma {:induction false} CalmRun(maxAttempts: int, s: State, steps: seq<Calm>, order: OrderId)
    requires Inv(s) && order in s.orders
    ensures
      var u := RunCalm(maxAttempts, s, steps);
      && order in u.orders && u.orders[order].items == s.orders[order].items
      && (s.orders[order].status != Pending ==> u.orders[order] == s.orders[order])
      && (AnswerDead(u, order) <==> AnswerDead(s, order))
      && (Lost(s, order) ==> Lost(u, order))
  {
    hide Inv, Do, Can, AnswerDead, Lost;
    if steps != [] {
      var before, c := RunCalm(maxAttempts, s, steps[..|steps| - 1]), steps[|steps| - 1];
      CalmRun(maxAttempts, s, steps[..|steps| - 1], order);
      InvRun(maxAttempts, s, steps[..|steps| - 1]);
      if Can(before, c) {
        CalmDeadExact(maxAttempts, before, c, order);
        CalmOrders(maxAttempts, before, c, order);
      }
    }
  }

  /**
   An order whose answer is dead stays PENDING in every calm run, fair or not, whatever its products and whoever orders.
   */
  lemma LostForEver(maxAttempts: int, s: State, steps: seq<Calm>, order: OrderId)
    requires Inv(s) && Lost(s, order)
    ensures
      var u := RunCalm(maxAttempts, s, steps);
      order in u.orders && u.orders[order].status == Pending && AnswerDead(u, order)
  {
    CalmRun(maxAttempts, s, steps, order);
    hide Inv, AnswerDead;
  }

  // The states of a run in which order 0, for a product nobody stocks, is rejected and its answer dead-lettered.
  const ITEMS := [Item(0, 1)]
  const REQUEST := Request(1, 0, ITEMS)
  const ANSWER := Outcome(2, 0, Rejected(NotFound(0)), ITEMS)
  const EMPTY := Tables(map[], [], map[], [])
  const REJECTED := Tables(map[], [], map[1 := REQUEST], [ANSWER])

  function Asking(copies: seq<RequestCopy>): State {
    State(map[0 := OrderRow(ITEMS, Pending)], [REQUEST], {}, copies, EMPTY, {}, [], map[], {0, 1})
  }

  function Answering(sent: set<nat>, copies: seq<OutcomeCopy>): State {
    State(map[0 := OrderRow(ITEMS, Pending)], [REQUEST], {}, [RequestCopy(REQUEST, Unacked(true))],
          REJECTED, sent, copies, map[], {0, 1, 2})
  }

  lemma UnknownProduct()
    ensures Transact(EMPTY, REQUEST, 2) == Some(REJECTED)
  {
    DecisionExact(EMPTY.inventory, ITEMS);
    assert FirstBad(EMPTY.inventory, ITEMS, 0);
    assert Check(EMPTY.inventory, ITEMS) == ANSWER.decision;
    assert EMPTY.outbox + [ANSWER] == [ANSWER] && EMPTY.inbox[1 := REQUEST] == map[1 := REQUEST];
  }

  lemma OneMoreStep(actions: seq<Action>, a: Action, s: State, u: State) returns (more: seq<Action>)
    requires Run(1, EMPTY, actions) == s && Enabled(s, a) && Apply(1, s, a) == u
    ensures Run(1, EMPTY, more) == u
  {
    more := actions + [a];
    RunOneMore(1, EMPTY, actions, a);
  }

  lemma RequestTaken() returns (actions: seq<Action>)
    ensures Run(1, EMPTY, actions) == Asking([RequestCopy(REQUEST, Unacked(false))])
  {
    assert Run(1, EMPTY, []) == Init(EMPTY);
    hide Transact, Run;
    var queued, taken := RequestCopy(REQUEST, Queued), RequestCopy(REQUEST, Unacked(false));
    actions := OneMoreStep([], Create(0, 1, ITEMS), Init(EMPTY), Asking([]));
    actions := OneMoreStep(actions, PublishRequest(0), Asking([]), Asking([queued]));
    actions := OneMoreStep(actions, DeliverRequest(0), Asking([queued]), Asking([taken]));
  }

  lemma RejectedReachable() returns (actions: seq<Action>)
    ensures Run(1, EMPTY, actions) == Answering({}, [])
  {
    actions := RequestTaken();
    UnknownProduct();
    hide Transact, Run;
    actions := OneMoreStep(actions, CommitRequest(0, 2, true), Asking([RequestCopy(REQUEST, Unacked(false))]),
                           Answering({}, []));
  }

  lemma RejectionSent(actions: seq<Action>) returns (more: seq<Action>)
    requires Run(1, EMPTY, actions) == Answering({}, [])
    ensures Run(1, EMPTY, more) == Answering({0}, [OutcomeCopy(ANSWER, 1, InQueue)])
  {
    hide Run, Transact;
    var queued := OutcomeCopy(ANSWER, 1, InQueue);
    more := OneMoreStep(actions, PublishOutcome(0), Answering({}, []), Answering({}, [queued]));
    RejectionRouted();
    more := OneMoreStep(more, MarkOutcome(0), Answering({}, [queued]), Answering({0}, [queued]));
  }

  lemma RejectionRouted()
    ensures Enabled(Answering({}, [OutcomeCopy(ANSWER, 1, InQueue)]), MarkOutcome(0))
  {
    assert Answering({}, [OutcomeCopy(ANSWER, 1, InQueue)]).outcomeCopies[0].outcome == ANSWER;
  }

  lemma RejectionDies(actions: seq<Action>) returns (more: seq<Action>)
    requires Run(1, EMPTY, actions) == Answering({0}, [OutcomeCopy(ANSWER, 1, InQueue)])
    ensures Run(1, EMPTY, more)
            == Answering({0}, [OutcomeCopy(ANSWER, 1, Gone), OutcomeCopy(ANSWER, 1, DeadLettered)])
  {
    hide Run, Transact;
    var queued, taken := OutcomeCopy(ANSWER, 1, InQueue), OutcomeCopy(ANSWER, 1, InFlight(Delivered));
    var over := [OutcomeCopy(ANSWER, 1, Gone), OutcomeCopy(ANSWER, 1, DeadLettered)];
    more := OneMoreStep(actions, DeliverOutcome(0), Answering({0}, [queued]), Answering({0}, [taken]));
    more := OneMoreStep(more, FailOutcome(0, true), Answering({0}, [taken]), Answering({0}, over));
  }

  /** An order can get lost: with one attempt allowed, one failed handling of its answer is enough. */
  lemma LostReachable() returns (actions: seq<Action>)
    ensures Seeded(EMPTY) && Lost(Run(1, EMPTY, actions), 0)
  {
    assert Seeded(EMPTY);
    hide Run, Seeded, Valid;
    actions := RejectedReachable();
    actions := RejectionSent(actions);
    actions := RejectionDies(actions);
    assert DeadAt(Run(1, EMPTY, actions), 0);
  }

  // Bounded work ------------------------------------------------------------------------------

  /** No step of the run adds to the measured work. */
  ghost predicate Undisturbed(who: Scope, maxAttempts: int, s: State, steps: seq<Calm>) {
    steps != [] ==>
      var before, c := RunCalm(maxAttempts, s, steps[..|steps| - 1]), steps[|steps| - 1];
      Undisturbed(who, maxAttempts, s, steps[..|steps| - 1]) && (Can(before, c) ==> !Rises(who, before, c))
  }

  lemma {:induction false} ProductiveBound(who: Scope, maxAttempts: nat, seed: Tables, s: State, steps: seq<Calm>)
    requires 0 < maxAttempts <= INT_MAX && Sane(maxAttempts, seed, s) && Undisturbed(who, maxAttempts, s, steps)
    ensures Measure(who, maxAttempts, RunCalm(maxAttempts, s, steps)) + Productive(who, maxAttempts, s, steps)
            <= Measure(who, maxAttempts, s)
  {
    if steps != [] {
      var before, c := RunCalm(maxAttempts, s, steps[..|steps| - 1]), steps[|steps| - 1];
      hide Inv, Valid, Balanced, AttemptsOk, Measure, Do, Can, Matters, Rises;
      ProductiveBound(who, maxAttempts, seed, s, steps[..|steps| - 1]);
      SaneRun(maxAttempts, seed, s, steps[..|steps| - 1]);
      if Can(before, c) {
        EveryStepFalls(who, maxAttempts, before, c);
      }
    }
  }

  // A request of the order is what the order says, so its transaction commits as the lines allow.
  lemma FittingCommits(maxAttempts: int, seed: Tables, s: State, order: OrderId)
    requires Sane(maxAttempts, seed, s) && order in s.orders
    requires var items := s.orders[order].items; Distinct(items, |items|) && FitsFor(seed, items)
    ensures CommitsNow(s, order)
  {
    forall r | r in s.requests && r.orderId == order ensures Transact(s.stock, r, 0).Some? {
      RequestIsOrdered(s.orders, s.requests, s.minted, r);
      hide Inv, Valid, Balanced, AttemptsOk, Distinct, FitsFor, Transact;
      GoodCommits(maxAttempts, seed, s, r, 0);
    }
  }

  lemma CopyIsKnown(s: State, k: nat)
    requires Inv(s) && k < |s.requestCopies|
    ensures s.requestCopies[k].request in s.requests
  {
    hide RequestsOk, StockOk, OutcomeCopiesOk, StatusOk;
  }

  // While its transaction commits, nothing adds to an order's own work.
  lemma OwnNeverRises(s: State, c: Calm, order: OrderId)
    requires Inv(s) && order in s.orders && CommitsNow(s, order) && Can(s, c)
    ensures !Rises(Only(order), s, c)
  {
    OrdersAreMinted(s.orders, s.requests, s.minted, order);
    if c.GiveBack? {
      CopyIsKnown(s, c.copy);
    }
    hide Inv, Transact;
  }

  // With stock that fits and no new orders, nothing adds to anybody's: only repeated products are given back.
  lemma NobodyRises(maxAttempts: int, seed: Tables, s: State, c: Calm)
    requires Sane(maxAttempts, seed, s) && Fits(seed) && Can(s, c) && !c.New?
    ensures !Rises(Everyone, s, c)
  {
    if c.GiveBack? {
      var r := s.requestCopies[c.copy].request;
      CopyIsKnown(s, c.copy);
      hide Inv, Valid, Balanced, AttemptsOk, Transact;
      if Good(r) {
        GoodCommits(maxAttempts, seed, s, r, 0);
      }
    }
  }

  lemma {:induction false} OwnUndisturbed(maxAttempts: int, seed: Tables, s: State, steps: seq<Calm>, order: OrderId)
    requires 0 < maxAttempts <= INT_MAX && Sane(maxAttempts, seed, s) && order in s.orders
    requires var items := s.orders[order].items; Distinct(items, |items|) && FitsFor(seed, items)
    ensures Undisturbed(Only(order), maxAttempts, s, steps)
  {
    if steps != [] {
      var fewer, c := steps[..|steps| - 1], steps[|steps| - 1];
      OwnUndisturbed(maxAttempts, seed, s, fewer, order);
      CalmRun(maxAttempts, s, fewer, order);
      SaneRun(maxAttempts, seed, s, fewer);
      var before := RunCalm(maxAttempts, s, fewer);
      hide Inv, Valid, Balanced, AttemptsOk, Distinct, FitsFor, Can, Rises, RunCalm, CommitsNow, AnswerDead, Lost;
      if Can(before, c) {
        FittingCommits(maxAttempts, seed, before, order);
        OwnNeverRises(before, c, order);
      }
    }
  }

  lemma {:induction false} QuietUndisturbed(maxAttempts: int, seed: Tables, s: State, steps: seq<Calm>)
    requires 0 < maxAttempts <= INT_MAX && Sane(maxAttempts, seed, s) && Fits(seed)
    requires forall i | 0 <= i < |steps| :: !steps[i].New?
    ensures Undisturbed(Everyone, maxAttempts, s, steps)
  {
    if steps != [] {
      var fewer, c := steps[..|steps| - 1], steps[|steps| - 1];
      QuietUndisturbed(maxAttempts, seed, s, fewer);
      SaneRun(maxAttempts, seed, s, fewer);
      hide Sane, Fits, Can, Rises, RunCalm;
      if Can(RunCalm(maxAttempts, s, fewer), c) {
        NobodyRises(maxAttempts, seed, RunCalm(maxAttempts, s, fewer), c);
      }
    }
  }

  lemma WaitsOn(s: State, u: State, order: OrderId)
    requires Waiting(s, order)
    requires order in u.orders && u.orders[order].status == Pending
    requires AnswerDead(u, order) <==> AnswerDead(s, order)
    ensures Waiting(u, order)
  {
    hide AnswerDead;
  }

  /**
   Take any reachable state and any calm run from it, with as many new orders as you like. For an order with distinct
   products whose seeded totals fit their column, at most Measure steps on its own messages matter; and as long as it
   waits there is one more to take.
   */
  lemma Progress(maxAttempts: nat, seed: Tables, actions: seq<Action>, steps: seq<Calm>, order: OrderId)
    requires 0 < maxAttempts <= INT_MAX && Seeded(seed)
    requires Waiting(Run(maxAttempts, seed, actions), order)
    requires
      var items := Run(maxAttempts, seed, actions).orders[order].items;
      Distinct(items, |items|) && FitsFor(seed, items)
    ensures
      var s := Run(maxAttempts, seed, actions);
      var u := RunCalm(maxAttempts, s, steps);
      && Productive(Only(order), maxAttempts, s, steps) <= Measure(Only(order), maxAttempts, s)
      && order in u.orders
      && (u.orders[order].status == Pending ==> Waiting(u, order) && exists c :: Useful(Only(order), u, c))
  {
    var s := Run(maxAttempts, seed, actions);
    assert order in s.orders;
    SaneAlways(maxAttempts, seed, actions);
    SaneIsInv(maxAttempts, seed, s);
    hide *;
    OwnUndisturbed(maxAttempts, seed, s, steps, order);
    ProductiveBound(Only(order), maxAttempts, seed, s, steps);
    CalmRun(maxAttempts, s, steps, order);
    SaneRun(maxAttempts, seed, s, steps);
    var u := RunCalm(maxAttempts, s, steps);
    SaneIsInv(maxAttempts, seed, u);
    if u.orders[order].status == Pending {
      WaitsOn(s, u, order);
      FittingCommits(maxAttempts, seed, u, order);
      var c := SomethingToDo(u, order);
    }
  }

  lemma SaneIsInv(maxAttempts: int, seed: Tables, s: State)
    requires Sane(maxAttempts, seed, s)
    ensures Inv(s)
  {
    hide Inv, Valid, Balanced, AttemptsOk;
  }

  /** With no new orders and stock that fits throughout, the work of all orders together is bounded too. */
  lemma QuietProgress(maxAttempts: nat, seed: Tables, actions: seq<Action>, steps: seq<Calm>)
    requires 0 < maxAttempts <= INT_MAX && Seeded(seed) && Fits(seed)
    requires forall i | 0 <= i < |steps| :: !steps[i].New?
    ensures
      var s := Run(maxAttempts, seed, actions);
      Productive(Everyone, maxAttempts, s, steps) <= Measure(Everyone, maxAttempts, s)
  {
    var s := Run(maxAttempts, seed, actions);
    hide *;
    SaneAlways(maxAttempts, seed, actions);
    QuietUndisturbed(maxAttempts, seed, s, steps);
    ProductiveBound(Everyone, maxAttempts, seed, s, steps);
  }

  // A schedule that settles -------------------------------------------------------------------

  ghost predicate Settleable(seed: Tables, s: State, order: OrderId) {
    && Waiting(s, order)
    && Distinct(s.orders[order].items, |s.orders[order].items|) && FitsFor(seed, s.orders[order].items)
  }

  predicate Settled(s: State, order: OrderId) {
    order in s.orders && s.orders[order].status != Pending
  }

  ghost predicate AllSettled(seed: Tables, s: State, u: State) {
    forall order | Settleable(seed, s, order) :: Settled(u, order)
  }

  // What helps an order with distinct products helps everyone.
  lemma OwnCopyIsGood(s: State, k: nat, order: OrderId)
    requires Inv(s) && order in s.orders && Distinct(s.orders[order].items, |s.orders[order].items|)
    requires k < |s.requestCopies| && s.requestCopies[k].request.orderId == order
    ensures Good(s.requestCopies[k].request)
  {
    CopyIsKnown(s, k);
    RequestIsOrdered(s.orders, s.requests, s.minted, s.requestCopies[k].request);
    hide Inv, Distinct;
  }

  lemma UsefulToAll(s: State, c: Calm, order: OrderId)
    requires Inv(s) && order in s.orders && Distinct(s.orders[order].items, |s.orders[order].items|)
    requires Useful(Only(order), s, c)
    ensures Useful(Everyone, s, c)
  {
    hide Inv, Transact, Distinct, Good;
    if (c.TakeRequest? || c.ConfirmRequest? || c.Reserve?) && s.requestCopies[c.copy].request.orderId == order {
      OwnCopyIsGood(s, c.copy, order);
    }
  }

  lemma UsefulStep(maxAttempts: nat, seed: Tables, s: State, order: OrderId) returns (c: Calm)
    requires Sane(maxAttempts, seed, s) && Settleable(seed, s, order)
    ensures Useful(Everyone, s, c)
  {
    hide Inv, Valid, Balanced, AttemptsOk, AnswerDead, Distinct, FitsFor, CommitsNow, Useful;
    FittingCommits(maxAttempts, seed, s, order);
    c := SomethingToDo(s, order);
    UsefulToAll(s, c, order);
  }

  /** A schedule without new orders that settles every order that can be settled, no longer than the measure. */
  lemma {:induction false} SettlingRun(maxAttempts: nat, seed: Tables, s: State) returns (steps: seq<Calm>)
    requires 0 < maxAttempts <= INT_MAX && Sane(maxAttempts, seed, s)
    ensures |steps| <= Measure(Everyone, maxAttempts, s) && forall i | 0 <= i < |steps| :: !steps[i].New?
    ensures AllSettled(seed, s, RunCalm(maxAttempts, s, steps))
    decreases Measure(Everyone, maxAttempts, s)
  {
    hide Inv, Valid, Balanced, AttemptsOk, Measure, Do, Can, Settleable;
    steps := [];
    if order :| Settleable(seed, s, order) {
      var c := UsefulStep(maxAttempts, seed, s, order);
      EveryStepFalls(Everyone, maxAttempts, s, c);
      DoKeepsSane(maxAttempts, seed, s, c);
      var rest := SettlingRun(maxAttempts, seed, Do(maxAttempts, s, c));
      steps := [c] + rest;
      RunFrom(maxAttempts, s, c, rest);
      SettledAfterStep(maxAttempts, seed, s, c, rest);
    }
  }

  lemma {:induction false} RunFrom(maxAttempts: int, s: State, c: Calm, rest: seq<Calm>)
    requires Can(s, c)
    ensures RunCalm(maxAttempts, s, [c] + rest) == RunCalm(maxAttempts, Do(maxAttempts, s, c), rest)
  {
    hide Can, Do;
    if rest == [] {
      assert [c] + rest == [c] && [c][..0] == [];
    } else {
      RunFrom(maxAttempts, s, c, rest[..|rest| - 1]);
      assert ([c] + rest)[..|[c] + rest| - 1] == [c] + rest[..|rest| - 1];
    }
  }

  lemma SettledAfterStep(maxAttempts: nat, seed: Tables, s: State, c: Calm, rest: seq<Calm>)
    requires 0 < maxAttempts <= INT_MAX && Sane(maxAttempts, seed, s) && Can(s, c)
    requires AllSettled(seed, Do(maxAttempts, s, c), RunCalm(maxAttempts, Do(maxAttempts, s, c), rest))
    ensures AllSettled(seed, s, RunCalm(maxAttempts, Do(maxAttempts, s, c), rest))
  {
    var u := Do(maxAttempts, s, c);
    hide Inv, Valid, Balanced, AttemptsOk, Do, Can, AnswerDead, Lost, RunCalm, Distinct, FitsFor;
    DoKeepsSane(maxAttempts, seed, s, c);
    forall order | Settleable(seed, s, order) ensures Settled(RunCalm(maxAttempts, u, rest), order) {
      CalmDeadExact(maxAttempts, s, c, order);
      CalmOrders(maxAttempts, s, c, order);
      CalmRun(maxAttempts, u, rest, order);
      if u.orders[order].status == Pending {
        WaitsOn(s, u, order);
      }
    }
  }

  // Fair runs ---------------------------------------------------------------------------------

  function Prefix(run: nat -> Calm, n: nat): seq<Calm> {
    seq(n, i requires 0 <= i < n => run(i))
  }

  /** The state after the first n steps of an infinite run. */
  function At(maxAttempts: int, s: State, run: nat -> Calm, n: nat): State {
    RunCalm(maxAttempts, s, Prefix(run, n))
  }

  /**
   Whenever a useful step could be taken, a useful step is taken in the end. For Only(order): on the order's own
   messages, however many others come between. For Everyone: on anybody's.
   */
  ghost predicate Fair(who: Scope, maxAttempts: int, s: State, run: nat -> Calm) {
    forall n: nat | exists c :: Useful(who, At(maxAttempts, s, run, n), c) ::
      exists m: nat :: m >= n && Useful(who, At(maxAttempts, s, run, m), run(m))
  }

  ghost predicate SettledFrom(maxAttempts: int, s: State, run: nat -> Calm, n: nat, order: OrderId) {
    forall m: nat | m >= n :: Settled(At(maxAttempts, s, run, m), order)
  }

  ghost predicate CommitsFrom(maxAttempts: int, s: State, run: nat -> Calm, n: nat, order: OrderId) {
    forall m: nat | m >= n :: CommitsNow(At(maxAttempts, s, run, m), order)
  }

  /** From step n on no step adds to the measured work, and while the order waits a useful step is possible. */
  ghost predicate Clear(who: Scope, maxAttempts: int, s: State, run: nat -> Calm, n: nat, order: OrderId) {
    forall m: nat | m >= n ::
      var u := At(maxAttempts, s, run, m);
      && (Can(u, run(m)) ==> !Rises(who, u, run(m)))
      && (Waiting(u, order) ==> exists c :: Useful(who, u, c))
  }

  lemma AtNext(maxAttempts: int, s: State, run: nat -> Calm, n: nat)
    ensures
      var before, c := At(maxAttempts, s, run, n), run(n);
      At(maxAttempts, s, run, n + 1) == if Can(before, c) then Do(maxAttempts, before, c) else before
  {
    hide Can, Do;
    assert Prefix(run, n + 1)[..n] == Prefix(run, n);
  }

  lemma AtStart(maxAttempts: int, s: State, run: nat -> Calm)
    ensures At(maxAttempts, s, run, 0) == s
  {
    assert Prefix(run, 0) == [];
  }

  lemma SaneAt(maxAttempts: nat, seed: Tables, s: State, run: nat -> Calm, n: nat)
    requires 0 < maxAttempts <= INT_MAX && Sane(maxAttempts, seed, s)
    ensures Sane(maxAttempts, seed, At(maxAttempts, s, run, n)) && Inv(At(maxAttempts, s, run, n))
  {
    hide Sane;
    SaneRun(maxAttempts, seed, s, Prefix(run, n));
    SaneIsInv(maxAttempts, seed, At(maxAttempts, s, run, n));
  }

  lemma OneStepDown(who: Scope, maxAttempts: nat, seed: Tables, s: State, run: nat -> Calm, n: nat, order: OrderId,
                    m: nat)
    requires 0 < maxAttempts <= INT_MAX && Sane(maxAttempts, seed, s)
    requires Clear(who, maxAttempts, s, run, n, order) && m >= n
    ensures
      var u := At(maxAttempts, s, run, m);
      var w, v := Measure(who, maxAttempts, u), Measure(who, maxAttempts, At(maxAttempts, s, run, m + 1));
      if Useful(who, u, run(m)) then v < w else v == w
  {
    var u := At(maxAttempts, s, run, m);
    assert Can(u, run(m)) ==> !Rises(who, u, run(m));
    SaneAt(maxAttempts, seed, s, run, m);
    AtNext(maxAttempts, s, run, m);
    hide Inv, Valid, Balanced, AttemptsOk, Clear, Measure, Can, Do, At, Matters, Rises;
    if Can(u, run(m)) {
      EveryStepFalls(who, maxAttempts, u, run(m));
    }
  }

  lemma {:induction false} NeverRisesAgain(who: Scope, maxAttempts: nat, seed: Tables, s: State, run: nat -> Calm,
                                           n: nat,
                                           order: OrderId, k: nat, m: nat)
    requires 0 < maxAttempts <= INT_MAX && Sane(maxAttempts, seed, s)
    requires Clear(who, maxAttempts, s, run, n, order) && n <= k <= m
    ensures Measure(who, maxAttempts, At(maxAttempts, s, run, m))
            <= Measure(who, maxAttempts, At(maxAttempts, s, run, k))
    decreases m - k
  {
    hide *;
    if k < m {
      NeverRisesAgain(who, maxAttempts, seed, s, run, n, order, k, m - 1);
      OneStepDown(who, maxAttempts, seed, s, run, n, order, m - 1);
    }
  }

  lemma FairMoment(who: Scope, maxAttempts: int, s: State, run: nat -> Calm, n: nat, order: OrderId, k: nat)
    returns (m: nat)
    requires Fair(who, maxAttempts, s, run) && Clear(who, maxAttempts, s, run, n, order) && k >= n
    requires Waiting(At(maxAttempts, s, run, k), order)
    ensures m >= k && Useful(who, At(maxAttempts, s, run, m), run(m))
  {
    hide At, Useful, Can, Rises, Waiting;
    m :| m >= k && Useful(who, At(maxAttempts, s, run, m), run(m));
  }

  // As long as the order waits, a fair run lowers the measure again.
  lemma FairStep(who: Scope, maxAttempts: nat, seed: Tables, s: State, run: nat -> Calm, n: nat, order: OrderId, k: nat)
    returns (m: nat)
    requires 0 < maxAttempts <= INT_MAX && Sane(maxAttempts, seed, s)
    requires Fair(who, maxAttempts, s, run) && Clear(who, maxAttempts, s, run, n, order) && k >= n
    requires Waiting(At(maxAttempts, s, run, k), order)
    ensures m > k
    ensures Measure(who, maxAttempts, At(maxAttempts, s, run, m))
            < Measure(who, maxAttempts, At(maxAttempts, s, run, k))
  {
    hide *;
    var i := FairMoment(who, maxAttempts, s, run, n, order, k);
    NeverRisesAgain(who, maxAttempts, seed, s, run, n, order, k, i);
    OneStepDown(who, maxAttempts, seed, s, run, n, order, i);
    m := i + 1;
  }

  lemma WaitsOrSettled(maxAttempts: int, s: State, run: nat -> Calm, order: OrderId, k: nat)
    requires Inv(s) && order in s.orders && !Lost(s, order)
    ensures Waiting(At(maxAttempts, s, run, k), order) || Settled(At(maxAttempts, s, run, k), order)
  {
    CalmRun(maxAttempts, s, Prefix(run, k), order);
    hide Inv, AnswerDead;
  }

  lemma {:induction false} SettledAfter(who: Scope, maxAttempts: nat, seed: Tables, s: State, run: nat -> Calm, n: nat,
                                        order: OrderId, k: nat)
    returns (m: nat)
    requires 0 < maxAttempts <= INT_MAX && Sane(maxAttempts, seed, s) && order in s.orders && !Lost(s, order)
    requires Fair(who, maxAttempts, s, run) && Clear(who, maxAttempts, s, run, n, order) && k >= n
    ensures Settled(At(maxAttempts, s, run, m), order)
    decreases Measure(who, maxAttempts, At(maxAttempts, s, run, k))
  {
    hide *;
    SaneIsInv(maxAttempts, seed, s);
    WaitsOrSettled(maxAttempts, s, run, order, k);
    m := k;
    if !Settled(At(maxAttempts, s, run, k), order) {
      var i := FairStep(who, maxAttempts, seed, s, run, n, order, k);
      m := SettledAfter(who, maxAttempts, seed, s, run, n, order, i);
    }
  }

  lemma {:induction false} SettledLater(maxAttempts: int, s: State, run: nat -> Calm, n: nat, m: nat, order: OrderId)
    requires Inv(s) && n <= m && Settled(At(maxAttempts, s, run, n), order)
    ensures Settled(At(maxAttempts, s, run, m), order)
    decreases m - n
  {
    hide Inv, Can, Do, At;
    if n < m {
      SettledLater(maxAttempts, s, run, n, m - 1, order);
      AtNext(maxAttempts, s, run, m - 1);
      InvAt(maxAttempts, s, run, m - 1);
      if Can(At(maxAttempts, s, run, m - 1), run(m - 1)) {
        CalmOrders(maxAttempts, At(maxAttempts, s, run, m - 1), run(m - 1), order);
      }
    }
  }

  lemma InvAt(maxAttempts: int, s: State, run: nat -> Calm, n: nat)
    requires Inv(s)
    ensures Inv(At(maxAttempts, s, run, n))
  {
    hide Inv;
    InvRun(maxAttempts, s, Prefix(run, n));
  }

  lemma StaysSettled(maxAttempts: int, s: State, run: nat -> Calm, n: nat, order: OrderId)
    requires Inv(s) && Settled(At(maxAttempts, s, run, n), order)
    ensures SettledFrom(maxAttempts, s, run, n, order)
  {
    hide Inv, At;
    forall m: nat | m >= n ensures Settled(At(maxAttempts, s, run, m), order) {
      SettledLater(maxAttempts, s, run, n, m, order);
    }
  }

  lemma LostNeverSettles(maxAttempts: int, s: State, run: nat -> Calm, order: OrderId)
    requires Inv(s) && Lost(s, order)
    ensures forall n: nat :: !SettledFrom(maxAttempts, s, run, n, order)
  {
    hide Inv, AnswerDead;
    forall n: nat ensures !SettledFrom(maxAttempts, s, run, n, order) {
      LostForEver(maxAttempts, s, Prefix(run, n), order);
      assert !Settled(At(maxAttempts, s, run, n), order);
    }
  }

  // When the transaction commits from n on, the order's own part of the run is clear.
  lemma CommittingIsClear(maxAttempts: nat, s: State, run: nat -> Calm, n: nat, order: OrderId)
    requires Inv(s) && order in s.orders && CommitsFrom(maxAttempts, s, run, n, order)
    ensures Clear(Only(order), maxAttempts, s, run, n, order)
  {
    hide Inv, At, Can, Rises, Useful, CommitsNow, AnswerDead, Lost;
    forall m: nat | m >= n
      ensures
        var u := At(maxAttempts, s, run, m);
        && (Can(u, run(m)) ==> !Rises(Only(order), u, run(m)))
        && (Waiting(u, order) ==> exists c :: Useful(Only(order), u, c))
    {
      var u := At(maxAttempts, s, run, m);
      InvAt(maxAttempts, s, run, m);
      OrderAt(maxAttempts, s, run, m, order);
      if Can(u, run(m)) {
        OwnNeverRises(u, run(m), order);
      }
      if Waiting(u, order) {
        var c := SomethingToDo(u, order);
      }
    }
  }

  lemma OrderAt(maxAttempts: int, s: State, run: nat -> Calm, n: nat, order: OrderId)
    requires Inv(s) && order in s.orders
    ensures
      var u := At(maxAttempts, s, run, n);
      order in u.orders && u.orders[order].items == s.orders[order].items
  {
    hide Inv;
    CalmRun(maxAttempts, s, Prefix(run, n), order);
  }

  lemma SettledIsAnswered(s: State, order: OrderId)
    requires Inv(s) && Settled(s, order)
    ensures Answered(s.stock.outbox, order)
  {
    hide RequestsOk, RequestCopiesOk, StockOk, OutcomeCopiesOk;
  }

  // An answered request is known to inventory, so its transaction commits without effect.
  lemma AnsweredCommits(s: State, order: OrderId)
    requires Inv(s) && Answered(s.stock.outbox, order)
    ensures CommitsNow(s, order)
  {
    hide RequestsOk, RequestCopiesOk, OutcomeCopiesOk, StatusOk;
    var i: nat :| i < |s.stock.outbox| && s.stock.outbox[i].orderId == order;
    forall r | r in s.requests && r.orderId == order ensures Transact(s.stock, r, 0).Some? {
      var j :| 0 <= j < |s.requests| && s.requests[j] == r;
      assert s.requests[j].messageId in s.stock.inbox;
    }
  }

  /**
   When an order settles, for any order, any stock and any flow of new orders: in a run that is fair to it, it is
   CONFIRMED or FAILED from some moment on if and only if its answer had not died before it was applied and its
   transaction commits from some moment on.
   */
  lemma SettlesExact(maxAttempts: nat, seed: Tables, actions: seq<Action>, run: nat -> Calm, order: OrderId)
    requires 0 < maxAttempts <= INT_MAX && Seeded(seed)
    requires order in Run(maxAttempts, seed, actions).orders
    requires Fair(Only(order), maxAttempts, Run(maxAttempts, seed, actions), run)
    ensures
      var s := Run(maxAttempts, seed, actions);
      (exists n: nat :: SettledFrom(maxAttempts, s, run, n, order))
      <==> !Lost(s, order) && exists n: nat :: CommitsFrom(maxAttempts, s, run, n, order)
  {
    var s := Run(maxAttempts, seed, actions);
    SaneAlways(maxAttempts, seed, actions);
    SaneIsInv(maxAttempts, seed, s);
    hide Run, Sane, Inv, Fair, Lost, CommitsNow, At, Clear, Settled;
    if n: nat :| SettledFrom(maxAttempts, s, run, n, order) {
      if Lost(s, order) {
        LostNeverSettles(maxAttempts, s, run, order);
      }
      forall m: nat | m >= n ensures CommitsNow(At(maxAttempts, s, run, m), order) {
        InvAt(maxAttempts, s, run, m);
        SettledIsAnswered(At(maxAttempts, s, run, m), order);
        AnsweredCommits(At(maxAttempts, s, run, m), order);
      }
      assert CommitsFrom(maxAttempts, s, run, n, order);
    }
    if !Lost(s, order) {
      if n: nat :| CommitsFrom(maxAttempts, s, run, n, order) {
        CommittingIsClear(maxAttempts, s, run, n, order);
        var m := SettledAfter(Only(order), maxAttempts, seed, s, run, n, order, n);
        StaysSettled(maxAttempts, s, run, m, order);
      }
    }
  }

  /**
   Progress. Take any reachable state and an order with distinct products whose seeded totals fit their column. In every
   run fair to it, whatever other orders arrive, it is CONFIRMED or FAILED from some moment on if and only if it was not
   lost when the faults stopped: still PENDING, with its answer sent, not recorded, and every copy dead-lettered or
   gone.
   */
  lemma FairRunSettlesExact(maxAttempts: nat, seed: Tables, actions: seq<Action>, run: nat -> Calm, order: OrderId)
    requires 0 < maxAttempts <= INT_MAX && Seeded(seed)
    requires order in Run(maxAttempts, seed, actions).orders
    requires Fair(Only(order), maxAttempts, Run(maxAttempts, seed, actions), run)
    requires
      var items := Run(maxAttempts, seed, actions).orders[order].items;
      Distinct(items, |items|) && FitsFor(seed, items)
    ensures
      var s := Run(maxAttempts, seed, actions);
      (exists n: nat :: SettledFrom(maxAttempts, s, run, n, order)) <==> !Lost(s, order)
  {
    var s := Run(maxAttempts, seed, actions);
    SaneAlways(maxAttempts, seed, actions);
    SaneIsInv(maxAttempts, seed, s);
    hide Run, Sane, Inv, Fair, Lost, CommitsNow, At, SettledFrom, Distinct, FitsFor;
    SettlesExact(maxAttempts, seed, actions, run, order);
    forall m: nat | m >= 0 ensures CommitsNow(At(maxAttempts, s, run, m), order) {
      SaneAt(maxAttempts, seed, s, run, m);
      OrderAt(maxAttempts, s, run, m, order);
      FittingCommits(maxAttempts, seed, At(maxAttempts, s, run, m), order);
    }
    assert CommitsFrom(maxAttempts, s, run, 0, order);
  }

  /**
   The same under less fairness, when no more orders arrive and all stock fits: it is enough that something useful to
   anybody is done in the end.
   */
  lemma QuietRunSettlesExact(maxAttempts: nat, seed: Tables, actions: seq<Action>, run: nat -> Calm, order: OrderId)
    requires 0 < maxAttempts <= INT_MAX && Seeded(seed) && Fits(seed) && forall n: nat :: !run(n).New?
    requires order in Run(maxAttempts, seed, actions).orders
    requires Fair(Everyone, maxAttempts, Run(maxAttempts, seed, actions), run)
    requires var items := Run(maxAttempts, seed, actions).orders[order].items; Distinct(items, |items|)
    ensures
      var s := Run(maxAttempts, seed, actions);
      (exists n: nat :: SettledFrom(maxAttempts, s, run, n, order)) <==> !Lost(s, order)
  {
    var s := Run(maxAttempts, seed, actions);
    SaneAlways(maxAttempts, seed, actions);
    SaneIsInv(maxAttempts, seed, s);
    hide Run, Sane, Inv, Fits, Fair, Lost, At, SettledFrom, Distinct;
    if Lost(s, order) {
      LostNeverSettles(maxAttempts, s, run, order);
    } else {
      QuietIsClear(maxAttempts, seed, s, run, order);
      var m := SettledAfter(Everyone, maxAttempts, seed, s, run, 0, order, 0);
      StaysSettled(maxAttempts, s, run, m, order);
    }
  }

  lemma QuietIsClear(maxAttempts: nat, seed: Tables, s: State, run: nat -> Calm, order: OrderId)
    requires 0 < maxAttempts <= INT_MAX && Sane(maxAttempts, seed, s) && Fits(seed) && forall n: nat :: !run(n).New?
    requires order in s.orders && Distinct(s.orders[order].items, |s.orders[order].items|)
    ensures Clear(Everyone, maxAttempts, s, run, 0, order)
  {
    var items := s.orders[order].items;
    assert FitsFor(seed, items);
    SaneIsInv(maxAttempts, seed, s);
    hide Sane, Inv, Fits, FitsFor, Distinct, At, Can, Rises, Useful, AnswerDead;
    forall m: nat
      ensures
        var u := At(maxAttempts, s, run, m);
        && (Can(u, run(m)) ==> !Rises(Everyone, u, run(m)))
        && (Waiting(u, order) ==> exists c :: Useful(Everyone, u, c))
    {
      var u := At(maxAttempts, s, run, m);
      SaneAt(maxAttempts, seed, s, run, m);
      OrderAt(maxAttempts, s, run, m, order);
      if Can(u, run(m)) {
        NobodyRises(maxAttempts, seed, u, run(m));
      }
      if Waiting(u, order) {
        var c := UsefulStep(maxAttempts, seed, u, order);
      }
    }
  }

  // Orders that repeat a product --------------------------------------------------------------

  /** The stock check would reject the order's lines now. */
  predicate RejectsNow(s: State, order: OrderId) {
    order in s.orders && Check(s.stock.inventory, s.orders[order].items).Rejected?
  }

  lemma StockMoves(maxAttempts: int, s: State, c: Calm)
    requires Can(s, c)
    ensures
      var u := Do(maxAttempts, s, c);
      if c.Reserve? then
        && c.copy < |s.requestCopies|
        && Transact(s.stock, s.requestCopies[c.copy].request, c.outcomeId) == Some(u.stock)
      else u.stock == s.stock
  {
    hide Transact;
    if c.SendOutcome? {
      SendOutcomeFrame(maxAttempts, s, c.row);
      hide Do, Can;
    } else if c.Collide? {
      CollideFrame(maxAttempts, s, c.copy);
      hide Do, Can;
    } else if OutcomeStep(c) {
      OutcomeMove(maxAttempts, s, c);
      hide Do, Can;
    }
  }

  // Calm steps never add to available stock.
  lemma StockFalls(maxAttempts: int, s: State, c: Calm)
    requires Inv(s) && Can(s, c)
    ensures
      var was, now := s.stock.inventory, Do(maxAttempts, s, c).stock.inventory;
      now.Keys == was.Keys && forall p | p in was :: now[p].available <= was[p].available
  {
    StockMoves(maxAttempts, s, c);
    hide Do, Can, Transact;
    if c.Reserve? {
      var r := s.requestCopies[c.copy].request;
      CopyIsKnown(s, c.copy);
      PositiveItems(s.orders, s.requests, s.minted, r);
      TakesOnly(s.stock, r, c.outcomeId);
    }
    hide Inv;
  }

  lemma TakesOnly(t: Tables, r: Request, outcomeId: MessageId)
    requires Transact(t, r, outcomeId).Some? && forall i | 0 <= i < |r.items| :: r.items[i].quantity > 0
    ensures
      var now := Transact(t, r, outcomeId).value.inventory;
      now.Keys == t.inventory.Keys && forall p | p in t.inventory :: now[p].available <= t.inventory[p].available
  {
    TransactKeepsProducts(t, r, outcomeId);
    EffectExact(t, r, outcomeId);
    hide Transact, Rows, Admissible;
    if r.messageId !in t.inbox && Check(t.inventory, r.items).Sufficient? {
      forall p | p in t.inventory
        ensures (t.inventory + Written(t.inventory, r.items, |r.items|))[p].available <= t.inventory[p].available
      {
        WrittenTakes(t.inventory, r.items, |r.items|, p);
      }
    }
    hide Written, Check;
  }

  lemma {:induction false} WrittenTakes(snapshot: map<ProductId, StockRow>, items: seq<Item>, n: nat, p: ProductId)
    requires n <= |items| && forall i | 0 <= i < n :: items[i].product in snapshot && items[i].quantity > 0
    ensures p in Written(snapshot, items, n) ==>
              p in snapshot && Written(snapshot, items, n)[p].available <= snapshot[p].available
  {
    if n > 0 {
      WrittenTakes(snapshot, items, n - 1, p);
    }
  }

  lemma RejectionPersists(was: map<ProductId, StockRow>, now: map<ProductId, StockRow>, items: seq<Item>)
    requires now.Keys == was.Keys && forall p | p in was :: now[p].available <= was[p].available
    requires Check(was, items).Rejected?
    ensures Check(now, items).Rejected?
  {
    DecisionExact(was, items);
    DecisionExact(now, items);
    hide Check;
    var k: nat :| FirstBad(was, items, k);
    assert !LineOk(now, items[k]);
  }

  lemma {:induction false} RejectsFrom(maxAttempts: int, s: State, run: nat -> Calm, n: nat, m: nat, order: OrderId)
    requires Inv(s) && order in s.orders && RejectsNow(At(maxAttempts, s, run, n), order) && n <= m
    ensures RejectsNow(At(maxAttempts, s, run, m), order)
    decreases m - n
  {
    hide Inv, At, Can, Do, Check;
    if n < m {
      var before := At(maxAttempts, s, run, m - 1);
      RejectsFrom(maxAttempts, s, run, n, m - 1, order);
      AtNext(maxAttempts, s, run, m - 1);
      InvAt(maxAttempts, s, run, m - 1);
      OrderAt(maxAttempts, s, run, m - 1, order);
      OrderAt(maxAttempts, s, run, m, order);
      if Can(before, run(m - 1)) {
        StockFalls(maxAttempts, before, run(m - 1));
        RejectionPersists(before.stock.inventory, At(maxAttempts, s, run, m).stock.inventory, s.orders[order].items);
      }
    }
  }

  lemma RejectedCommits(s: State, order: OrderId)
    requires Inv(s) && RejectsNow(s, order)
    ensures CommitsNow(s, order)
  {
    forall r | r in s.requests && r.orderId == order ensures Transact(s.stock, r, 0).Some? {
      RequestIsOrdered(s.orders, s.requests, s.minted, r);
    }
  }

  lemma AnswersStay(maxAttempts: int, s: State, c: Calm, order: OrderId)
    requires Can(s, c) && Answered(s.stock.outbox, order)
    ensures Answered(Do(maxAttempts, s, c).stock.outbox, order)
  {
    var u := Do(maxAttempts, s, c);
    if RequestStep(c) {
      RequestStepFrame(maxAttempts, s, c);
    } else if c.SendOutcome? {
      SendOutcomeFrame(maxAttempts, s, c.row);
    } else if c.Collide? {
      CollideFrame(maxAttempts, s, c.copy);
    } else {
      OutcomeMove(maxAttempts, s, c);
    }
    hide Do, Can;
    StillAnswered(s.stock.outbox, u.stock.outbox, order);
  }

  lemma {:induction false} AnsweredFrom(maxAttempts: int, s: State, run: nat -> Calm, n: nat, order: OrderId)
    requires Answered(s.stock.outbox, order)
    ensures Answered(At(maxAttempts, s, run, n).stock.outbox, order)
  {
    hide Can, Do, Answered;
    if n == 0 {
      AtStart(maxAttempts, s, run);
    } else {
      AnsweredFrom(maxAttempts, s, run, n - 1, order);
      AtNext(maxAttempts, s, run, n - 1);
      if Can(At(maxAttempts, s, run, n - 1), run(n - 1)) {
        AnswersStay(maxAttempts, At(maxAttempts, s, run, n - 1), run(n - 1), order);
      }
    }
  }

  // A request that repeats a product is answered only by a rejection.
  lemma AnsweredByRejection(maxAttempts: int, seed: Tables, s: State, c: Calm, order: OrderId)
    requires Sane(maxAttempts, seed, s) && Can(s, c)
    requires order in s.orders && !Distinct(s.orders[order].items, |s.orders[order].items|)
    requires !Answered(s.stock.outbox, order) && Answered(Do(maxAttempts, s, c).stock.outbox, order)
    ensures RejectsNow(s, order)
  {
    SaneIsInv(maxAttempts, seed, s);
    OnlyReserveAnswers(maxAttempts, s, c, order);
    var r := s.requestCopies[c.copy].request;
    CopyIsKnown(s, c.copy);
    RequestIsOrdered(s.orders, s.requests, s.minted, r);
    hide Inv, Balanced, AttemptsOk, Transact, Distinct, Check, Answered;
    RepeatedProductExact(s.stock, r, c.outcomeId);
  }

  lemma OnlyReserveAnswers(maxAttempts: int, s: State, c: Calm, order: OrderId)
    requires Inv(s) && Can(s, c)
    requires !Answered(s.stock.outbox, order) && Answered(Do(maxAttempts, s, c).stock.outbox, order)
    ensures c.Reserve? && c.copy < |s.requestCopies| && s.requestCopies[c.copy].request.orderId == order
    ensures s.requestCopies[c.copy].request.messageId !in s.stock.inbox
    ensures Transact(s.stock, s.requestCopies[c.copy].request, c.outcomeId).Some?
  {
    var u := Do(maxAttempts, s, c);
    StockMoves(maxAttempts, s, c);
    hide Inv, Do, Can, Transact, Answered;
    assert c.Reserve?;
    ReserveIsCommit(maxAttempts, s, c);
    var r := s.requestCopies[c.copy].request;
    if r.messageId !in s.stock.inbox {
      var o: Outcome :| o.orderId == r.orderId && u.stock.outbox == s.stock.outbox + [o];
      AnsweredMore(s.stock.outbox, o, order);
    }
  }

  lemma AnsweredMore(outbox: seq<Outcome>, o: Outcome, order: OrderId)
    ensures Answered(outbox + [o], order) <==> Answered(outbox, order) || o.orderId == order
  {
    var more := outbox + [o];
    assert more[|outbox|] == o;
    if i :| 0 <= i < |outbox| && outbox[i].orderId == order {
      assert more[i] == outbox[i];
    }
  }

  lemma {:induction false} FirstAnswer(maxAttempts: nat, seed: Tables, s: State, run: nat -> Calm, n: nat,
                                       order: OrderId)
    returns (m: nat)
    requires 0 < maxAttempts <= INT_MAX && Sane(maxAttempts, seed, s)
    requires order in s.orders && !Distinct(s.orders[order].items, |s.orders[order].items|)
    requires !Answered(s.stock.outbox, order) && Answered(At(maxAttempts, s, run, n).stock.outbox, order)
    ensures RejectsNow(At(maxAttempts, s, run, m), order)
  {
    hide Sane, Inv, Can, Do, Answered, Distinct, At, RejectsNow;
    AtStart(maxAttempts, s, run);
    SaneIsInv(maxAttempts, seed, s);
    if Answered(At(maxAttempts, s, run, n - 1).stock.outbox, order) {
      m := FirstAnswer(maxAttempts, seed, s, run, n - 1, order);
    } else {
      m := n - 1;
      SaneAt(maxAttempts, seed, s, run, n - 1);
      OrderAt(maxAttempts, s, run, n - 1, order);
      AtNext(maxAttempts, s, run, n - 1);
      AnsweredByRejection(maxAttempts, seed, At(maxAttempts, s, run, n - 1), run(n - 1), order);
    }
  }

  /**
   An order that repeats a product, in a run fair to its redelivery: it settles, and then only as FAILED, if and only if
   it was not lost and it had been answered before or the stock check rejects it at some moment. Otherwise it stays
   PENDING.
   */
  lemma RepeatedOrderExact(maxAttempts: nat, seed: Tables, actions: seq<Action>, run: nat -> Calm, order: OrderId)
    requires 0 < maxAttempts <= INT_MAX && Seeded(seed)
    requires order in Run(maxAttempts, seed, actions).orders
    requires Fair(Only(order), maxAttempts, Run(maxAttempts, seed, actions), run)
    requires var items := Run(maxAttempts, seed, actions).orders[order].items; !Distinct(items, |items|)
    ensures
      var s := Run(maxAttempts, seed, actions);
      (exists n: nat :: SettledFrom(maxAttempts, s, run, n, order))
      <==>
      && !Lost(s, order)
      && (Answered(s.stock.outbox, order) || exists n: nat :: RejectsNow(At(maxAttempts, s, run, n), order))
    ensures
      forall n: nat ::
        var u := At(maxAttempts, Run(maxAttempts, seed, actions), run, n);
        order in u.orders && u.orders[order].status != Confirmed
  {
    var s := Run(maxAttempts, seed, actions);
    SaneAlways(maxAttempts, seed, actions);
    SaneIsInv(maxAttempts, seed, s);
    hide Run, Sane, Inv, Fair, Lost, CommitsNow, At, Settled, Distinct, RejectsNow, Answered;
    SettlesExact(maxAttempts, seed, actions, run, order);
    if n: nat :| SettledFrom(maxAttempts, s, run, n, order) {
      assert Settled(At(maxAttempts, s, run, n), order);
      InvAt(maxAttempts, s, run, n);
      SettledIsAnswered(At(maxAttempts, s, run, n), order);
      if !Answered(s.stock.outbox, order) {
        var m := FirstAnswer(maxAttempts, seed, s, run, n, order);
      }
    }
    if Answered(s.stock.outbox, order) {
      AnsweredCommitsFrom(maxAttempts, s, run, order);
    } else if n: nat :| RejectsNow(At(maxAttempts, s, run, n), order) {
      RejectedCommitsFrom(maxAttempts, s, run, n, order);
    }
    forall n: nat
      ensures var u := At(maxAttempts, s, run, n); order in u.orders && u.orders[order].status != Confirmed
    {
      NeverConfirmedAt(maxAttempts, seed, actions, run, n, order);
    }
  }

  lemma NeverConfirmedAt(maxAttempts: int, seed: Tables, actions: seq<Action>, run: nat -> Calm, n: nat, order: OrderId)
    requires Seeded(seed) && order in Run(maxAttempts, seed, actions).orders
    requires var items := Run(maxAttempts, seed, actions).orders[order].items; !Distinct(items, |items|)
    ensures
      var u := At(maxAttempts, Run(maxAttempts, seed, actions), run, n);
      order in u.orders && u.orders[order].status != Confirmed
  {
    var s := Run(maxAttempts, seed, actions);
    InvAlways(maxAttempts, seed, actions);
    hide Run, Inv, Distinct;
    OrderAt(maxAttempts, s, run, n, order);
    var more := CalmIsRun(maxAttempts, seed, actions, Prefix(run, n));
    RepeatedProductNeverConfirmed(maxAttempts, seed, actions + more, order);
  }

  lemma AnsweredCommitsFrom(maxAttempts: int, s: State, run: nat -> Calm, order: OrderId)
    requires Inv(s) && Answered(s.stock.outbox, order)
    ensures CommitsFrom(maxAttempts, s, run, 0, order)
  {
    hide Inv, CommitsNow, At, Answered;
    forall m: nat ensures CommitsNow(At(maxAttempts, s, run, m), order) {
      AnsweredFrom(maxAttempts, s, run, m, order);
      InvAt(maxAttempts, s, run, m);
      AnsweredCommits(At(maxAttempts, s, run, m), order);
    }
  }

  lemma RejectedCommitsFrom(maxAttempts: int, s: State, run: nat -> Calm, n: nat, order: OrderId)
    requires Inv(s) && order in s.orders && RejectsNow(At(maxAttempts, s, run, n), order)
    ensures CommitsFrom(maxAttempts, s, run, n, order)
  {
    hide Inv, CommitsNow, At, RejectsNow;
    forall m: nat | m >= n ensures CommitsNow(At(maxAttempts, s, run, m), order) {
      RejectsFrom(maxAttempts, s, run, n, m, order);
      InvAt(maxAttempts, s, run, m);
      RejectedCommits(At(maxAttempts, s, run, m), order);
    }
  }

  // There are fair runs: always do something useful if there is something.
  ghost function Pick(who: Scope, s: State): Calm {
    if exists c :: Useful(who, s, c) then var c :| Useful(who, s, c); c else TakeRequest(0)
  }

  ghost function Greedy(who: Scope, maxAttempts: int, s: State, n: nat): State {
    if n == 0 then s
    else
      var before := Greedy(who, maxAttempts, s, n - 1);
      if Can(before, Pick(who, before)) then Do(maxAttempts, before, Pick(who, before)) else before
  }

  ghost predicate IsGreedy(who: Scope, maxAttempts: int, s: State, run: nat -> Calm) {
    forall n: nat :: run(n) == Pick(who, Greedy(who, maxAttempts, s, n))
  }

  lemma GreedyStep(who: Scope, maxAttempts: int, s: State, run: nat -> Calm, n: nat)
    requires IsGreedy(who, maxAttempts, s, run)
    ensures run(n) == Pick(who, Greedy(who, maxAttempts, s, n))
  {
    hide Pick, Greedy;
  }

  lemma {:induction false} GreedyAt(who: Scope, maxAttempts: int, s: State, run: nat -> Calm, n: nat)
    requires IsGreedy(who, maxAttempts, s, run)
    ensures At(maxAttempts, s, run, n) == Greedy(who, maxAttempts, s, n)
  {
    hide Can, Do, Pick, IsGreedy;
    if n == 0 {
      AtStart(maxAttempts, s, run);
    } else {
      GreedyAt(who, maxAttempts, s, run, n - 1);
      GreedyStep(who, maxAttempts, s, run, n - 1);
      AtNext(maxAttempts, s, run, n - 1);
      hide At;
    }
  }

  lemma PickIsNotNew(who: Scope, s: State)
    ensures !Pick(who, s).New?
  {
    hide Can;
  }

  /**
   Whatever state the faults leave behind, some run without new orders is fair to any one order, and some to everyone.
   */
  lemma FairRunExists(who: Scope, maxAttempts: int, s: State)
    ensures exists run: nat -> Calm :: Fair(who, maxAttempts, s, run) && forall n: nat :: !run(n).New?
  {
    hide Can, Do, Matters, At, Useful, Greedy;
    var run := (n: nat) => Pick(who, Greedy(who, maxAttempts, s, n));
    assert IsGreedy(who, maxAttempts, s, run);
    hide IsGreedy;
    forall n: nat ensures !run(n).New? {
      GreedyStep(who, maxAttempts, s, run, n);
      PickIsNotNew(who, Greedy(who, maxAttempts, s, n));
    }
    forall n: nat | exists c :: Useful(who, At(maxAttempts, s, run, n), c)
      ensures exists m: nat :: m >= n && Useful(who, At(maxAttempts, s, run, m), run(m))
    {
      GreedyAt(who, maxAttempts, s, run, n);
      GreedyStep(who, maxAttempts, s, run, n);
      assert Useful(who, At(maxAttempts, s, run, n), run(n));
    }
    assert Fair(who, maxAttempts, s, run);
  }

  /** Every new order waits from the moment it is created. */
  lemma NewOrderWaits(maxAttempts: int, seed: Tables, actions: seq<Action>, a: Action)
    requires Seeded(seed) && a.Create?
    requires Enabled(Run(maxAttempts, seed, actions), a)
    ensures Waiting(Run(maxAttempts, seed, actions + [a]), a.order)
  {
    var s := Run(maxAttempts, seed, actions);
    InvAlways(maxAttempts, seed, actions);
    RunOneMore(maxAttempts, seed, actions, a);
    hide Run, RequestsOk, RequestCopiesOk, StockOk, OutcomeCopiesOk, StatusOk, Transact, RequestRouted, OutcomeRouted;
    forall j: nat | j < |s.stock.outbox| ensures s.stock.outbox[j].orderId in s.minted {
      AnswersAreMinted(s, j);
    }
  }

  lemma AnswersAreMinted(s: State, j: nat)
    requires Inv(s) && j < |s.stock.outbox|
    ensures s.stock.outbox[j].orderId in s.minted
  {
    hide RequestCopiesOk, OutcomeCopiesOk, StatusOk;
    assert Ordered(s.orders, s.stock.outbox[j]);
    OrdersAreMinted(s.orders, s.requests, s.minted, s.stock.outbox[j].orderId);
  }
}
