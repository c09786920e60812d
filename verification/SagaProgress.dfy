/**
 The saga once faults stop. A calm step is a saga step in which nothing fails: publishing and marking go together,
 writes are reported, and what is left unacknowledged is carried on; customers may go on ordering. A natural number
 measures what is left to do, for one order or for all of them, and falls with every calm step that matters to it.
 */
module SagaProgress {
  import opened Prelude
  import opened Inventory
  import opened Orders
  import opened Saga

  datatype Calm =
    | New(order: OrderId, message: MessageId, items: seq<Item>)
    | SendRequest(row: nat)
    | TakeRequest(copy: nat)
    | Reserve(copy: nat, outcomeId: MessageId)
    | ConfirmRequest(copy: nat)
    | GiveBack(copy: nat)
    | SendOutcome(row: nat)
    | TakeOutcome(copy: nat)
    | LookUp(copy: nat)
    | Settle(copy: nat)
    | Note(copy: nat)
    | Collide(copy: nat)
    | ConfirmOutcome(copy: nat)
    | EndDelay(copy: nat)

  /** The saga step of a calm step; a message is sent by publishing it, and is marked at once. */
  function StepOf(c: Calm): Action {
    match c
    case New(order, message, items) => Create(order, message, items)
    case SendRequest(row) => PublishRequest(row)
    case TakeRequest(k) => DeliverRequest(k)
    case Reserve(k, outcomeId) => CommitRequest(k, outcomeId, true)
    case ConfirmRequest(k) => AckRequest(k)
    case GiveBack(k) => RequeueRequest(k)
    case SendOutcome(row) => PublishOutcome(row)
    case TakeOutcome(k) => DeliverOutcome(k)
    case LookUp(k) => CheckInbox(k)
    case Settle(k) => ApplyOutcome(k, true)
    case Note(k) => RecordOutcome(k, true)
    case Collide(k) => FailOutcome(k, true)
    case ConfirmOutcome(k) => AckOutcome(k)
    case EndDelay(k) => ExpireDelay(k)
  }

  /**
   GiveBack: the transaction cannot commit, so the delivery is requeued. Collide: another copy recorded the message
   between this handler's check and its own insert, so the insert violates UNIQUE and the retry policy takes over.
   */
  predicate Can(s: State, c: Calm) {
    match c
    case SendRequest(row) => row < |s.requests| && row !in s.requestsSent
    case SendOutcome(row) => row < |s.stock.outbox| && row !in s.outcomesSent
    case _ => Enabled(s, StepOf(c)) && Due(s, c)
  }

  predicate Due(s: State, c: Calm) {
    match c
    case GiveBack(k) => RequestAt(s, k, Unacked(false)) && Transact(s.stock, s.requestCopies[k].request, 0).None?
    case Collide(k) => OutcomeAt(s, k, InFlight(Applied)) && s.outcomeCopies[k].outcome.messageId in s.inbox
    case _ => true
  }

  function PublishAndMarkRequest(maxAttempts: int, s: State, row: nat): State
    requires row < |s.requests|
  {
    var s1 := Apply(maxAttempts, s, PublishRequest(row));
    assert s1.requestCopies[|s.requestCopies|].request == s.requests[row];
    Apply(maxAttempts, s1, MarkRequest(row))
  }

  function PublishAndMarkOutcome(maxAttempts: int, s: State, row: nat): State
    requires row < |s.stock.outbox|
  {
    var s1 := Apply(maxAttempts, s, PublishOutcome(row));
    assert s1.outcomeCopies[|s.outcomeCopies|].outcome == s.stock.outbox[row];
    Apply(maxAttempts, s1, MarkOutcome(row))
  }

  function Do(maxAttempts: int, s: State, c: Calm): State
    requires Can(s, c)
  {
    match c
    case SendRequest(row) => PublishAndMarkRequest(maxAttempts, s, row)
    case SendOutcome(row) => PublishAndMarkOutcome(maxAttempts, s, row)
    case _ => Apply(maxAttempts, s, StepOf(c))
  }

  predicate Good(r: Request) {
    Distinct(r.items, |r.items|)
  }

  // Whose work is measured: everyone's, or one order's only.
  datatype Scope = Everyone | Only(order: OrderId)

  predicate Counts(who: Scope, order: OrderId) {
    who.Everyone? || who.order == order
  }

  /**
   Whether the copies of a request are measured. For everyone those of a request that repeats a product are not: they
   are redelivered as long as stock suffices.
   */
  predicate Weighs(who: Scope, r: Request) {
    match who
    case Everyone => Good(r)
    case Only(order) => r.orderId == order
  }

  /** The calm steps that bring the measured work forward. */
  predicate Matters(who: Scope, s: State, c: Calm)
    requires Can(s, c)
  {
    match c
    case New(_, _, _) => false
    case GiveBack(_) => false
    case SendRequest(row) => Counts(who, s.requests[row].orderId)
    case SendOutcome(row) => Counts(who, s.stock.outbox[row].orderId)
    case TakeRequest(k) => Weighs(who, s.requestCopies[k].request)
    case ConfirmRequest(k) => Weighs(who, s.requestCopies[k].request)
    case Reserve(k, _) =>
      var r := s.requestCopies[k].request;
      Weighs(who, r) || (Counts(who, r.orderId) && r.messageId !in s.stock.inbox)
    case _ => Counts(who, s.outcomeCopies[c.copy].outcome.orderId)
  }

  /** The calm steps that add to it: a measured order arrives, or its request is given back. */
  predicate Rises(who: Scope, s: State, c: Calm)
    requires Can(s, c)
  {
    match c
    case New(order, _, _) => Counts(who, order)
    case GiveBack(k) => Weighs(who, s.requestCopies[k].request)
    case _ => false
  }

  predicate Useful(who: Scope, s: State, c: Calm) {
    Can(s, c) && Matters(who, s, c)
  }

  // Sums ------------------------------------------------------------------------------------

  function Sum(ws: seq<nat>): nat {
    if ws == [] then 0 else Sum(ws[..|ws| - 1]) + ws[|ws| - 1]
  }

  lemma SumAppend(ws: seq<nat>, w: nat)
    ensures Sum(ws + [w]) == Sum(ws) + w
  {
    assert (ws + [w])[..|ws|] == ws;
  }

  lemma {:induction false} SumUpdate(ws: seq<nat>, k: nat, w: nat)
    requires k < |ws|
    ensures Sum(ws[k := w]) == Sum(ws) - ws[k] + w
  {
    var fewer := ws[..|ws| - 1];
    if k == |ws| - 1 {
      assert ws[k := w][..|ws| - 1] == fewer;
    } else {
      SumUpdate(fewer, k, w);
      assert ws[k := w][..|ws| - 1] == fewer[k := w];
    }
  }

  // The measure -----------------------------------------------------------------------------

  function RequestWeight(maxAttempts: nat, unsent: bool, unanswered: bool): nat {
    (if unsent then 4 else 0) + (if unanswered then 8 * maxAttempts + 1 else 0)
  }

  function RequestWeights(who: Scope, maxAttempts: nat, requests: seq<Request>, sent: set<nat>, inbox: set<MessageId>)
    : seq<nat>
  {
    seq(|requests|, i requires 0 <= i < |requests| =>
      if Counts(who, requests[i].orderId)
      then RequestWeight(maxAttempts, i !in sent, requests[i].messageId !in inbox) else 0)
  }

  function RequestCopyWeight(who: Scope, c: RequestCopy): nat {
    if !Weighs(who, c.request) then 0
    else match c.place
      case Queued => 3
      case Unacked(handled) => if handled then 1 else 2
      case Acked => 0
  }

  function RequestCopyWeights(who: Scope, copies: seq<RequestCopy>): seq<nat> {
    seq(|copies|, k requires 0 <= k < |copies| => RequestCopyWeight(who, copies[k]))
  }

  function OutcomeWeight(who: Scope, maxAttempts: nat, o: Outcome, sent: bool): nat {
    if sent || !Counts(who, o.orderId) then 0 else 8 * maxAttempts
  }

  function OutcomeWeights(who: Scope, maxAttempts: nat, outbox: seq<Outcome>, sent: set<nat>): seq<nat> {
    seq(|outbox|, i requires 0 <= i < |outbox| => OutcomeWeight(who, maxAttempts, outbox[i], i in sent))
  }

  function CopyWeight(maxAttempts: nat, c: OutcomeCopy): nat {
    var left := if c.attempt <= maxAttempts then 8 * (maxAttempts - c.attempt) else 0;
    match c.place
    case Delayed => left + 7
    case InQueue => left + 6
    case InFlight(Delivered) => left + 5
    case InFlight(Checked) => left + 4
    case InFlight(Applied) => left + 3
    case InFlight(Recorded) => left + 2
    case DeadLettered => 0
    case Gone => 0
  }

  function OutcomeCopyWeight(who: Scope, maxAttempts: nat, c: OutcomeCopy): nat {
    if Counts(who, c.outcome.orderId) then CopyWeight(maxAttempts, c) else 0
  }

  function OutcomeCopyWeights(who: Scope, maxAttempts: nat, copies: seq<OutcomeCopy>): seq<nat> {
    seq(|copies|, k requires 0 <= k < |copies| => OutcomeCopyWeight(who, maxAttempts, copies[k]))
  }

  function RequestSide(who: Scope, maxAttempts: nat, s: State): nat {
    Sum(RequestWeights(who, maxAttempts, s.requests, s.requestsSent, s.stock.inbox.Keys))
        + Sum(RequestCopyWeights(who, s.requestCopies))
  }

  function OutcomeSide(who: Scope, maxAttempts: nat, s: State): nat {
    Sum(OutcomeWeights(who, maxAttempts, s.stock.outbox, s.outcomesSent))
        + Sum(OutcomeCopyWeights(who, maxAttempts, s.outcomeCopies))
  }

  function Measure(who: Scope, maxAttempts: nat, s: State): nat {
    RequestSide(who, maxAttempts, s) + OutcomeSide(who, maxAttempts, s)
  }

  lemma RequestCopyMoves(who: Scope, copies: seq<RequestCopy>, k: nat, place: RequestPlace)
    requires k < |copies|
    ensures
      var c := copies[k].(place := place);
      Sum(RequestCopyWeights(who, copies[k := c]))
      == Sum(RequestCopyWeights(who, copies)) - RequestCopyWeight(who, copies[k]) + RequestCopyWeight(who, c)
  {
    var c := copies[k].(place := place);
    assert RequestCopyWeights(who, copies[k := c]) == RequestCopyWeights(who, copies)[k := RequestCopyWeight(who, c)];
    SumUpdate(RequestCopyWeights(who, copies), k, RequestCopyWeight(who, c));
  }

  lemma OutcomeCopyMoves(who: Scope, maxAttempts: nat, copies: seq<OutcomeCopy>, k: nat, place: OutcomePlace)
    requires k < |copies|
    ensures
      var c := copies[k].(place := place);
      Sum(OutcomeCopyWeights(who, maxAttempts, copies[k := c]))
      == Sum(OutcomeCopyWeights(who, maxAttempts, copies)) - OutcomeCopyWeight(who, maxAttempts, copies[k])
         + OutcomeCopyWeight(who, maxAttempts, c)
  {
    var c := copies[k].(place := place);
    assert OutcomeCopyWeights(who, maxAttempts, copies[k := c])
           == OutcomeCopyWeights(who, maxAttempts, copies)[k := OutcomeCopyWeight(who, maxAttempts, c)];
    SumUpdate(OutcomeCopyWeights(who, maxAttempts, copies), k, OutcomeCopyWeight(who, maxAttempts, c));
  }

  lemma RequestCopyAdded(who: Scope, copies: seq<RequestCopy>, c: RequestCopy)
    ensures Sum(RequestCopyWeights(who, copies + [c]))
            == Sum(RequestCopyWeights(who, copies)) + RequestCopyWeight(who, c)
  {
    assert RequestCopyWeights(who, copies + [c]) == RequestCopyWeights(who, copies) + [RequestCopyWeight(who, c)];
    SumAppend(RequestCopyWeights(who, copies), RequestCopyWeight(who, c));
  }

  lemma OutcomeCopyAdded(who: Scope, maxAttempts: nat, copies: seq<OutcomeCopy>, c: OutcomeCopy)
    ensures Sum(OutcomeCopyWeights(who, maxAttempts, copies + [c]))
            == Sum(OutcomeCopyWeights(who, maxAttempts, copies)) + OutcomeCopyWeight(who, maxAttempts, c)
  {
    assert OutcomeCopyWeights(who, maxAttempts, copies + [c])
           == OutcomeCopyWeights(who, maxAttempts, copies) + [OutcomeCopyWeight(who, maxAttempts, c)];
    SumAppend(OutcomeCopyWeights(who, maxAttempts, copies), OutcomeCopyWeight(who, maxAttempts, c));
  }

  // What holds besides the saga's invariant --------------------------------------------------

  /** The products of these lines have seeded stock that an INT column can hold even when all of it is reserved. */
  ghost predicate FitsFor(seed: Tables, items: seq<Item>) {
    forall i | 0 <= i < |items| && items[i].product in seed.inventory ::
      seed.inventory[items[i].product].available + seed.inventory[items[i].product].reserved <= INT_MAX
  }

  ghost predicate Fits(seed: Tables) {
    forall p | p in seed.inventory :: seed.inventory[p].available + seed.inventory[p].reserved <= INT_MAX
  }

  ghost predicate AttemptsOk(maxAttempts: int, copies: seq<OutcomeCopy>) {
    forall k | 0 <= k < |copies| :: 1 <= copies[k].attempt <= maxAttempts
  }

  ghost predicate Sane(maxAttempts: int, seed: Tables, s: State) {
    Inv(s) && Valid(s.stock) && Balanced(seed, s.stock) && AttemptsOk(maxAttempts, s.outcomeCopies)
  }

  lemma StepKeepsSane(maxAttempts: int, seed: Tables, s: State, a: Action)
    requires 0 < maxAttempts <= INT_MAX && Sane(maxAttempts, seed, s) && Enabled(s, a)
    ensures Sane(maxAttempts, seed, Apply(maxAttempts, s, a))
  {
    StepKeepsAttempts(maxAttempts, s, a);
    hide Inv, Valid, Balanced, Enabled, Apply, AttemptsOk;
    StepKeeps(maxAttempts, s, a);
    StepKeepsStock(maxAttempts, seed, s, a);
  }

  lemma StepKeepsAttempts(maxAttempts: int, s: State, a: Action)
    requires 0 < maxAttempts <= INT_MAX && AttemptsOk(maxAttempts, s.outcomeCopies) && Enabled(s, a)
    ensures AttemptsOk(maxAttempts, Apply(maxAttempts, s, a).outcomeCopies)
  {
    hide Transact, RequestRouted, OutcomeRouted;
  }

  lemma InitSane(maxAttempts: int, seed: Tables)
    requires Seeded(seed)
    ensures Sane(maxAttempts, seed, Init(seed))
  {
    InitInv(seed);
    hide Inv, Valid;
    assert Balanced(seed, seed);
  }

  lemma InitInv(seed: Tables)
    requires Seeded(seed)
    ensures Inv(Init(seed))
  {
    hide Valid, RowsOf, Promised, Answered, Ordered, Live, SettledBy, StockOk;
    InitStockOk(seed);
  }

  lemma InitStockOk(seed: Tables)
    requires Seeded(seed)
    ensures StockOk(map[], [], seed, {})
  {
    hide Valid, RowsOf, Promised;
  }

  lemma {:induction false} SaneAlways(maxAttempts: int, seed: Tables, actions: seq<Action>)
    requires 0 < maxAttempts <= INT_MAX && Seeded(seed)
    ensures Sane(maxAttempts, seed, Run(maxAttempts, seed, actions))
  {
    hide Seeded, Sane, Enabled, Apply, Init;
    if actions == [] {
      InitSane(maxAttempts, seed);
    } else {
      SaneAlways(maxAttempts, seed, actions[..|actions| - 1]);
      var s, a := Run(maxAttempts, seed, actions[..|actions| - 1]), actions[|actions| - 1];
      if Enabled(s, a) {
        StepKeepsSane(maxAttempts, seed, s, a);
      }
    }
  }

  lemma DoKeepsSane(maxAttempts: int, seed: Tables, s: State, c: Calm)
    requires 0 < maxAttempts <= INT_MAX && Sane(maxAttempts, seed, s) && Can(s, c)
    ensures Sane(maxAttempts, seed, Do(maxAttempts, s, c))
  {
    hide Sane, Apply;
    match c
    case SendRequest(row) => SendRequestIsTwoSteps(maxAttempts, seed, s, row);
    case SendOutcome(row) => SendOutcomeIsTwoSteps(maxAttempts, seed, s, row);
    case _ => StepKeepsSane(maxAttempts, seed, s, StepOf(c));
  }

  lemma SendRequestIsTwoSteps(maxAttempts: int, seed: Tables, s: State, row: nat)
    requires 0 < maxAttempts <= INT_MAX && Sane(maxAttempts, seed, s) && Can(s, SendRequest(row))
    ensures Sane(maxAttempts, seed, Do(maxAttempts, s, SendRequest(row)))
  {
    hide Sane;
    var s1 := Apply(maxAttempts, s, PublishRequest(row));
    StepKeepsSane(maxAttempts, seed, s, PublishRequest(row));
    assert s1.requestCopies[|s.requestCopies|].request == s.requests[row];
    StepKeepsSane(maxAttempts, seed, s1, MarkRequest(row));
  }

  lemma SendOutcomeIsTwoSteps(maxAttempts: int, seed: Tables, s: State, row: nat)
    requires 0 < maxAttempts <= INT_MAX && Sane(maxAttempts, seed, s) && Can(s, SendOutcome(row))
    ensures Sane(maxAttempts, seed, Do(maxAttempts, s, SendOutcome(row)))
  {
    hide Sane;
    var s1 := Apply(maxAttempts, s, PublishOutcome(row));
    StepKeepsSane(maxAttempts, seed, s, PublishOutcome(row));
    assert s1.outcomeCopies[|s.outcomeCopies|].outcome == s.stock.outbox[row];
    StepKeepsSane(maxAttempts, seed, s1, MarkOutcome(row));
  }

  // A request with distinct products always commits -------------------------------------------

  lemma NoRowsYet(s: State, r: Request, p: ProductId)
    requires Inv(s) && r in s.requests && r.messageId !in s.stock.inbox
    ensures NoRow(s.stock.reservations, r.orderId, p)
  {
    NotYetAnswered(s.orders, s.requests, s.stock, s.minted, r);
  }

  lemma PositiveItems(orders: map<OrderId, OrderRow>, requests: seq<Request>, minted: set<nat>, r: Request)
    requires RequestsOk(orders, requests, minted) && r in requests
    ensures forall i | 0 <= i < |r.items| :: 0 < r.items[i].quantity <= INT_MAX
  {
    var n :| 0 <= n < |requests| && requests[n] == r;
  }

  /**
   As long as its products' seeded totals fit the column, no reachable state refuses a request with distinct products:
   its transaction commits, with one answer or the other.
   */
  lemma GoodCommits(maxAttempts: int, seed: Tables, s: State, r: Request, outcomeId: MessageId)
    requires Sane(maxAttempts, seed, s) && FitsFor(seed, r.items) && r in s.requests && Good(r)
    ensures Transact(s.stock, r, outcomeId).Some?
  {
    CommitExact(s.stock, r, outcomeId);
    if r.messageId !in s.stock.inbox && Check(s.stock.inventory, r.items).Sufficient? {
      PositiveItems(s.orders, s.requests, s.minted, r);
      hide Inv, Transact;
      forall i | 0 <= i < |r.items| ensures LineAcceptable(s.stock, r.orderId, r.items[i]) {
        NoRowsYet(s, r, r.items[i].product);
        assert LineOk(s.stock.inventory, r.items[i]);
        assert BalancedAt(seed, s.stock, r.items[i].product);
      }
    }
  }

  lemma SameRefusal(t: Tables, r: Request, a: MessageId, b: MessageId)
    ensures Transact(t, r, a).Some? <==> Transact(t, r, b).Some?
  {}

  // Every calm step ---------------------------------------------------------------------------

  lemma SentRequestWeights(who: Scope, maxAttempts: nat, requests: seq<Request>, sent: set<nat>, inbox: set<MessageId>,
                           row: nat)
    requires row < |requests| && row !in sent
    ensures Sum(RequestWeights(who, maxAttempts, requests, sent + {row}, inbox))
            == Sum(RequestWeights(who, maxAttempts, requests, sent, inbox))
               - if Counts(who, requests[row].orderId) then 4 else 0
  {
    var before := RequestWeights(who, maxAttempts, requests, sent, inbox);
    var w := if Counts(who, requests[row].orderId) then before[row] - 4 else before[row];
    assert RequestWeights(who, maxAttempts, requests, sent + {row}, inbox) == before[row := w];
    SumUpdate(before, row, w);
  }

  lemma SentOutcomeWeights(who: Scope, maxAttempts: nat, outbox: seq<Outcome>, sent: set<nat>, row: nat)
    requires row < |outbox| && row !in sent
    ensures Sum(OutcomeWeights(who, maxAttempts, outbox, sent + {row}))
            == Sum(OutcomeWeights(who, maxAttempts, outbox, sent))
               - if Counts(who, outbox[row].orderId) then 8 * maxAttempts else 0
  {
    var before := OutcomeWeights(who, maxAttempts, outbox, sent);
    assert OutcomeWeights(who, maxAttempts, outbox, sent + {row}) == before[row := 0];
    SumUpdate(before, row, 0);
  }

  lemma SendRequestFalls(who: Scope, maxAttempts: nat, s: State, row: nat)
    requires Can(s, SendRequest(row))
    ensures
      var m, u := Measure(who, maxAttempts, s), Measure(who, maxAttempts, Do(maxAttempts, s, SendRequest(row)));
      if Matters(who, s, SendRequest(row)) then u < m else u == m
  {
    hide Sum, RequestWeights, RequestCopyWeights, OutcomeWeights, OutcomeCopyWeights, RequestRouted;
    SentRequestWeights(who, maxAttempts, s.requests, s.requestsSent, s.stock.inbox.Keys, row);
    RequestCopyAdded(who, s.requestCopies, RequestCopy(s.requests[row], Queued));
  }

  lemma SendOutcomeFalls(who: Scope, maxAttempts: nat, s: State, row: nat)
    requires 0 < maxAttempts && Can(s, SendOutcome(row))
    ensures
      var m, u := Measure(who, maxAttempts, s), Measure(who, maxAttempts, Do(maxAttempts, s, SendOutcome(row)));
      if Matters(who, s, SendOutcome(row)) then u < m else u == m
  {
    hide Sum, RequestWeights, RequestCopyWeights, OutcomeWeights, OutcomeCopyWeights, OutcomeRouted;
    SentOutcomeWeights(who, maxAttempts, s.stock.outbox, s.outcomesSent, row);
    OutcomeCopyAdded(who, maxAttempts, s.outcomeCopies, OutcomeCopy(s.stock.outbox[row], 1, InQueue));
  }

  lemma RequestMoveFalls(who: Scope, maxAttempts: nat, s: State, c: Calm)
    requires Can(s, c) && (c.TakeRequest? || c.ConfirmRequest?)
    ensures Measure(who, maxAttempts, Do(maxAttempts, s, c))
            == Measure(who, maxAttempts, s) - if Matters(who, s, c) then 1 else 0
  {
    hide Sum, RequestWeights, RequestCopyWeights, OutcomeWeights, OutcomeCopyWeights, Transact;
    RequestCopyMoves(who, s.requestCopies, c.copy, if c.TakeRequest? then Unacked(false) else Acked);
  }

  lemma GiveBackKeeps(who: Scope, maxAttempts: nat, s: State, k: nat)
    requires Can(s, GiveBack(k)) && !Rises(who, s, GiveBack(k))
    ensures Measure(who, maxAttempts, Do(maxAttempts, s, GiveBack(k))) == Measure(who, maxAttempts, s)
  {
    hide Sum, RequestWeights, RequestCopyWeights, OutcomeWeights, OutcomeCopyWeights, Transact;
    RequestCopyMoves(who, s.requestCopies, k, Queued);
  }

  lemma NewKeeps(who: Scope, maxAttempts: nat, s: State, c: Calm)
    requires Can(s, c) && c.New? && !Rises(who, s, c)
    ensures Measure(who, maxAttempts, Do(maxAttempts, s, c)) == Measure(who, maxAttempts, s)
  {
    var u, inbox := Do(maxAttempts, s, c), s.stock.inbox.Keys;
    hide Sum, RequestCopyWeights, OutcomeWeights, OutcomeCopyWeights;
    var before := RequestWeights(who, maxAttempts, s.requests, s.requestsSent, inbox);
    assert RequestWeights(who, maxAttempts, u.requests, s.requestsSent, inbox) == before + [0];
    SumAppend(before, 0);
  }

  predicate OutcomeStep(c: Calm) {
    c.TakeOutcome? || c.LookUp? || c.Settle? || c.Note? || c.ConfirmOutcome? || c.EndDelay?
  }

  function PlaceAfter(s: State, c: Calm): OutcomePlace
    requires Can(s, c) && OutcomeStep(c)
  {
    match c
    case LookUp(k) => InFlight(if s.outcomeCopies[k].outcome.messageId in s.inbox then Recorded else Checked)
    case Settle(_) => InFlight(Applied)
    case Note(_) => InFlight(Recorded)
    case TakeOutcome(_) => InFlight(Delivered)
    case ConfirmOutcome(_) => Gone
    case EndDelay(_) => InQueue
  }

  lemma OutcomeMove(maxAttempts: int, s: State, c: Calm)
    requires Can(s, c) && OutcomeStep(c)
    ensures
      var u := Do(maxAttempts, s, c);
      && u.requests == s.requests && u.requestsSent == s.requestsSent && u.requestCopies == s.requestCopies
      && u.stock == s.stock && u.outcomesSent == s.outcomesSent
      && c.copy < |s.outcomeCopies|
      && u.outcomeCopies == s.outcomeCopies[c.copy := s.outcomeCopies[c.copy].(place := PlaceAfter(s, c))]
  {}

  lemma WeightDrops(who: Scope, maxAttempts: nat, s: State, c: Calm)
    requires Can(s, c) && OutcomeStep(c)
    ensures c.copy < |s.outcomeCopies|
    ensures
      var copy := s.outcomeCopies[c.copy];
      var w, v := OutcomeCopyWeight(who, maxAttempts, copy),
                  OutcomeCopyWeight(who, maxAttempts, copy.(place := PlaceAfter(s, c)));
      if Matters(who, s, c) then v < w else v == w
  {}

  lemma OutcomeMoveFalls(who: Scope, maxAttempts: nat, s: State, c: Calm)
    requires Can(s, c) && OutcomeStep(c)
    ensures
      var m, u := Measure(who, maxAttempts, s), Measure(who, maxAttempts, Do(maxAttempts, s, c));
      if Matters(who, s, c) then u < m else u == m
  {
    hide Do, Can, Matters, PlaceAfter, Sum, OutcomeCopyWeight, OutcomeCopyWeights, RequestCopyWeights, RequestWeights,
         OutcomeWeights;
    OutcomeMove(maxAttempts, s, c);
    WeightDrops(who, maxAttempts, s, c);
    OutcomeCopyMoves(who, maxAttempts, s.outcomeCopies, c.copy, PlaceAfter(s, c));
  }

  lemma CollideFrame(maxAttempts: int, s: State, k: nat)
    requires Can(s, Collide(k))
    ensures
      var u, copies := Do(maxAttempts, s, Collide(k)), s.outcomeCopies;
      && u.orders == s.orders && u.stock == s.stock && u.inbox == s.inbox && u.outcomesSent == s.outcomesSent
      && u.requests == s.requests && u.requestsSent == s.requestsSent && u.requestCopies == s.requestCopies
      && k < |copies|
      && u.outcomeCopies == copies[k := copies[k].(place := Gone)] + [FailureCopy(maxAttempts, copies[k])]
  {}

  lemma CollideWeight(who: Scope, maxAttempts: nat, c: OutcomeCopy)
    requires 0 < maxAttempts <= INT_MAX && 1 <= c.attempt <= maxAttempts && c.place == InFlight(Applied)
    ensures
      var w, v := OutcomeCopyWeight(who, maxAttempts, c),
                  OutcomeCopyWeight(who, maxAttempts, FailureCopy(maxAttempts, c));
      if Counts(who, c.outcome.orderId) then v < w else v == w
    ensures OutcomeCopyWeight(who, maxAttempts, c.(place := Gone)) == 0
  {}

  lemma CollideFalls(who: Scope, maxAttempts: nat, s: State, k: nat)
    requires 0 < maxAttempts <= INT_MAX && Can(s, Collide(k)) && AttemptsOk(maxAttempts, s.outcomeCopies)
    ensures
      var m, u := Measure(who, maxAttempts, s), Measure(who, maxAttempts, Do(maxAttempts, s, Collide(k)));
      if Matters(who, s, Collide(k)) then u < m else u == m
  {
    CollideFrame(maxAttempts, s, k);
    var c := s.outcomeCopies[k];
    CollideWeight(who, maxAttempts, c);
    hide Do, Can, Sum, RequestWeights, RequestCopyWeights, OutcomeWeights, OutcomeCopyWeights, OutcomeCopyWeight,
         FailureCopy;
    OutcomeCopyMoves(who, maxAttempts, s.outcomeCopies, k, Gone);
    OutcomeCopyAdded(who, maxAttempts, s.outcomeCopies[k := c.(place := Gone)], FailureCopy(maxAttempts, c));
  }

  lemma AnsweredWeights(who: Scope, maxAttempts: nat, orders: map<OrderId, OrderRow>, requests: seq<Request>,
                        minted: set<nat>, sent: set<nat>, inbox: set<MessageId>, r: Request)
    requires RequestsOk(orders, requests, minted) && r in requests && r.messageId !in inbox
    ensures Sum(RequestWeights(who, maxAttempts, requests, sent, inbox + {r.messageId}))
            == Sum(RequestWeights(who, maxAttempts, requests, sent, inbox))
               - if Counts(who, r.orderId) then 8 * maxAttempts + 1 else 0
  {
    var n :| 0 <= n < |requests| && requests[n] == r;
    var before := RequestWeights(who, maxAttempts, requests, sent, inbox);
    var w := if Counts(who, r.orderId) then before[n] - (8 * maxAttempts + 1) else before[n];
    var after := RequestWeights(who, maxAttempts, requests, sent, inbox + {r.messageId});
    forall i | 0 <= i < |requests| ensures after[i] == if i == n then w else before[i] {
      if i != n {
        MessagesDiffer(orders, requests, minted, i, n);
      }
    }
    hide RequestsOk, RequestWeights, RequestWeight, Counts;
    assert after == before[n := w];
    SumUpdate(before, n, w);
  }

  lemma MessagesDiffer(orders: map<OrderId, OrderRow>, requests: seq<Request>, minted: set<nat>, i: nat, j: nat)
    requires RequestsOk(orders, requests, minted) && i < |requests| && j < |requests| && i != j
    ensures requests[i].messageId != requests[j].messageId
  {
    var lo, hi := if i < j then i else j, if i < j then j else i;
    assert requests[lo].messageId != requests[hi].messageId;
  }

  lemma NewOutcomeWeights(who: Scope, maxAttempts: nat, outbox: seq<Outcome>, sent: set<nat>, o: Outcome)
    requires |outbox| !in sent
    ensures Sum(OutcomeWeights(who, maxAttempts, outbox + [o], sent))
            == Sum(OutcomeWeights(who, maxAttempts, outbox, sent)) + OutcomeWeight(who, maxAttempts, o, false)
  {
    var w := OutcomeWeight(who, maxAttempts, o, false);
    assert OutcomeWeights(who, maxAttempts, outbox + [o], sent) == OutcomeWeights(who, maxAttempts, outbox, sent) + [w];
    SumAppend(OutcomeWeights(who, maxAttempts, outbox, sent), w);
  }

  lemma KnownRequest(requests: seq<Request>, sent: set<nat>, copies: seq<RequestCopy>, inbox: map<MessageId, Request>,
                     k: nat)
    requires RequestCopiesOk(requests, sent, copies, inbox) && k < |copies|
    ensures copies[k].request in requests
  {}

  lemma ReserveIsCommit(maxAttempts: int, s: State, c: Calm)
    requires Inv(s) && Can(s, c) && c.Reserve?
    ensures
      var u, r := Do(maxAttempts, s, c), s.requestCopies[c.copy].request;
      && r in s.requests && s.requestCopies[c.copy].place == Unacked(false)
      && u.requests == s.requests && u.requestsSent == s.requestsSent
      && u.outcomesSent == s.outcomesSent && u.outcomeCopies == s.outcomeCopies
      && u.requestCopies == s.requestCopies[c.copy := s.requestCopies[c.copy].(place := Unacked(true))]
      && u.stock.inbox.Keys == s.stock.inbox.Keys + {r.messageId}
      && if r.messageId in s.stock.inbox then u.stock == s.stock
         else exists o: Outcome :: o.orderId == r.orderId && u.stock.outbox == s.stock.outbox + [o]
  {
    hide RequestsOk, RequestCopiesOk, StockOk, OutcomeCopiesOk, StatusOk;
    var u, r := Do(maxAttempts, s, c), s.requestCopies[c.copy].request;
    KnownRequest(s.requests, s.requestsSent, s.requestCopies, s.stock.inbox, c.copy);
    EffectExact(s.stock, r, c.outcomeId);
    hide Transact, Check, Written, Rows, Admissible;
    assert s.stock.inbox[r.messageId := r].Keys == s.stock.inbox.Keys + {r.messageId};
    if r.messageId in s.stock.inbox {
      assert s.stock.inbox.Keys == s.stock.inbox.Keys + {r.messageId};
    } else {
      var o := Outcome(c.outcomeId, r.orderId, Check(s.stock.inventory, r.items), r.items);
      assert u.stock.outbox == s.stock.outbox + [o];
    }
  }

  lemma ReserveFalls(who: Scope, maxAttempts: nat, s: State, c: Calm)
    requires Inv(s) && Can(s, c) && c.Reserve?
    ensures
      var m, u := Measure(who, maxAttempts, s), Measure(who, maxAttempts, Do(maxAttempts, s, c));
      if Matters(who, s, c) then u < m else u == m
  {
    hide RequestsOk, RequestCopiesOk, StockOk, OutcomeCopiesOk, StatusOk, Transact, Do, Good,
         Sum, OutcomeCopyWeights, RequestCopyWeights, RequestWeights, OutcomeWeights;
    ReserveIsCommit(maxAttempts, s, c);
    var r := s.requestCopies[c.copy].request;
    RequestCopyMoves(who, s.requestCopies, c.copy, Unacked(true));
    hide Can, Enabled;
    if r.messageId in s.stock.inbox {
      assert s.stock.inbox.Keys == s.stock.inbox.Keys + {r.messageId};
    } else {
      var o: Outcome :| o.orderId == r.orderId && Do(maxAttempts, s, c).stock.outbox == s.stock.outbox + [o];
      AnsweredWeights(who, maxAttempts, s.orders, s.requests, s.minted, s.requestsSent, s.stock.inbox.Keys, r);
      NextRowUnsent(s);
      NewOutcomeWeights(who, maxAttempts, s.stock.outbox, s.outcomesSent, o);
    }
  }

  lemma NextRowUnsent(s: State)
    requires Inv(s)
    ensures |s.stock.outbox| !in s.outcomesSent
  {
    hide RequestsOk, RequestCopiesOk, StockOk, StatusOk;
  }

  /**
   The ranking: a calm step that matters lowers the measure, and one that neither matters nor adds to it leaves it.
   */
  lemma EveryStepFalls(who: Scope, maxAttempts: nat, s: State, c: Calm)
    requires 0 < maxAttempts <= INT_MAX && Inv(s) && AttemptsOk(maxAttempts, s.outcomeCopies)
    requires Can(s, c) && !Rises(who, s, c)
    ensures
      var m, u := Measure(who, maxAttempts, s), Measure(who, maxAttempts, Do(maxAttempts, s, c));
      if Matters(who, s, c) then u < m else u == m
  {
    hide Inv, Measure, Do, Can, AttemptsOk, Weighs, Counts;
    if c.New? {
      NewKeeps(who, maxAttempts, s, c);
    } else if c.SendRequest? {
      SendRequestFalls(who, maxAttempts, s, c.row);
    } else if c.SendOutcome? {
      SendOutcomeFalls(who, maxAttempts, s, c.row);
    } else if c.TakeRequest? || c.ConfirmRequest? {
      RequestMoveFalls(who, maxAttempts, s, c);
    } else if c.Reserve? {
      ReserveFalls(who, maxAttempts, s, c);
    } else if c.Collide? {
      CollideFalls(who, maxAttempts, s, c.copy);
    } else if c.GiveBack? {
      GiveBackKeeps(who, maxAttempts, s, c.copy);
    } else {
      OutcomeMoveFalls(who, maxAttempts, s, c);
    }
  }

  // There is always something to do -----------------------------------------------------------

  predicate Over(place: OutcomePlace) {
    place == DeadLettered || place == Gone
  }

  /**
   The j-th answer can no longer arrive: it was sent, is not recorded, and all its copies are dead-lettered or gone.
   */
  ghost predicate DeadAt(s: State, j: nat) {
    && j < |s.stock.outbox| && j in s.outcomesSent && s.stock.outbox[j].messageId !in s.inbox
    && forall k | 0 <= k < |s.outcomeCopies| && s.outcomeCopies[k].outcome == s.stock.outbox[j] ::
         Over(s.outcomeCopies[k].place)
  }

  ghost predicate AnswerDead(s: State, order: OrderId) {
    exists j: nat :: DeadAt(s, j) && s.stock.outbox[j].orderId == order
  }

  /** An order whose answer died before it was applied. */
  ghost predicate Lost(s: State, order: OrderId) {
    order in s.orders && s.orders[order].status == Pending && AnswerDead(s, order)
  }

  /** An order that still waits for an answer that can still arrive. */
  ghost predicate Waiting(s: State, order: OrderId) {
    order in s.orders && s.orders[order].status == Pending && !AnswerDead(s, order)
  }

  /** The transaction of the order's request would commit now; once the request is answered it does so for ever. */
  ghost predicate CommitsNow(s: State, order: OrderId) {
    forall r | r in s.requests && r.orderId == order :: Transact(s.stock, r, 0).Some?
  }

  lemma RequestOf(orders: map<OrderId, OrderRow>, requests: seq<Request>, minted: set<nat>, order: OrderId)
    returns (i: nat)
    requires RequestsOk(orders, requests, minted) && order in orders
    ensures i < |requests| && requests[i].orderId == order && requests[i].items == orders[order].items
  {
    i :| 0 <= i < |requests| && requests[i].orderId == order;
  }

  lemma OpenCopyOf(s: State, i: nat) returns (k: nat)
    requires Inv(s) && i < |s.requests| && s.requests[i].messageId !in s.stock.inbox && i in s.requestsSent
    ensures k < |s.requestCopies| && s.requestCopies[k].request == s.requests[i]
    ensures s.requestCopies[k].place == Queued || s.requestCopies[k].place == Unacked(false)
  {
    hide RequestsOk, StockOk, OutcomeCopiesOk, StatusOk;
    k :| 0 <= k < |s.requestCopies| && s.requestCopies[k].request == s.requests[i];
  }

  lemma RequestStepToDo(s: State, i: nat, unused: MessageId) returns (c: Calm)
    requires Inv(s) && unused !in s.minted
    requires i < |s.requests| && s.requests[i].messageId !in s.stock.inbox && Transact(s.stock, s.requests[i], 0).Some?
    ensures Useful(Only(s.requests[i].orderId), s, c)
  {
    hide Inv, Transact;
    if i !in s.requestsSent {
      return SendRequest(i);
    }
    var k := OpenCopyOf(s, i);
    if s.requestCopies[k].place == Queued {
      return TakeRequest(k);
    }
    SameRefusal(s.stock, s.requests[i], 0, unused);
    return Reserve(k, unused);
  }

  lemma SameMessageSameRequest(orders: map<OrderId, OrderRow>, requests: seq<Request>, minted: set<nat>, i: nat,
                               r: Request)
    requires RequestsOk(orders, requests, minted) && i < |requests| && r in requests
             && r.messageId == requests[i].messageId
    ensures r == requests[i]
  {
    var n :| 0 <= n < |requests| && requests[n] == r;
  }

  lemma AnswerOf(s: State, i: nat) returns (j: nat)
    requires Inv(s) && i < |s.requests| && s.requests[i].messageId in s.stock.inbox
    ensures j < |s.stock.outbox| && s.stock.outbox[j].orderId == s.requests[i].orderId
  {
    hide RequestsOk, RequestCopiesOk, OutcomeCopiesOk, StatusOk;
    var r := s.stock.inbox[s.requests[i].messageId];
    SameMessageSameRequest(s.orders, s.requests, s.minted, i, r);
    assert Answered(s.stock.outbox, r.orderId);
    j :| 0 <= j < |s.stock.outbox| && s.stock.outbox[j].orderId == r.orderId;
  }

  lemma RecordedMeansSettled(s: State, j: nat)
    requires Inv(s) && j < |s.stock.outbox| && s.stock.outbox[j].messageId in s.inbox
    ensures SettledBy(s.orders, s.stock.outbox[j])
  {
    hide RequestsOk, RequestCopiesOk;
    var o := s.inbox[s.stock.outbox[j].messageId];
    var i :| 0 <= i < |s.stock.outbox| && s.stock.outbox[i] == o;
    assert i == j;
  }

  lemma LiveCopyOf(s: State, j: nat) returns (k: nat)
    requires Inv(s) && j in s.outcomesSent && j < |s.stock.outbox| && s.stock.outbox[j].messageId !in s.inbox
    requires !DeadAt(s, j)
    ensures k < |s.outcomeCopies| && s.outcomeCopies[k].outcome == s.stock.outbox[j]
    ensures !Over(s.outcomeCopies[k].place) && s.outcomeCopies[k].place != InFlight(Recorded)
  {
    hide RequestsOk, RequestCopiesOk, StockOk, StatusOk;
    k :| 0 <= k < |s.outcomeCopies| && s.outcomeCopies[k].outcome == s.stock.outbox[j]
        && !Over(s.outcomeCopies[k].place);
  }

  lemma CopyStepToDo(s: State, k: nat) returns (c: Calm)
    requires k < |s.outcomeCopies| && s.outcomeCopies[k].outcome.messageId !in s.inbox
    requires
      var place := s.outcomeCopies[k].place;
      !Over(place) && place != InFlight(Recorded)
    ensures Useful(Only(s.outcomeCopies[k].outcome.orderId), s, c)
  {
    match s.outcomeCopies[k].place
    case InQueue => c := TakeOutcome(k);
    case Delayed => c := EndDelay(k);
    case InFlight(Delivered) => c := LookUp(k);
    case InFlight(Checked) => c := Settle(k);
    case InFlight(_) => c := Note(k);
  }

  lemma OutcomeStepToDo(s: State, j: nat) returns (c: Calm)
    requires Inv(s) && j < |s.stock.outbox|
    requires Waiting(s, s.stock.outbox[j].orderId)
    ensures Useful(Only(s.stock.outbox[j].orderId), s, c)
  {
    hide Inv, Useful, DeadAt;
    if s.stock.outbox[j].messageId in s.inbox {
      RecordedMeansSettled(s, j);
    } else if j !in s.outcomesSent {
      c := SendOutcome(j);
      CanSendOutcome(s, j);
    } else {
      var k := LiveCopyOf(s, j);
      c := CopyStepToDo(s, k);
    }
  }

  lemma CanSendOutcome(s: State, j: nat)
    requires j < |s.stock.outbox| && j !in s.outcomesSent
    ensures Useful(Only(s.stock.outbox[j].orderId), s, SendOutcome(j))
  {}

  /** As long as an order waits and its transaction commits, some step on its own messages lowers its measure. */
  lemma SomethingToDo(s: State, order: OrderId) returns (c: Calm)
    requires Inv(s) && Waiting(s, order) && CommitsNow(s, order)
    ensures Useful(Only(order), s, c)
  {
    var i := RequestOf(s.orders, s.requests, s.minted, order);
    hide Inv, AnswerDead, Useful, Transact;
    assert s.requests[i] in s.requests;
    if s.requests[i].messageId in s.stock.inbox {
      var j := AnswerOf(s, i);
      c := OutcomeStepToDo(s, j);
    } else {
      var unused := Unused(s.minted);
      c := RequestStepToDo(s, i, unused);
    }
  }

  lemma Unused(used: set<nat>) returns (id: nat)
    ensures id !in used
  {
    var bound := Bound(used);
    id := bound;
  }

  lemma Bound(used: set<nat>) returns (bound: nat)
    ensures forall id | id in used :: id < bound
  {
    if used == {} {
      bound := 0;
    } else {
      var id :| id in used;
      bound := Bound(used - {id});
      assert forall other | other in used :: other == id || other in used - {id};
      bound := if id < bound then bound else id + 1;
    }
  }
}
