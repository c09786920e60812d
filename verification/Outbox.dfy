/** The outbox table and its worker. The order and inventory services run the same code over their own tables. */
module Outbox {
  type RowId = nat

  datatype Row = Row(createdAt: int, payload: string, retryCount: nat, processed: bool)
  type Rows = map<RowId, Row>

  // One call of Publish: the row, the bytes it sent, whether they reached a queue, and whether the call returned nil.
  datatype Publication = Publication(id: RowId, payload: string, routed: bool, ok: bool)

  datatype State = State(rows: Rows, log: seq<Publication>)

  function Unprocessed(rows: Rows): set<RowId> {
    set id | id in rows && !rows[id].processed
  }

  // What the database promises for: unprocessed, ordered by created_at, at most `limit`. Ties may come in any order.
  ghost predicate IsBatch(rows: Rows, limit: nat, batch: seq<RowId>) {
    && |batch| == Min(limit, |Unprocessed(rows)|)
    && NoRepeats(batch)
    && (forall i | 0 <= i < |batch| :: batch[i] in Unprocessed(rows))
    && (forall i, j | 0 <= i < j < |batch| :: rows[batch[i]].createdAt <= rows[batch[j]].createdAt)
    && (forall i, id | 0 <= i < |batch| && id in Unprocessed(rows) && id !in batch ::
       rows[batch[i]].createdAt <= rows[id].createdAt)
  }

  ghost predicate NoRepeats(s: seq<RowId>) {
    forall i, j | 0 <= i < j < |s| :: s[i] != s[j]
  }

  function Min(a: nat, b: nat): nat {
    if a < b then a else b
  }

  // What happened to one message of a batch. A nil from Publish means routed; an UPDATE may fail, and its error is only
  // logged.
  datatype Fate = Fate(routed: bool, published: bool, updated: bool)

  predicate Sound(fate: Fate) {
    fate.published ==> fate.routed
  }

  function ProcessOne(s: State, id: RowId, fate: Fate): State
    requires id in s.rows
  {
    var row := s.rows[id];
    var sent := s.(log := s.log + [Publication(id, row.payload, fate.routed, fate.published)]);
    if !fate.updated then sent
    else if fate.published then sent.(rows := s.rows[id := row.(processed := true)])
    else sent.(rows := s.rows[id := row.(retryCount := row.retryCount + 1)])
  }

  function Process(s: State, batch: seq<RowId>, fates: seq<Fate>): (u: State)
    requires |batch| == |fates|
    requires forall i | 0 <= i < |batch| :: batch[i] in s.rows
    ensures u.rows.Keys == s.rows.Keys
  {
    if batch == [] then s
    else
      var before := Process(s, batch[..|batch| - 1], fates[..|batch| - 1]);
      ProcessOne(before, batch[|batch| - 1], fates[|batch| - 1])
  }

  lemma ProcessSnoc(s: State, batch: seq<RowId>, fates: seq<Fate>, i: nat)
    requires i < |batch| <= |fates|
    requires forall k | 0 <= k < |batch| :: batch[k] in s.rows
    ensures Process(s, batch[..i + 1], fates[..i + 1])
            == ProcessOne(Process(s, batch[..i], fates[..i]), batch[i], fates[i])
  {
    assert batch[..i + 1][..i] == batch[..i] && fates[..i + 1][..i] == fates[..i];
  }

  // The worker ------------------------------------------------------------------------------

  datatype Message = Message(id: RowId, payload: string)

  function IdsOf(messages: seq<Message>): (ids: seq<RowId>)
    ensures |ids| == |messages| && forall i | 0 <= i < |ids| :: ids[i] == messages[i].id
  {
    seq(|messages|, i requires 0 <= i < |messages| => messages[i].id)
  }

  /** The oldest rows have been taken into the batch, oldest first; `waiting` are the others. */
  ghost predicate Taken(rows: Rows, batch: seq<RowId>, waiting: set<RowId>) {
    && NoRepeats(batch) && waiting <= rows.Keys && (forall i | 0 <= i < |batch| :: batch[i] in rows)
    && (forall id :: id in Unprocessed(rows) <==> id in waiting || id in batch)
    && (forall id | id in waiting :: id !in batch)
    && |waiting| + |batch| == |Unprocessed(rows)|
    && (forall i, j | 0 <= i < j < |batch| :: rows[batch[i]].createdAt <= rows[batch[j]].createdAt)
    && (forall i, id | 0 <= i < |batch| && id in waiting :: rows[batch[i]].createdAt <= rows[id].createdAt)
  }

  lemma TakeOldest(rows: Rows, batch: seq<RowId>, waiting: set<RowId>, id: RowId)
    requires Taken(rows, batch, waiting) && id in waiting
    requires forall other | other in waiting :: rows[id].createdAt <= rows[other].createdAt
    ensures Taken(rows, batch + [id], waiting - {id})
  {}

  lemma NoneTaken(rows: Rows)
    ensures Taken(rows, [], Unprocessed(rows))
  {}

  lemma TakenIsBatch(rows: Rows, limit: nat, batch: seq<RowId>, waiting: set<RowId>)
    requires Taken(rows, batch, waiting) && |batch| <= limit && (|batch| == limit || waiting == {})
    ensures IsBatch(rows, limit, batch)
  {}

  class OutboxWorker {
    const batchSize: nat
    var rows: Rows
    ghost var log: seq<Publication>

    constructor (batchSize: nat)
      ensures this.batchSize == batchSize && rows == map[] && log == []
    {
      this.batchSize, rows, log := batchSize, map[], [];
    }

    method FindUnprocessed(limit: nat) returns (messages: seq<Message>)
      ensures IsBatch(rows, limit, IdsOf(messages))
      ensures forall i | 0 <= i < |messages| ::
                messages[i].id in rows && messages[i].payload == rows[messages[i].id].payload
    {
      messages := [];
      var waiting := Unprocessed(rows);
      NoneTaken(rows);
      assert IdsOf(messages) == [];
      hide IsBatch, Taken;
      while |messages| < limit && waiting != {}
        invariant |messages| <= limit && waiting <= rows.Keys && Taken(rows, IdsOf(messages), waiting)
        invariant forall i | 0 <= i < |messages| ::
            messages[i].id in rows && messages[i].payload == rows[messages[i].id].payload
        decreases waiting
      {
        var id := Oldest(waiting);
        TakeOldest(rows, IdsOf(messages), waiting, id);
        assert IdsOf(messages) + [id] == IdsOf(messages + [Message(id, rows[id].payload)]);
        messages := messages + [Message(id, rows[id].payload)];
        waiting := waiting - {id};
      }
      TakenIsBatch(rows, limit, IdsOf(messages), waiting);
    }

    method Oldest(ids: set<RowId>) returns (oldest: RowId)
      requires ids != {} && ids <= rows.Keys
      ensures oldest in ids && forall id | id in ids :: rows[oldest].createdAt <= rows[id].createdAt
    {
      oldest :| oldest in ids;
      var left := ids - {oldest};
      while left != {}
        invariant oldest in ids && left <= ids
        invariant forall id | id in ids && id !in left :: rows[oldest].createdAt <= rows[id].createdAt
        decreases left
      {
        var id :| id in left;
        if rows[id].createdAt < rows[oldest].createdAt {
          oldest := id;
        }
        left := left - {id};
      }
    }

    /** An UPDATE that matches no row is not an error. */
    method MarkAsProcessed(id: RowId)
      modifies this`rows
      ensures id in old(rows) ==> rows == old(rows)[id := old(rows)[id].(processed := true)]
      ensures id !in old(rows) ==> rows == old(rows)
    {
      if id in rows {
        rows := rows[id := rows[id].(processed := true)];
      }
    }

    method IncrementRetry(id: RowId)
      modifies this`rows
      ensures id in old(rows) ==> rows == old(rows)[id := old(rows)[id].(retryCount := old(rows)[id].retryCount + 1)]
      ensures id !in old(rows) ==> rows == old(rows)
    {
      if id in rows {
        rows := rows[id := rows[id].(retryCount := rows[id].retryCount + 1)];
      }
    }

    /** One tick. `fates` says what the broker and the database will do to each message of the batch. */
    method ProcessBatch(fetchFails: bool, fates: seq<Fate>) returns (ghost batch: seq<RowId>)
      requires |fates| >= |Unprocessed(rows)|
      modifies this
      ensures fetchFails ==> batch == []
      ensures !fetchFails ==> IsBatch(old(rows), batchSize, batch)
      ensures |batch| <= |fates| && forall i | 0 <= i < |batch| :: batch[i] in old(rows)
      ensures State(rows, log) == Process(State(old(rows), old(log)), batch, fates[..|batch|])
    {
      batch := [];
      if fetchFails {
        return;
      }
      var messages := FindUnprocessed(batchSize);
      batch := IdsOf(messages);
      ghost var s := State(rows, log);
      for i := 0 to |messages|
        invariant State(rows, log) == Process(s, batch[..i], fates[..i])
        invariant forall id | id in s.rows :: id in rows && rows[id].payload == s.rows[id].payload
      {
        DeliverOne(messages[i], fates[i]);
        ProcessSnoc(s, batch, fates, i);
      }
      assert batch[..|messages|] == batch;
    }

    method DeliverOne(message: Message, fate: Fate)
      requires message.id in rows && rows[message.id].payload == message.payload
      modifies this
      ensures State(rows, log) == ProcessOne(State(old(rows), old(log)), message.id, fate)
      ensures forall id | id in old(rows) :: id in rows && rows[id].payload == old(rows)[id].payload
    {
      log := log + [Publication(message.id, message.payload, fate.routed, fate.published)];
      if fate.updated {
        if fate.published {
          MarkAsProcessed(message.id);
        } else {
          IncrementRetry(message.id);
        }
      }
    }
  }

  // Never lies, never loses -----------------------------------------------------------------

  function Failures(log: seq<Publication>, id: RowId): nat {
    if log == [] then 0
    else Failures(log[..|log| - 1], id) + if log[|log| - 1].id == id && !log[|log| - 1].ok then 1 else 0
  }

  ghost predicate ShownRouted(log: seq<Publication>, id: RowId) {
    exists i :: 0 <= i < |log| && log[i].id == id && log[i].ok && log[i].routed
  }

  /**
   A processed row was routed by a publish that reported success, every publish sent the stored payload, and retries
   never exceed failures.
   */
  ghost predicate Truthful(s: State) {
    && (forall id | id in s.rows && s.rows[id].processed :: ShownRouted(s.log, id))
    && (forall i | 0 <= i < |s.log| :: s.log[i].id in s.rows && s.log[i].payload == s.rows[s.log[i].id].payload)
    && (forall id | id in s.rows :: s.rows[id].retryCount <= Failures(s.log, id))
  }

  // One more publication leaves what the log already shows, and adds at most one failure.
  lemma LogMore(log: seq<Publication>, p: Publication, id: RowId)
    ensures Failures(log + [p], id) == Failures(log, id) + if p.id == id && !p.ok then 1 else 0
    ensures ShownRouted(log, id) || (p.id == id && p.ok && p.routed) ==> ShownRouted(log + [p], id)
  {
    var more := log + [p];
    assert more[..|more| - 1] == log && more[|log|] == p;
    if i :| 0 <= i < |log| && log[i].id == id && log[i].ok && log[i].routed {
      assert more[i] == log[i];
    }
  }

  lemma ProcessOneTruthful(s: State, id: RowId, fate: Fate)
    requires Truthful(s) && id in s.rows && Sound(fate)
    ensures Truthful(ProcessOne(s, id, fate))
  {
    var u, p := ProcessOne(s, id, fate), Publication(id, s.rows[id].payload, fate.routed, fate.published);
    assert u.log == s.log + [p];
    hide Failures;
    forall k | k in u.rows
      ensures u.rows[k].processed ==> ShownRouted(u.log, k)
      ensures u.rows[k].retryCount <= Failures(u.log, k)
    {
      LogMore(s.log, p, k);
    }
  }

  // A batch may be stale: other replicas insert and mark rows while this one works through it.
  datatype Event = Insert(id: RowId, createdAt: int, payload: string) | Attempt(id: RowId, fate: Fate)

  function Step(s: State, e: Event): State {
    match e
    case Insert(id, createdAt, payload) =>
      if id in s.rows then s else s.(rows := s.rows[id := Row(createdAt, payload, 0, false)])
    case Attempt(id, fate) => if id !in s.rows || !Sound(fate) then s else ProcessOne(s, id, fate)
  }

  function Run(events: seq<Event>): State {
    if events == [] then State(map[], []) else Step(Run(events[..|events| - 1]), events[|events| - 1])
  }

  lemma {:induction false} NeverLies(events: seq<Event>)
    ensures Truthful(Run(events))
  {
    if events != [] {
      var s, e := Run(events[..|events| - 1]), events[|events| - 1];
      NeverLies(events[..|events| - 1]);
      match e
      case Attempt(id, fate) =>
        if id in s.rows && Sound(fate) {
          ProcessOneTruthful(s, id, fate);
        }
      case Insert(id, _, _) =>
        if id !in s.rows {
          NoFailuresYet(s.rows, s.log, id);
        }
    }
  }

  lemma {:induction false} NoFailuresYet(rows: Rows, log: seq<Publication>, id: RowId)
    requires forall i | 0 <= i < |log| :: log[i].id in rows
    requires id !in rows
    ensures Failures(log, id) == 0
  {
    if log != [] {
      NoFailuresYet(rows, log[..|log| - 1], id);
    }
  }

  predicate AllUpdated(events: seq<Event>) {
    forall i | 0 <= i < |events| && events[i].Attempt? :: events[i].fate.updated
  }

  ghost predicate Succeeded(log: seq<Publication>, id: RowId) {
    exists i :: 0 <= i < |log| && log[i].id == id && log[i].ok
  }

  lemma SucceededMore(log: seq<Publication>, p: Publication, id: RowId)
    ensures Succeeded(log + [p], id) <==> Succeeded(log, id) || (p.id == id && p.ok)
  {
    var more := log + [p];
    assert more[|log|] == p;
    if i :| 0 <= i < |log| && log[i].id == id && log[i].ok {
      assert more[i] == log[i];
    }
  }

  lemma ProcessOneBooks(s: State, id: RowId, fate: Fate, k: RowId)
    requires id in s.rows && k in s.rows && fate.updated
    requires s.rows[k].processed <==> Succeeded(s.log, k)
    requires s.rows[k].retryCount == Failures(s.log, k)
    ensures
      var u := ProcessOne(s, id, fate);
      && (u.rows[k].processed <==> Succeeded(u.log, k))
      && u.rows[k].retryCount == Failures(u.log, k)
  {
    var p := Publication(id, s.rows[id].payload, fate.routed, fate.published);
    assert ProcessOne(s, id, fate).log == s.log + [p];
    hide Failures, Succeeded;
    LogMore(s.log, p, k);
    SucceededMore(s.log, p, k);
  }

  /** While no UPDATE fails, a row is processed exactly when a publish of it succeeded, and counts the others. */
  lemma {:induction false} BookkeepingExact(events: seq<Event>, id: RowId)
    requires AllUpdated(events) && id in Run(events).rows
    ensures Run(events).rows[id].processed <==> Succeeded(Run(events).log, id)
    ensures Run(events).rows[id].retryCount == Failures(Run(events).log, id)
  {
    var fewer, e := events[..|events| - 1], events[|events| - 1];
    var s := Run(fewer);
    assert AllUpdated(fewer) && (e.Attempt? ==> e.fate.updated);
    hide AllUpdated, Failures;
    if id in s.rows {
      BookkeepingExact(fewer, id);
      hide Succeeded;
      if e.Attempt? && e.id in s.rows && Sound(e.fate) {
        ProcessOneBooks(s, e.id, e.fate, id);
      }
    } else {
      NeverLies(fewer);
      NoFailuresYet(s.rows, s.log, id);
    }
  }

  /** Every row holds what it was inserted with, so every publish sends what was inserted under its id. */
  lemma {:induction false} RowsWereInserted(events: seq<Event>, id: RowId)
    requires id in Run(events).rows
    ensures exists i ::
              && 0 <= i < |events| && events[i].Insert? && events[i].id == id
              && events[i].payload == Run(events).rows[id].payload
              && events[i].createdAt == Run(events).rows[id].createdAt
  {
    var fewer, e := events[..|events| - 1], events[|events| - 1];
    if id in Run(fewer).rows {
      RowsWereInserted(fewer, id);
      var i :| 0 <= i < |fewer| && fewer[i].Insert? && fewer[i].id == id
          && fewer[i].payload == Run(fewer).rows[id].payload && fewer[i].createdAt == Run(fewer).rows[id].createdAt;
      assert events[i] == fewer[i];
    } else {
      assert e == events[|events| - 1];
    }
  }

  /** A committed row keeps its payload for ever, and stays unprocessed unless a later publish of it succeeded. */
  lemma {:induction false} NeverLoses(events: seq<Event>, more: seq<Event>, id: RowId)
    requires id in Run(events).rows
    ensures
      var s, u := Run(events), Run(events + more);
      && id in u.rows && u.rows[id].payload == s.rows[id].payload
      && s.log <= u.log
      && (!s.rows[id].processed && u.rows[id].processed ==>
            exists i :: |s.log| <= i < |u.log| && u.log[i].id == id && u.log[i].ok && u.log[i].routed)
  {
    if more == [] {
      assert events + more == events;
    } else {
      var fewer := more[..|more| - 1];
      NeverLoses(events, fewer, id);
      assert (events + more)[..|events + more| - 1] == events + fewer;
      var s, b, u := Run(events), Run(events + fewer), Run(events + more);
      if !s.rows[id].processed && u.rows[id].processed {
        if b.rows[id].processed {
          var i :| |s.log| <= i < |b.log| && b.log[i].id == id && b.log[i].ok && b.log[i].routed;
          assert u.log[i] == b.log[i];
        } else {
          assert u.log[|b.log|].id == id;
        }
      }
    }
  }

  // Draining --------------------------------------------------------------------------------

  function MarkAll(rows: Rows, batch: seq<RowId>): Rows {
    map id | id in rows :: rows[id].(processed := rows[id].processed || id in batch)
  }

  function Flawless(n: nat): seq<Fate> {
    seq(n, _ => Fate(true, true, true))
  }

  function Sends(rows: Rows, batch: seq<RowId>): seq<Publication>
    requires forall i | 0 <= i < |batch| :: batch[i] in rows
  {
    seq(|batch|, i requires 0 <= i < |batch| => Publication(batch[i], rows[batch[i]].payload, true, true))
  }

  lemma MarkOneMore(rows: Rows, batch: seq<RowId>, id: RowId)
    requires id in rows
    ensures MarkAll(rows, batch + [id]) == MarkAll(rows, batch)[id := rows[id].(processed := true)]
  {
    assert forall k :: k in batch + [id] <==> k in batch || k == id;
  }

  lemma {:induction false} FlawlessPass(s: State, batch: seq<RowId>)
    requires forall i | 0 <= i < |batch| :: batch[i] in s.rows
    ensures Process(s, batch, Flawless(|batch|)) == State(MarkAll(s.rows, batch), s.log + Sends(s.rows, batch))
  {
    if batch == [] {
      assert MarkAll(s.rows, batch) == s.rows;
    } else {
      var fewer, last := batch[..|batch| - 1], batch[|batch| - 1];
      FlawlessPass(s, fewer);
      assert Flawless(|batch|)[..|fewer|] == Flawless(|fewer|);
      var before := Process(s, fewer, Flawless(|fewer|));
      hide Process;
      MarkOneMore(s.rows, fewer, last);
      assert fewer + [last] == batch;
      assert Sends(s.rows, batch) == Sends(s.rows, fewer) + [Publication(last, before.rows[last].payload, true, true)];
    }
  }

  /** The rows after flawless passes over the given batches, and the ids those passes published, in order. */
  function Drained(rows: Rows, batches: seq<seq<RowId>>): Rows {
    if batches == [] then rows else MarkAll(Drained(rows, batches[..|batches| - 1]), batches[|batches| - 1])
  }

  function Published(batches: seq<seq<RowId>>): seq<RowId> {
    if batches == [] then [] else Published(batches[..|batches| - 1]) + batches[|batches| - 1]
  }

  ghost predicate Passes(rows: Rows, limit: nat, batches: seq<seq<RowId>>) {
    batches != [] ==>
      && Passes(rows, limit, batches[..|batches| - 1])
      && IsBatch(Drained(rows, batches[..|batches| - 1]), limit, batches[|batches| - 1])
  }

  function Ids(s: seq<RowId>): set<RowId> {
    set id | id in s
  }

  lemma {:induction false} IdsSize(s: seq<RowId>)
    requires NoRepeats(s)
    ensures |Ids(s)| == |s|
  {
    if s != [] {
      IdsSize(s[..|s| - 1]);
      assert Ids(s) == Ids(s[..|s| - 1]) + {s[|s| - 1]};
    }
  }

  lemma BatchShrinks(rows: Rows, limit: nat, batch: seq<RowId>)
    requires IsBatch(rows, limit, batch)
    ensures Ids(batch) <= Unprocessed(rows) && Unprocessed(MarkAll(rows, batch)) == Unprocessed(rows) - Ids(batch)
    ensures |Unprocessed(MarkAll(rows, batch))| == |Unprocessed(rows)| - |batch|
  {
    IdsSize(batch);
    assert Ids(batch) <= Unprocessed(rows);
  }

  ghost predicate OldestFirst(rows: Rows, ids: seq<RowId>) {
    && (forall i | 0 <= i < |ids| :: ids[i] in rows)
    && forall i, j | 0 <= i < j < |ids| :: rows[ids[i]].createdAt <= rows[ids[j]].createdAt
  }

  /** The oldest waiting rows were published, each once, oldest first; exactly the others wait, none of them older. */
  ghost predicate WellDrained(rows: Rows, u: Rows, ids: seq<RowId>) {
    && u.Keys == rows.Keys && (forall id | id in rows :: u[id].createdAt == rows[id].createdAt)
    && NoRepeats(ids) && OldestFirst(rows, ids)
    && Ids(ids) <= Unprocessed(rows) && Unprocessed(u) == Unprocessed(rows) - Ids(ids)
    && (forall i, id | 0 <= i < |ids| && id in Unprocessed(u) :: rows[ids[i]].createdAt <= rows[id].createdAt)
  }

  // What was published before is older than everything still waiting, so the next batch can follow it.
  lemma JoinOrdered(rows: Rows, before: Rows, ids: seq<RowId>, batch: seq<RowId>)
    requires before.Keys == rows.Keys && forall id | id in rows :: before[id].createdAt == rows[id].createdAt
    requires NoRepeats(ids) && OldestFirst(rows, ids) && NoRepeats(batch) && OldestFirst(before, batch)
    requires forall i | 0 <= i < |batch| :: batch[i] in Unprocessed(before)
    requires Unprocessed(before) !! Ids(ids)
    requires forall i, id | 0 <= i < |ids| && id in Unprocessed(before) :: rows[ids[i]].createdAt <= rows[id].createdAt
    ensures NoRepeats(ids + batch) && OldestFirst(rows, ids + batch)
  {
    var all := ids + batch;
    forall i, j | 0 <= i < j < |all| ensures all[i] != all[j] && rows[all[i]].createdAt <= rows[all[j]].createdAt {
      if i < |ids| <= j {
        assert all[i] == ids[i] && all[i] in Ids(ids);
        assert all[j] == batch[j - |ids|] && all[j] in Unprocessed(before);
      }
    }
  }

  lemma MarkAllFrame(rows: Rows, batch: seq<RowId>)
    ensures MarkAll(rows, batch).Keys == rows.Keys
    ensures forall id | id in rows :: MarkAll(rows, batch)[id].createdAt == rows[id].createdAt
  {}

  lemma DrainedIds(rows: Rows, before: Rows, ids: seq<RowId>, limit: nat, batch: seq<RowId>)
    requires WellDrained(rows, before, ids) && IsBatch(before, limit, batch)
    ensures NoRepeats(ids + batch) && OldestFirst(rows, ids + batch)
  {
    JoinOrdered(rows, before, ids, batch);
  }

  lemma DrainedSets(rows: Rows, before: Rows, ids: seq<RowId>, limit: nat, batch: seq<RowId>)
    requires WellDrained(rows, before, ids) && IsBatch(before, limit, batch)
    ensures Ids(ids + batch) <= Unprocessed(rows)
    ensures Unprocessed(MarkAll(before, batch)) == Unprocessed(rows) - Ids(ids + batch)
  {
    BatchShrinks(before, limit, batch);
    assert Ids(ids + batch) == Ids(ids) + Ids(batch);
    hide IsBatch, MarkAll, Unprocessed, NoRepeats, OldestFirst, Ids;
  }

  lemma DrainStep(rows: Rows, before: Rows, ids: seq<RowId>, limit: nat, batch: seq<RowId>)
    requires WellDrained(rows, before, ids) && IsBatch(before, limit, batch)
    ensures WellDrained(rows, MarkAll(before, batch), ids + batch)
  {
    hide IsBatch, MarkAll, Unprocessed, NoRepeats, OldestFirst, Ids;
    DrainedIds(rows, before, ids, limit, batch);
    DrainedSets(rows, before, ids, limit, batch);
    BatchShrinks(before, limit, batch);
    StillOldest(rows, before, ids, limit, batch);
    MarkAllFrame(before, batch);
  }

  lemma StillOldest(rows: Rows, before: Rows, ids: seq<RowId>, limit: nat, batch: seq<RowId>)
    requires WellDrained(rows, before, ids) && IsBatch(before, limit, batch)
    ensures forall i, id | 0 <= i < |ids + batch| && id in Unprocessed(before) - Ids(batch) ::
              rows[(ids + batch)[i]].createdAt <= rows[id].createdAt
  {
    forall i, id | 0 <= i < |ids + batch| && id in Unprocessed(before) - Ids(batch)
      ensures rows[(ids + batch)[i]].createdAt <= rows[id].createdAt
    {
      if i < |ids| {
        assert (ids + batch)[i] == ids[i];
      } else {
        assert (ids + batch)[i] == batch[i - |ids|] && id !in batch;
      }
    }
  }

  /** Flawless passes publish the oldest waiting rows first, each once, and never one while an older one waits. */
  lemma {:induction false} DrainOrder(rows: Rows, limit: nat, batches: seq<seq<RowId>>)
    requires Passes(rows, limit, batches)
    ensures WellDrained(rows, Drained(rows, batches), Published(batches))
  {
    if batches != [] {
      var fewer := batches[..|batches| - 1];
      DrainOrder(rows, limit, fewer);
      DrainStep(rows, Drained(rows, fewer), Published(fewer), limit, batches[|batches| - 1]);
    }
  }

  /** The drain as the worker runs it: its rows are Drained, and Published is what it published. */
  function RunPasses(s: State, limit: nat, batches: seq<seq<RowId>>): (u: State)
    requires Passes(s.rows, limit, batches)
    ensures u.rows == Drained(s.rows, batches)
  {
    if batches == [] then s
    else
      var before := RunPasses(s, limit, batches[..|batches| - 1]);
      var last := batches[|batches| - 1];
      FlawlessPass(before, last);
      Process(before, last, Flawless(|last|))
  }

  function LogIds(log: seq<Publication>): seq<RowId> {
    seq(|log|, i requires 0 <= i < |log| => log[i].id)
  }

  lemma {:induction false} DrainPublishes(s: State, limit: nat, batches: seq<seq<RowId>>)
    requires Passes(s.rows, limit, batches)
    ensures LogIds(RunPasses(s, limit, batches).log) == LogIds(s.log) + Published(batches)
  {
    if batches != [] {
      var fewer := batches[..|batches| - 1];
      DrainPublishes(s, limit, fewer);
      var before, last := RunPasses(s, limit, fewer), batches[|batches| - 1];
      assert forall i | 0 <= i < |last| :: last[i] in Unprocessed(before.rows);
      PassIds(before, last);
      Regroup(LogIds(s.log), Published(fewer), last);
    }
  }

  lemma Regroup(a: seq<RowId>, b: seq<RowId>, c: seq<RowId>)
    ensures (a + b) + c == a + (b + c)
  {}

  lemma PassIds(s: State, batch: seq<RowId>)
    requires forall i | 0 <= i < |batch| :: batch[i] in s.rows
    ensures LogIds(Process(s, batch, Flawless(|batch|)).log) == LogIds(s.log) + batch
  {
    hide *;
    FlawlessPass(s, batch);
    LogIdsAppend(s.log, Sends(s.rows, batch));
    SendsIds(s.rows, batch);
  }

  lemma LogIdsAppend(a: seq<Publication>, b: seq<Publication>)
    ensures LogIds(a + b) == LogIds(a) + LogIds(b)
  {}

  lemma SendsIds(rows: Rows, batch: seq<RowId>)
    requires forall i | 0 <= i < |batch| :: batch[i] in rows
    ensures LogIds(Sends(rows, batch)) == batch
  {}

  function Left(n: nat, limit: nat, k: nat): nat {
    if k * limit >= n then 0 else n - k * limit
  }

  lemma LeftStep(n: nat, limit: nat, k: nat)
    ensures Left(n, limit, k + 1) == Left(n, limit, k) - Min(limit, Left(n, limit, k))
  {
    assert (k + 1) * limit == k * limit + limit;
  }

  /**
   Drain bound: k flawless passes leave n - k * limit rows, so the outbox is empty exactly from pass ceil(n / limit) on.
   */
  lemma {:induction false} DrainBound(rows: Rows, limit: nat, batches: seq<seq<RowId>>)
    requires Passes(rows, limit, batches)
    ensures |Unprocessed(Drained(rows, batches))| == Left(|Unprocessed(rows)|, limit, |batches|)
    ensures Unprocessed(Drained(rows, batches)) == {} <==> |batches| * limit >= |Unprocessed(rows)|
  {
    var n := |Unprocessed(rows)|;
    if batches == [] {
      assert 0 * limit == 0;
    } else {
      var fewer := batches[..|batches| - 1];
      DrainBound(rows, limit, fewer);
      BatchShrinks(Drained(rows, fewer), limit, batches[|batches| - 1]);
      LeftStep(n, limit, |fewer|);
    }
  }

  // Rows that keep failing ------------------------------------------------------------------

  datatype Pass = Pass(batch: seq<RowId>, fates: seq<Fate>)

  function AfterPass(s: State, pass: Pass): State {
    if |pass.batch| == |pass.fates| && forall i | 0 <= i < |pass.batch| :: pass.batch[i] in s.rows
    then Process(s, pass.batch, pass.fates) else s
  }

  function AfterPasses(s: State, passes: seq<Pass>): State {
    if passes == [] then s else AfterPass(AfterPasses(s, passes[..|passes| - 1]), passes[|passes| - 1])
  }

  /** Unprocessed rows, all strictly older than every other unprocessed row. */
  ghost predicate AtHead(rows: Rows, failing: set<RowId>) {
    && failing <= Unprocessed(rows)
    && forall f, id | f in failing && id in Unprocessed(rows) - failing :: rows[f].createdAt < rows[id].createdAt
  }

  /** A pass the database allows, in which every publish of a failing row fails, and all goes well for any other row. */
  ghost predicate Stubborn(rows: Rows, limit: nat, failing: set<RowId>, pass: Pass) {
    && IsBatch(rows, limit, pass.batch) && |pass.fates| == |pass.batch|
    && forall i | 0 <= i < |pass.batch| ::
         if pass.batch[i] in failing then !pass.fates[i].published else pass.fates[i].published && pass.fates[i].updated
  }

  ghost predicate AllStubborn(s: State, limit: nat, failing: set<RowId>, passes: seq<Pass>) {
    passes != [] ==>
      && AllStubborn(s, limit, failing, passes[..|passes| - 1])
      && Stubborn(AfterPasses(s, passes[..|passes| - 1]).rows, limit, failing, passes[|passes| - 1])
  }

  /** What one batch has left for other rows once the failing ones have taken their places in it. */
  function Room(limit: nat, failing: nat): nat {
    if failing < limit then limit - failing else 0
  }

  // The failing rows come first, so either they all fit into the batch or they fill it.
  lemma HeadFirst(rows: Rows, limit: nat, batch: seq<RowId>, failing: set<RowId>)
    requires IsBatch(rows, limit, batch) && AtHead(rows, failing)
    ensures failing <= Ids(batch) || Ids(batch) <= failing
  {
    if i :| 0 <= i < |batch| && batch[i] !in failing {
      forall f | f in failing ensures f in Ids(batch) {
        assert batch[i] in Unprocessed(rows) - failing;
      }
    }
  }

  lemma HeadOfBatch(rows: Rows, limit: nat, batch: seq<RowId>, failing: set<RowId>)
    requires IsBatch(rows, limit, batch) && AtHead(rows, failing)
    ensures |Ids(batch) - failing| == Min(Room(limit, |failing|), |Unprocessed(rows) - failing|)
    ensures |failing| >= limit ==> Ids(batch) <= failing
  {
    IdsSize(batch);
    HeadFirst(rows, limit, batch, failing);
    assert |Unprocessed(rows)| == |failing| + |Unprocessed(rows) - failing|;
    if failing <= Ids(batch) {
      SubsetSize(failing, Ids(batch));
    } else {
      SubsetSize(Ids(batch), failing);
      assert Ids(batch) - failing == {};
    }
  }

  /** What a stubborn pass changes: the rows outside `failing` that it reached are processed, and nothing else is. */
  lemma {:induction false} StubbornPrefix(s: State, batch: seq<RowId>, fates: seq<Fate>, failing: set<RowId>)
    requires |batch| == |fates| && forall i | 0 <= i < |batch| :: batch[i] in s.rows
    requires forall i | 0 <= i < |batch| ::
               if batch[i] in failing then !fates[i].published else fates[i].published && fates[i].updated
    ensures
      var u := Process(s, batch, fates);
      && (forall id | id in s.rows ::
            && u.rows[id].createdAt == s.rows[id].createdAt
            && (u.rows[id].processed <==> s.rows[id].processed || (id in batch && id !in failing)))
      && LogIds(u.log) == LogIds(s.log) + batch
  {
    if batch != [] {
      var n := |batch| - 1;
      StubbornPrefix(s, batch[..n], fates[..n], failing);
      var before, u := Process(s, batch[..n], fates[..n]), Process(s, batch, fates);
      assert u == ProcessOne(before, batch[n], fates[n]);
      hide Process;
      assert batch[..n] + [batch[n]] == batch;
      assert LogIds(u.log) == LogIds(before.log) + [batch[n]];
    }
  }

  lemma HeadStays(rows: Rows, u: Rows, failing: set<RowId>, reached: set<RowId>)
    requires AtHead(rows, failing) && reached !! failing
    requires u.Keys == rows.Keys && forall id | id in rows :: u[id].createdAt == rows[id].createdAt
    requires forall id | id in rows :: u[id].processed <==> rows[id].processed || id in reached
    ensures AtHead(u, failing)
    ensures Unprocessed(u) - failing == Unprocessed(rows) - failing - reached
  {
    assert Unprocessed(u) == Unprocessed(rows) - reached;
  }

  lemma StubbornPass(s: State, limit: nat, failing: set<RowId>, pass: Pass)
    requires AtHead(s.rows, failing) && Stubborn(s.rows, limit, failing, pass)
    ensures
      var u := AfterPass(s, pass).rows;
      && u.Keys == s.rows.Keys && AtHead(u, failing)
      && Unprocessed(u) - failing == Unprocessed(s.rows) - failing - (Ids(pass.batch) - failing)
  {
    StubbornPrefix(s, pass.batch, pass.fates, failing);
    var u := AfterPass(s, pass).rows;
    assert u == Process(s, pass.batch, pass.fates).rows;
    hide Process, IsBatch, AtHead, AfterPass, Unprocessed;
    HeadStays(s.rows, u, failing, Ids(pass.batch) - failing);
  }

  lemma {:induction false} StubbornRun(s: State, limit: nat, failing: set<RowId>, passes: seq<Pass>)
    requires AtHead(s.rows, failing) && AllStubborn(s, limit, failing, passes)
    ensures
      var u := AfterPasses(s, passes).rows;
      && u.Keys == s.rows.Keys && AtHead(u, failing) && Unprocessed(u) - failing <= Unprocessed(s.rows) - failing
      && |Unprocessed(u) - failing| == Left(|Unprocessed(s.rows) - failing|, Room(limit, |failing|), |passes|)
  {
    if passes == [] {
      assert 0 * Room(limit, |failing|) == 0;
    } else {
      var fewer, last := passes[..|passes| - 1], passes[|passes| - 1];
      StubbornRun(s, limit, failing, fewer);
      var before := AfterPasses(s, fewer);
      StubbornPass(before, limit, failing, last);
      HeadOfBatch(before.rows, limit, last.batch, failing);
      LeftStep(|Unprocessed(s.rows) - failing|, Room(limit, |failing|), |fewer|);
      OthersReached(before.rows, limit, failing, last.batch);
      hide AfterPass, AtHead, Stubborn, AllStubborn, Left, Unprocessed, Ids, Room;
    }
  }

  lemma OthersReached(rows: Rows, limit: nat, failing: set<RowId>, batch: seq<RowId>)
    requires IsBatch(rows, limit, batch)
    ensures
      var others, reached := Unprocessed(rows) - failing, Ids(batch) - failing;
      |others - reached| == |others| - |reached|
  {
    assert Ids(batch) - failing <= Unprocessed(rows) - failing;
  }

  /** With no room left by the failing rows, nothing else is ever published. */
  lemma {:induction false} OnlyFailingPublished(s: State, limit: nat, failing: set<RowId>, passes: seq<Pass>)
    requires AtHead(s.rows, failing) && AllStubborn(s, limit, failing, passes) && |failing| >= limit
    ensures
      var log := LogIds(AfterPasses(s, passes).log);
      LogIds(s.log) <= log && forall i | |s.log| <= i < |log| :: log[i] in failing
  {
    if passes != [] {
      var fewer, last := passes[..|passes| - 1], passes[|passes| - 1];
      OnlyFailingPublished(s, limit, failing, fewer);
      StubbornRun(s, limit, failing, fewer);
      FullBatch(AfterPasses(s, fewer), limit, failing, last);
      hide AfterPass, Stubborn, LogIds, AtHead;
    }
  }

  lemma FullBatch(s: State, limit: nat, failing: set<RowId>, pass: Pass)
    requires AtHead(s.rows, failing) && Stubborn(s.rows, limit, failing, pass) && |failing| >= limit
    ensures LogIds(AfterPass(s, pass).log) == LogIds(s.log) + pass.batch
    ensures forall i | 0 <= i < |pass.batch| :: pass.batch[i] in failing
  {
    StubbornPrefix(s, pass.batch, pass.fates, failing);
    HeadOfBatch(s.rows, limit, pass.batch, failing);
    hide Process, AtHead, LogIds;
    assert forall i | 0 <= i < |pass.batch| :: pass.batch[i] in Ids(pass.batch);
  }

  ghost predicate Starved(s: State, u: State, failing: set<RowId>) {
    && u.rows.Keys == s.rows.Keys && (forall id | id in s.rows :: u.rows[id].processed == s.rows[id].processed)
    && |s.log| <= |u.log| && forall i | |s.log| <= i < |u.log| :: u.log[i].id in failing
  }

  lemma NothingReached(s: State, limit: nat, failing: set<RowId>, passes: seq<Pass>, id: RowId)
    requires AtHead(s.rows, failing) && AllStubborn(s, limit, failing, passes) && |failing| >= limit && id in s.rows
    ensures id in AfterPasses(s, passes).rows
    ensures AfterPasses(s, passes).rows[id].processed == s.rows[id].processed
  {
    var u := AfterPasses(s, passes);
    StubbornRun(s, limit, failing, passes);
    hide AfterPasses, AllStubborn;
    var n := |Unprocessed(s.rows) - failing|;
    assert Left(n, 0, |passes|) == n;
    SubsetSize(Unprocessed(u.rows) - failing, Unprocessed(s.rows) - failing);
    assert id in Unprocessed(u.rows) - failing <==> id in Unprocessed(s.rows) - failing;
  }

  lemma StarvedFor(s: State, limit: nat, failing: set<RowId>, passes: seq<Pass>)
    requires AtHead(s.rows, failing) && AllStubborn(s, limit, failing, passes) && |failing| >= limit
    ensures Starved(s, AfterPasses(s, passes), failing)
  {
    hide AfterPasses, AllStubborn, AtHead, Left, Room, Unprocessed;
    var u := AfterPasses(s, passes);
    StubbornRun(s, limit, failing, passes);
    OnlyFailingPublished(s, limit, failing, passes);
    forall id | id in s.rows ensures u.rows[id].processed == s.rows[id].processed {
      NothingReached(s, limit, failing, passes, id);
    }
    forall i | |s.log| <= i < |u.log| ensures u.log[i].id in failing {
      assert LogIds(u.log)[i] in failing;
    }
  }

  /**
   Head-of-line blocking, over every run of passes. Rows that keep failing at the head of the queue let the younger rows
   drain if and only if they are fewer than the batch size, and then after ceil(younger / (limit - failing)) passes.
   Otherwise nothing younger is ever published or marked: nothing reads retry_count.
   */
  lemma HeadOfLineExact(s: State, limit: nat, failing: set<RowId>, passes: seq<Pass>)
    requires AtHead(s.rows, failing) && failing != Unprocessed(s.rows) && AllStubborn(s, limit, failing, passes)
    ensures
      var u, younger := AfterPasses(s, passes), Unprocessed(s.rows) - failing;
      && (Unprocessed(u.rows) == failing <==> |failing| < limit && |passes| * (limit - |failing|) >= |younger|)
      && (|failing| >= limit ==> Starved(s, u, failing))
  {
    var u, younger := AfterPasses(s, passes), Unprocessed(s.rows) - failing;
    StubbornRun(s, limit, failing, passes);
    assert Unprocessed(u.rows) == failing <==> Unprocessed(u.rows) - failing == {};
    assert younger != {};
    hide AfterPasses, AllStubborn, Unprocessed, AtHead, Starved;
    if |failing| >= limit {
      StarvedFor(s, limit, failing, passes);
    }
  }

  function TwoRows(retries: nat): Rows {
    map[0 := Row(0, "", retries, false), 1 := Row(1, "", 0, false)]
  }

  /**
   The younger of two inserted rows, with a batch size of one and the older row failing, is starved by any number of
   passes.
   */
  lemma {:induction false} StarvationReachable(k: nat) returns (s: State, passes: seq<Pass>)
    ensures s == Run([Insert(0, 0, ""), Insert(1, 1, "")]) && |passes| == k
    ensures AtHead(s.rows, {0}) && {0} != Unprocessed(s.rows) && AllStubborn(s, 1, {0}, passes)
    ensures AfterPasses(s, passes).rows == TwoRows(k)
  {
    var pass := Pass([0], [Fate(false, false, true)]);
    hide Run, Process, TwoRows;
    if k == 0 {
      TwoInserted();
      s, passes := Run([Insert(0, 0, ""), Insert(1, 1, "")]), [];
      TwoRowsAtHead(s.rows);
    } else {
      s, passes := StarvationReachable(k - 1);
      var before := AfterPasses(s, passes);
      OldestAlone(k - 1);
      assert Stubborn(before.rows, 1, {0}, pass);
      OneFailure(before, k - 1);
      var longer := passes + [pass];
      assert longer[..|longer| - 1] == passes;
      hide Stubborn, AtHead, AfterPass;
      passes := longer;
    }
  }

  lemma TwoInserted()
    ensures Run([Insert(0, 0, ""), Insert(1, 1, "")]).rows == TwoRows(0)
  {
    var events := [Insert(0, 0, ""), Insert(1, 1, "")];
    assert events[..1] == [Insert(0, 0, "")] && events[..1][..0] == [];
    assert Run(events[..1]).rows == map[0 := Row(0, "", 0, false)];
  }

  lemma TwoRowsAtHead(rows: Rows)
    requires rows == TwoRows(0)
    ensures AtHead(rows, {0}) && {0} != Unprocessed(rows)
  {
    assert 1 in Unprocessed(rows);
  }

  lemma OldestAlone(retries: nat)
    ensures IsBatch(TwoRows(retries), 1, [0])
  {
    assert Unprocessed(TwoRows(retries)) == {0, 1};
  }

  lemma OneFailure(s: State, retries: nat)
    requires s.rows == TwoRows(retries)
    ensures AfterPass(s, Pass([0], [Fate(false, false, true)])).rows == TwoRows(retries + 1)
  {
    var batch, fates := [0], [Fate(false, false, true)];
    assert batch[..0] == [] && fates[..0] == [];
    assert Process(s, batch, fates) == ProcessOne(s, 0, fates[0]);
  }

  lemma {:induction false} SubsetSize(a: set<RowId>, b: set<RowId>)
    requires a <= b
    ensures |a| <= |b|
    ensures a != b ==> |a| < |b|
  {
    assert b == a + (b - a);
  }
}
