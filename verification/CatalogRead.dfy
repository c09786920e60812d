/**
 The read side of the catalog: ProductCreated feeds Mongo, behind an inbox, and the search index, without one; a cached
 product list stands in front of Mongo and is deleted by every product that arrives.
 */
module CatalogRead {
  import opened Prelude
  import opened CatalogWrite

  type Products = map<ProductId, Product>

  /** A list of exactly the products of the collection, in some order. */
  ghost predicate Lists(list: seq<Product>, products: Products) {
    && (forall i | 0 <= i < |list| :: list[i].id in products && products[list[i].id] == list[i])
    && (forall i, j | 0 <= i < j < |list| :: list[i].id != list[j].id)
    && (forall id | id in products :: exists i :: 0 <= i < |list| && list[i].id == id)
  }

  // Handlers that do not overlap ------------------------------------------------------------

  // `stored` is bookkeeping: the events whose product has been written to Mongo.
  datatype View = View(products: Products, cache: Option<seq<Product>>, inbox: set<MessageId>, stored: set<Event>)

  // Where a handling was cut off, with every write before the cut done.
  datatype Cut = AtCheck | AtUpsert | AtDelete | AtSave | AtReply | NoCut

  function HandleCreated(v: View, e: Event, cut: Cut): (View, bool) {
    if cut == AtCheck then (v, false)
    else if e.messageId in v.inbox then (v, true)
    else if cut == AtUpsert then (v, false)
    else
      var upserted := v.(products := v.products[e.product.id := e.product], stored := v.stored + {e});
      if cut == AtDelete then (upserted, false)
      else
        var deleted := upserted.(cache := None);
        if cut == AtSave then (deleted, false)
        else (deleted.(inbox := deleted.inbox + {e.messageId}), cut == NoCut)
  }

  // The list `found` is what Mongo returns on a miss. An empty cached list is a hit.
  datatype GetCut = AtGet | AtFind | AtSet(written: bool) | NoGetCut

  function HandleGet(v: View, found: seq<Product>, cut: GetCut): (View, Option<seq<Product>>) {
    if cut == AtGet then (v, None)
    else if v.cache.Some? then (v, v.cache)
    else
      match cut
      case AtFind => (v, None)
      case AtSet(written) => (if written then v.(cache := Some(found)) else v, None)
      case _ => (v.(cache := Some(found)), Some(found))
  }

  /** A recorded event is acknowledged, wherever its handling would be cut after the check, and changes nothing. */
  lemma RecordedIsAcknowledged(v: View, e: Event, cut: Cut)
    requires e.messageId in v.inbox && cut != AtCheck
    ensures HandleCreated(v, e, cut) == (v, true)
  {}

  /** An event that is not recorded is acknowledged only uncut: it is then in Mongo, recorded, and no list is cached. */
  lemma FreshEventExact(v: View, e: Event, cut: Cut)
    requires e.messageId !in v.inbox
    ensures HandleCreated(v, e, cut).1 <==> cut == NoCut
    ensures HandleCreated(v, e, NoCut).0
            == View(v.products[e.product.id := e.product], None, v.inbox + {e.messageId}, v.stored + {e})
    ensures
      var u := HandleCreated(v, e, cut).0;
      && (u.inbox != v.inbox ==> u == HandleCreated(v, e, NoCut).0)
      && u.inbox <= v.inbox + {e.messageId}
      && (u.products == v.products || u.products == v.products[e.product.id := e.product])
      && (u.cache == v.cache || u.cache == None)
  {}

  class CatalogReadStore {
    var products: Products
    var cache: Option<seq<Product>>
    var inbox: set<MessageId>
    ghost var stored: set<Event>

    ghost function Current(): View
      reads this
    {
      View(products, cache, inbox, stored)
    }

    constructor ()
      ensures Current() == View(map[], None, {}, {})
    {
      products, cache, inbox, stored := map[], None, {}, {};
    }

    method Upsert(product: Product)
      modifies this`products
      ensures products == old(products)[product.id := product]
    {
      products := products[product.id := product];
    }

    method FindAll() returns (list: seq<Product>)
      requires forall id | id in products :: products[id].id == id
      ensures Lists(list, products)
    {
      list := [];
      var left := products.Keys;
      while left != {}
        invariant left <= products.Keys
        invariant forall i | 0 <= i < |list| ::
                  list[i].id in products && list[i].id !in left && products[list[i].id] == list[i]
        invariant forall i, j | 0 <= i < j < |list| :: list[i].id != list[j].id
        invariant forall id | id in products && id !in left :: exists i :: 0 <= i < |list| && list[i].id == id
        decreases left
      {
        var id :| id in left;
        ghost var before := list;
        list := list + [products[id]];
        left := left - {id};
        assert list[|before|].id == id;
        assert forall i | 0 <= i < |before| :: list[i] == before[i];
        forall other | other in products && other !in left ensures exists i :: 0 <= i < |list| && list[i].id == other {
          if other != id {
            var i :| 0 <= i < |before| && before[i].id == other;
            assert list[i].id == other;
          }
        }
      }
    }

    method ProductCreated(e: Event) returns (ok: bool, cut: Cut)
      modifies this
      ensures (Current(), ok) == HandleCreated(old(Current()), e, cut)
      ensures ok ==> e.messageId in inbox
      ensures ok && e.messageId !in old(inbox) ==>
                products == old(products)[e.product.id := e.product] && cache == None
      ensures e.messageId in old(inbox) ==> Current() == old(Current()) && (ok <==> cut != AtCheck)
    {
      if * {
        return false, AtCheck;
      }
      if e.messageId in inbox {
        return true, NoCut;
      }
      if * {
        return false, AtUpsert;
      }
      Upsert(e.product);
      stored := stored + {e};
      if * {
        return false, AtDelete;
      }
      cache := None;
      if * {
        return false, AtSave;
      }
      inbox := inbox + {e.messageId};
      if * {
        return false, AtReply;
      }
      return true, NoCut;
    }

    /**
     Without an error, the cached list if there is one, else a list of Mongo's products, which is then the cached one.
     */
    method GetProducts() returns (result: Option<seq<Product>>, ghost found: seq<Product>, cut: GetCut)
      requires forall id | id in products :: products[id].id == id
      modifies this`cache
      ensures old(cache).None? && cut != AtGet ==> Lists(found, products)
      ensures (Current(), result) == HandleGet(old(Current()), found, cut)
      ensures result.Some? <==> cut == NoGetCut
      ensures result.Some? && old(cache).Some? ==> result == old(cache) && cache == old(cache)
      ensures result.Some? && old(cache).None? ==> Lists(result.value, products) && cache == result
      ensures result.None? ==>
                cache == old(cache) || (old(cache).None? && cache.Some? && Lists(cache.value, products))
    {
      found := [];
      if * {
        return None, found, AtGet;
      }
      if cache.Some? {
        return cache, found, NoGetCut;
      }
      var list := FindAll();
      found := list;
      if * {
        return None, found, AtFind;
      }
      if * {
        return None, found, AtSet(false);
      }
      cache := Some(list);
      if * {
        return None, found, AtSet(true);
      }
      return Some(list), found, NoGetCut;
    }
  }

  // The two ProductCreated consumers. None is a body that is not JSON.
  datatype Verdict = Ack | Requeue | Drop

  /** Only a malformed body is dropped, and a delivery is acknowledged only once its event is stored and recorded. */
  method ConsumeProductCreated(store: CatalogReadStore, body: Option<Event>) returns (verdict: Verdict)
    modifies store
    ensures verdict == Drop <==> body.None?
    ensures verdict == Drop ==> store.Current() == old(store.Current())
    ensures verdict == Ack ==> body.value.messageId in store.inbox
    ensures body.Some? ==> exists cut ::
            (store.Current(), verdict == Ack) == HandleCreated(old(store.Current()), body.value, cut)
  {
    if body.None? {
      return Drop;
    }
    var ok, cut := store.ProductCreated(body.value);
    verdict := if ok then Ack else Requeue;
  }

  class SearchIndex {
    var docs: Products

    constructor ()
      ensures docs == map[]
    {
      docs := map[];
    }

    /** The product id is the document id, so every delivery writes the same document. An error may hide a write. */
    method Consume(body: Option<Event>) returns (verdict: Verdict)
      modifies this
      ensures verdict == Drop <==> body.None?
      ensures verdict == Drop ==> docs == old(docs)
      ensures verdict == Ack ==> docs == old(docs)[body.value.product.id := body.value.product]
      ensures verdict == Requeue ==> docs == old(docs) || docs == old(docs)[body.value.product.id := body.value.product]
    {
      if body.None? {
        return Drop;
      }
      if * {
        return Requeue;
      }
      docs := docs[body.value.product.id := body.value.product];
      if * {
        return Requeue;
      }
      return Ack;
    }
  }

  datatype Handling = Created(e: Event, cut: Cut) | Get(found: seq<Product>, getCut: GetCut) | Expire

  ghost predicate CanHappen(v: View, h: Handling) {
    h.Get? && v.cache.None? && h.getCut != AtGet ==> Lists(h.found, v.products)
  }

  function Step(v: View, h: Handling): View {
    match h
    case Created(e, cut) => HandleCreated(v, e, cut).0
    case Get(found, cut) => HandleGet(v, found, cut).0
    case Expire => v.(cache := None)
  }

  ghost function Run(run: seq<Handling>): View {
    if run == [] then View(map[], None, {}, {})
    else
      var v := Run(run[..|run| - 1]);
      if CanHappen(v, run[|run| - 1]) then Step(v, run[|run| - 1]) else v
  }

  /** No list is cached, or the cached list is Mongo's, or an event that was stored is still to be redelivered. */
  ghost predicate Coherent(v: View) {
    || v.cache.None?
    || Lists(v.cache.value, v.products)
    || exists e :: e in v.stored && e.messageId !in v.inbox
  }

  /** Cache coherence over every run of handlers that do not overlap, cut anywhere. */
  lemma {:induction false} CacheCoherent(run: seq<Handling>)
    ensures Coherent(Run(run))
  {
    if run != [] {
      var v, h := Run(run[..|run| - 1]), run[|run| - 1];
      CacheCoherent(run[..|run| - 1]);
      if CanHappen(v, h) {
        StepKeepsCoherent(v, h);
      }
    }
  }

  lemma StepKeepsCoherent(v: View, h: Handling)
    requires Coherent(v) && CanHappen(v, h)
    ensures Coherent(Step(v, h))
  {
    var u := Step(v, h);
    if u.cache.Some? && !Lists(u.cache.value, u.products) {
      if h.Created? && u.stored != v.stored {
        assert h.e in u.stored;
      } else {
        var e :| e in v.stored && e.messageId !in v.inbox;
        assert e in u.stored;
      }
    }
  }

  /** Every list that is served is Mongo's, or an event that was stored is still to be redelivered. */
  lemma ServedCoherent(run: seq<Handling>, found: seq<Product>, cut: GetCut)
    requires CanHappen(Run(run), Get(found, cut))
    ensures
      var v := Run(run);
      var served := HandleGet(v, found, cut).1;
      served.Some? ==>
        Lists(served.value, v.products) || exists e :: e in v.stored && e.messageId !in v.inbox
  {
    CacheCoherent(run);
    hide Run, Lists;
  }

  // Convergence of the two projections ------------------------------------------------------

  // One delivery to one consumer; it is handled when nothing cuts it short.
  datatype Delivery = Delivery(event: nat, cut: Cut)

  function Mongo(events: seq<Event>, run: seq<Delivery>): View {
    if run == [] then View(map[], None, {}, {})
    else
      var v, d := Mongo(events, run[..|run| - 1]), run[|run| - 1];
      if d.event < |events| then HandleCreated(v, events[d.event], d.cut).0 else v
  }

  // The index consumer has no inbox: it writes the document again on every delivery that reaches it.
  function Index(events: seq<Event>, run: seq<Delivery>): Products {
    if run == [] then map[]
    else
      var docs, d := Index(events, run[..|run| - 1]), run[|run| - 1];
      if d.event < |events| && d.cut != AtCheck && d.cut != AtUpsert
      then docs[events[d.event].product.id := events[d.event].product] else docs
  }

  /** Every event was handled at least once, to the end. */
  ghost predicate AllHandled(events: seq<Event>, run: seq<Delivery>) {
    forall n: nat | n < |events| :: Handled(run, n)
  }

  ghost predicate Handled(run: seq<Delivery>, n: nat) {
    exists i :: 0 <= i < |run| && run[i] == Delivery(n, NoCut)
  }

  ghost predicate DistinctMessages(events: seq<Event>) {
    forall i, j | 0 <= i < j < |events| :: events[i].messageId != events[j].messageId
  }

  /** One product per product id, whatever the number of its events. */
  ghost predicate Functional(events: seq<Event>) {
    forall i, j | 0 <= i < |events| && 0 <= j < |events| && events[i].product.id == events[j].product.id ::
      events[i].product == events[j].product
  }

  /** Exactly the products the events name. */
  ghost predicate IsCatalog(products: Products, events: seq<Event>) {
    && (forall n | 0 <= n < |events| ::
       events[n].product.id in products && products[events[n].product.id] == events[n].product)
    && (forall id | id in products :: exists n :: 0 <= n < |events| && events[n].product.id == id)
  }

  ghost predicate Drawn(products: Products, events: seq<Event>) {
    forall id | id in products :: exists n ::
        0 <= n < |events| && events[n].product == products[id] && products[id].id == id
  }

  lemma DrawnUpdate(products: Products, events: seq<Event>, n: nat)
    requires Drawn(products, events) && n < |events|
    ensures Drawn(products[events[n].product.id := events[n].product], events)
  {}

  lemma HandledMore(run: seq<Delivery>, n: nat)
    requires run != []
    ensures Handled(run, n) <==> Handled(run[..|run| - 1], n) || run[|run| - 1] == Delivery(n, NoCut)
  {
    if i :| 0 <= i < |run| - 1 && run[i] == Delivery(n, NoCut) {
      assert run[..|run| - 1][i] == Delivery(n, NoCut);
    }
  }

  /** Whatever one delivery did: what is recorded is stored, and what is stored comes from the events. */
  ghost predicate MongoOk(events: seq<Event>, v: View) {
    && Drawn(v.products, events)
    && forall n: nat | n < |events| && events[n].messageId in v.inbox :: events[n].product.id in v.products
  }

  lemma HandleKeepsMongo(events: seq<Event>, v: View, n: nat, cut: Cut)
    requires DistinctMessages(events) && MongoOk(events, v) && n < |events|
    ensures MongoOk(events, HandleCreated(v, events[n], cut).0)
    ensures cut == NoCut ==> events[n].messageId in HandleCreated(v, events[n], cut).0.inbox
    ensures v.inbox <= HandleCreated(v, events[n], cut).0.inbox
  {
    DrawnUpdate(v.products, events, n);
    hide Drawn;
  }

  lemma {:induction false} MongoRun(events: seq<Event>, run: seq<Delivery>)
    requires DistinctMessages(events)
    ensures MongoOk(events, Mongo(events, run))
    ensures forall n: nat | n < |events| && Handled(run, n) :: events[n].messageId in Mongo(events, run).inbox
  {
    hide DistinctMessages, Handled, MongoOk, HandleCreated;
    if run == [] {
      EmptyRun(events);
    } else {
      var fewer, d := run[..|run| - 1], run[|run| - 1];
      MongoRun(events, fewer);
      if d.event < |events| {
        HandleKeepsMongo(events, Mongo(events, fewer), d.event, d.cut);
      }
      forall n: nat | n < |events| && Handled(run, n) ensures events[n].messageId in Mongo(events, run).inbox {
        HandledMore(run, n);
      }
    }
  }

  lemma EmptyRun(events: seq<Event>)
    ensures MongoOk(events, View(map[], None, {}, {})) && forall n: nat :: !Handled([], n)
  {}

  lemma {:induction false} IndexRun(events: seq<Event>, run: seq<Delivery>)
    ensures Drawn(Index(events, run), events)
    ensures forall n: nat | n < |events| && Handled(run, n) :: events[n].product.id in Index(events, run)
  {
    hide Handled, Drawn;
    if run == [] {
      EmptyRun(events);
      assert MongoOk(events, View(map[], None, {}, {}));
    } else {
      var fewer, d := run[..|run| - 1], run[|run| - 1];
      IndexRun(events, fewer);
      if d.event < |events| {
        DrawnUpdate(Index(events, fewer), events, d.event);
      }
      forall n: nat | n < |events| && Handled(run, n) ensures events[n].product.id in Index(events, run) {
        HandledMore(run, n);
      }
    }
  }

  // A map that draws on the events and has every id is their catalog, and there is only one.
  lemma DrawnIsCatalog(events: seq<Event>, products: Products)
    requires Functional(events) && Drawn(products, events)
    requires forall n: nat | n < |events| :: events[n].product.id in products
    ensures IsCatalog(products, events)
  {
    forall n | 0 <= n < |events| ensures products[events[n].product.id] == events[n].product {
      assert events[n].product.id in products;
    }
  }

  lemma OneCatalog(events: seq<Event>, a: Products, b: Products)
    requires IsCatalog(a, events) && IsCatalog(b, events)
    ensures a == b
  {
    forall id | id in a ensures id in b && a[id] == b[id] {
      var n :| 0 <= n < |events| && events[n].product.id == id;
    }
    forall id | id in b ensures id in a {
      var n :| 0 <= n < |events| && events[n].product.id == id;
    }
  }

  /**
   Convergence: whatever the order and multiplicity of deliveries, both projections become the catalog of the events
   sent.
   */
  lemma ProjectionsConverge(events: seq<Event>, toMongo: seq<Delivery>, toIndex: seq<Delivery>)
    requires DistinctMessages(events) && Functional(events)
    requires AllHandled(events, toMongo) && AllHandled(events, toIndex)
    ensures IsCatalog(Mongo(events, toMongo).products, events)
    ensures Mongo(events, toMongo).products == Index(events, toIndex)
  {
    MongoRun(events, toMongo);
    IndexRun(events, toIndex);
    var products, docs := Mongo(events, toMongo).products, Index(events, toIndex);
    hide Mongo, Index, Functional, Drawn, IsCatalog, Handled, DistinctMessages;
    forall n: nat | n < |events| ensures events[n].product.id in products && events[n].product.id in docs {
      assert Handled(toMongo, n) && Handled(toIndex, n);
    }
    DrawnIsCatalog(events, products);
    DrawnIsCatalog(events, docs);
    OneCatalog(events, products, docs);
  }

  function Once(events: seq<Event>): seq<Delivery> {
    seq(|events|, i requires 0 <= i < |events| => Delivery(i, NoCut))
  }

  lemma OnceHandlesAll(events: seq<Event>, more: seq<Delivery>)
    ensures AllHandled(events, Once(events) + more)
  {
    forall n: nat | n < |events| ensures Handled(Once(events) + more, n) {
      assert (Once(events) + more)[n] == Delivery(n, NoCut);
    }
  }

  /** The projections agree after every complete delivery if and only if no product id has two different products. */
  lemma ConvergenceExact(events: seq<Event>)
    requires DistinctMessages(events)
    ensures (forall a, b | AllHandled(events, a) && AllHandled(events, b) ::
            Mongo(events, a).products == Index(events, b))
            <==> Functional(events)
  {
    if Functional(events) {
      forall a, b | AllHandled(events, a) && AllHandled(events, b)
          ensures Mongo(events, a).products == Index(events, b) {
        ProjectionsConverge(events, a, b);
      }
    } else {
      var i: nat, j: nat :| i < |events| && j < |events| && events[i].product.id == events[j].product.id
          && events[i].product != events[j].product;
      var again := Diverge(events, i, j);
    }
  }

  // Two products under one id: once both are recorded, Mongo skips a redelivery that the index still writes.
  lemma Diverge(events: seq<Event>, i: nat, j: nat) returns (run: seq<Delivery>)
    requires DistinctMessages(events) && i < |events| && j < |events|
    requires events[i].product.id == events[j].product.id && events[i].product != events[j].product
    ensures AllHandled(events, run) && Mongo(events, run).products != Index(events, run)
  {
    var all := Once(events);
    OnceHandlesAll(events, []);
    assert all + [] == all;
    MongoRun(events, all);
    assert Handled(all, i) && Handled(all, j);
    hide AllHandled, Handled, DistinctMessages, Drawn, Mongo, Index, Once;
    var id := events[i].product.id;
    var n := if Mongo(events, all).products[id] == events[i].product then j else i;
    run := all + [Delivery(n, NoCut)];
    OnceHandlesAll(events, [Delivery(n, NoCut)]);
    DeliverAgain(events, all, n);
  }

  lemma DeliverAgain(events: seq<Event>, run: seq<Delivery>, n: nat)
    requires n < |events| && events[n].messageId in Mongo(events, run).inbox
    ensures
      var longer, product := run + [Delivery(n, NoCut)], events[n].product;
      && Mongo(events, longer).products == Mongo(events, run).products
      && product.id in Index(events, longer) && Index(events, longer)[product.id] == product
  {
    var longer := run + [Delivery(n, NoCut)];
    assert longer[..|longer| - 1] == run;
  }

  /**
   End to end: once both consumers have handled every event the write side has stored, both projections are the write
   service's own products table.
   */
  lemma ReadSideMirrorsWriteSide(products: Products, outbox: seq<Event>, minted: set<nat>,
                                 toMongo: seq<Delivery>, toIndex: seq<Delivery>)
    requires Consistent(products, outbox, minted)
    requires AllHandled(outbox, toMongo) && AllHandled(outbox, toIndex)
    ensures Mongo(outbox, toMongo).products == products && Index(outbox, toIndex) == products
  {
    ProjectionsConverge(outbox, toMongo, toIndex);
    assert IsCatalog(products, outbox);
    OneCatalog(outbox, products, Mongo(outbox, toMongo).products);
  }

  // Overlapping handlers, with time ---------------------------------------------------------

  // A fill in progress has read Mongo but not yet written the cache. `past` records what Mongo held, and when.
  datatype Instant = Instant(time: int, products: Products)
  datatype Fill = Fill(list: seq<Product>, readAt: int)
  datatype Entry = Entry(list: seq<Product>, readAt: int, setAt: int)
  datatype Served = Served(list: seq<Product>, at: int, readAt: int, setAt: int)
  datatype Clocked = Clocked(now: int, products: Products, past: seq<Instant>, cache: Option<Entry>,
      fills: map<nat, Fill>, served: seq<Served>)

  // Read starts a fill: the miss and FindAll, one atomic snapshot. Write ends it: SetProducts, which may report an
  // error.
  datatype Move =
    | Tick(delta: nat)
    | Store(product: Product)
    | Invalidate
    | Read(fill: nat, list: seq<Product>)
    | Write(fill: nat, reported: bool)
    | Abandon(fill: nat)
    | Serve

  ghost predicate Possible(ttl: nat, s: Clocked, m: Move) {
    match m
    case Read(fill, list) => fill !in s.fills && Lists(list, s.products)
    case Write(fill, _) => fill in s.fills
    case Serve => s.cache.Some? && s.now < s.cache.value.setAt + ttl
    case _ => true
  }

  ghost function Move1(ttl: nat, s: Clocked, m: Move): Clocked
    requires Possible(ttl, s, m)
  {
    match m
    case Tick(delta) => s.(now := s.now + delta, past := s.past + [Instant(s.now + delta, s.products)])
    case Store(product) =>
      var products := s.products[product.id := product];
      s.(products := products, past := s.past + [Instant(s.now, products)])
    case Invalidate => s.(cache := None)
    case Read(fill, list) => s.(fills := s.fills[fill := Fill(list, s.now)])
    case Write(fill, reported) =>
      var f := s.fills[fill];
      var written := s.(cache := Some(Entry(f.list, f.readAt, s.now)), fills := s.fills - {fill});
      if reported then written.(served := s.served + [Served(f.list, s.now, f.readAt, s.now)]) else written
    case Abandon(fill) => s.(fills := s.fills - {fill})
    case Serve => s.(served := s.served
      + [Served(s.cache.value.list, s.now, s.cache.value.readAt, s.cache.value.setAt)])
  }

  const START := Clocked(0, map[], [Instant(0, map[])], None, map[], [])

  ghost function Moves(ttl: nat, run: seq<Move>): Clocked {
    if run == [] then START
    else
      var s := Moves(ttl, run[..|run| - 1]);
      if Possible(ttl, s, run[|run| - 1]) then Move1(ttl, s, run[|run| - 1]) else s
  }

  /** The list is exactly what Mongo held at the given time. */
  ghost predicate Held(past: seq<Instant>, list: seq<Product>, time: int) {
    exists k :: 0 <= k < |past| && past[k].time == time && Lists(list, past[k].products)
  }

  lemma HeldLater(past: seq<Instant>, more: seq<Instant>, list: seq<Product>, time: int)
    requires Held(past, list, time) && past <= more
    ensures Held(more, list, time)
  {
    var k :| 0 <= k < |past| && past[k].time == time && Lists(list, past[k].products);
    assert more[k] == past[k];
  }

  ghost predicate Timely(ttl: nat, s: Clocked) {
    && s.past != [] && s.past[|s.past| - 1] == Instant(s.now, s.products)
    && (forall id | id in s.fills :: s.fills[id].readAt <= s.now && Held(s.past, s.fills[id].list, s.fills[id].readAt))
    && (s.cache.Some? ==>
          var e := s.cache.value;
          e.readAt <= e.setAt <= s.now && Held(s.past, e.list, e.readAt))
    && forall i | 0 <= i < |s.served| ::
         var v := s.served[i];
         && v.readAt <= v.setAt <= v.at && Held(s.past, v.list, v.readAt)
         && (v.at < v.setAt + ttl || v.at == v.setAt)
  }

  lemma MoveTimely(ttl: nat, s: Clocked, m: Move)
    requires Timely(ttl, s) && Possible(ttl, s, m)
    ensures Timely(ttl, Move1(ttl, s, m))
  {
    hide Held, Lists;
    var u := Move1(ttl, s, m);
    forall list, time | Held(s.past, list, time) ensures Held(u.past, list, time) {
      HeldLater(s.past, u.past, list, time);
    }
    if m.Read? {
      HeldNow(s.past, m.list);
    }
  }

  lemma HeldNow(past: seq<Instant>, list: seq<Product>)
    requires past != [] && Lists(list, past[|past| - 1].products)
    ensures Held(past, list, past[|past| - 1].time)
  {}

  /**
   Bounded staleness: every list ever served was exactly Mongo's contents at its reading, and that was no longer ago
   than the cache's time to live plus the gap between the filling handler's FindAll and its Set.
   */
  lemma {:induction false} StalenessBounded(ttl: nat, run: seq<Move>)
    ensures Timely(ttl, Moves(ttl, run))
    ensures forall i | 0 <= i < |Moves(ttl, run).served| ::
              var v := Moves(ttl, run).served[i];
              Held(Moves(ttl, run).past, v.list, v.readAt) && v.at - v.readAt <= ttl + (v.setAt - v.readAt)
  {
    if run != [] {
      var s, m := Moves(ttl, run[..|run| - 1]), run[|run| - 1];
      StalenessBounded(ttl, run[..|run| - 1]);
      if Possible(ttl, s, m) {
        MoveTimely(ttl, s, m);
      }
    }
  }

  lemma OneMore(ttl: nat, run: seq<Move>, m: Move)
    requires Possible(ttl, Moves(ttl, run), m)
    ensures Moves(ttl, run + [m]) == Move1(ttl, Moves(ttl, run), m)
  {
    assert (run + [m])[..|run|] == run;
  }

  /**
   The bound is reached: a list read before a product arrives can be written after the product has invalidated the
   cache, and is then served until its time to live is over, although no event is left that would invalidate it again.
   */
  lemma StalenessReached(gap: nat, ttl: nat, p: Product) returns (run: seq<Move>)
    requires ttl > 0
    ensures
      var s := Moves(ttl, run);
      && s.served != []
      && var v := s.served[|s.served| - 1];
         && v.list == [] && !Lists(v.list, s.products) && v.at == s.now
         && v.setAt - v.readAt == gap && v.at - v.readAt == gap + ttl - 1
  {
    run := [];
    assert Moves(ttl, run) == START;
    hide Moves;
    var s := START;
    OneMore(ttl, run, Read(0, []));
    run, s := run + [Read(0, [])], Move1(ttl, s, Read(0, []));
    OneMore(ttl, run, Store(p));
    run, s := run + [Store(p)], Move1(ttl, s, Store(p));
    OneMore(ttl, run, Invalidate);
    run, s := run + [Invalidate], Move1(ttl, s, Invalidate);
    OneMore(ttl, run, Tick(gap));
    run, s := run + [Tick(gap)], Move1(ttl, s, Tick(gap));
    OneMore(ttl, run, Write(0, false));
    run, s := run + [Write(0, false)], Move1(ttl, s, Write(0, false));
    OneMore(ttl, run, Tick(ttl - 1));
    run, s := run + [Tick(ttl - 1)], Move1(ttl, s, Tick(ttl - 1));
    OneMore(ttl, run, Serve);
    run, s := run + [Serve], Move1(ttl, s, Serve);
    assert p.id in s.products;
  }

  /** The cached list as a handler sees it: an entry whose time to live is over is a miss. */
  ghost function Visible(ttl: nat, s: Clocked): Option<seq<Product>> {
    if s.cache.Some? && s.now < s.cache.value.setAt + ttl then Some(s.cache.value.list) else None
  }

  /** One GetProducts is a handful of moves, and the list it returns is the one they serve. */
  lemma GetIsMoves(ttl: nat, run: seq<Move>, v: View, fill: nat, found: seq<Product>, cut: GetCut)
    returns (more: seq<Move>)
    requires ttl > 0 && fill !in Moves(ttl, run).fills
    requires v.products == Moves(ttl, run).products && v.cache == Visible(ttl, Moves(ttl, run))
    requires CanHappen(v, Get(found, cut))
    ensures
      var (u, result) := HandleGet(v, found, cut);
      var s, t := Moves(ttl, run), Moves(ttl, run + more);
      && u.products == t.products && u.cache == Visible(ttl, t) && t.fills == s.fills && t.now == s.now
      && (result.None? ==> t.served == s.served)
      && (result.Some? ==>
            && |t.served| == |s.served| + 1 && t.served[..|s.served|] == s.served
            && t.served[|s.served|].list == result.value && t.served[|s.served|].at == s.now)
  {
    var s := Moves(ttl, run);
    if cut == AtGet {
      more := [];
      assert run + more == run;
    } else if v.cache.Some? {
      more := [Serve];
      OneMore(ttl, run, Serve);
      hide Moves, Lists;
    } else {
      var read, last := Read(fill, found), LastMove(fill, cut);
      more := [read, last];
      FillMoves(ttl, run, read, last);
      hide Moves, Lists;
    }
  }

  /** How a handler that missed ends its fill. */
  function LastMove(fill: nat, cut: GetCut): Move {
    if cut == NoGetCut then Write(fill, true) else if cut == AtSet(true) then Write(fill, false) else Abandon(fill)
  }

  lemma FillMoves(ttl: nat, run: seq<Move>, read: Move, last: Move)
    requires read.Read? && Possible(ttl, Moves(ttl, run), read)
    requires (last.Write? || last.Abandon?) && last.fill == read.fill
    ensures Moves(ttl, run + [read, last]) == Move1(ttl, Move1(ttl, Moves(ttl, run), read), last)
    ensures Moves(ttl, run + [read, last]).fills == Moves(ttl, run).fills
  {
    hide Moves, Lists;
    OneMore(ttl, run, read);
    assert last.fill in Moves(ttl, run + [read]).fills;
    OneMore(ttl, run + [read], last);
    assert run + [read, last] == run + [read] + [last];
  }

  /** One ProductCreated is a write to Mongo and an invalidation, as far as it gets. */
  lemma CreatedIsMoves(ttl: nat, run: seq<Move>, v: View, e: Event, cut: Cut) returns (more: seq<Move>)
    requires v.products == Moves(ttl, run).products && v.cache == Visible(ttl, Moves(ttl, run))
    ensures more <= [Store(e.product), Invalidate]
    ensures
      var u, t := HandleCreated(v, e, cut).0, Moves(ttl, run + more);
      && u.products == t.products && u.cache == Visible(ttl, t)
      && t.fills == Moves(ttl, run).fills && t.served == Moves(ttl, run).served
  {
    hide Moves, Lists;
    more := [];
    assert run + more == run;
    if e.messageId !in v.inbox && cut != AtCheck && cut != AtUpsert {
      OneMore(ttl, run, Store(e.product));
      more := [Store(e.product)];
      if cut != AtDelete {
        OneMore(ttl, run + more, Invalidate);
        assert run + [Store(e.product), Invalidate] == run + more + [Invalidate];
        more := [Store(e.product), Invalidate];
      }
    }
  }

  /** The list and the time it was read are those of a fill that was pending in `s`, or the time is no earlier. */
  ghost predicate SinceOrPending(s: Clocked, list: seq<Product>, readAt: int) {
    readAt >= s.now || exists fill :: fill in s.fills && s.fills[fill] == Fill(list, readAt)
  }

  ghost predicate Renewed(s: Clocked, u: Clocked) {
    && s.now <= u.now && s.served <= u.served
    && (u.cache.Some? ==> SinceOrPending(s, u.cache.value.list, u.cache.value.readAt))
    && (forall fill | fill in u.fills :: SinceOrPending(s, u.fills[fill].list, u.fills[fill].readAt))
    && forall i | |s.served| <= i < |u.served| :: SinceOrPending(s, u.served[i].list, u.served[i].readAt)
  }

  lemma MoveRenewed(ttl: nat, s: Clocked, u: Clocked, m: Move)
    requires Renewed(s, u) && Possible(ttl, u, m)
    ensures Renewed(s, Move1(ttl, u, m))
  {
    if m.Read? {
      assert SinceOrPending(s, m.list, u.now);
    }
    hide SinceOrPending, Lists;
  }

  /**
   After an invalidation nothing older is served: every list served later was read since, unless a fill that was pending
   at the invalidation had read it.
   */
  lemma {:induction false} InvalidationForgets(ttl: nat, before: seq<Move>, after: seq<Move>)
    ensures
      var s, u := Moves(ttl, before), Moves(ttl, before + [Invalidate] + after);
      && s.served <= u.served
      && (forall i | |s.served| <= i < |u.served| :: SinceOrPending(s, u.served[i].list, u.served[i].readAt))
      && (s.fills == map[] ==> forall i | |s.served| <= i < |u.served| :: u.served[i].readAt >= s.now)
    ensures Renewed(Moves(ttl, before), Moves(ttl, before + [Invalidate] + after))
  {
    var s, run := Moves(ttl, before), before + [Invalidate] + after;
    if after == [] {
      assert run == before + [Invalidate];
      OneMore(ttl, before, Invalidate);
    } else {
      var fewer := before + [Invalidate] + after[..|after| - 1];
      InvalidationForgets(ttl, before, after[..|after| - 1]);
      assert run[..|run| - 1] == fewer && run[|run| - 1] == after[|after| - 1];
      if Possible(ttl, Moves(ttl, fewer), after[|after| - 1]) {
        MoveRenewed(ttl, s, Moves(ttl, fewer), after[|after| - 1]);
      }
    }
  }
}
