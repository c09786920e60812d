/**
 The outbox worker over the confirmed publisher. The worker marks a row when Publish returned nil; that this means the
 message was routed is the publisher's theorem, for whatever the channel's history, restarts included.
 */
module OutboxPublisher {
  import Outbox
  import Publisher

  // One worker and the channel it publishes on. A restarted worker opens a new channel.
  datatype Worker = Worker(outbox: Outbox.State, channel: Publisher.Channel)

  // `stored` says whether the message reached a queue, and `updated` whether the UPDATE that followed took effect.
  datatype Event =
    | Insert(id: Outbox.RowId, createdAt: int, payload: string)
    | Send(id: Outbox.RowId, world: Publisher.World, stored: bool, updated: bool)
    | Restart

  /** The broker keeps its promises during the call, and what it acknowledged and could route is in a queue. */
  ghost predicate Honest(ch: Publisher.Channel, w: Publisher.World, stored: bool) {
    && Publisher.Ordered(Publisher.Sent(ch, w))
    && var u := Publisher.PublishCall(ch, w).0;
       ch.next in u.acked && ch.next !in u.unroutable ==> stored
  }

  /** What the worker sees of one call. */
  function FateOf(ch: Publisher.Channel, w: Publisher.World, stored: bool, updated: bool): Outbox.Fate {
    Outbox.Fate(stored, Publisher.PublishCall(ch, w).1 == Publisher.Ok, updated)
  }

  ghost function Step(s: Worker, e: Event): Worker {
    match e
    case Insert(id, createdAt, payload) => s.(outbox := Outbox.Step(s.outbox, Outbox.Insert(id, createdAt, payload)))
    case Restart => s.(channel := Publisher.NEW)
    case Send(id, w, stored, updated) =>
      if id !in s.outbox.rows || !Honest(s.channel, w, stored) then s
      else Worker(Outbox.ProcessOne(s.outbox, id, FateOf(s.channel, w, stored, updated)),
          Publisher.PublishCall(s.channel, w).0)
  }

  ghost function Run(events: seq<Event>): Worker {
    if events == [] then Worker(Outbox.State(map[], []), Publisher.NEW)
    else Step(Run(events[..|events| - 1]), events[|events| - 1])
  }

  /** A nil from Publish is a fate the outbox can rely on. */
  lemma CallIsSound(ch: Publisher.Channel, w: Publisher.World, stored: bool, updated: bool)
    requires Publisher.Ordered(ch) && Honest(ch, w, stored)
    ensures Outbox.Sound(FateOf(ch, w, stored, updated))
    ensures Publisher.Ordered(Publisher.PublishCall(ch, w).0)
  {
    Publisher.PublisherSound(ch, w);
  }

  /** The same run as the outbox alone sees it: each call is replaced by its fate. */
  ghost function Seen(events: seq<Event>): seq<Outbox.Event> {
    if events == [] then []
    else
      var fewer, s := events[..|events| - 1], Run(events[..|events| - 1]);
      match events[|events| - 1]
      case Insert(id, createdAt, payload) => Seen(fewer) + [Outbox.Insert(id, createdAt, payload)]
      case Restart => Seen(fewer)
      case Send(id, w, stored, updated) =>
        if id !in s.outbox.rows || !Honest(s.channel, w, stored) then Seen(fewer)
        else Seen(fewer) + [Outbox.Attempt(id, FateOf(s.channel, w, stored, updated))]
  }

  ghost predicate AllSound(seen: seq<Outbox.Event>) {
    forall i | 0 <= i < |seen| && seen[i].Attempt? :: Outbox.Sound(seen[i].fate)
  }

  /**
   Refinement: every run over the real publisher is a run of the outbox in which no call is ignored for being unsound.
   */
  lemma {:induction false} RefinesOutbox(events: seq<Event>)
    ensures Outbox.Run(Seen(events)) == Run(events).outbox
    ensures Publisher.Ordered(Run(events).channel)
    ensures AllSound(Seen(events))
  {
    if events != [] {
      var fewer, e := events[..|events| - 1], events[|events| - 1];
      RefinesOutbox(fewer);
      var s, seen := Run(fewer), Seen(fewer);
      hide Publisher.Ordered, Publisher.PublishCall, Honest, AllSound, Outbox.Run, Outbox.ProcessOne;
      match e
      case Insert(id, createdAt, payload) => OneMore(seen, Outbox.Insert(id, createdAt, payload));
      case Restart => NewIsOrdered();
      case Send(id, w, stored, updated) =>
        if id in s.outbox.rows && Honest(s.channel, w, stored) {
          CallIsSound(s.channel, w, stored, updated);
          OneMore(seen, Outbox.Attempt(id, FateOf(s.channel, w, stored, updated)));
        }
    }
  }

  lemma NewIsOrdered()
    ensures Publisher.Ordered(Publisher.NEW)
  {}

  lemma OneMore(seen: seq<Outbox.Event>, e: Outbox.Event)
    requires AllSound(seen) && (e.Attempt? ==> Outbox.Sound(e.fate))
    ensures Outbox.Run(seen + [e]) == Outbox.Step(Outbox.Run(seen), e) && AllSound(seen + [e])
  {
    assert (seen + [e])[..|seen + [e]| - 1] == seen;
  }

  /** So the worker over the publisher never lies: a processed row is in a queue, with the payload that was stored. */
  lemma WorkerNeverLies(events: seq<Event>)
    ensures Outbox.Truthful(Run(events).outbox)
  {
    RefinesOutbox(events);
    Outbox.NeverLies(Seen(events));
  }
}
