/**
 The confirmed publisher: one channel, one in-order frame reader, and a return buffer of capacity one that is
 shared by all calls, the timed-out ones included. The reader blocks when it has a return to put into a full buffer.
 */
module Publisher {
  type Tag = nat

  // The two services' routing tables. The order service routes the first event type, the inventory service the other
  // two.
  datatype Service = OrderService | InventoryService
  datatype EventType = ReserveStockRequested | StockReserved | StockReservationFailed | Unknown(name: string)
  datatype Key = OrderCreated | StockReservedKey | StockNotReservedKey | NoKey

  function RoutingKey(service: Service, event: EventType): Key {
    match (service, event)
    case (OrderService, ReserveStockRequested) => OrderCreated
    case (InventoryService, StockReserved) => StockReservedKey
    case (InventoryService, StockReservationFailed) => StockNotReservedKey
    case _ => NoKey
  }

  /** Each event type has one key, and neither service can publish the other's. */
  lemma RoutingExact(service: Service, event: EventType)
    ensures RoutingKey(service, event) == OrderCreated <==> service == OrderService && event == ReserveStockRequested
    ensures RoutingKey(service, event) == StockReservedKey <==> service == InventoryService && event == StockReserved
    ensures RoutingKey(service, event) == StockNotReservedKey <==>
            service == InventoryService && event == StockReservationFailed
  {}

  datatype Frame = Return(tag: Tag) | Ack(tag: Tag, multiple: bool) | Nack(tag: Tag, multiple: bool)

  // `unroutable` and `returned` are bookkeeping: the broker's verdicts, and the returns the reader has ever passed on.
  datatype Channel = Channel(
    next: Tag,
    wire: seq<Frame>,
    buffer: seq<Tag>,
    acked: set<Tag>,
    nacked: set<Tag>,
    unroutable: set<Tag>,
    returned: set<Tag>
  ) {
    predicate Settled(tag: Tag) {
      tag in acked || tag in nacked
    }
  }

  const NEW := Channel(0, [], [], {}, {}, {}, {})

  predicate Covers(f: Frame, tag: Tag) {
    !f.Return? && (f.tag == tag || (f.multiple && tag <= f.tag))
  }

  // The broker's promises: confirms and returns name published messages, and an unroutable message is returned before
  // it is acked.
  ghost predicate Ordered(ch: Channel) {
    && |ch.buffer| <= 1
    && (forall tag: Tag | ch.Settled(tag) || tag in ch.unroutable :: tag < ch.next)
    && (forall i | 0 <= i < |ch.wire| :: ch.wire[i].tag < ch.next)
    && (forall tag | tag in ch.acked && tag in ch.unroutable :: tag in ch.returned)
    && (forall i, tag | 0 <= i < |ch.wire| && ch.wire[i].Ack? && tag in ch.unroutable && Covers(ch.wire[i], tag)
       && !ch.Settled(tag) ::
          tag in ch.returned || ReturnBefore(ch.wire, i, tag))
    && (forall tag | tag in ch.returned :: tag < ch.next)
  }

  ghost predicate ReturnBefore(wire: seq<Frame>, i: nat, tag: Tag)
    requires i <= |wire|
  {
    exists j :: 0 <= j < i && wire[j] == Return(tag)
  }

  // The reader ------------------------------------------------------------------------------

  predicate Blocked(ch: Channel) {
    ch.wire == [] || (ch.wire[0].Return? && |ch.buffer| >= 1)
  }

  function ReadFrame(ch: Channel): Channel
    requires !Blocked(ch)
  {
    var f := ch.wire[0];
    var rest := ch.(wire := ch.wire[1..]);
    match f
    case Return(tag) => rest.(buffer := ch.buffer + [tag], returned := ch.returned + {tag})
    case Ack(_, _) => rest.(acked := ch.acked + NewlySettled(ch, f))
    case Nack(_, _) => rest.(nacked := ch.nacked + NewlySettled(ch, f))
  }

  function NewlySettled(ch: Channel, f: Frame): set<Tag> {
    set tag: Tag | tag <= f.tag && Covers(f, tag) && !ch.Settled(tag)
  }

  /** A confirm settles what it covers and was not settled before; a return goes into the buffer; frames keep order. */
  lemma ReadExact(ch: Channel, tag: Tag)
    requires !Blocked(ch)
    ensures
      var f, u := ch.wire[0], ReadFrame(ch);
      var covered := (f.Ack? || f.Nack?) && (tag == f.tag || (f.multiple && tag < f.tag));
      && u.wire == ch.wire[1..] && u.next == ch.next && u.unroutable == ch.unroutable
      && (tag in u.acked <==> tag in ch.acked || (f.Ack? && covered && !ch.Settled(tag)))
      && (tag in u.nacked <==> tag in ch.nacked || (f.Nack? && covered && !ch.Settled(tag)))
      && u.buffer == (if f == Return(f.tag) then ch.buffer + [f.tag] else ch.buffer)
  {}

  /** At most n frames, stopping once `own` is settled or the reader blocks. */
  function Pump(ch: Channel, own: Tag, n: nat): Channel
    decreases n
  {
    if n == 0 || ch.Settled(own) || Blocked(ch) then ch else Pump(ReadFrame(ch), own, n - 1)
  }

  /**
   The reader stops at the first frame that confirms `own`, and before that only when it is blocked or has read n
   frames.
   */
  lemma {:induction false} PumpExact(ch: Channel, own: Tag, n: nat)
    ensures
      var u := Pump(ch, own, n);
      var k := |ch.wire| - |u.wire|;
      && 0 <= k <= n && u.wire == ch.wire[k..]
      && (ch.Settled(own) || k == 0 ==> u == ch)
      && (u.Settled(own) || Blocked(u) || k == n)
      && (forall i | 0 <= i < k - 1 :: !Covers(ch.wire[i], own))
      && (!ch.Settled(own) && k > 0 ==> (u.Settled(own) <==> Covers(ch.wire[k - 1], own)))
    decreases n
  {
    if n > 0 && !ch.Settled(own) && !Blocked(ch) {
      var next := ReadFrame(ch);
      ReadExact(ch, own);
      assert next.Settled(own) <==> Covers(ch.wire[0], own);
      PumpExact(next, own, n - 1);
      var u := Pump(next, own, n - 1);
      var k := |ch.wire| - |u.wire|;
      forall i | 0 <= i < k ensures ch.wire[i] == if i == 0 then ch.wire[0] else next.wire[i - 1] {}
      hide Pump, Blocked, ReadFrame, Covers;
    }
  }

  // One Publish call ------------------------------------------------------------------------

  // What the world does during a call: whether the message left, whether the broker could route it, which frames the
  // broker sends meanwhile, how many frames are read before the deadline, and whether the deadline wins over a settled
  // confirmation.
  datatype World = World(sent: bool, sendError: bool, routable: bool, frames: seq<Frame>, frameCount: nat, late: bool)

  datatype Result = Ok | Unsupported | SendFailed | TimedOut | Refused | Unrouted

  function Sent(ch: Channel, w: World): Channel {
    var ch1 := ch.(wire := ch.wire + w.frames);
    if !w.sent then ch1
    else ch1.(next := ch.next + 1, unroutable := if w.routable then ch.unroutable else ch.unroutable + {ch.next})
  }

  /** Frames also arrive after a call has failed, and between calls. */
  function PublishCall(ch: Channel, w: World): (Channel, Result) {
    var sent := Sent(ch, w);
    if w.sendError || !w.sent then (sent, SendFailed)
    else
      var read := Pump(sent, ch.next, w.frameCount);
      if !read.Settled(ch.next) || w.late then (read, TimedOut)
      else if ch.next in read.nacked then (read, Refused)
      else if read.buffer != [] then (read.(buffer := read.buffer[1..]), Unrouted)
      else (read, Ok)
  }

  class RabbitMQPublisher {
    const service: Service
    var channel: Channel

    constructor (service: Service)
      ensures this.service == service && channel == NEW && Ordered(channel)
    {
      this.service, this.channel := service, NEW;
    }

    /** nil means: this very message was acknowledged and not returned. */
    method Publish(event: EventType, w: World) returns (result: Result)
      requires Ordered(channel) && Ordered(Sent(channel, w))
      modifies this`channel
      ensures RoutingKey(service, event) == NoKey ==> result == Unsupported && channel == old(channel)
      ensures RoutingKey(service, event) != NoKey ==> (channel, result) == PublishCall(old(channel), w)
      ensures Ordered(channel)
      ensures result == Ok ==> old(channel).next in channel.acked && old(channel).next !in channel.unroutable
    {
      if RoutingKey(service, event) == NoKey {
        return Unsupported;
      }
      PublisherSound(channel, w);
      var own := channel.next;
      channel := Sent(channel, w);
      if w.sendError || !w.sent {
        return SendFailed;
      }
      ghost var sent := channel;
      var n := w.frameCount;
      while n > 0 && !channel.Settled(own) && !Blocked(channel)
        invariant Pump(sent, own, w.frameCount) == Pump(channel, own, n)
      {
        channel := ReadFrame(channel);
        n := n - 1;
      }
      if !channel.Settled(own) || w.late {
        return TimedOut;
      }
      if own in channel.nacked {
        return Refused;
      }
      if channel.buffer != [] {
        channel := channel.(buffer := channel.buffer[1..]);
        return Unrouted;
      }
      return Ok;
    }
  }

  // Soundness -------------------------------------------------------------------------------

  lemma ReadKeepsOrdered(ch: Channel)
    requires Ordered(ch) && !Blocked(ch)
    ensures Ordered(ReadFrame(ch))
  {
    var f, u := ch.wire[0], ReadFrame(ch);
    forall i, tag | 0 <= i < |u.wire| && u.wire[i].Ack? && tag in u.unroutable && Covers(u.wire[i], tag)
        && !u.Settled(tag)
      ensures tag in u.returned || ReturnBefore(u.wire, i, tag)
    {
      assert u.wire[i] == ch.wire[i + 1];
      if tag !in ch.returned {
        assert ReturnBefore(ch.wire, i + 1, tag);
        var j :| 0 <= j < i + 1 && ch.wire[j] == Return(tag);
        if j > 0 {
          assert u.wire[j - 1] == Return(tag);
        }
      }
    }
    forall tag | tag in u.acked && tag in u.unroutable ensures tag in u.returned {
      if tag !in ch.acked {
        assert tag in NewlySettled(ch, f) && Covers(ch.wire[0], tag);
        assert !ReturnBefore(ch.wire, 0, tag);
      }
    }
    forall tag: Tag | u.Settled(tag) || tag in u.unroutable ensures tag < u.next {
      if !ch.Settled(tag) && tag !in ch.unroutable {
        assert tag in NewlySettled(ch, f);
      }
    }
    forall i | 0 <= i < |u.wire| ensures u.wire[i].tag < u.next {
      assert u.wire[i] == ch.wire[i + 1];
    }
    assert forall tag | tag in u.returned :: tag in ch.returned || tag == f.tag;
  }

  lemma {:induction false} PumpSound(ch: Channel, own: Tag, n: nat)
    requires Ordered(ch)
    requires own in ch.returned ==> ch.buffer != []
    ensures var u := Pump(ch, own, n);
            && Ordered(u) && u.unroutable == ch.unroutable
            && (own in u.returned ==> u.buffer != [])
    decreases n
  {
    if n > 0 && !ch.Settled(own) && !Blocked(ch) {
      ReadKeepsOrdered(ch);
      PumpSound(ReadFrame(ch), own, n - 1);
    }
  }

  /** Success means routed, whatever earlier calls left on the wire or in the buffer. */
  lemma PublisherSound(ch: Channel, w: World)
    requires Ordered(ch) && Ordered(Sent(ch, w))
    ensures Ordered(PublishCall(ch, w).0)
    ensures PublishCall(ch, w).1 == Ok ==>
              ch.next in PublishCall(ch, w).0.acked && ch.next !in PublishCall(ch, w).0.unroutable
  {
    if w.sent && !w.sendError {
      var sent := Sent(ch, w);
      assert ch.next !in sent.returned;
      PumpSound(sent, ch.next, w.frameCount);
      var read := Pump(sent, ch.next, w.frameCount);
      hide Pump;
      if read.buffer != [] {
        DrainKeepsOrdered(read);
      }
    }
  }

  /** Which result a call has, from what the channel holds afterwards. */
  lemma PublishExact(ch: Channel, w: World)
    requires Ordered(ch) && Ordered(Sent(ch, w))
    ensures
      var (u, result) := PublishCall(ch, w);
      var own := ch.next;
      if !w.sent || w.sendError then result == SendFailed && u == Sent(ch, w)
      else
        && u.next == own + 1
        && (result == TimedOut <==> w.late || !u.Settled(own))
        && (result == Refused <==> !w.late && own in u.nacked)
        && (result == Ok || result == Unrouted <==> !w.late && own in u.acked && own !in u.nacked)
        && (result == Ok || result == Unrouted ==> u.buffer == [])
        && (result == Unrouted <== !w.late && own in u.acked && own !in u.nacked && own in u.unroutable)
  {
    if w.sent && !w.sendError {
      PublisherSound(ch, w);
      var sent := Sent(ch, w);
      PumpSound(sent, ch.next, w.frameCount);
      PumpNext(sent, ch.next, w.frameCount);
      hide Pump;
    }
  }

  lemma {:induction false} PumpNext(ch: Channel, own: Tag, n: nat)
    ensures Pump(ch, own, n).next == ch.next
    decreases n
  {
    if n > 0 && !ch.Settled(own) && !Blocked(ch) {
      PumpNext(ReadFrame(ch), own, n - 1);
    }
  }

  lemma DrainKeepsOrdered(ch: Channel)
    requires Ordered(ch) && ch.buffer != []
    ensures Ordered(ch.(buffer := ch.buffer[1..]))
  {
    var u := ch.(buffer := ch.buffer[1..]);
    forall tag: Tag ensures u.Settled(tag) <==> ch.Settled(tag) {}
    forall i, tag | 0 <= i < |u.wire| && u.wire[i].Ack? && tag in u.unroutable && Covers(u.wire[i], tag)
        && !u.Settled(tag)
      ensures tag in u.returned || ReturnBefore(u.wire, i, tag)
    {
      assert !ch.Settled(tag);
      if tag !in ch.returned {
        assert ReturnBefore(ch.wire, i, tag);
      }
    }
  }

  // Recovery --------------------------------------------------------------------------------

  function Returns(wire: seq<Frame>): nat {
    if wire == [] then 0 else (if wire[0].Return? then 1 else 0) + Returns(wire[1..])
  }

  /** Returns that no call has taken yet. */
  function Pending(ch: Channel): nat {
    |ch.buffer| + Returns(ch.wire)
  }

  lemma {:induction false} ReturnsAppend(a: seq<Frame>, b: seq<Frame>)
    ensures Returns(a + b) == Returns(a) + Returns(b)
  {
    if a == [] {
      assert a + b == b;
    } else {
      ReturnsAppend(a[1..], b);
      assert (a + b)[1..] == a[1..] + b;
    }
  }

  // With two untaken returns ahead of it, the reader never gets to a confirmation of `own`.
  lemma {:induction false} PumpStuck(ch: Channel, ahead: seq<Frame>, behind: seq<Frame>, own: Tag, n: nat)
    requires ch.wire == ahead + behind && |ch.buffer| <= 1 && |ch.buffer| + Returns(ahead) >= 2
    requires !ch.Settled(own) && forall i | 0 <= i < |ahead| :: ahead[i].tag < own
    ensures !Pump(ch, own, n).Settled(own) && Pending(Pump(ch, own, n)) >= 2
    decreases n
  {
    ReturnsAppend(ahead, behind);
    assert ahead != [] && ch.wire[0] == ahead[0];
    if n > 0 && !Blocked(ch) {
      assert ReadFrame(ch).wire == ahead[1..] + behind;
      PumpStuck(ReadFrame(ch), ahead[1..], behind, own, n - 1);
    }
  }

  lemma StuckStays(ch: Channel, w: World)
    requires Ordered(ch) && Pending(ch) >= 2
    ensures PublishCall(ch, w).1 != Ok && Pending(PublishCall(ch, w).0) >= 2
  {
    ReturnsAppend(ch.wire, w.frames);
    if w.sent {
      PumpStuck(Sent(ch, w), ch.wire, w.frames, ch.next, w.frameCount);
    }
  }

  /** A sequence of calls; a call in which the broker would break its promises does not happen. */
  function Calls(ch: Channel, worlds: seq<World>): (Channel, Result) {
    if worlds == [] then (ch, TimedOut)
    else
      var before := Calls(ch, worlds[..|worlds| - 1]).0;
      PublishCall(before, worlds[|worlds| - 1])
  }

  ghost predicate KeepsPromises(ch: Channel, worlds: seq<World>) {
    forall i | 0 <= i < |worlds| :: Ordered(Sent(Calls(ch, worlds[..i]).0, worlds[i]))
  }

  lemma {:induction false} StuckForEver(ch: Channel, worlds: seq<World>)
    requires Ordered(ch) && Pending(ch) >= 2 && KeepsPromises(ch, worlds)
    ensures Calls(ch, worlds).1 != Ok && Pending(Calls(ch, worlds).0) >= 2 && Ordered(Calls(ch, worlds).0)
  {
    if worlds != [] {
      var fewer := worlds[..|worlds| - 1];
      forall i | 0 <= i < |fewer| ensures Ordered(Sent(Calls(ch, fewer[..i]).0, fewer[i])) {
        assert fewer[..i] == worlds[..i];
      }
      StuckForEver(ch, fewer);
      StuckStays(Calls(ch, fewer).0, worlds[|worlds| - 1]);
      PublisherSound(Calls(ch, fewer).0, worlds[|worlds| - 1]);
    }
  }

  // The friendliest call: routed, acknowledged, and read to the end in time.
  function Friendly(ch: Channel): World {
    World(true, false, true, [Ack(ch.next, false)], |ch.wire| + 1, false)
  }

  lemma FriendlyKeepsPromises(ch: Channel)
    requires Ordered(ch)
    ensures Ordered(Sent(ch, Friendly(ch)))
  {
    var u := Sent(ch, Friendly(ch));
    assert u.wire == ch.wire + [Ack(ch.next, false)] && u.unroutable == ch.unroutable;
    forall tag: Tag | u.Settled(tag) || tag in u.unroutable ensures tag < u.next {
      assert ch.Settled(tag) || tag in ch.unroutable;
    }
    forall i, tag | 0 <= i < |u.wire| && u.wire[i].Ack? && tag in u.unroutable && Covers(u.wire[i], tag)
        && !u.Settled(tag)
      ensures tag in u.returned || ReturnBefore(u.wire, i, tag)
    {
      assert tag < ch.next && !ch.Settled(tag);
      if i == |ch.wire| {
        assert !Covers(Ack(ch.next, false), tag);
      } else if tag !in ch.returned {
        assert u.wire[i] == ch.wire[i];
        assert ReturnBefore(ch.wire, i, tag);
        var j :| 0 <= j < i && ch.wire[j] == Return(tag);
        assert u.wire[j] == Return(tag);
      }
    }
  }

  lemma {:induction false} PumpThrough(ch: Channel, ahead: seq<Frame>, own: Tag)
    requires ch.wire == ahead + [Ack(own, false)] && |ch.buffer| + Returns(ahead) <= 1
    requires !ch.Settled(own) && forall i | 0 <= i < |ahead| :: ahead[i].tag < own
    ensures var u := Pump(ch, own, |ahead| + 1);
            own in u.acked && own !in u.nacked && u.wire == [] && |u.buffer| == |ch.buffer| + Returns(ahead)
    decreases |ahead|
  {
    if ahead == [] {
      assert ch.wire[0] == Ack(own, false);
    } else {
      assert ReadFrame(ch).wire == ahead[1..] + [Ack(own, false)];
      PumpThrough(ReadFrame(ch), ahead[1..], own);
    }
  }

  lemma FriendlyCall(ch: Channel)
    requires Ordered(ch) && Pending(ch) <= 1
    ensures var (u, r) := PublishCall(ch, Friendly(ch));
            Ordered(u) && Pending(u) == 0 && (r == Ok <==> Pending(ch) == 0)
  {
    FriendlyKeepsPromises(ch);
    PublisherSound(ch, Friendly(ch));
    var u := Sent(ch, Friendly(ch));
    assert !ch.Settled(ch.next) && !u.Settled(ch.next);
    PumpThrough(u, ch.wire, ch.next);
  }

  /**
   Whether the publisher can ever succeed again: exactly while fewer than two returns are untaken. Two returns left by
   timed-out calls fill the buffer and block the reader, and then every later call times out.
   */
  lemma RecoveryExact(ch: Channel)
    requires Ordered(ch)
    ensures (exists worlds :: KeepsPromises(ch, worlds) && Calls(ch, worlds).1 == Ok) <==> Pending(ch) < 2
  {
    forall worlds | KeepsPromises(ch, worlds) && Calls(ch, worlds).1 == Ok ensures Pending(ch) < 2 {
      if Pending(ch) >= 2 {
        StuckForEver(ch, worlds);
      }
    }
    if Pending(ch) < 2 {
      var w1 := Friendly(ch);
      FriendlyCall(ch);
      FriendlyKeepsPromises(ch);
      var u := PublishCall(ch, w1).0;
      OneCall(ch, w1);
      var w2 := Friendly(u);
      FriendlyCall(u);
      FriendlyKeepsPromises(u);
      TwoCalls(ch, w1, w2);
    }
  }

  /** A fresh publisher gets there with two unroutable messages whose returns both come late. */
  lemma StuckReachable()
    ensures exists worlds :: KeepsPromises(NEW, worlds) && Pending(Calls(NEW, worlds).0) >= 2
  {
    var w1 := World(true, false, false, [], 0, false);
    var w2 := World(true, false, false, [Return(0), Return(1)], 0, false);
    var u1, u2 := Sent(NEW, w1), Sent(Sent(NEW, w1), w2);
    assert PublishCall(NEW, w1).0 == u1 && PublishCall(u1, w2).0 == u2;
    assert Ordered(u1) && Ordered(u2) && u2.wire == [Return(0)] + [Return(1)];
    TwoCalls(NEW, w1, w2);
    hide *;
    TwoReturns(u2);
    assert Calls(NEW, [w1, w2]).0 == u2;
  }

  lemma TwoReturns(ch: Channel)
    requires ch.wire == [Return(0)] + [Return(1)]
    ensures Pending(ch) >= 2
  {
    ReturnsAppend([Return(0)], [Return(1)]);
    assert Returns([Return(0)]) == 1 && Returns([Return(1)]) == 1;
  }

  /** A healthy broker: every call is routed, acknowledged and read in time. */
  function Healthy(ch: Channel, calls: nat): (Channel, Result) {
    if calls == 0 then (ch, TimedOut)
    else
      var before := Healthy(ch, calls - 1).0;
      PublishCall(before, Friendly(before))
  }

  /**
   Once the broker is healthy, every call from the second on succeeds if fewer than two returns are untaken, and none
   otherwise.
   */
  lemma {:induction false} HealthyExact(ch: Channel, calls: nat)
    requires Ordered(ch) && calls > 0
    ensures Ordered(Healthy(ch, calls).0)
    ensures if Pending(ch) < 2 then Pending(Healthy(ch, calls).0) == 0 else Pending(Healthy(ch, calls).0) >= 2
    ensures calls >= 2 ==> (Healthy(ch, calls).1 == Ok <==> Pending(ch) < 2)
  {
    if calls > 1 {
      HealthyExact(ch, calls - 1);
    }
    var before := Healthy(ch, calls - 1).0;
    FriendlyKeepsPromises(before);
    PublisherSound(before, Friendly(before));
    hide PublishCall, Ordered, Friendly, Pending;
    if Pending(before) < 2 {
      FriendlyCall(before);
    } else {
      StuckStays(before, Friendly(before));
    }
  }

  lemma OneCall(ch: Channel, w: World)
    requires Ordered(Sent(ch, w))
    ensures KeepsPromises(ch, [w]) && Calls(ch, [w]) == PublishCall(ch, w)
  {
    assert [w][..0] == [];
  }

  lemma TwoCalls(ch: Channel, w1: World, w2: World)
    requires Ordered(Sent(ch, w1)) && Ordered(Sent(PublishCall(ch, w1).0, w2))
    ensures KeepsPromises(ch, [w1, w2]) && Calls(ch, [w1, w2]) == PublishCall(PublishCall(ch, w1).0, w2)
  {
    OneCall(ch, w1);
    assert [w1, w2][..1] == [w1] && [w1, w2][..0] == [];
  }
}
