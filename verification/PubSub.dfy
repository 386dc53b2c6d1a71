/** In-memory publish/subscribe: publishers never wait, a full subscriber misses the
    event, and a cancelled subscription is removed before its channel is closed.
 */
module PubSub {

  /** A subscription's channel.  `offered`, `received` and `dropped` record its history:
      the events published while it was registered, those its reader took, and how
      many found it full. */
  datatype Channel<T> = Channel(buffer: seq<T>, waiting: bool, closed: bool, offered: seq<T>, received: seq<T>,
                                dropped: nat)

  /** Where the goroutine of a subscription is: before its context is cancelled, between
      the removal and the close, or done. */
  datatype Phase = Watching | Removed | Done

  datatype Bus<T> = Bus(capacity: nat, registered: set<string>, channels: map<string, Channel<T>>,
                        phases: map<string, Phase>, sentOnClosed: bool)

  /** A send that does not wait: to a reader that is waiting, else into the buffer, else
      the event is dropped. */
  function Offer<T>(capacity: nat, c: Channel<T>, e: T): Channel<T>
  {
    var seen := c.(offered := c.offered + [e]);
    if c.waiting then seen.(waiting := false, received := c.received + [e])
    else if |c.buffer| < capacity then seen.(buffer := c.buffer + [e])
    else seen.(dropped := c.dropped + 1)
  }

  function NewChannel<T>(): Channel<T> { Channel([], false, false, [], [], 0) }

  // ---------- The steps ----------

  datatype Step<T> =
    | Subscribe(id: string)
    | Publish(event: T)
    | Receive(id: string)
    | Cancel(id: string)
    | Close(id: string)

  /** Steps happen when their thread can take them; otherwise nothing changes. */
  function Take<T>(b: Bus<T>, step: Step<T>): Bus<T>
  {
    match step
    case Subscribe(id) =>
      if id in b.channels then b
      else b.(registered := b.registered + {id}, channels := b.channels[id := NewChannel()],
              phases := b.phases[id := Watching])
    case Publish(e) => PublishAll(b, e)
    case Receive(id) => if id in b.channels then b.(channels := b.channels[id := ReceiveOne(b.channels[id])]) else b
    case Cancel(id) =>
      if id in b.phases && b.phases[id] == Watching
      then b.(registered := b.registered - {id}, phases := b.phases[id := Removed])
      else b
    case Close(id) =>
      if id in b.phases && b.phases[id] == Removed && id in b.channels
      then b.(channels := b.channels[id := b.channels[id].(closed := true, waiting := false)],
              phases := b.phases[id := Done])
      else b
  }

  function PublishAll<T>(b: Bus<T>, e: T): Bus<T>
  {
    b.(channels := map id | id in b.channels ::
                     if id in b.registered then Offer(b.capacity, b.channels[id], e) else b.channels[id],
       sentOnClosed := b.sentOnClosed || SomeClosed(b.channels, b.registered))
  }

  predicate SomeClosed<T>(channels: map<string, Channel<T>>, ids: set<string>)
  {
    exists id | id in ids :: id in channels && channels[id].closed
  }

  /** A reader takes the oldest buffered event, or waits if there is none; on a closed
      and empty channel it learns that there will be no more. */
  function ReceiveOne<T>(c: Channel<T>): Channel<T>
  {
    if c.buffer != [] then c.(buffer := c.buffer[1..], received := c.received + [c.buffer[0]])
    else if c.closed then c
    else c.(waiting := true)
  }

  lemma ClosedStep<T>(channels: map<string, Channel<T>>, ids: set<string>, id: string)
    requires id in channels
    ensures SomeClosed(channels, ids + {id}) <==> SomeClosed(channels, ids) || channels[id].closed
  {
    if SomeClosed(channels, ids) {
      var x :| x in ids && x in channels && channels[x].closed;
      assert x in ids + {id};
    }
    if channels[id].closed {
      assert id in ids + {id};
    }
  }

  lemma PublishedToAll<T>(b: Bus<T>, channels: map<string, Channel<T>>, e: T)
    requires channels.Keys == b.channels.Keys
    requires forall id | id in channels ::
      channels[id] == if id in b.registered then Offer(b.capacity, b.channels[id], e) else b.channels[id]
    ensures channels == PublishAll(b, e).channels
  {
  }

  /** Publishing visits the registered channels in any order. */
  class Broker<T(==)> {
    const bufferSize: nat
    var registered: set<string>
    var channels: map<string, Channel<T>>
    var phases: map<string, Phase>
    var sentOnClosed: bool

    constructor (bufferSize: nat)
      ensures Contents() == Bus(bufferSize, {}, map[], map[], false)
    {
      this.bufferSize, registered, channels, phases, sentOnClosed := bufferSize, {}, map[], map[], false;
    }

    ghost function Contents(): Bus<T>
      reads this
    {
      Bus(bufferSize, registered, channels, phases, sentOnClosed)
    }

    method PublishEvent(event: T)
      requires registered <= channels.Keys
      modifies this`channels, this`sentOnClosed
      ensures Contents() == Take(old(Contents()), Publish(event))
    {
      var offered, hitClosed := OfferAll((c: Channel<T>) => Offer(bufferSize, c, event), registered, channels);
      PublishedToAll(Contents(), offered, event);
      channels, sentOnClosed := offered, sentOnClosed || hitClosed;
    }

    /** The loop over the registered channels, under the lock. */
    static method OfferAll(send: Channel<T> -> Channel<T>, ids: set<string>, before: map<string, Channel<T>>)
      returns (channels: map<string, Channel<T>>, hitClosed: bool)
      requires ids <= before.Keys
      ensures channels.Keys == before.Keys
      ensures forall id | id in channels ::
        channels[id] == if id in ids then send(before[id]) else before[id]
      ensures hitClosed == SomeClosed(before, ids)
    {
      channels, hitClosed := before, false;
      var todo := ids;
      while todo != {}
        invariant todo <= ids && channels.Keys == before.Keys
        invariant forall id | id in channels ::
            channels[id] == if id in ids && id !in todo then send(before[id]) else before[id]
        invariant hitClosed == SomeClosed(before, ids - todo)
        decreases todo
      {
        var id :| id in todo;
        ClosedStep(before, ids - todo, id);
        assert ids - todo + {id} == ids - (todo - {id});
        hitClosed := hitClosed || channels[id].closed;
        channels := channels[id := send(channels[id])];
        todo := todo - {id};
      }
      assert ids - todo == ids;
    }

    /** `id` is freshly generated. */
    method SubscribeChannel(id: string)
      requires id !in channels
      modifies this
      ensures Contents() == Take(old(Contents()), Subscribe(id))
    {
      channels := channels[id := NewChannel()];
      registered := registered + {id};
      phases := phases[id := Watching];
    }

    /** The goroutine's two steps after cancellation: leave the registry under the lock,
        then close outside it. */
    method RemoveChannel(id: string)
      requires id in phases && phases[id] == Watching
      modifies this`registered, this`phases
      ensures Contents() == Take(old(Contents()), Cancel(id))
    {
      registered := registered - {id};
      phases := phases[id := Removed];
    }

    method CloseChannel(id: string)
      requires id in phases && phases[id] == Removed && id in channels
      modifies this`channels, this`phases
      ensures Contents() == Take(old(Contents()), Close(id))
    {
      channels := channels[id := channels[id].(closed := true, waiting := false)];
      phases := phases[id := Done];
    }
  }

  // ---------- What every interleaving keeps ----------

  /** `at` places the elements of `part` in `whole`, in order. */
  ghost predicate Placed<T>(part: seq<T>, whole: seq<T>, at: seq<int>)
  {
    && |at| == |part|
    && (forall i | 0 <= i < |at| :: 0 <= at[i] < |whole| && part[i] == whole[at[i]])
    && (forall i, j :: 0 <= i < j < |at| ==> at[i] < at[j])
  }

  ghost predicate InOrderPart<T>(part: seq<T>, whole: seq<T>)
  {
    exists at: seq<int> :: Placed(part, whole, at)
  }

  lemma PartKept<T>(part: seq<T>, whole: seq<T>, e: T)
    requires InOrderPart(part, whole)
    ensures InOrderPart(part, whole + [e])
  {
    var at: seq<int> :| Placed(part, whole, at);
    assert Placed(part, whole + [e], at);
  }

  lemma PartGrows<T>(part: seq<T>, whole: seq<T>, e: T)
    requires InOrderPart(part, whole)
    ensures InOrderPart(part + [e], whole + [e])
  {
    var at: seq<int> :| Placed(part, whole, at);
    assert Placed(part + [e], whole + [e], at + [|whole|]);
  }

  /** A subscriber's events: those received and then those buffered are an in-order part
      of those published while it was registered, and all of them unless one found the
      channel full. */
  ghost predicate Faithful<T>(capacity: nat, c: Channel<T>)
  {
    && InOrderPart(c.received + c.buffer, c.offered)
    && |c.offered| == |c.received| + |c.buffer| + c.dropped
    && (c.dropped == 0 ==> c.received + c.buffer == c.offered)
    && |c.buffer| <= capacity
    && (c.waiting ==> c.buffer == [])
  }

  lemma OfferFaithful<T>(capacity: nat, c: Channel<T>, e: T)
    requires Faithful(capacity, c)
    ensures Faithful(capacity, Offer(capacity, c, e))
    ensures Offer(capacity, c, e).dropped == c.dropped + if c.waiting || |c.buffer| < capacity then 0 else 1
  {
    var all := c.received + c.buffer;
    PartKept(all, c.offered, e);
    PartGrows(all, c.offered, e);
    assert c.received + (c.buffer + [e]) == all + [e];
    if c.waiting {
      assert all == c.received;
      assert c.received + [e] + [] == all + [e];
    }
  }

  lemma ReceiveFaithful<T>(capacity: nat, c: Channel<T>)
    requires Faithful(capacity, c)
    ensures Faithful(capacity, ReceiveOne(c))
  {
    if c.buffer != [] {
      assert c.received + [c.buffer[0]] + c.buffer[1..] == c.received + c.buffer;
    }
  }

  /** A registered channel is open: its goroutine has not got past the removal. */
  ghost predicate Safe<T>(b: Bus<T>)
  {
    && !b.sentOnClosed
    && (forall id | id in b.registered :: id in b.phases && b.phases[id] == Watching)
    && b.channels.Keys == b.phases.Keys
    && (forall id | id in b.channels :: b.channels[id].closed <==> b.phases[id] == Done)
    && (forall id | id in b.channels :: Faithful(b.capacity, b.channels[id]))
  }

  lemma NewFaithful<T>(capacity: nat)
    ensures Faithful<T>(capacity, NewChannel())
  {
    var c := NewChannel<T>();
    assert c.received + c.buffer == [];
    assert Placed(c.received + c.buffer, c.offered, []);
  }

  lemma PublishKeepsSafe<T>(b: Bus<T>, e: T)
    requires Safe(b)
    ensures Safe(PublishAll(b, e))
  {
    var after := PublishAll(b, e);
    forall id | id in b.channels
      ensures Faithful(b.capacity, after.channels[id]) && after.channels[id].closed == b.channels[id].closed
    {
      PublishedChannel(b, e, id);
    }
  }

  lemma PublishedChannel<T>(b: Bus<T>, e: T, id: string)
    requires id in b.channels && Faithful(b.capacity, b.channels[id])
    ensures var c := PublishAll(b, e).channels[id];
      Faithful(b.capacity, c) && c.closed == b.channels[id].closed
  {
    OfferFaithful(b.capacity, b.channels[id], e);
  }

  lemma SubscribeKeepsSafe<T>(b: Bus<T>, id: string)
    requires Safe(b)
    ensures Safe(Take(b, Subscribe(id)))
  {
    NewFaithful<T>(b.capacity);
  }

  lemma CancelKeepsSafe<T>(b: Bus<T>, id: string)
    requires Safe(b)
    ensures Safe(Take(b, Cancel(id)))
  {
  }

  lemma ChannelStepKeepsSafe<T>(b: Bus<T>, id: string, c: Channel<T>, phase: Phase)
    requires Safe(b) && id in b.channels && Faithful(b.capacity, c)
    requires c.closed <==> phase == Done
    requires id in b.registered ==> phase == Watching
    ensures Safe(b.(channels := b.channels[id := c], phases := b.phases[id := phase]))
  {
  }

  lemma StepKeepsSafe<T>(b: Bus<T>, step: Step<T>)
    requires Safe(b)
    ensures Safe(Take(b, step)) && Take(b, step).capacity == b.capacity
  {
    match step
    case Subscribe(id) => SubscribeKeepsSafe(b, id);
    case Publish(e) => PublishKeepsSafe(b, e);
    case Receive(id) =>
      if id in b.channels {
        ReceiveFaithful(b.capacity, b.channels[id]);
        ChannelStepKeepsSafe(b, id, ReceiveOne(b.channels[id]), b.phases[id]);
        assert b.phases[id := b.phases[id]] == b.phases;
      }
    case Cancel(id) => CancelKeepsSafe(b, id);
    case Close(id) =>
      if Take(b, step) != b {
        ChannelStepKeepsSafe(b, id, b.channels[id].(closed := true, waiting := false), Done);
      }
  }

  function Run<T>(b: Bus<T>, steps: seq<Step<T>>): Bus<T>
  {
    if steps == [] then b else Take(Run(b, steps[..|steps| - 1]), steps[|steps| - 1])
  }

  /** Over every interleaving of subscribe, publish, receive, cancel and close: nothing
      is ever sent on a closed channel, and every subscriber has received an in-order
      part of what was published while it was registered. */
  lemma {:induction false} EveryRunSafe<T>(capacity: nat, steps: seq<Step<T>>)
    ensures Safe(Run(Bus(capacity, {}, map[], map[], false), steps))
    ensures Run(Bus(capacity, {}, map[], map[], false), steps).capacity == capacity
  {
    if steps != [] {
      var n := |steps| - 1;
      EveryRunSafe(capacity, steps[..n]);
      StepKeepsSafe(Run(Bus(capacity, {}, map[], map[], false), steps[..n]), steps[n]);
    }
  }

  /** At every publish of the run the channel had room or a waiting reader. */
  ghost predicate AlwaysRoom<T>(b: Bus<T>, steps: seq<Step<T>>, id: string)
  {
    forall k | 0 <= k < |steps| && steps[k].Publish? ::
      var before := Run(b, steps[..k]);
      id in before.registered && id in before.channels ==>
        before.channels[id].waiting || |before.channels[id].buffer| < before.capacity
  }

  lemma StepMissesNothing<T>(b: Bus<T>, step: Step<T>, id: string)
    requires id in b.channels ==> b.channels[id].dropped == 0
    requires step.Publish? && id in b.registered && id in b.channels ==>
      b.channels[id].waiting || |b.channels[id].buffer| < b.capacity
    ensures id in Take(b, step).channels ==> Take(b, step).channels[id].dropped == 0
  {
  }

  lemma RoomBefore<T>(b: Bus<T>, steps: seq<Step<T>>, id: string)
    requires AlwaysRoom(b, steps, id) && steps != []
    ensures AlwaysRoom(b, steps[..|steps| - 1], id)
  {
    var n := |steps| - 1;
    forall k | 0 <= k < n
      ensures steps[..n][..k] == steps[..k]
    {
    }
  }

  lemma {:induction false} NoneDropped<T>(b: Bus<T>, steps: seq<Step<T>>, id: string)
    requires AlwaysRoom(b, steps, id) && id !in b.channels
    ensures id in Run(b, steps).channels ==> Run(b, steps).channels[id].dropped == 0
    decreases |steps|
  {
    if steps != [] {
      var n := |steps| - 1;
      RoomBefore(b, steps, id);
      NoneDropped(b, steps[..n], id);
      StepMissesNothing(Run(b, steps[..n]), steps[n], id);
    }
  }

  /** A subscriber that always had room missed nothing: received and buffered events are
      all events published while it was registered. */
  lemma NothingMissed<T>(capacity: nat, steps: seq<Step<T>>, id: string)
    requires AlwaysRoom(Bus(capacity, {}, map[], map[], false), steps, id)
    ensures var b := Run(Bus(capacity, {}, map[], map[], false), steps);
      id in b.channels ==>
        b.channels[id].dropped == 0 && b.channels[id].received + b.channels[id].buffer == b.channels[id].offered
  {
    EveryRunSafe(capacity, steps);
    NoneDropped(Bus(capacity, {}, map[], map[], false), steps, id);
  }

  function ReceiveMany<T>(c: Channel<T>, n: nat): Channel<T>
  {
    if n == 0 then c else ReceiveOne(ReceiveMany(c, n - 1))
  }

  /** Receiving hands over the buffered events one by one, oldest first; then the reader
      waits, and the next event offered goes straight to it.  A closed channel only drains. */
  lemma {:induction false} ReceivesInOrder<T>(capacity: nat, c: Channel<T>, n: nat, e: T)
    requires n <= |c.buffer| && !c.waiting
    ensures ReceiveMany(c, n) == c.(buffer := c.buffer[n..], received := c.received + c.buffer[..n])
    ensures !c.closed && n == |c.buffer| ==>
      Offer(capacity, ReceiveMany(c, n + 1), e).received == c.received + c.buffer + [e]
    ensures c.closed && n == |c.buffer| ==> ReceiveMany(c, n + 1) == ReceiveMany(c, n)
  {
    if n == 0 {
      assert c.buffer[0..] == c.buffer && c.received + c.buffer[..0] == c.received;
    } else {
      ReceivesInOrder(capacity, c, n - 1, e);
      assert c.buffer[n - 1..][1..] == c.buffer[n..];
      assert c.received + c.buffer[..n - 1] + [c.buffer[n - 1]] == c.received + c.buffer[..n];
    }
    if n == |c.buffer| {
      assert c.buffer[..n] == c.buffer;
      assert ReceiveMany(c, n + 1) == ReceiveOne(ReceiveMany(c, n));
    }
  }

  /** A subscriber hears every event from its subscription to its cancellation and none
      outside: published events are offered to exactly the registered channels. */
  lemma HeardWhileRegistered<T>(b: Bus<T>, id: string, e: T)
    requires id !in b.channels && id !in b.phases
    ensures var subscribed := Take(b, Subscribe(id));
      && id in subscribed.registered && subscribed.channels[id].offered == []
      && Take(subscribed, Publish(e)).channels[id].offered == [e]
      && var cancelled := Take(subscribed, Cancel(id));
         id !in cancelled.registered && Take(cancelled, Publish(e)).channels[id] == cancelled.channels[id]
         && Take(cancelled, Close(id)).channels[id].closed
  {
  }

  lemma OfferedToRegistered<T>(b: Bus<T>, id: string, e: T)
    requires id in b.channels
    ensures Take(b, Publish(e)).channels[id].offered
         == if id in b.registered then b.channels[id].offered + [e] else b.channels[id].offered
  {
  }
}
