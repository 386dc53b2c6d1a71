/** How changes reach the data plane: published events go through a channel that may be
    full, are coalesced per key, and each dispatch reloads part of the data plane from the
    control plane.  A periodic resync reloads all of it.  A reload reads and then writes;
    other goroutines may come in between.
 */
module Consumers {
  import opened Options
  import opened Steps
  import opened Keys
  import opened Resources
  import opened DataPlane
  import P = PubSub
  import R = Routing

  // ---------- Coalescing ----------

  datatype Key = BalancerKey | TopologyKey | EntrypointKey

  function KeyFor(kind: Kind): Key
  {
    match kind
    case ProxyKind => BalancerKey
    case PoolKind => BalancerKey
    case BalancerKind => BalancerKey
    case RouterKind => TopologyKey
    case FlowKind => TopologyKey
    case EntrypointKind => EntrypointKey
  }

  /** No window disables coalescing; no maximum disables early flushes.  `resync` says that a
      resync interval is set, and `capacity` is the size of the subscription's channel. */
  datatype Config = Config(window: int, maxBuffer: int, resync: bool, capacity: nat)

  /** What is buffered under one key: entrypoint events keep the last change of each id. */
  datatype Pending = Pending(count: nat, dirty: bool, entrypoints: map<string, Change>)

  const NO_EVENTS := Pending(0, false, map[])

  const COALESCED := "_coalesced"

  function Buffered(p: Pending, e: Event): Pending
  {
    if KeyFor(e.kind) == EntrypointKey
    then p.(count := p.count + 1, entrypoints := p.entrypoints[e.id := e.change])
    else p.(count := p.count + 1, dirty := true)
  }

  function Offered(pending: map<Key, Pending>, e: Event): map<Key, Pending>
  {
    var key := KeyFor(e.kind);
    pending[key := Buffered(if key in pending then pending[key] else NO_EVENTS, e)]
  }

  predicate IsFull(cfg: Config, p: Pending)
  {
    cfg.maxBuffer > 0 && p.count >= cfg.maxBuffer
  }

  function RowEvent(r: Row<Change>): Event { Event(EntrypointKind, r.key, r.value) }

  /** The events a flush dispatches. */
  function FlushEvents(key: Key, p: Pending): seq<Event>
  {
    match key
    case BalancerKey => if p.dirty then [Event(ProxyKind, COALESCED, Saved)] else []
    case TopologyKey => if p.dirty then [Event(FlowKind, COALESCED, Saved)] else []
    case EntrypointKey => R.Map(RowEvent, RowsOf(p.entrypoints))
  }

  function Flushed(pending: map<Key, Pending>, key: Key): seq<Event>
  {
    if key in pending then FlushEvents(key, pending[key]) else []
  }

  /** The events of one key, in order. */
  function OfKey(events: seq<Event>, key: Key): seq<Event>
  {
    if events == [] then []
    else
      var n := |events| - 1;
      OfKey(events[..n], key) + (if KeyFor(events[n].kind) == key then [events[n]] else [])
  }

  lemma OfKeyStep(events: seq<Event>, e: Event, key: Key)
    ensures OfKey(events + [e], key) == OfKey(events, key) + (if KeyFor(e.kind) == key then [e] else [])
  {
    assert (events + [e])[..|events|] == events;
  }

  lemma {:induction false} OfKeyConcat(a: seq<Event>, b: seq<Event>, key: Key)
    ensures OfKey(a + b, key) == OfKey(a, key) + OfKey(b, key)
    decreases |b|
  {
    if b == [] {
      assert a + b == a;
    } else {
      var front, last := b[..|b| - 1], b[|b| - 1];
      assert b == front + [last];
      OfKeyConcat(a, front, key);
      OfKeyConcatStep(a, front, last, key);
    }
  }

  lemma OfKeyConcatStep(a: seq<Event>, front: seq<Event>, last: Event, key: Key)
    requires OfKey(a + front, key) == OfKey(a, key) + OfKey(front, key)
    ensures OfKey(a + (front + [last]), key) == OfKey(a, key) + OfKey(front + [last], key)
  {
    OfKeyStep(a + front, last, key);
    OfKeyStep(front, last, key);
    Associative(a, front, [last]);
    Associative(OfKey(a, key), OfKey(front, key), if KeyFor(last.kind) == key then [last] else []);
  }

  lemma Associative<T>(a: seq<T>, b: seq<T>, c: seq<T>)
    ensures (a + b) + c == a + (b + c)
  {
  }

  lemma {:induction false} OfOwnKey(events: seq<Event>, own: Key, key: Key)
    requires forall e | e in events :: KeyFor(e.kind) == own
    ensures OfKey(events, key) == if key == own then events else []
    decreases |events|
  {
    if events != [] {
      var front, last := events[..|events| - 1], events[|events| - 1];
      assert last in events && events == front + [last];
      OfOwnKey(front, own, key);
      OfKeyStep(front, last, key);
    }
  }

  /** A flush dispatches events of its own key only. */
  lemma FlushedOfKey(pending: map<Key, Pending>, own: Key, key: Key)
    ensures OfKey(Flushed(pending, own), key) == if key == own then Flushed(pending, own) else []
  {
    OfOwnKey(Flushed(pending, own), own, key);
  }

  function OfferedMany(pending: map<Key, Pending>, events: seq<Event>): map<Key, Pending>
  {
    if events == [] then pending
    else Offered(OfferedMany(pending, events[..|events| - 1]), events[|events| - 1])
  }

  /** What the events last said about an entrypoint. */
  function LastChange(events: seq<Event>, id: string): Option<Change>
  {
    if events == [] then None
    else
      var n := |events| - 1;
      if events[n].kind == EntrypointKind && events[n].id == id then Some(events[n].change)
      else LastChange(events[..n], id)
  }

  /** What is buffered after a sequence of events: the number of events of each key ... */
  ghost predicate Counts(pending: map<Key, Pending>, events: seq<Event>, key: Key)
  {
    && (key in pending <==> OfKey(events, key) != [])
    && (key in pending ==> pending[key].count == |OfKey(events, key)|)
    && (key in pending && key != EntrypointKey ==> pending[key].dirty)
  }

  /** ... and the last change of each entrypoint. */
  ghost predicate Remembers(pending: map<Key, Pending>, events: seq<Event>, id: string)
  {
    LastChange(events, id)
      == if EntrypointKey in pending && id in pending[EntrypointKey].entrypoints
         then Some(pending[EntrypointKey].entrypoints[id]) else None
  }

  lemma OfferCounts(pending: map<Key, Pending>, events: seq<Event>, e: Event, key: Key)
    requires Counts(pending, events, key)
    ensures Counts(Offered(pending, e), events + [e], key)
  {
    OfKeyStep(events, e, key);
    CountStep(pending, e, key, OfKey(events, key), OfKey(events + [e], key));
  }

  lemma CountStep(pending: map<Key, Pending>, e: Event, key: Key, before: seq<Event>, after: seq<Event>)
    requires after == before + (if KeyFor(e.kind) == key then [e] else [])
    requires key in pending <==> before != []
    requires key in pending ==> pending[key].count == |before| && (key != EntrypointKey ==> pending[key].dirty)
    ensures key in Offered(pending, e) <==> after != []
    ensures key in Offered(pending, e) ==>
      Offered(pending, e)[key].count == |after| && (key != EntrypointKey ==> Offered(pending, e)[key].dirty)
  {
  }

  lemma OfferRemembers(pending: map<Key, Pending>, events: seq<Event>, e: Event, id: string)
    requires Remembers(pending, events, id)
    ensures Remembers(Offered(pending, e), events + [e], id)
  {
    assert (events + [e])[..|events|] == events;
  }

  lemma {:induction false} OfferedTells(events: seq<Event>, key: Key, id: string)
    ensures Counts(OfferedMany(map[], events), events, key)
    ensures Remembers(OfferedMany(map[], events), events, id)
  {
    if events != [] {
      var front, last := events[..|events| - 1], events[|events| - 1];
      OfferedTells(front, key, id);
      OfferCounts(OfferedMany(map[], front), front, last, key);
      OfferRemembers(OfferedMany(map[], front), front, last, id);
      assert events == front + [last];
    }
  }

  /** A key is flushed early when as many of its events as the limit allows are buffered. */
  lemma FullAtLimit(cfg: Config, events: seq<Event>, key: Key)
    requires key in OfferedMany(map[], events)
    ensures IsFull(cfg, OfferedMany(map[], events)[key]) <==>
      cfg.maxBuffer > 0 && |OfKey(events, key)| >= cfg.maxBuffer
  {
    OfferedTells(events, key, "");
  }

  /** A flush of the entrypoints dispatches, for exactly the entrypoints that changed, what was
      last said of each. */
  lemma LastChangeWins(events: seq<Event>, id: string, change: Change)
    ensures Event(EntrypointKind, id, change) in Flushed(OfferedMany(map[], events), EntrypointKey) <==>
      LastChange(events, id) == Some(change)
  {
    var pending := OfferedMany(map[], events);
    OfferedTells(events, EntrypointKey, id);
    if EntrypointKey in pending {
      var rows := RowsOf(pending[EntrypointKey].entrypoints);
      var r := Row(id, change);
      RowsOfMembers(pending[EntrypointKey].entrypoints, r);
      if r in rows {
        var i :| 0 <= i < |rows| && rows[i] == r;
        assert R.Map(RowEvent, rows)[i] == Event(EntrypointKind, id, change);
      }
    }
  }

  class Consumer {
    const cfg: Config
    var keys: map<Key, Pending>
    var armed: set<Key>
    var closed: bool

    /** Exactly the keys with something buffered have a running timer. */
    ghost predicate Valid()
      reads this
    {
      armed == keys.Keys
    }

    constructor (cfg: Config)
      ensures Valid() && this.cfg == cfg && keys == map[] && !closed
    {
      this.cfg, keys, armed, closed := cfg, map[], {}, false;
    }

    /** Buffers an event, and says whether its key is to be flushed at once; after the last
        flush an event is to be dispatched directly instead. */
    method Offer(e: Event) returns (direct: bool, flushNow: bool)
      requires Valid()
      modifies this
      ensures Valid() && closed == old(closed) && direct == closed
      ensures closed ==> keys == old(keys) && !flushNow
      ensures !closed ==>
        keys == Offered(old(keys), e) && flushNow == IsFull(cfg, keys[KeyFor(e.kind)]) && KeyFor(e.kind) in armed
    {
      if closed {
        return true, false;
      }
      var key, st := KeyFor(e.kind), NO_EVENTS;
      if key in keys {
        st := keys[key];
      }
      st := st.(count := st.count + 1);
      match key {
        case EntrypointKey => st := st.(entrypoints := st.entrypoints[e.id := e.change]);
        case _ => st := st.(dirty := true);
      }
      keys := keys[key := st];
      if key !in armed {
        armed := armed + {key};
      }
      direct, flushNow := false, cfg.maxBuffer > 0 && st.count >= cfg.maxBuffer;
    }

    /** Takes what is buffered under a key, entrypoints in id order, and stops its timer. */
    method TakeKeyEvents(key: Key) returns (out: seq<Event>)
      requires Valid()
      modifies this`keys, this`armed
      ensures Valid() && out == Flushed(old(keys), key) && keys == old(keys) - {key}
    {
      out := [];
      if key !in keys {
        return;
      }
      var st := keys[key];
      armed := armed - {key};
      match key {
        case BalancerKey =>
          if st.dirty {
            out := [Event(ProxyKind, COALESCED, Saved)];
          }
        case TopologyKey =>
          if st.dirty {
            out := [Event(FlowKind, COALESCED, Saved)];
          }
        case EntrypointKey =>
          var rows := RowsOf(st.entrypoints);
          for i := 0 to |rows|
            invariant |out| == i && forall j | 0 <= j < i :: out[j] == RowEvent(rows[j])
          {
            out := out + [Event(EntrypointKind, rows[i].key, rows[i].value)];
          }
      }
      keys := keys - {key};
    }

    /** The last flush, when the subscription has ended: every key, in any order. */
    method FlushAll() returns (out: seq<Event>)
      requires Valid()
      modifies this
      ensures Valid() && closed && keys == map[]
      ensures forall key: Key :: OfKey(out, key) == Flushed(old(keys), key)
    {
      closed := true;
      out := [];
      ghost var before := keys;
      var todo := keys.Keys;
      while todo != {}
        invariant Valid() && closed && keys.Keys == todo
        invariant forall key | key in todo :: key in before && keys[key] == before[key]
        invariant FlushedUpTo(before, todo, out)
        decreases todo
      {
        var key :| key in todo;
        FlushStep(before, todo, out, key);
        var events := TakeKeyEvents(key);
        out := out + events;
        todo := todo - {key};
      }
    }
  }

  /** Exactly the keys that are no longer to do have been flushed. */
  ghost predicate FlushedUpTo(before: map<Key, Pending>, todo: set<Key>, out: seq<Event>)
  {
    forall key: Key :: OfKey(out, key) == if key in todo then [] else Flushed(before, key)
  }

  lemma FlushStep(before: map<Key, Pending>, todo: set<Key>, out: seq<Event>, key: Key)
    requires FlushedUpTo(before, todo, out) && key in todo
    ensures FlushedUpTo(before, todo - {key}, out + Flushed(before, key))
  {
    forall k: Key
      ensures OfKey(out + Flushed(before, key), k) == if k in todo - {key} then [] else Flushed(before, k)
    {
      OfKeyConcat(out, Flushed(before, key), k);
      FlushedOfKey(before, key, k);
    }
  }

  // ---------- What a dispatch reloads ----------

  datatype Address = Address(host: string, port: nat)
  datatype Cache = Cache(entrypoints: map<string, Entrypoint>, flows: map<string, Flow>, routers: map<string, R.Router>)

  /** The data plane: the resource cache, the balancer instances, and the addresses the
      entrypoint servers listen on. */
  datatype Plane = Plane(cache: Cache, registry: map<string, Instance>, listeners: map<string, Address>)

  function TopologyOf(st: Store): Cache { Cache(st.entrypoints, st.flows, st.routers) }

  /** Every stored balancer can be built, so that reloading the balancers succeeds. */
  predicate AllBuild(st: Store)
  {
    forall id | id in st.balancers :: BuildFor(st, st.balancers[id]).Some?
  }

  function RegistryOf(st: Store): map<string, Instance>
  {
    map id | id in st.balancers && BuildFor(st, st.balancers[id]).Some? :: BuildFor(st, st.balancers[id]).value
  }

  function ListenersFor(eps: map<string, Entrypoint>): map<string, Address>
  {
    map id | id in eps :: Address(eps[id].host, eps[id].port)
  }

  function PlaneOf(st: Store): Plane
  {
    Plane(TopologyOf(st), RegistryOf(st), ListenersFor(st.entrypoints))
  }

  // ---------- Goroutines ----------

  /** What a goroutine does in turn: reload what an event of a key asks for, or bring the
      listeners in line with the cache. */
  datatype Job = Reload(key: Key) | Reconcile

  function JobFor(e: Event): Job { Reload(KeyFor(e.kind)) }

  /** A resync reloads the cache and the balancers, and then the listeners. */
  const RESYNC := [Reload(TopologyKey), Reload(BalancerKey), Reconcile]

  /** How far a goroutine is with the job at the head of its queue.  An entrypoint event
      reloads the cache and then brings the listeners in line with the cache. */
  datatype Stage =
    | Idle
    | HasRegistry(registry: map<string, Instance>)
    | HasCache(cache: Cache)
    | CacheDone
    | HasListeners(listeners: map<string, Address>)

  datatype Worker = Worker(queue: seq<Job>, stage: Stage)

  const FREE := Worker([], Idle)

  /** Worker 0 is the consumer loop and worker 1 the resync loop; each timer that fires adds
      one.  `flushing` is the key that the consumer loop found full and is about to flush,
      and `dropped` counts the published events that never reached the channel. */
  datatype System = System(state: State, subscribed: bool, channel: seq<Event>, dropped: nat,
                           pending: map<Key, Pending>, workers: seq<Worker>, flushing: Option<Key>, plane: Plane)

  /** `parked` says that the consumer loop is already waiting at the channel. */
  datatype Step =
    | Command(call: Call, parked: bool)
    | Subscribe
    | Deliver
    | Timer(key: Key)
    | FlushNow
    | Resync
    | Work(worker: nat)

  predicate IsFree(sys: System, i: nat)
  {
    i < |sys.workers| && sys.workers[i] == FREE
  }

  predicate LoopWaits(sys: System)
  {
    IsFree(sys, 0) && sys.flushing == None
  }

  /** Whether a published event reaches the consumer: nobody hears it before the
      subscription, and a full channel drops it. */
  predicate Accepts(sys: System, cfg: Config, parked: bool)
  {
    sys.subscribed && (|sys.channel| < cfg.capacity || (parked && LoopWaits(sys) && sys.channel == []))
  }

  function Commanded(sys: System, lib: R.Library, cfg: Config, call: Call, parked: bool): System
  {
    var s := Exec(sys.state, lib, call.command, call.env).0;
    if |s.events| <= |sys.state.events| then sys.(state := s)
    else if Accepts(sys, cfg, parked) then sys.(state := s, channel := sys.channel + [s.events[|sys.state.events|]])
    else sys.(state := s, dropped := sys.dropped + 1)
  }

  /** The subscription's channel is one of the event bus: a published event is dropped, and
      otherwise queued behind the others, exactly as the bus offers it. */
  lemma DropsAsOffered(sys: System, lib: R.Library, cfg: Config, call: Call, parked: bool, c: P.Channel<Event>)
    requires sys.subscribed && c.buffer == sys.channel
    requires c.waiting == (parked && LoopWaits(sys) && sys.channel == [])
    requires |Exec(sys.state, lib, call.command, call.env).0.events| > |sys.state.events|
    ensures var e := Exec(sys.state, lib, call.command, call.env).0.events[|sys.state.events|];
      var after, offered := Commanded(sys, lib, cfg, call, parked), P.Offer(cfg.capacity, c, e);
      && after.dropped - sys.dropped == offered.dropped - c.dropped
      && c.received + after.channel == offered.received + offered.buffer
  {
    var e := Exec(sys.state, lib, call.command, call.env).0.events[|sys.state.events|];
    if c.waiting {
      assert c.received + [e] + [] == c.received + ([] + [e]);
    }
  }

  function DeliverNext(sys: System, cfg: Config): System
  {
    if sys.channel == [] || !LoopWaits(sys) then sys
    else
      var e := sys.channel[0];
      var taken := sys.(channel := sys.channel[1..]);
      if cfg.window <= 0 then taken.(workers := sys.workers[0 := Worker([JobFor(e)], Idle)])
      else
        var pending := Offered(sys.pending, e);
        taken.(pending := pending,
               flushing := if IsFull(cfg, pending[KeyFor(e.kind)]) then Some(KeyFor(e.kind)) else None)
  }

  function FlushedJobs(pending: map<Key, Pending>, key: Key): seq<Job>
  {
    R.Map(JobFor, Flushed(pending, key))
  }

  /** What a worker holds after the read of its head job. */
  function ReadFor(sys: System, job: Job): Stage
  {
    match job
    case Reload(BalancerKey) => HasRegistry(RegistryOf(sys.state.store))
    case Reload(_) => HasCache(TopologyOf(sys.state.store))
    case Reconcile => HasListeners(ListenersFor(sys.plane.cache.entrypoints))
  }

  /** One read or one write of a job.  Balancers that cannot all be built are an error: it
      ends the dispatch of an event, and a resync as a whole. */
  function WorkOn(sys: System, i: nat): System
  {
    if i >= |sys.workers| || sys.workers[i].queue == [] then sys
    else
      var w, plane := sys.workers[i], sys.plane;
      var rest := w.queue[1..];
      var done := Worker(rest, Idle);
      match w.stage
      case Idle =>
        if w.queue[0] == Reload(BalancerKey) && !AllBuild(sys.state.store)
        then sys.(workers := sys.workers[i := Worker(if rest == [Reconcile] then [] else rest, Idle)])
        else sys.(workers := sys.workers[i := w.(stage := ReadFor(sys, w.queue[0]))])
      case HasRegistry(r) => sys.(workers := sys.workers[i := done], plane := plane.(registry := r))
      case HasCache(c) =>
        sys.(workers := sys.workers[i := if w.queue[0] == Reload(EntrypointKey) then w.(stage := CacheDone) else done],
             plane := plane.(cache := c))
      case CacheDone => sys.(workers := sys.workers[i := w.(stage := ReadFor(sys, Reconcile))])
      case HasListeners(l) => sys.(workers := sys.workers[i := done], plane := plane.(listeners := l))
  }

  /** A step whose goroutine cannot take it changes nothing. */
  function Next(sys: System, lib: R.Library, cfg: Config, step: Step): System
  {
    match step
    case Command(call, parked) => Commanded(sys, lib, cfg, call, parked)
    case Subscribe => sys.(subscribed := true)
    case Deliver => DeliverNext(sys, cfg)
    case Timer(key) =>
      if key !in sys.pending then sys
      else sys.(pending := sys.pending - {key}, workers := sys.workers + [Worker(FlushedJobs(sys.pending, key), Idle)])
    case FlushNow =>
      if sys.flushing == None || !IsFree(sys, 0) then sys
      else
        var key := sys.flushing.value;
        sys.(flushing := None, pending := sys.pending - {key},
             workers := sys.workers[0 := Worker(FlushedJobs(sys.pending, key), Idle)])
    case Resync => if cfg.resync && IsFree(sys, 1) then sys.(workers := sys.workers[1 := Worker(RESYNC, Idle)]) else sys
    case Work(i) => WorkOn(sys, i)
  }

  function RunSystem(sys: System, lib: R.Library, cfg: Config, steps: seq<Step>): System
  {
    Fold((s: System, step: Step) => Next(s, lib, cfg, step), sys, steps)
  }

  lemma RunConcat(sys: System, lib: R.Library, cfg: Config, a: seq<Step>, b: seq<Step>)
    ensures RunSystem(sys, lib, cfg, a + b) == RunSystem(RunSystem(sys, lib, cfg, a), lib, cfg, b)
  {
    FoldConcat((s: System, step: Step) => Next(s, lib, cfg, step), sys, a, b);
  }

  lemma RunOne(sys: System, lib: R.Library, cfg: Config, step: Step)
    ensures RunSystem(sys, lib, cfg, [step]) == Next(sys, lib, cfg, step)
  {
    FoldOne((s: System, st: Step) => Next(s, lib, cfg, st), sys, step);
  }

  lemma RunTwo(sys: System, lib: R.Library, cfg: Config, x: Step, y: Step)
    ensures RunSystem(sys, lib, cfg, [x, y]) == Next(Next(sys, lib, cfg, x), lib, cfg, y)
  {
    RunOne(sys, lib, cfg, x);
    RunConcat(sys, lib, cfg, [x], [y]);
    RunOne(Next(sys, lib, cfg, x), lib, cfg, y);
    assert [x] + [y] == [x, y];
  }

  lemma RunThree(sys: System, lib: R.Library, cfg: Config, x: Step, y: Step, z: Step)
    ensures RunSystem(sys, lib, cfg, [x, y, z])
         == Next(Next(Next(sys, lib, cfg, x), lib, cfg, y), lib, cfg, z)
  {
    RunTwo(sys, lib, cfg, x, y);
    RunConcat(sys, lib, cfg, [x, y], [z]);
    RunOne(Next(Next(sys, lib, cfg, x), lib, cfg, y), lib, cfg, z);
    assert [x, y] + [z] == [x, y, z];
  }

  /** A data plane that has just loaded the store a run of calls has built, and has not yet
      subscribed to changes. */
  function Start(lib: R.Library, calls: seq<Call>): System
  {
    var s := Run(INITIAL, lib, calls);
    System(s, false, [], 0, map[], [FREE, FREE], None, PlaneOf(s.store))
  }

  predicate ProperSteps(steps: seq<Step>)
  {
    forall i | 0 <= i < |steps| :: steps[i].Command? ==> steps[i].call.env.generated != ""
  }

  /** Everything that reached the channel has been delivered, flushed and dispatched, and no
      resync is under way. */
  ghost predicate Quiet(sys: System)
  {
    && sys.channel == [] && sys.pending == map[]
    && forall i | 0 <= i < |sys.workers| :: sys.workers[i].queue == []
  }

  ghost predicate Converged(sys: System)
  {
    sys.plane == PlaneOf(sys.state.store)
  }
}
