/** How a data plane ends up with an old view and nothing to correct it: a reload that reads
    before another and writes after it, which coalescing and resyncs make possible, and an
    event that is dropped.
 */
module Overlap {
  import opened Options
  import opened Resources
  import opened ResourceGraph
  import opened DataPlane
  import opened Consumers
  import opened Convergence
  import R = Routing

  /** A call that publishes one event about balancers, on a store whose balancers build. */
  ghost predicate Publishes(s: State, lib: R.Library, call: Call)
  {
    var s' := Exec(s, lib, call.command, call.env).0;
    |s'.events| == |s.events| + 1 && KeyFor(s'.events[|s.events|].kind) == BalancerKey && AllBuild(s'.store)
  }

  /** Everything is dealt with, and the consumer loop waits for the next event. */
  ghost predicate Resting(sys: System)
  {
    && sys.subscribed && sys.channel == [] && sys.pending == map[] && sys.flushing == None
    && |sys.workers| >= 2 && sys.workers[0] == FREE
  }

  function After(sys: System, lib: R.Library, call: Call): State
  {
    Exec(sys.state, lib, call.command, call.env).0
  }

  /** The event of a change is in the channel. */
  lemma ChangeArrives(sys: System, lib: R.Library, cfg: Config, call: Call)
    requires Resting(sys) && Publishes(sys.state, lib, call)
    ensures var s := After(sys, lib, call);
      Commanded(sys, lib, cfg, call, true) == sys.(state := s, channel := [s.events[|sys.state.events|]])
  {
    assert LoopWaits(sys);
  }

  // ---------- Two timers ----------

  const RELOAD := Worker([Reload(BalancerKey)], Idle)

  /** An event reaches a timer goroutine, whatever the buffer limit is. */
  const HAND_OVER := [Deliver, Timer(BalancerKey), FlushNow]

  lemma HandOver(sys: System, lib: R.Library, cfg: Config)
    requires cfg.window > 0 && LoopWaits(sys) && sys.pending == map[]
    requires |sys.channel| == 1 && KeyFor(sys.channel[0].kind) == BalancerKey
    ensures RunSystem(sys, lib, cfg, HAND_OVER) == sys.(channel := [], workers := sys.workers + [RELOAD])
  {
    var a := Next(sys, lib, cfg, Deliver);
    assert a.pending.Keys == {BalancerKey} && a.channel == [];
    var b := Next(a, lib, cfg, Timer(BalancerKey));
    assert b.pending == map[];
    assert FlushedJobs(a.pending, BalancerKey) == [Reload(BalancerKey)];
    assert b.workers == sys.workers + [RELOAD];
    var c := Next(b, lib, cfg, FlushNow);
    assert c.workers == b.workers;
    assert c == sys.(channel := [], workers := sys.workers + [RELOAD]);
    RunThree(sys, lib, cfg, Deliver, Timer(BalancerKey), FlushNow);
  }

  lemma ChangeHandedOver(sys: System, lib: R.Library, cfg: Config, call: Call)
    requires cfg.window > 0 && Resting(sys) && Publishes(sys.state, lib, call)
    ensures RunSystem(sys, lib, cfg, [Command(call, true)] + HAND_OVER)
         == sys.(state := After(sys, lib, call), workers := sys.workers + [RELOAD])
  {
    RunConcat(sys, lib, cfg, [Command(call, true)], HAND_OVER);
    RunOne(sys, lib, cfg, Command(call, true));
    ChangeArrives(sys, lib, cfg, call);
    HandOver(Commanded(sys, lib, cfg, call, true), lib, cfg);
  }

  lemma FirstReads(sys: System, lib: R.Library, cfg: Config, call: Call)
    requires cfg.window > 0 && Resting(sys) && |sys.workers| == 2 && Publishes(sys.state, lib, call)
    ensures RunSystem(sys, lib, cfg, [Command(call, true)] + HAND_OVER + [Work(2)])
         == sys.(state := After(sys, lib, call),
                 workers := sys.workers + [RELOAD.(stage := HasRegistry(RegistryOf(After(sys, lib, call).store)))])
  {
    ChangeHandedOver(sys, lib, cfg, call);
    RunConcat(sys, lib, cfg, [Command(call, true)] + HAND_OVER, [Work(2)]);
    var mid := sys.(state := After(sys, lib, call), workers := sys.workers + [RELOAD]);
    RunOne(mid, lib, cfg, Work(2));
    assert WorkOn(mid, 2).workers == sys.workers + [RELOAD.(stage := HasRegistry(RegistryOf(mid.state.store)))];
  }

  /** Two reloads, of which the one that read first writes last. */
  const OVERTAKE := [Work(3), Work(3), Work(2)]

  lemma LastWrites(sys: System, lib: R.Library, cfg: Config, stale: map<string, Instance>)
    requires |sys.workers| == 4 && AllBuild(sys.state.store)
    requires sys.workers[2] == RELOAD.(stage := HasRegistry(stale)) && sys.workers[3] == RELOAD
    ensures RunSystem(sys, lib, cfg, OVERTAKE)
         == sys.(workers := sys.workers[2 := FREE][3 := FREE], plane := sys.plane.(registry := stale))
  {
    var a := WorkOn(sys, 3);
    var b := WorkOn(a, 3);
    var c := WorkOn(b, 2);
    assert a.workers[3] == RELOAD.(stage := HasRegistry(RegistryOf(sys.state.store)));
    assert RELOAD.queue[1..] == [] && b.workers[3] == FREE;
    assert c.workers == sys.workers[2 := FREE][3 := FREE];
    RunThree(sys, lib, cfg, Work(3), Work(3), Work(2));
  }

  function FirstChange(first: Call): seq<Step> { [Command(first, true)] + HAND_OVER + [Work(2)] }
  function SecondChange(second: Call): seq<Step> { [Command(second, true)] + HAND_OVER + OVERTAKE }
  function Overtaken(first: Call, second: Call): seq<Step> { FirstChange(first) + SecondChange(second) }

  lemma SecondOvertakes(sys: System, lib: R.Library, cfg: Config, second: Call, stale: map<string, Instance>)
    requires cfg.window > 0 && Resting(sys) && Publishes(sys.state, lib, second)
    requires sys.workers == [FREE, FREE, RELOAD.(stage := HasRegistry(stale))]
    ensures RunSystem(sys, lib, cfg, SecondChange(second))
         == sys.(state := After(sys, lib, second), workers := [FREE, FREE, FREE, FREE],
                 plane := sys.plane.(registry := stale))
  {
    ChangeHandedOver(sys, lib, cfg, second);
    RunConcat(sys, lib, cfg, [Command(second, true)] + HAND_OVER, OVERTAKE);
    LastWrites(sys.(state := After(sys, lib, second), workers := sys.workers + [RELOAD]), lib, cfg, stale);
    assert (sys.workers + [RELOAD])[2 := FREE][3 := FREE] == [FREE, FREE, FREE, FREE];
  }

  /** Two changes whose reloads overlap on timer goroutines: the data plane ends up with the
      balancers of the first, nothing was dropped, and nothing is left to correct it. */
  lemma OverlapDiverges(sys: System, lib: R.Library, cfg: Config, first: Call, second: Call)
    requires cfg.window > 0 && Resting(sys) && sys.workers == [FREE, FREE]
    requires Publishes(sys.state, lib, first) && Publishes(After(sys, lib, first), lib, second)
    ensures var end := RunSystem(sys, lib, cfg, Overtaken(first, second));
      && Quiet(end) && end.dropped == sys.dropped
      && end.state == Exec(After(sys, lib, first), lib, second.command, second.env).0
      && end.plane.registry == RegistryOf(After(sys, lib, first).store)
  {
    var stale := RegistryOf(After(sys, lib, first).store);
    var mid := sys.(state := After(sys, lib, first), workers := sys.workers + [RELOAD.(stage := HasRegistry(stale))]);
    FirstReads(sys, lib, cfg, first);
    SecondOvertakes(mid, lib, cfg, second, stale);
    RunConcat(sys, lib, cfg, FirstChange(first), SecondChange(second));
  }

  // ---------- A resync and the consumer loop ----------

  /** A resync that has reloaded the cache and read the balancers. */
  const RESYNC_READS := [Resync, Work(1), Work(1), Work(1)]

  lemma ResyncReads(sys: System, lib: R.Library, cfg: Config)
    requires cfg.resync && sys.workers == [FREE, FREE] && AllBuild(sys.state.store)
    ensures RunSystem(sys, lib, cfg, RESYNC_READS)
         == sys.(workers := [FREE, Worker([Reload(BalancerKey), Reconcile], HasRegistry(RegistryOf(sys.state.store)))],
                 plane := sys.plane.(cache := TopologyOf(sys.state.store)))
  {
    var start := Next(sys, lib, cfg, Resync);
    assert RESYNC_READS == [Resync] + ([Work(1), Work(1)] + [Work(1)]);
    RunConcat(sys, lib, cfg, [Resync], [Work(1), Work(1)] + [Work(1)]);
    RunOne(sys, lib, cfg, Resync);
    RunConcat(start, lib, cfg, [Work(1), Work(1)], [Work(1)]);
    WorkTwice(start, lib, cfg);
    var cached := ReloadedCache(start);
    assert RESYNC[1..] == [Reload(BalancerKey), Reconcile];
    RunOne(cached, lib, cfg, Work(1));
    assert WorkOn(cached, 1).workers
        == [FREE, Worker([Reload(BalancerKey), Reconcile], HasRegistry(RegistryOf(sys.state.store)))];
  }

  /** The consumer loop dispatches the one event in the channel. */
  const DISPATCH := [Deliver, Work(0), Work(0)]

  lemma LoopReloads(sys: System, lib: R.Library, cfg: Config)
    requires cfg.window <= 0 && LoopWaits(sys) && AllBuild(sys.state.store)
    requires sys.channel != [] && KeyFor(sys.channel[0].kind) == BalancerKey
    ensures RunSystem(sys, lib, cfg, DISPATCH)
         == sys.(channel := sys.channel[1..], plane := sys.plane.(registry := RegistryOf(sys.state.store)))
  {
    var a := Next(sys, lib, cfg, Deliver);
    var b := WorkOn(a, 0);
    var c := WorkOn(b, 0);
    assert b.workers[0] == RELOAD.(stage := HasRegistry(RegistryOf(sys.state.store)));
    assert RELOAD.queue[1..] == [];
    assert c.workers == sys.workers;
    RunThree(sys, lib, cfg, Deliver, Work(0), Work(0));
  }

  const RESYNC_WRITES := [Work(1), Work(1), Work(1)]

  lemma ResyncWrites(sys: System, lib: R.Library, cfg: Config, stale: map<string, Instance>)
    requires sys.workers == [FREE, Worker([Reload(BalancerKey), Reconcile], HasRegistry(stale))]
    ensures var end := RunSystem(sys, lib, cfg, RESYNC_WRITES);
      end == sys.(workers := [FREE, FREE], plane := end.plane) && end.plane.registry == stale
  {
    var a := WorkOn(sys, 1);
    var b := WorkOn(a, 1);
    var c := WorkOn(b, 1);
    assert [Reload(BalancerKey), Reconcile][1..] == [Reconcile] && [Reconcile][1..] == [];
    assert a.workers == [FREE, Worker([Reconcile], Idle)];
    assert b.workers == [FREE, Worker([Reconcile], ReadFor(a, Reconcile))];
    assert c.workers == [FREE, FREE];
    RunThree(sys, lib, cfg, Work(1), Work(1), Work(1));
  }

  function ResyncOvertaken(change: Call): seq<Step>
  {
    RESYNC_READS + ([Command(change, true)] + DISPATCH + RESYNC_WRITES)
  }

  /** A change between the read and the write of a resync: the consumer loop reloads the
      balancers, and then the resync puts the old ones back. */
  lemma ResyncDiverges(sys: System, lib: R.Library, cfg: Config, change: Call)
    requires cfg.window <= 0 && cfg.resync && Resting(sys) && sys.workers == [FREE, FREE]
    requires AllBuild(sys.state.store) && Publishes(sys.state, lib, change)
    ensures var end := RunSystem(sys, lib, cfg, ResyncOvertaken(change));
      && Quiet(end) && end.dropped == sys.dropped && end.state == After(sys, lib, change)
      && end.plane.registry == RegistryOf(sys.state.store)
  {
    RunConcat(sys, lib, cfg, RESYNC_READS, [Command(change, true)] + DISPATCH + RESYNC_WRITES);
    ResyncReads(sys, lib, cfg);
    var read := RunSystem(sys, lib, cfg, RESYNC_READS);
    RunConcat(read, lib, cfg, [Command(change, true)] + DISPATCH, RESYNC_WRITES);
    RunConcat(read, lib, cfg, [Command(change, true)], DISPATCH);
    RunOne(read, lib, cfg, Command(change, true));
    ChangeArrives(read, lib, cfg, change);
    var changed := Commanded(read, lib, cfg, change, true);
    LoopReloads(changed, lib, cfg);
    ResyncWrites(RunSystem(changed, lib, cfg, DISPATCH), lib, cfg, RegistryOf(sys.state.store));
  }

  // ---------- Concrete calls ----------

  const ANY := Env("generated", 0)
  const POOL := Call(Apply(Metadata("p", map[]), PoolBody(PoolSpec("", DYNAMIC, [], Some(map["k" := "v"])))), ANY)
  const ADD := Call(Apply(Metadata("b", map[]), BalancerBody(BalancerSpec("", ROUND_ROBIN, "p", Unset))), ANY)
  const REMOVE := Call(Delete(BalancerKind, "b"), ANY)

  lemma PoolCreated(lib: R.Library)
    ensures var s := Run(INITIAL, lib, [POOL]);
      && s.store.pools.Keys == {"p"} && s.store.pools["p"].ptype == DYNAMIC && s.store.pools["p"].selector.Some?
      && s.store == EMPTY_STORE.(pools := s.store.pools)
  {
    var spec := POOL.command.body.pool;
    assert "k" in spec.selector.value;
    assert ValidPoolSpec(spec);
    var p := PoolFromSpec(POOL.command.meta, spec);
    assert ValidPool(p);
    ListedNone(BalancerKind, EMPTY_STORE.balancers, BalancersOn("p", WEIGHTED));
    assert MemberIds(p) == [];
    assert [POOL][..0] == [];
    assert CheckPool(EMPTY_STORE, POOL.command.meta, spec, ANY).Ok?;
  }

  lemma BalancerAdded(s: State, lib: R.Library)
    requires s.store == EMPTY_STORE.(pools := s.store.pools) && s.store.pools.Keys == {"p"}
    requires s.store.pools["p"].ptype == DYNAMIC && s.store.pools["p"].selector.Some?
    ensures Publishes(s, lib, ADD)
    ensures var st := Exec(s, lib, ADD.command, ADD.env).0.store;
      && st == s.store.(balancers := st.balancers) && st.balancers.Keys == {"b"} && "b" in RegistryOf(st)
  {
    assert CheckBalancer(s.store, ADD.command.meta, ADD.command.body.balancer, ANY).Ok?;
    var st := Exec(s, lib, ADD.command, ADD.env).0.store;
    assert BuildFor(st, st.balancers["b"]).Some?;
  }

  lemma BalancerRemoved(s: State, lib: R.Library)
    requires s.store == EMPTY_STORE.(pools := s.store.pools, balancers := s.store.balancers)
    requires s.store.balancers.Keys == {"b"}
    ensures Publishes(s, lib, REMOVE)
    ensures Exec(s, lib, REMOVE.command, REMOVE.env).0.store.balancers == map[]
  {
    ListedNone(FlowKind, s.store.flows, FlowsThrough("", "b"));
    ListedNone(RouterKind, s.store.routers, RoutersTargeting("b"));
    assert Dependents(s.store, BalancerKind, "b") == [];
    assert "b" in s.store.Ids(BalancerKind);
  }

  /** The subscribed data plane of the concrete runs. */
  function Subscribed(lib: R.Library): System { Start(lib, [POOL]).(subscribed := true) }

  lemma SubscribeFirst(lib: R.Library, cfg: Config, steps: seq<Step>)
    ensures RunSystem(Start(lib, [POOL]), lib, cfg, [Subscribe] + steps) == RunSystem(Subscribed(lib), lib, cfg, steps)
  {
    RunConcat(Start(lib, [POOL]), lib, cfg, [Subscribe], steps);
    RunOne(Start(lib, [POOL]), lib, cfg, Subscribe);
  }

  /** Coalescing: a removed balancer comes back. */
  lemma StaleBalancerRemains(lib: R.Library, cfg: Config)
    requires cfg.window > 0
    ensures var end := RunSystem(Start(lib, [POOL]), lib, cfg, [Subscribe] + Overtaken(ADD, REMOVE));
      Quiet(end) && end.dropped == 0 && !Converged(end)
  {
    var start := Subscribed(lib);
    SubscribeFirst(lib, cfg, Overtaken(ADD, REMOVE));
    PoolCreated(lib);
    BalancerAdded(start.state, lib);
    BalancerRemoved(After(start, lib, ADD), lib);
    OverlapDiverges(start, lib, cfg, ADD, REMOVE);
  }

  /** Resync: an added balancer is lost, although coalescing is off. */
  lemma AddedBalancerLost(lib: R.Library, cfg: Config)
    requires cfg.window <= 0 && cfg.resync
    ensures var end := RunSystem(Start(lib, [POOL]), lib, cfg, [Subscribe] + ResyncOvertaken(ADD));
      Quiet(end) && end.dropped == 0 && !Converged(end)
  {
    var start := Subscribed(lib);
    SubscribeFirst(lib, cfg, ResyncOvertaken(ADD));
    PoolCreated(lib);
    assert start.state.store.balancers == map[];
    BalancerAdded(start.state, lib);
    ResyncDiverges(start, lib, cfg, ADD);
    assert "b" !in RegistryOf(start.state.store);
  }

  ghost predicate AlwaysConverges(lib: R.Library, cfg: Config)
  {
    forall calls, steps | ProperRun(calls) && ProperSteps(steps) ::
      var end := RunSystem(Start(lib, calls), lib, cfg, steps);
      Quiet(end) && end.dropped == 0 ==> Converged(end)
  }

  lemma LoopAloneConverges(lib: R.Library, cfg: Config)
    requires cfg.window <= 0 && !cfg.resync
    ensures AlwaysConverges(lib, cfg)
  {
    forall calls, steps | ProperRun(calls) && ProperSteps(steps)
      ensures var end := RunSystem(Start(lib, calls), lib, cfg, steps);
        Quiet(end) && end.dropped == 0 ==> Converged(end)
    {
      var end := RunSystem(Start(lib, calls), lib, cfg, steps);
      if Quiet(end) && end.dropped == 0 {
        AloneIsSerial(lib, cfg, calls, steps);
        SerialRunsConverge(lib, cfg, calls, steps);
      }
    }
  }

  lemma Counterexample(lib: R.Library, cfg: Config, steps: seq<Step>)
    requires ProperSteps(steps)
    requires var end := RunSystem(Start(lib, [POOL]), lib, cfg, steps);
      Quiet(end) && end.dropped == 0 && !Converged(end)
    ensures !AlwaysConverges(lib, cfg)
  {
    assert ProperRun([POOL]);
  }

  /** Every run that drops no event and has nothing left to do has converged if and only if
      neither timers nor resyncs reload beside the consumer loop. */
  lemma ConvergesIffLoopAlone(lib: R.Library, cfg: Config)
    ensures AlwaysConverges(lib, cfg) <==> cfg.window <= 0 && !cfg.resync
  {
    if cfg.window > 0 {
      StaleBalancerRemains(lib, cfg);
      Counterexample(lib, cfg, [Subscribe] + Overtaken(ADD, REMOVE));
    } else if cfg.resync {
      AddedBalancerLost(lib, cfg);
      Counterexample(lib, cfg, [Subscribe] + ResyncOvertaken(ADD));
    } else {
      LoopAloneConverges(lib, cfg);
    }
  }

  lemma AloneIsSerial(lib: R.Library, cfg: Config, calls: seq<Call>, steps: seq<Step>)
    requires cfg.window <= 0 && !cfg.resync
    ensures SerialRun(Start(lib, calls), lib, cfg, steps)
  {
    forall k | 0 <= k <= |steps|
      ensures NoOverlap(RunSystem(Start(lib, calls), lib, cfg, steps[..k]).workers)
    {
      AloneAt(Start(lib, calls), lib, cfg, steps[..k]);
    }
  }

  lemma AloneAt(start: System, lib: R.Library, cfg: Config, steps: seq<Step>)
    requires cfg.window <= 0 && !cfg.resync && start.workers == [FREE, FREE] && start.pending == map[]
    ensures NoOverlap(RunSystem(start, lib, cfg, steps).workers)
  {
    LoopIsAlone(start, lib, cfg, steps);
    OneReloads(RunSystem(start, lib, cfg, steps).workers);
  }

  lemma OneReloads(workers: seq<Worker>)
    requires |workers| == 2 && workers[1] == FREE
    ensures NoOverlap(workers)
  {
  }

  // ---------- Dropped events ----------

  /** A change between loading the store and subscribing is missed, whatever the
      configuration. */
  lemma MissedBeforeSubscription(lib: R.Library, cfg: Config, parked: bool)
    ensures var end := RunSystem(Start(lib, [POOL]), lib, cfg, [Command(ADD, parked), Subscribe]);
      Quiet(end) && end.subscribed && end.dropped == 1 && !Converged(end)
  {
    var start := Start(lib, [POOL]);
    PoolCreated(lib);
    BalancerAdded(start.state, lib);
    RunTwo(start, lib, cfg, Command(ADD, parked), Subscribe);
    assert "b" !in RegistryOf(start.state.store);
  }

  const FILL := Call(Apply(Metadata("x", map[]), ProxyBody(ProxySpec("", None, "http", "h", 1, None))), ANY)
  const FLOW := Call(Apply(Metadata("f", map[]), FlowBody(FlowSpec("", "b"))), ANY)

  /** Applying a proxy is always accepted. */
  lemma Fills(s: State, lib: R.Library)
    ensures var s' := Exec(s, lib, FILL.command, FILL.env).0;
      && s'.store == s.store.(proxies := s'.store.proxies)
      && s'.events == s.events + [Event(ProxyKind, "x", Saved)]
  {
    assert CheckProxy(s.store, FILL.command.meta, FILL.command.body.proxy, ANY).Ok?;
  }

  function FillSteps(n: nat): seq<Step> { seq(n, _ => Command(FILL, false)) }

  /** The channel holds proxy events only, and all else is as in `sys`, apart from proxies. */
  ghost predicate FilledFrom(sys: System, end: System)
  {
    && end == sys.(state := end.state, channel := end.channel)
    && end.state.store == sys.state.store.(proxies := end.state.store.proxies)
    && forall e | e in end.channel :: e.kind == ProxyKind
  }

  lemma OneFilled(sys: System, before: System, lib: R.Library, cfg: Config, n: nat)
    requires sys.subscribed && n > 0 && before == RunSystem(sys, lib, cfg, FillSteps(n - 1))
    ensures RunSystem(sys, lib, cfg, FillSteps(n)) == Commanded(before, lib, cfg, FILL, false)
  {
    assert FillSteps(n) == FillSteps(n - 1) + [Command(FILL, false)];
    RunConcat(sys, lib, cfg, FillSteps(n - 1), [Command(FILL, false)]);
    RunOne(before, lib, cfg, Command(FILL, false));
  }

  lemma FilledMore(sys: System, before: System, lib: R.Library, cfg: Config)
    requires FilledFrom(sys, before) && sys.subscribed && |before.channel| < cfg.capacity
    ensures var end := Commanded(before, lib, cfg, FILL, false);
      FilledFrom(sys, end) && |end.channel| == |before.channel| + 1
  {
    Fills(before.state, lib);
  }

  lemma {:induction false} ChannelFills(sys: System, lib: R.Library, cfg: Config, n: nat)
    requires sys.subscribed && sys.channel == [] && n <= cfg.capacity
    ensures var end := RunSystem(sys, lib, cfg, FillSteps(n));
      FilledFrom(sys, end) && |end.channel| == n
  {
    if n == 0 {
      assert FillSteps(0) == [];
      assert RunSystem(sys, lib, cfg, []) == sys;
    } else {
      ChannelFills(sys, lib, cfg, n - 1);
      var before := RunSystem(sys, lib, cfg, FillSteps(n - 1));
      OneFilled(sys, before, lib, cfg, n);
      FilledMore(sys, before, lib, cfg);
    }
  }

  function DrainSteps(n: nat): seq<Step>
  {
    if n == 0 then [] else DISPATCH + DrainSteps(n - 1)
  }

  ghost predicate Drained(sys: System, end: System)
  {
    end == sys.(channel := [], plane := end.plane) && end.plane.cache == sys.plane.cache
  }

  ghost predicate Draining(sys: System, n: nat)
  {
    && LoopWaits(sys) && AllBuild(sys.state.store) && |sys.channel| == n
    && forall e | e in sys.channel :: e.kind == ProxyKind
  }

  lemma OneDrained(sys: System, lib: R.Library, cfg: Config, n: nat) returns (next: System)
    requires cfg.window <= 0 && n > 0 && Draining(sys, n)
    ensures Draining(next, n - 1) && next == sys.(channel := sys.channel[1..], plane := next.plane)
    ensures next.plane.cache == sys.plane.cache
    ensures RunSystem(sys, lib, cfg, DrainSteps(n)) == RunSystem(next, lib, cfg, DrainSteps(n - 1))
  {
    assert sys.channel[0] in sys.channel;
    LoopReloads(sys, lib, cfg);
    RunConcat(sys, lib, cfg, DISPATCH, DrainSteps(n - 1));
    next := sys.(channel := sys.channel[1..], plane := sys.plane.(registry := RegistryOf(sys.state.store)));
  }

  lemma {:induction false} ChannelDrains(sys: System, lib: R.Library, cfg: Config, n: nat)
    requires cfg.window <= 0 && Draining(sys, n)
    ensures Drained(sys, RunSystem(sys, lib, cfg, DrainSteps(n)))
    decreases n
  {
    if n > 0 {
      var next := OneDrained(sys, lib, cfg, n);
      ChannelDrains(next, lib, cfg, n - 1);
    } else {
      assert RunSystem(sys, lib, cfg, []) == sys;
    }
  }

  lemma FlowAdded(s: State, lib: R.Library)
    requires "b" in s.store.balancers
    ensures var s' := Exec(s, lib, FLOW.command, FLOW.env).0;
      && |s'.events| == |s.events| + 1 && "f" in s'.store.flows
      && s'.store == s.store.(flows := s'.store.flows)
  {
    assert CheckFlow(s.store, FLOW.command.meta, FLOW.command.body.flow, ANY).Ok?;
  }

  function LosingSteps(capacity: nat): seq<Step>
  {
    [Subscribe] + (ToFlow(capacity) + DrainSteps(capacity))
  }

  /** A loaded data plane that does not know of a flow. */
  ghost predicate AwaitsFlow(lib: R.Library, sys: System)
  {
    && sys.workers == [FREE, FREE] && sys.flushing == None && sys.channel == [] && sys.pending == map[]
    && Proper(lib, sys.state) && "b" in sys.state.store.balancers && "f" !in sys.plane.cache.flows
  }

  function ToFlow(capacity: nat): seq<Step> { FillSteps(capacity) + [Command(FLOW, false)] }

  lemma StaysBuilt(sys: System, lib: R.Library, cfg: Config, n: nat)
    requires Proper(lib, sys.state)
    ensures AllBuild(RunSystem(sys, lib, cfg, ToFlow(n)).state.store)
  {
    StoreStaysProper(sys, lib, cfg, ToFlow(n));
    ProperBuilds(lib, RunSystem(sys, lib, cfg, ToFlow(n)).state);
  }

  lemma DroppedWhenFull(sys: System, full: System, lib: R.Library, cfg: Config)
    requires AwaitsFlow(lib, sys) && sys.subscribed && FilledFrom(sys, full) && |full.channel| == cfg.capacity
    ensures var lost := Commanded(full, lib, cfg, FLOW, false);
      && lost == sys.(state := lost.state, channel := full.channel, dropped := sys.dropped + 1)
      && "f" in lost.state.store.flows
  {
    FlowAdded(full.state, lib);
  }

  /** With the channel full, the event of the flow is dropped. */
  lemma FlowDropped(sys: System, lib: R.Library, cfg: Config)
    requires AwaitsFlow(lib, sys) && sys.subscribed
    ensures var lost := RunSystem(sys, lib, cfg, ToFlow(cfg.capacity));
      && lost == sys.(state := lost.state, channel := lost.channel, dropped := sys.dropped + 1)
      && Draining(lost, cfg.capacity) && "f" in lost.state.store.flows
  {
    ChannelFills(sys, lib, cfg, cfg.capacity);
    var full := RunSystem(sys, lib, cfg, FillSteps(cfg.capacity));
    RunConcat(sys, lib, cfg, FillSteps(cfg.capacity), [Command(FLOW, false)]);
    RunOne(full, lib, cfg, Command(FLOW, false));
    DroppedWhenFull(sys, full, lib, cfg);
    StaysBuilt(sys, lib, cfg, cfg.capacity);
  }

  lemma FlowLost(sys: System, lib: R.Library, cfg: Config)
    requires cfg.window <= 0 && AwaitsFlow(lib, sys)
    ensures var end := RunSystem(sys, lib, cfg, LosingSteps(cfg.capacity));
      && Quiet(end) && end.dropped == sys.dropped + 1
      && "f" in end.state.store.flows && "f" !in end.plane.cache.flows
  {
    RunConcat(sys, lib, cfg, [Subscribe], ToFlow(cfg.capacity) + DrainSteps(cfg.capacity));
    RunOne(sys, lib, cfg, Subscribe);
    HeardAndLost(sys.(subscribed := true), lib, cfg);
  }

  lemma HeardAndLost(sys: System, lib: R.Library, cfg: Config)
    requires cfg.window <= 0 && AwaitsFlow(lib, sys) && sys.subscribed
    ensures var end := RunSystem(sys, lib, cfg, ToFlow(cfg.capacity) + DrainSteps(cfg.capacity));
      && Quiet(end) && end.dropped == sys.dropped + 1
      && "f" in end.state.store.flows && "f" !in end.plane.cache.flows
  {
    FlowDropped(sys, lib, cfg);
    var lost := RunSystem(sys, lib, cfg, ToFlow(cfg.capacity));
    RunConcat(sys, lib, cfg, ToFlow(cfg.capacity), DrainSteps(cfg.capacity));
    ChannelDrains(lost, lib, cfg, cfg.capacity);
  }

  /** A change behind a full channel is lost, for every channel size and even though coalescing
      is off: in the end nothing is pending and the data plane does not know the flow. */
  lemma FullChannelLoses(lib: R.Library, cfg: Config)
    requires cfg.window <= 0
    ensures var end := RunSystem(Start(lib, [POOL, ADD]), lib, cfg, LosingSteps(cfg.capacity));
      Quiet(end) && end.dropped == 1 && !Converged(end)
  {
    var start := Start(lib, [POOL, ADD]);
    assert [POOL, ADD][..1] == [POOL];
    PoolCreated(lib);
    BalancerAdded(Run(INITIAL, lib, [POOL]), lib);
    assert ProperRun([POOL, ADD]);
    StartProper(lib, [POOL, ADD]);
    FlowLost(start, lib, cfg);
  }
}
