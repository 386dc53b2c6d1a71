/** When everything published has been dealt with, does the data plane hold what the store
    holds?  It does, unless an event was dropped or two reloads of the same part overlap.
 */
module Convergence {
  import opened Options
  import opened Resources
  import opened ResourceGraph
  import opened ApplyOrder
  import opened DataPlane
  import opened Consumers
  import R = Routing

  // ---------- What is still owed ----------

  ghost predicate Undelivered(sys: System, key: Key)
  {
    exists e :: e in sys.channel && KeyFor(e.kind) == key
  }

  /** The jobs a worker has not started to read for. */
  function Unread(w: Worker): seq<Job>
  {
    if w.stage == Idle || w.queue == [] then w.queue else w.queue[1..]
  }

  /** The worker will read the store for this key; a resync that has not begun will read the
      entrypoints too, and reconcile the listeners afterwards. */
  predicate Owes(w: Worker, key: Key)
  {
    Reload(key) in Unread(w) || (key == EntrypointKey && w == Worker(RESYNC, Idle))
  }

  ghost predicate OwedBy(workers: seq<Worker>, key: Key)
  {
    exists i :: 0 <= i < |workers| && Owes(workers[i], key)
  }

  /** A reload for this key will still read the store. */
  ghost predicate Owed(sys: System, key: Key)
  {
    Undelivered(sys, key) || key in sys.pending || OwedBy(sys.workers, key)
  }

  /** The worker has read the entrypoints for a cache that it has written or is about to
      write, and will bring the listeners in line with it. */
  predicate Reloading(w: Worker)
  {
    && w.queue != []
    && (|| ((w.stage.HasCache? || w.stage.CacheDone?) && w.queue[0] == Reload(EntrypointKey))
        || (w.stage.HasCache? && w.queue == RESYNC)
        || w.queue == RESYNC[1..]
        || (w.queue == RESYNC[2..] && w.stage == Idle))
  }

  /** The listeners will still be brought in line with a cache that is not yet written or
      was just written. */
  ghost predicate ListenersOwed(sys: System)
  {
    Owed(sys, EntrypointKey) || exists i :: 0 <= i < |sys.workers| && Reloading(sys.workers[i])
  }

  predicate SameTopology(c: Cache, st: Store)
  {
    c.flows == st.flows && c.routers == st.routers
  }

  /** What a worker holds belongs to the job it is at. */
  predicate StageShaped(w: Worker)
  {
    match w.stage
    case Idle => true
    case HasRegistry(_) => w.queue != [] && w.queue[0] == Reload(BalancerKey)
    case HasCache(_) => w.queue != [] && w.queue[0] != Reload(BalancerKey) && w.queue[0] != Reconcile
    case CacheDone => w.queue != [] && w.queue[0] == Reload(EntrypointKey)
    case HasListeners(_) => w.queue != [] && (w.queue[0] == Reload(EntrypointKey) || w.queue[0] == Reconcile)
  }

  /** What a worker has read is what the store holds, or will be read again. */
  ghost predicate StageOk(sys: System, w: Worker)
  {
    && StageShaped(w)
    && match w.stage
       case Idle => true
       case HasRegistry(r) => r == RegistryOf(sys.state.store) || Owed(sys, BalancerKey)
       case HasCache(c) =>
         && (SameTopology(c, sys.state.store) || Owed(sys, TopologyKey))
         && (c.entrypoints == sys.state.store.entrypoints || Owed(sys, EntrypointKey))
       case CacheDone => true
       case HasListeners(l) => l == ListenersFor(sys.state.store.entrypoints) || ListenersOwed(sys)
  }

  ghost predicate StagesOk(sys: System)
  {
    forall i | 0 <= i < |sys.workers| :: StageOk(sys, sys.workers[i])
  }

  ghost predicate RegistryOk(sys: System)
  {
    || sys.plane.registry == RegistryOf(sys.state.store) || Owed(sys, BalancerKey)
    || exists i :: 0 <= i < |sys.workers| && sys.workers[i].stage.HasRegistry?
  }

  ghost predicate TopologyOk(sys: System)
  {
    || SameTopology(sys.plane.cache, sys.state.store) || Owed(sys, TopologyKey)
    || exists i :: 0 <= i < |sys.workers| && sys.workers[i].stage.HasCache?
  }

  ghost predicate EntrypointsOk(sys: System)
  {
    || sys.plane.cache.entrypoints == sys.state.store.entrypoints || Owed(sys, EntrypointKey)
    || exists i :: 0 <= i < |sys.workers| && sys.workers[i].stage.HasCache? && Reloading(sys.workers[i])
  }

  ghost predicate ListenersOk(sys: System)
  {
    || sys.plane.listeners == ListenersFor(sys.state.store.entrypoints) || ListenersOwed(sys)
    || exists i :: 0 <= i < |sys.workers| && sys.workers[i].stage.HasListeners?
  }

  ghost predicate PendingOk(pending: map<Key, Pending>)
  {
    forall key | key in pending ::
      if key == EntrypointKey then pending[key].entrypoints != map[] else pending[key].dirty
  }

  ghost predicate ViewsOk(sys: System)
  {
    RegistryOk(sys) && TopologyOk(sys) && EntrypointsOk(sys) && ListenersOk(sys)
  }

  ghost predicate Inv(sys: System)
  {
    && AllBuild(sys.state.store) && PendingOk(sys.pending)
    && StagesOk(sys) && ViewsOk(sys)
  }

  /** No two goroutines hold a reading of the same part of the data plane. */
  ghost predicate NoOverlap(workers: seq<Worker>)
  {
    forall i, j | 0 <= i < j < |workers| ::
      && !(workers[i].stage.HasRegistry? && workers[j].stage.HasRegistry?)
      && !(workers[i].stage.HasCache? && workers[j].stage.HasCache?)
      && !(workers[i].stage.HasListeners? && workers[j].stage.HasListeners?)
  }

  /** When nothing is left to do, nothing is owed, so everything is up to date. */
  lemma QuietConverges(sys: System)
    requires Inv(sys) && Quiet(sys)
    ensures Converged(sys)
  {
    forall i | 0 <= i < |sys.workers|
      ensures sys.workers[i].stage == Idle && Unread(sys.workers[i]) == []
    {
      assert StageOk(sys, sys.workers[i]);
    }
  }

  // ---------- Commands ----------

  /** A command publishes an event for the part of the store that it changes. */
  lemma CommandChanges(s: State, lib: R.Library, c: Command, env: Env)
    ensures var s' := Exec(s, lib, c, env).0;
      s' == s || (|s'.events| == |s.events| + 1 && s.events == s'.events[..|s.events|]
                  && OnlyChanged(s.store, s'.store, KeyFor(s'.events[|s.events|].kind)))
  {
    match c
    case Delete(kind, name) =>
    case Apply(meta, body) => ApplyChanges(s, lib, meta, body, env);
  }

  lemma ApplyChanges(s: State, lib: R.Library, meta: Metadata, body: Body, env: Env)
    ensures var s' := ExecApply(s, lib, meta, body, env).0;
      s' == s || (|s'.events| == |s.events| + 1 && s.events == s'.events[..|s.events|]
                  && OnlyChanged(s.store, s'.store, KeyFor(s'.events[|s.events|].kind)))
  {
  }

  /** The stores differ at most in what a reload for `key` reads. */
  predicate OnlyChanged(st: Store, st': Store, key: Key)
  {
    && (key != BalancerKey ==> (st'.proxies, st'.pools, st'.balancers) == (st.proxies, st.pools, st.balancers))
    && (key != TopologyKey ==> (st'.flows, st'.routers) == (st.flows, st.routers))
    && (key != EntrypointKey ==> st'.entrypoints == st.entrypoints)
  }

  lemma RegistryDepends(st: Store, st': Store)
    requires (st'.proxies, st'.pools, st'.balancers) == (st.proxies, st.pools, st.balancers)
    ensures RegistryOf(st') == RegistryOf(st)
  {
    forall id | id in st.balancers
      ensures BuildFor(st', st'.balancers[id]) == BuildFor(st, st.balancers[id])
    {
    }
  }

  /** Nothing owed is forgotten, and what the new store changes is owed. */
  ghost predicate Updated(sys: System, sys': System)
  {
    && sys'.plane == sys.plane && sys'.workers == sys.workers
    && (forall key: Key | Owed(sys, key) :: Owed(sys', key))
    && (RegistryOf(sys'.state.store) == RegistryOf(sys.state.store) || Owed(sys', BalancerKey))
    && ((forall c: Cache :: SameTopology(c, sys.state.store) ==> SameTopology(c, sys'.state.store))
        || Owed(sys', TopologyKey))
    && (sys'.state.store.entrypoints == sys.state.store.entrypoints || Owed(sys', EntrypointKey))
  }

  lemma CommandUpdates(sys: System, lib: R.Library, cfg: Config, call: Call, parked: bool)
    requires Commanded(sys, lib, cfg, call, parked).dropped == sys.dropped
    ensures Updated(sys, Commanded(sys, lib, cfg, call, parked))
  {
    var s, s' := sys.state, Exec(sys.state, lib, call.command, call.env).0;
    var sys' := Commanded(sys, lib, cfg, call, parked);
    CommandChanges(s, lib, call.command, call.env);
    if s' != s {
      var e := s'.events[|s.events|];
      var changed := KeyFor(e.kind);
      assert e in sys'.channel;
      assert Undelivered(sys', changed);
      if changed != BalancerKey {
        RegistryDepends(s.store, s'.store);
      }
      forall key: Key | Owed(sys, key)
        ensures Owed(sys', key)
      {
        if Undelivered(sys, key) {
          var x :| x in sys.channel && KeyFor(x.kind) == key;
          assert x in sys'.channel;
        }
      }
    }
  }

  lemma UpdateKeepsStage(sys: System, sys': System, w: Worker)
    requires Updated(sys, sys') && StageOk(sys, w)
    ensures StageOk(sys', w)
  {
  }

  lemma UpdateKeepsViews(sys: System, sys': System)
    requires Updated(sys, sys') && ViewsOk(sys)
    ensures ViewsOk(sys')
  {
  }

  lemma CommandKeeps(sys: System, lib: R.Library, cfg: Config, call: Call, parked: bool)
    requires Inv(sys) && AllBuild(Commanded(sys, lib, cfg, call, parked).state.store)
    requires Commanded(sys, lib, cfg, call, parked).dropped == sys.dropped
    ensures Inv(Commanded(sys, lib, cfg, call, parked))
  {
    var sys' := Commanded(sys, lib, cfg, call, parked);
    CommandUpdates(sys, lib, cfg, call, parked);
    forall i | 0 <= i < |sys'.workers|
      ensures StageOk(sys', sys'.workers[i])
    {
      assert StageOk(sys, sys.workers[i]);
      UpdateKeepsStage(sys, sys', sys'.workers[i]);
    }
    UpdateKeepsViews(sys, sys');
  }

  // ---------- Delivery, flushes and the start of a resync ----------

  /** Work changes hands: nothing is read or written, nothing owed is forgotten. */
  ghost predicate Rearranged(sys: System, sys': System)
  {
    && sys'.plane == sys.plane && sys'.state == sys.state && |sys.workers| <= |sys'.workers|
    && (forall i | 0 <= i < |sys.workers| ::
          sys'.workers[i] == sys.workers[i] || (sys.workers[i] == FREE && sys'.workers[i].stage == Idle))
    && (forall i | |sys.workers| <= i < |sys'.workers| :: sys'.workers[i].stage == Idle)
    && (forall key: Key | Owed(sys, key) :: Owed(sys', key))
  }

  lemma RearrangedKeepsListenersOwed(sys: System, sys': System)
    requires Rearranged(sys, sys') && ListenersOwed(sys)
    ensures ListenersOwed(sys')
  {
    if i :| 0 <= i < |sys.workers| && Reloading(sys.workers[i]) {
      assert sys'.workers[i] == sys.workers[i];
    }
  }

  lemma RearrangedKeepsStages(sys: System, sys': System)
    requires Rearranged(sys, sys') && StagesOk(sys)
    ensures StagesOk(sys')
  {
    forall i | 0 <= i < |sys'.workers|
      ensures StageOk(sys', sys'.workers[i])
    {
      if i < |sys.workers| && sys'.workers[i] == sys.workers[i] {
        assert StageOk(sys, sys.workers[i]);
        if ListenersOwed(sys) {
          RearrangedKeepsListenersOwed(sys, sys');
        }
      }
    }
  }

  lemma RearrangedKeepsViews(sys: System, sys': System)
    requires Rearranged(sys, sys') && ViewsOk(sys)
    ensures ViewsOk(sys')
  {
    if ListenersOwed(sys) {
      RearrangedKeepsListenersOwed(sys, sys');
    }
    assert forall i | 0 <= i < |sys.workers| && sys.workers[i].stage != Idle :: sys'.workers[i] == sys.workers[i];
  }

  /** A buffered key flushes at least one event of that key. */
  lemma FlushAsks(pending: map<Key, Pending>, key: Key)
    requires PendingOk(pending) && key in pending
    ensures Flushed(pending, key) != [] && Reload(key) in FlushedJobs(pending, key)
  {
    var events := Flushed(pending, key);
    assert KeyFor(events[0].kind) == key;
    assert FlushedJobs(pending, key)[0] == Reload(key);
  }

  /** Giving jobs to a worker that had nothing to do, or to a new one. */
  lemma HandedOver(sys: System, sys': System, i: nat, jobs: seq<Job>)
    requires sys'.plane == sys.plane && sys'.state == sys.state
    requires i < |sys'.workers| && sys'.workers[i] == Worker(jobs, Idle)
    requires if i < |sys.workers| then sys.workers[i] == FREE && sys'.workers == sys.workers[i := Worker(jobs, Idle)]
             else sys'.workers == sys.workers + [Worker(jobs, Idle)]
    requires forall key: Key | Undelivered(sys, key) || key in sys.pending ::
      Undelivered(sys', key) || key in sys'.pending || Reload(key) in jobs
    ensures Rearranged(sys, sys')
  {
    forall key: Key | Owed(sys, key)
      ensures Owed(sys', key)
    {
      if OwedBy(sys.workers, key) {
        var j :| 0 <= j < |sys.workers| && Owes(sys.workers[j], key);
        assert sys'.workers[j] == sys.workers[j];
      } else {
        assert Reload(key) in jobs ==> Owes(sys'.workers[i], key);
      }
    }
  }

  lemma FlushRearranges(sys: System, lib: R.Library, cfg: Config, step: Step)
    requires PendingOk(sys.pending) && (step.Timer? || step.FlushNow?)
    ensures Rearranged(sys, Next(sys, lib, cfg, step))
  {
    var sys' := Next(sys, lib, cfg, step);
    if sys' == sys {
    } else if step.Timer? {
      FlushAsks(sys.pending, step.key);
      HandedOver(sys, sys', |sys.workers|, FlushedJobs(sys.pending, step.key));
    } else {
      var key := sys.flushing.value;
      if key in sys.pending {
        FlushAsks(sys.pending, key);
      }
      HandedOver(sys, sys', 0, FlushedJobs(sys.pending, key));
    }
  }

  lemma FlushKeeps(sys: System, lib: R.Library, cfg: Config, step: Step)
    requires Inv(sys) && (step.Timer? || step.FlushNow?)
    ensures Inv(Next(sys, lib, cfg, step))
  {
    FlushRearranges(sys, lib, cfg, step);
    RearrangedKeepsStages(sys, Next(sys, lib, cfg, step));
    RearrangedKeepsViews(sys, Next(sys, lib, cfg, step));
  }

  /** Subscribing reads and writes nothing, and starting a resync only gives its goroutine
      something to do. */
  lemma ResyncKeeps(sys: System, lib: R.Library, cfg: Config, step: Step)
    requires Inv(sys) && (step.Resync? || step.Subscribe?)
    ensures Inv(Next(sys, lib, cfg, step))
  {
    var sys' := Next(sys, lib, cfg, step);
    if sys'.workers != sys.workers {
      HandedOver(sys, sys', 1, RESYNC);
    }
    RearrangedKeepsStages(sys, sys');
    RearrangedKeepsViews(sys, sys');
  }

  /** The delivered event is owed by its buffer or by the loop instead. */
  lemma DeliverRearranges(sys: System, cfg: Config)
    requires DeliverNext(sys, cfg) != sys
    ensures Rearranged(sys, DeliverNext(sys, cfg))
  {
    var sys' := DeliverNext(sys, cfg);
    var e := sys.channel[0];
    var jobs := if cfg.window <= 0 then [JobFor(e)] else [];
    assert sys'.workers == sys.workers[0 := Worker(jobs, Idle)];
    forall key: Key | Undelivered(sys, key) || key in sys.pending
      ensures Undelivered(sys', key) || key in sys'.pending || Reload(key) in jobs
    {
      if x :| x in sys.channel && KeyFor(x.kind) == key {
        assert x == e || x in sys'.channel;
      }
    }
    HandedOver(sys, sys', 0, jobs);
  }

  lemma OfferedPending(pending: map<Key, Pending>, e: Event)
    requires PendingOk(pending)
    ensures PendingOk(Offered(pending, e))
  {
    if KeyFor(e.kind) == EntrypointKey {
      assert e.id in Offered(pending, e)[EntrypointKey].entrypoints;
    }
  }

  lemma DeliverKeeps(sys: System, lib: R.Library, cfg: Config)
    requires Inv(sys)
    ensures Inv(Next(sys, lib, cfg, Deliver))
  {
    var sys' := DeliverNext(sys, cfg);
    if sys' != sys {
      OfferedPending(sys.pending, sys.channel[0]);
      DeliverRearranges(sys, cfg);
      RearrangedKeepsStages(sys, sys');
      RearrangedKeepsViews(sys, sys');
    }
  }

  // ---------- Reading and writing ----------

  /** Writing, or the step between writing and reading the cache, leaves the unread jobs as
      they were. */
  lemma WriteOwes(sys: System, i: nat, key: Key)
    requires i < |sys.workers| && sys.workers[i].queue != [] && sys.workers[i].stage != Idle
    requires Owed(sys, key)
    ensures Owed(WorkOn(sys, i), key)
  {
    var sys' := WorkOn(sys, i);
    assert Unread(sys'.workers[i]) == Unread(sys.workers[i]);
    if OwedBy(sys.workers, key) {
      var j :| 0 <= j < |sys.workers| && Owes(sys.workers[j], key);
      assert Owes(sys'.workers[j], key);
    }
  }

  /** The key for which a worker is about to read. */
  predicate ReadsNext(w: Worker, key: Key)
    requires w.queue != []
  {
    w.queue[0] == Reload(key) || (key == EntrypointKey && w.queue == RESYNC)
  }

  /** Reading takes the head job off what is owed, and nothing else. */
  lemma ReadOwes(sys: System, i: nat, key: Key)
    requires i < |sys.workers| && sys.workers[i].queue != [] && sys.workers[i].stage == Idle
    requires Owed(sys, key) && !ReadsNext(sys.workers[i], key) && AllBuild(sys.state.store)
    ensures Owed(WorkOn(sys, i), key)
  {
    var sys', w := WorkOn(sys, i), sys.workers[i];
    assert w.queue == [w.queue[0]] + w.queue[1..];
    if OwedBy(sys.workers, key) {
      var j :| 0 <= j < |sys.workers| && Owes(sys.workers[j], key);
      assert Owes(sys'.workers[j], key);
    }
  }

  lemma OtherReloading(sys: System, sys': System, i: nat)
    requires |sys'.workers| == |sys.workers| && i < |sys.workers|
    requires forall j | 0 <= j < |sys.workers| && j != i :: sys'.workers[j] == sys.workers[j]
    requires Owed(sys, EntrypointKey) ==> Owed(sys', EntrypointKey) || Reloading(sys'.workers[i])
    requires Reloading(sys.workers[i]) ==> Reloading(sys'.workers[i])
    requires ListenersOwed(sys)
    ensures ListenersOwed(sys')
  {
    if !Owed(sys, EntrypointKey) {
      var j :| 0 <= j < |sys.workers| && Reloading(sys.workers[j]);
      assert Reloading(sys'.workers[j]);
    }
  }

  lemma ReadKeepsListenersOwed(sys: System, i: nat)
    requires i < |sys.workers| && sys.workers[i].queue != [] && sys.workers[i].stage == Idle
    requires ListenersOwed(sys) && AllBuild(sys.state.store) && sys.workers[i].queue[0] != Reconcile
    ensures ListenersOwed(WorkOn(sys, i))
  {
    if Owed(sys, EntrypointKey) && !ReadsNext(sys.workers[i], EntrypointKey) {
      ReadOwes(sys, i, EntrypointKey);
    }
    OtherReloading(sys, WorkOn(sys, i), i);
  }

  /** A goroutine that reads: its reading is current, and a reading of the same part
      elsewhere would overlap with it. */
  lemma ReadKeepsStages(sys: System, i: nat)
    requires Inv(sys) && i < |sys.workers| && sys.workers[i].queue != [] && sys.workers[i].stage == Idle
    requires NoOverlap(WorkOn(sys, i).workers)
    ensures StagesOk(WorkOn(sys, i))
  {
    var sys' := WorkOn(sys, i);
    forall j | 0 <= j < |sys'.workers|
      ensures StageOk(sys', sys'.workers[j])
    {
      if j != i {
        ReadKeepsOther(sys, i, j);
      } else if sys.workers[i].queue[0] == Reconcile {
        ReconcileReads(sys, i);
      }
    }
  }

  lemma ReadKeepsOther(sys: System, i: nat, j: nat)
    requires Inv(sys) && i < |sys.workers| && sys.workers[i].queue != [] && sys.workers[i].stage == Idle
    requires j < |sys.workers| && j != i && NoOverlap(WorkOn(sys, i).workers)
    ensures StageOk(WorkOn(sys, i), sys.workers[j])
  {
    var sys', w, head := WorkOn(sys, i), sys.workers[j], sys.workers[i].queue[0];
    assert StageOk(sys, w) && sys'.workers[j] == w;
    assert !(sys'.workers[i].stage.HasRegistry? && w.stage.HasRegistry?);
    assert !(sys'.workers[i].stage.HasCache? && w.stage.HasCache?);
    if w.stage.HasRegistry? && Owed(sys, BalancerKey) {
      ReadOwes(sys, i, BalancerKey);
    }
    assert !(sys'.workers[i].stage.HasListeners? && w.stage.HasListeners?);
    if w.stage.HasCache? && (head == Reload(BalancerKey) || head == Reconcile) {
      if Owed(sys, TopologyKey) {
        ReadOwes(sys, i, TopologyKey);
      }
      if Owed(sys, EntrypointKey) {
        ReadOwes(sys, i, EntrypointKey);
      }
    }
    if w.stage.HasListeners? && ListenersOwed(sys) {
      assert head != Reconcile;
      ReadKeepsListenersOwed(sys, i);
    }
  }

  lemma ReadKeepsViews(sys: System, i: nat)
    requires Inv(sys) && i < |sys.workers| && sys.workers[i].queue != [] && sys.workers[i].stage == Idle
    ensures ViewsOk(WorkOn(sys, i))
  {
    var sys', head := WorkOn(sys, i), sys.workers[i].queue[0];
    forall key: Key | Owed(sys, key) && !ReadsNext(sys.workers[i], key)
      ensures Owed(sys', key)
    {
      ReadOwes(sys, i, key);
    }
    if ListenersOwed(sys) && head != Reconcile {
      ReadKeepsListenersOwed(sys, i);
    }
    assert forall j | 0 <= j < |sys.workers| && sys.workers[j].stage != Idle :: sys'.workers[j] == sys.workers[j];
    assert sys'.workers[i].stage == ReadFor(sys, head);
  }

  /** Whatever a goroutine writes is current, or owed to be read again. */
  lemma WriteKeepsOther(sys: System, i: nat, j: nat)
    requires Inv(sys) && NoOverlap(sys.workers) && NoOverlap(WorkOn(sys, i).workers)
    requires i < |sys.workers| && sys.workers[i].queue != [] && sys.workers[i].stage != Idle
    requires j < |sys.workers| && j != i
    ensures StageOk(WorkOn(sys, i), sys.workers[j])
  {
    var sys', w := WorkOn(sys, i), sys.workers[j];
    assert StageOk(sys, w) && sys'.workers[j] == w;
    forall key: Key | Owed(sys, key)
      ensures Owed(sys', key)
    {
      WriteOwes(sys, i, key);
    }
    if w.stage.HasListeners? && ListenersOwed(sys) {
      assert !(sys'.workers[i].stage.HasListeners? && w.stage.HasListeners?);
      WrittenReloading(sys, i);
    }
  }

  /** Only starting to reconcile ends a reload. */
  lemma WrittenReloading(sys: System, i: nat)
    requires i < |sys.workers| && sys.workers[i].queue != [] && sys.workers[i].stage != Idle
    requires StageOk(sys, sys.workers[i]) && !sys.workers[i].stage.CacheDone? && ListenersOwed(sys)
    ensures ListenersOwed(WorkOn(sys, i))
  {
    if Owed(sys, EntrypointKey) {
      WriteOwes(sys, i, EntrypointKey);
    }
    OtherReloading(sys, WorkOn(sys, i), i);
  }

  lemma WriteKeepsStages(sys: System, i: nat)
    requires Inv(sys) && NoOverlap(sys.workers) && NoOverlap(WorkOn(sys, i).workers)
    requires i < |sys.workers| && sys.workers[i].queue != [] && sys.workers[i].stage != Idle
    ensures StagesOk(WorkOn(sys, i))
  {
    var sys' := WorkOn(sys, i);
    assert StageOk(sys, sys.workers[i]);
    if sys.workers[i].stage.CacheDone? {
      ReconcileReads(sys, i);
    }
    forall j | 0 <= j < |sys'.workers|
      ensures StageOk(sys', sys'.workers[j])
    {
      if j != i {
        WriteKeepsOther(sys, i, j);
      }
    }
  }

  /** The cache a reconciliation reads has the entrypoints of the store, or they will be
      read again. */
  lemma ReconcileReads(sys: System, i: nat)
    requires Inv(sys) && i < |sys.workers| && sys.workers[i].queue != []
    requires sys.workers[i].stage.CacheDone? || (sys.workers[i].stage == Idle && sys.workers[i].queue[0] == Reconcile)
    ensures StageOk(WorkOn(sys, i), WorkOn(sys, i).workers[i])
  {
    var sys' := WorkOn(sys, i);
    assert StageOk(sys, sys.workers[i]);
    if Owed(sys, EntrypointKey) {
      if sys.workers[i].stage == Idle {
        ReadOwes(sys, i, EntrypointKey);
      } else {
        WriteOwes(sys, i, EntrypointKey);
      }
    } else if sys.plane.cache.entrypoints != sys.state.store.entrypoints {
      var j :| 0 <= j < |sys.workers| && sys.workers[j].stage.HasCache? && Reloading(sys.workers[j]);
      assert Reloading(sys'.workers[j]);
    }
  }

  lemma WriteKeepsViews(sys: System, i: nat)
    requires Inv(sys) && NoOverlap(sys.workers)
    requires i < |sys.workers| && sys.workers[i].queue != [] && sys.workers[i].stage != Idle
    ensures ViewsOk(WorkOn(sys, i))
  {
    var sys', w := WorkOn(sys, i), sys.workers[i];
    assert StageOk(sys, w);
    forall key: Key | Owed(sys, key)
      ensures Owed(sys', key)
    {
      WriteOwes(sys, i, key);
    }
    if ListenersOwed(sys) && !w.stage.CacheDone? {
      WrittenReloading(sys, i);
    }
    WriteKeepsParts(sys, i);
  }

  lemma WriteKeepsParts(sys: System, i: nat)
    requires Inv(sys) && NoOverlap(sys.workers)
    requires i < |sys.workers| && sys.workers[i].queue != [] && sys.workers[i].stage != Idle
    requires forall key: Key | Owed(sys, key) :: Owed(WorkOn(sys, i), key)
    requires ListenersOwed(sys) && !sys.workers[i].stage.CacheDone? ==> ListenersOwed(WorkOn(sys, i))
    ensures ViewsOk(WorkOn(sys, i))
  {
    var sys', w := WorkOn(sys, i), sys.workers[i];
    assert StageOk(sys, w);
    assert forall j | 0 <= j < |sys.workers| && j != i :: sys'.workers[j] == sys.workers[j];
    assert RegistryOk(sys');
    assert TopologyOk(sys');
    assert EntrypointsOk(sys');
    assert w.stage.CacheDone? ==> sys'.workers[i].stage.HasListeners?;
    assert ListenersOk(sys');
  }

  lemma WorkKeeps(sys: System, i: nat)
    requires Inv(sys) && NoOverlap(sys.workers) && NoOverlap(WorkOn(sys, i).workers)
    ensures Inv(WorkOn(sys, i))
  {
    if i < |sys.workers| && sys.workers[i].queue != [] {
      if sys.workers[i].stage == Idle {
        ReadKeepsStages(sys, i);
        ReadKeepsViews(sys, i);
      } else {
        WriteKeepsStages(sys, i);
        WriteKeepsViews(sys, i);
      }
    }
  }

  // ---------- Runs without overlapping reloads ----------

  lemma StepKeeps(sys: System, lib: R.Library, cfg: Config, step: Step)
    requires Inv(sys) && NoOverlap(sys.workers) && NoOverlap(Next(sys, lib, cfg, step).workers)
    requires AllBuild(Next(sys, lib, cfg, step).state.store) && Next(sys, lib, cfg, step).dropped == sys.dropped
    ensures Inv(Next(sys, lib, cfg, step))
  {
    match step
    case Command(call, parked) => CommandKeeps(sys, lib, cfg, call, parked);
    case Subscribe => ResyncKeeps(sys, lib, cfg, step);
    case Resync => ResyncKeeps(sys, lib, cfg, step);
    case Deliver => DeliverKeeps(sys, lib, cfg);
    case Timer(_) => FlushKeeps(sys, lib, cfg, step);
    case FlushNow => FlushKeeps(sys, lib, cfg, step);
    case Work(i) => WorkKeeps(sys, i);
  }

  /** At no moment of the run do two reloads of the same part overlap. */
  ghost predicate SerialRun(sys: System, lib: R.Library, cfg: Config, steps: seq<Step>)
  {
    forall k | 0 <= k <= |steps| :: NoOverlap(RunSystem(sys, lib, cfg, steps[..k]).workers)
  }

  ghost predicate Proper(lib: R.Library, s: State)
  {
    Sound(s) && Formed(lib, s.store)
  }

  /** The control plane keeps its invariants, whatever the data plane does. */
  lemma {:induction false} StoreStaysProper(sys: System, lib: R.Library, cfg: Config, steps: seq<Step>)
    requires Proper(lib, sys.state) && ProperSteps(steps)
    ensures Proper(lib, RunSystem(sys, lib, cfg, steps).state)
    decreases |steps|
  {
    if steps != [] {
      var n := |steps| - 1;
      StoreStaysProper(sys, lib, cfg, steps[..n]);
      CommandKeepsProper(RunSystem(sys, lib, cfg, steps[..n]), lib, cfg, steps[n]);
    }
  }

  lemma CommandKeepsProper(sys: System, lib: R.Library, cfg: Config, step: Step)
    requires Proper(lib, sys.state) && (step.Command? ==> step.call.env.generated != "")
    ensures Proper(lib, Next(sys, lib, cfg, step).state)
  {
    if step.Command? {
      StepKeepsSound(sys.state, lib, step.call.command, step.call.env);
      match step.call.command
      case Delete(kind, name) => DeleteKeepsFormed(sys.state, lib, kind, name);
      case Apply(meta, body) => ApplyKeepsFormed(sys.state, lib, meta, body, step.call.env);
    }
  }

  lemma ProperBuilds(lib: R.Library, s: State)
    requires Proper(lib, s)
    ensures AllBuild(s.store)
  {
    forall id | id in s.store.balancers
      ensures BuildFor(s.store, s.store.balancers[id]).Some?
    {
      ReachableStoresLoad(lib, s.store, id);
    }
  }

  /** What was dropped stays dropped. */
  lemma DropsCount(sys: System, lib: R.Library, cfg: Config, step: Step)
    ensures sys.dropped <= Next(sys, lib, cfg, step).dropped
  {
  }

  lemma {:induction false} DropsAddUp(sys: System, lib: R.Library, cfg: Config, steps: seq<Step>)
    ensures sys.dropped <= RunSystem(sys, lib, cfg, steps).dropped
    decreases |steps|
  {
    if steps != [] {
      var n := |steps| - 1;
      DropsAddUp(sys, lib, cfg, steps[..n]);
      DropsCount(RunSystem(sys, lib, cfg, steps[..n]), lib, cfg, steps[n]);
    }
  }

  lemma {:induction false} SerialRunKeeps(sys: System, lib: R.Library, cfg: Config, steps: seq<Step>)
    requires Inv(sys) && Proper(lib, sys.state) && ProperSteps(steps) && SerialRun(sys, lib, cfg, steps)
    requires RunSystem(sys, lib, cfg, steps).dropped == sys.dropped
    ensures Inv(RunSystem(sys, lib, cfg, steps))
    decreases |steps|
  {
    assert steps[..|steps|] == steps;
    if steps != [] {
      var n := |steps| - 1;
      forall k | 0 <= k <= n
        ensures NoOverlap(RunSystem(sys, lib, cfg, steps[..n][..k]).workers)
      {
        assert steps[..n][..k] == steps[..k];
      }
      DropsAddUp(sys, lib, cfg, steps[..n]);
      DropsCount(RunSystem(sys, lib, cfg, steps[..n]), lib, cfg, steps[n]);
      SerialRunKeeps(sys, lib, cfg, steps[..n]);
      StoreStaysProper(sys, lib, cfg, steps);
      ProperBuilds(lib, RunSystem(sys, lib, cfg, steps).state);
      StepKeeps(RunSystem(sys, lib, cfg, steps[..n]), lib, cfg, steps[n]);
    }
  }

  lemma StartProper(lib: R.Library, calls: seq<Call>)
    requires ProperRun(calls)
    ensures Proper(lib, Start(lib, calls).state) && Inv(Start(lib, calls))
  {
    EveryRunSound(lib, calls);
    EveryRunFormed(lib, calls);
    ProperBuilds(lib, Start(lib, calls).state);
  }

  /** Whatever is applied and deleted, however events are delivered, buffered and flushed,
      and whenever timers fire and resyncs run: if no event is dropped and no two reloads of
      the same part overlap, a data plane that has nothing left to do holds exactly what the
      store holds. */
  lemma SerialRunsConverge(lib: R.Library, cfg: Config, calls: seq<Call>, steps: seq<Step>)
    requires ProperRun(calls) && ProperSteps(steps)
    requires SerialRun(Start(lib, calls), lib, cfg, steps) && Quiet(RunSystem(Start(lib, calls), lib, cfg, steps))
    requires RunSystem(Start(lib, calls), lib, cfg, steps).dropped == 0
    ensures Converged(RunSystem(Start(lib, calls), lib, cfg, steps))
  {
    StartProper(lib, calls);
    SerialRunKeeps(Start(lib, calls), lib, cfg, steps);
    QuietConverges(RunSystem(Start(lib, calls), lib, cfg, steps));
  }

  /** What the data plane looks entrypoints, flows and routers up in. */
  function Cached(plane: Plane): Store
  {
    Store(map[], map[], map[], plane.cache.routers, plane.cache.flows, plane.cache.entrypoints)
  }

  /** Requests look nothing else up. */
  lemma CacheSuffices(lib: R.Library, st: Store, registry: map<string, Instance>, entrypoint: string, req: R.Request)
    ensures ExecuteFlow(lib, Cached(PlaneOf(st)), registry, entrypoint, req)
         == ExecuteFlow(lib, st, registry, entrypoint, req)
  {
  }

  /** A converged data plane listens for exactly the stored entrypoints, and what becomes of a
      request to any of them is explained by the stored configuration alone. */
  lemma ConvergedServes(lib: R.Library, sys: System, entrypoint: string, req: R.Request)
    requires Proper(lib, sys.state) && Converged(sys)
    ensures sys.plane.listeners.Keys == sys.state.store.entrypoints.Keys
    ensures forall id | id in sys.plane.listeners ::
      && sys.plane.listeners[id].host == sys.state.store.entrypoints[id].host
      && sys.plane.listeners[id].port == sys.state.store.entrypoints[id].port
    ensures entrypoint in sys.plane.listeners ==>
      Explained(lib, sys.state.store, entrypoint, req,
                ExecuteFlow(lib, Cached(sys.plane), sys.plane.registry, entrypoint, req))
  {
    var st := sys.state.store;
    ProperBuilds(lib, sys.state);
    if entrypoint in sys.plane.listeners {
      assert Loaded(st, sys.plane.registry);
      RequestsNeverDangle(lib, st, sys.plane.registry, entrypoint, req);
      CacheSuffices(lib, st, sys.plane.registry, entrypoint, req);
    }
  }

  // ---------- Runs that dropped events ----------

  /** What holds in every run, whatever was dropped and whichever reloads overlapped. */
  ghost predicate Shaped(sys: System)
  {
    PendingOk(sys.pending) && forall i | 0 <= i < |sys.workers| :: StageShaped(sys.workers[i])
  }

  lemma WorkKeepsShape(sys: System, i: nat)
    requires Shaped(sys)
    ensures Shaped(WorkOn(sys, i))
  {
    if i < |sys.workers| && sys.workers[i].queue != [] {
      assert StageShaped(sys.workers[i]);
      assert StageShaped(WorkOn(sys, i).workers[i]);
    }
  }

  lemma StepKeepsShape(sys: System, lib: R.Library, cfg: Config, step: Step)
    requires Shaped(sys)
    ensures Shaped(Next(sys, lib, cfg, step))
  {
    match step
    case Deliver =>
      if DeliverNext(sys, cfg) != sys {
        OfferedPending(sys.pending, sys.channel[0]);
      }
    case Work(i) => WorkKeepsShape(sys, i);
    case _ =>
  }

  lemma {:induction false} RunKeepsShape(sys: System, lib: R.Library, cfg: Config, steps: seq<Step>)
    requires Shaped(sys)
    ensures Shaped(RunSystem(sys, lib, cfg, steps))
    decreases |steps|
  {
    if steps != [] {
      var n := |steps| - 1;
      RunKeepsShape(sys, lib, cfg, steps[..n]);
      StepKeepsShape(RunSystem(sys, lib, cfg, steps[..n]), lib, cfg, steps[n]);
    }
  }

  /** A resync that is about to begin owes everything, whatever the data plane holds. */
  lemma ResyncOwesAll(sys: System)
    requires Shaped(sys) && AllBuild(sys.state.store) && |sys.workers| > 1 && sys.workers[1] == Worker(RESYNC, Idle)
    ensures Inv(sys)
  {
    forall key: Key
      ensures Owed(sys, key)
    {
      assert RESYNC[0] == Reload(TopologyKey) && RESYNC[1] == Reload(BalancerKey);
      assert Owes(sys.workers[1], key);
    }
  }

  /** Whatever happened before a resync begins, dropped events and overlapping reloads
      included: if from then on no event is dropped and no two reloads of the same part
      overlap, a data plane that has nothing left to do holds exactly what the store holds.
      Commands, deliveries and timers may come at any time. */
  lemma ResyncedRunsConverge(lib: R.Library, cfg: Config, calls: seq<Call>, before: seq<Step>, after: seq<Step>)
    requires ProperRun(calls) && ProperSteps(before) && ProperSteps(after)
    requires cfg.resync && IsFree(RunSystem(Start(lib, calls), lib, cfg, before), 1)
    requires var begun := RunSystem(Start(lib, calls), lib, cfg, before + [Resync]);
      var end := RunSystem(begun, lib, cfg, after);
      SerialRun(begun, lib, cfg, after) && end.dropped == begun.dropped && Quiet(end)
    ensures Converged(RunSystem(Start(lib, calls), lib, cfg, (before + [Resync]) + after))
  {
    var start := Start(lib, calls);
    var mid := RunSystem(start, lib, cfg, before);
    RunConcat(start, lib, cfg, before, [Resync]);
    RunOne(mid, lib, cfg, Resync);
    RunConcat(start, lib, cfg, before + [Resync], after);
    StartProper(lib, calls);
    StoreStaysProper(start, lib, cfg, before);
    RunKeepsShape(start, lib, cfg, before);
    FromResync(mid, lib, cfg, after);
  }

  lemma FromResync(mid: System, lib: R.Library, cfg: Config, after: seq<Step>)
    requires Shaped(mid) && Proper(lib, mid.state) && ProperSteps(after) && cfg.resync && IsFree(mid, 1)
    requires var begun := Next(mid, lib, cfg, Resync);
      var end := RunSystem(begun, lib, cfg, after);
      SerialRun(begun, lib, cfg, after) && end.dropped == begun.dropped && Quiet(end)
    ensures Converged(RunSystem(Next(mid, lib, cfg, Resync), lib, cfg, after))
  {
    var begun := Next(mid, lib, cfg, Resync);
    StepKeepsShape(mid, lib, cfg, Resync);
    ProperBuilds(lib, begun.state);
    ResyncOwesAll(begun);
    SerialRunKeeps(begun, lib, cfg, after);
    QuietConverges(RunSystem(begun, lib, cfg, after));
  }

  /** A resync that nothing interferes with leaves the data plane with exactly what the store
      holds, whatever it held before. */
  lemma ResyncHeals(sys: System, lib: R.Library, cfg: Config)
    requires cfg.resync && IsFree(sys, 1) && AllBuild(sys.state.store)
    ensures RunSystem(sys, lib, cfg, [Resync] + seq(6, _ => Work(1))) == sys.(plane := PlaneOf(sys.state.store))
  {
    var start := Next(sys, lib, cfg, Resync);
    var works := seq(6, _ => Work(1));
    RunConcat(sys, lib, cfg, [Resync], works);
    RunOne(sys, lib, cfg, Resync);
    var cached, loaded := ReloadedCache(start), ReloadedRegistry(ReloadedCache(start));
    var two := [Work(1), Work(1)];
    assert works == two + two + two;
    RunConcat(start, lib, cfg, two + two, two);
    RunConcat(start, lib, cfg, two, two);
    WorkTwice(start, lib, cfg);
    WorkTwice(cached, lib, cfg);
    WorkTwice(loaded, lib, cfg);
    assert RESYNC[1..] == [Reload(BalancerKey), Reconcile] && RESYNC[1..][1..] == [Reconcile] && [Reconcile][1..] == [];
    assert ReloadedListeners(loaded).workers == sys.workers;
  }

  function Finished(sys: System): seq<Worker>
    requires |sys.workers| > 1 && sys.workers[1].queue != []
  {
    sys.workers[1 := Worker(sys.workers[1].queue[1..], Idle)]
  }

  function ReloadedCache(sys: System): System
    requires |sys.workers| > 1 && sys.workers[1].queue != []
  {
    sys.(workers := Finished(sys), plane := sys.plane.(cache := TopologyOf(sys.state.store)))
  }

  function ReloadedRegistry(sys: System): System
    requires |sys.workers| > 1 && sys.workers[1].queue != []
  {
    sys.(workers := Finished(sys), plane := sys.plane.(registry := RegistryOf(sys.state.store)))
  }

  function ReloadedListeners(sys: System): System
    requires |sys.workers| > 1 && sys.workers[1].queue != []
  {
    sys.(workers := Finished(sys), plane := sys.plane.(listeners := ListenersFor(sys.plane.cache.entrypoints)))
  }

  /** A read and its write, with nothing in between. */
  lemma WorkTwice(sys: System, lib: R.Library, cfg: Config)
    requires |sys.workers| > 1 && sys.workers[1].queue != [] && sys.workers[1].stage == Idle
    requires AllBuild(sys.state.store)
    requires sys.workers[1].queue[0] != Reload(EntrypointKey)
    ensures RunSystem(sys, lib, cfg, [Work(1), Work(1)])
         == match sys.workers[1].queue[0]
            case Reload(BalancerKey) => ReloadedRegistry(sys)
            case Reload(_) => ReloadedCache(sys)
            case Reconcile => ReloadedListeners(sys)
  {
    var mid := WorkOn(sys, 1);
    RunTwo(sys, lib, cfg, Work(1), Work(1));
    assert mid.workers[1] == sys.workers[1].(stage := ReadFor(sys, sys.workers[1].queue[0]));
    assert WorkOn(mid, 1).workers == Finished(sys);
  }

  lemma StepStaysAlone(sys: System, lib: R.Library, cfg: Config, step: Step)
    requires cfg.window <= 0 && !cfg.resync && |sys.workers| == 2 && sys.workers[1] == FREE && sys.pending == map[]
    ensures var end := Next(sys, lib, cfg, step);
      |end.workers| == 2 && end.workers[1] == FREE && end.pending == map[]
  {
  }

  /** Without coalescing and without resyncs the consumer loop is the only goroutine that
      reloads. */
  lemma {:induction false} LoopIsAlone(sys: System, lib: R.Library, cfg: Config, steps: seq<Step>)
    requires cfg.window <= 0 && !cfg.resync && |sys.workers| == 2 && sys.workers[1] == FREE && sys.pending == map[]
    ensures var end := RunSystem(sys, lib, cfg, steps);
      |end.workers| == 2 && end.workers[1] == FREE && end.pending == map[]
    decreases |steps|
  {
    if steps != [] {
      var n := |steps| - 1;
      LoopIsAlone(sys, lib, cfg, steps[..n]);
      StepStaysAlone(RunSystem(sys, lib, cfg, steps[..n]), lib, cfg, steps[n]);
    }
  }
}
