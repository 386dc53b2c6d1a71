/** The control-plane service: it reads and writes the six repositories and publishes
    an event after each change.  Each call does to the stored resources what
    `Resources.Exec` says.
 */
module ControlPlane {
  import opened Options
  import opened Keys
  import opened Pagination
  import opened Resources
  import opened ApplyOrder
  import opened Steps
  import R = Routing

  class Service {
    const lib: R.Library
    var proxies: map<string, Proxy>
    var pools: map<string, Pool>
    var balancers: map<string, Balancer>
    var routers: map<string, R.Router>
    var flows: map<string, Flow>
    var entrypoints: map<string, Entrypoint>
    var events: seq<Event>

    constructor (lib: R.Library)
      ensures this.lib == lib && Contents() == INITIAL
    {
      this.lib := lib;
      proxies, pools, balancers, routers, flows, entrypoints := map[], map[], map[], map[], map[], map[];
      events := [];
    }

    ghost function Stored(): Store
      reads this
    {
      Store(proxies, pools, balancers, routers, flows, entrypoints)
    }

    ghost function Contents(): State
      reads this
    {
      State(Stored(), events)
    }

    method FireEvent(id: string, kind: Kind, change: Change)
      modifies this`events
      ensures events == old(events) + [Event(kind, id, change)]
    {
      events := events + [Event(kind, id, change)];
    }

    // ---------- Reverse references ----------

    /** Lists every match and collects its name. */
    method CollectDependents<T>(kind: Kind, stored: map<string, T>, filter: Filter<T>) returns (deps: seq<Dependent>)
      ensures deps == Listed(kind, stored, filter)
    {
      RowsOfSorted(stored);
      var result := ListWithCursor(RowsOf(stored), ListParams(0, ""), filter);
      ListAll(RowsOf(stored), filter);
      deps := [];
      for i := 0 to |result.items|
        invariant |deps| == i && forall j | 0 <= j < i :: deps[j] == Dependent(kind, result.items[j].key)
      {
        deps := deps + [Dependent(kind, result.items[i].key)];
      }
    }

    method DependentsOf(kind: Kind, name: string) returns (deps: seq<Dependent>)
      ensures deps == Dependents(Stored(), kind, name)
    {
      match kind
      case ProxyKind => deps := CollectDependents(PoolKind, pools, PoolsUsing(name));
      case PoolKind => deps := CollectDependents(BalancerKind, balancers, BalancersOn(name, ""));
      case BalancerKind =>
        var byFlow := CollectDependents(FlowKind, flows, FlowsThrough("", name));
        var byRouter := CollectDependents(RouterKind, routers, RoutersTargeting(name));
        deps := byFlow + byRouter;
      case RouterKind => deps := CollectDependents(FlowKind, flows, FlowsThrough(name, ""));
      case FlowKind => deps := CollectDependents(EntrypointKind, entrypoints, EntrypointsInto(name));
      case EntrypointKind => deps := [];
    }

    // ---------- Forward references ----------

    /** The loop over references: stops at the first one that is not stored. */
    method RequireAll(refs: seq<string>, stored: set<string>) returns (missing: Option<string>)
      ensures missing == FirstMissing(refs, stored)
    {
      var i := 0;
      while i < |refs|
        invariant i <= |refs| && FirstMissing(refs, stored) == FirstMissing(refs[i..], stored)
      {
        if refs[i] !in stored {
          return Some(refs[i]);
        }
        i := i + 1;
      }
      missing := None;
    }

    // ---------- Delete ----------

    method DeleteProxy(name: string) returns (err: Option<Error>)
      modifies this
      ensures (Contents(), err) == Exec(old(Contents()), lib, Delete(ProxyKind, name), Env("", 0))
    {
      if name == "" {
        return Some(NameRequired);
      }
      var deps := DependentsOf(ProxyKind, name);
      if deps != [] {
        return Some(InUse(deps));
      }
      if name !in proxies {
        return Some(NotFound);
      }
      proxies := proxies - {name};
      FireEvent(name, ProxyKind, Deleted);
      err := None;
    }

    method DeletePool(name: string) returns (err: Option<Error>)
      modifies this
      ensures (Contents(), err) == Exec(old(Contents()), lib, Delete(PoolKind, name), Env("", 0))
    {
      if name == "" {
        return Some(NameRequired);
      }
      var deps := DependentsOf(PoolKind, name);
      if deps != [] {
        return Some(InUse(deps));
      }
      if name !in pools {
        return Some(NotFound);
      }
      pools := pools - {name};
      FireEvent(name, PoolKind, Deleted);
      err := None;
    }

    method DeleteBalancer(name: string) returns (err: Option<Error>)
      modifies this
      ensures (Contents(), err) == Exec(old(Contents()), lib, Delete(BalancerKind, name), Env("", 0))
    {
      if name == "" {
        return Some(NameRequired);
      }
      var deps := DependentsOf(BalancerKind, name);
      if deps != [] {
        return Some(InUse(deps));
      }
      if name !in balancers {
        return Some(NotFound);
      }
      balancers := balancers - {name};
      FireEvent(name, BalancerKind, Deleted);
      err := None;
    }

    method DeleteRouter(name: string) returns (err: Option<Error>)
      modifies this
      ensures (Contents(), err) == Exec(old(Contents()), lib, Delete(RouterKind, name), Env("", 0))
    {
      if name == "" {
        return Some(NameRequired);
      }
      var deps := DependentsOf(RouterKind, name);
      if deps != [] {
        return Some(InUse(deps));
      }
      if name !in routers {
        return Some(NotFound);
      }
      routers := routers - {name};
      FireEvent(name, RouterKind, Deleted);
      err := None;
    }

    method DeleteFlow(name: string) returns (err: Option<Error>)
      modifies this
      ensures (Contents(), err) == Exec(old(Contents()), lib, Delete(FlowKind, name), Env("", 0))
    {
      if name == "" {
        return Some(NameRequired);
      }
      var deps := DependentsOf(FlowKind, name);
      if deps != [] {
        return Some(InUse(deps));
      }
      if name !in flows {
        return Some(NotFound);
      }
      flows := flows - {name};
      FireEvent(name, FlowKind, Deleted);
      err := None;
    }

    method DeleteEntrypoint(name: string) returns (err: Option<Error>)
      modifies this
      ensures (Contents(), err) == Exec(old(Contents()), lib, Delete(EntrypointKind, name), Env("", 0))
    {
      if name == "" {
        return Some(NameRequired);
      }
      if name !in entrypoints {
        return Some(NotFound);
      }
      entrypoints := entrypoints - {name};
      FireEvent(name, EntrypointKind, Deleted);
      err := None;
    }

    // ---------- Apply ----------

    method ApplyProxy(metadata: Metadata, spec: ProxySpec, env: Env) returns (err: Option<Error>)
      modifies this
      ensures (Contents(), err) == Exec(old(Contents()), lib, Apply(metadata, ProxyBody(spec)), env)
    {
      if !ValidProxySpec(spec) {
        return Some(SpecInvalid);
      }
      var meta := metadata;
      if meta.name == "" {
        meta := meta.(name := env.generated);
      }
      var built := ProxyFromSpec(meta, spec);
      if built == None || !ValidProxy(built.value) {
        return Some(DomainInvalid);
      }
      var proxy := built.value;
      if proxy.id in proxies {
        var existing := proxies[proxy.id];
        if spec.url == "" && spec.auth == None && existing.auth.Some? {
          proxy := proxy.(auth := existing.auth);
        }
        proxy := proxy.(createdAt := existing.createdAt);
      } else {
        proxy := proxy.(createdAt := env.now);
      }
      proxy := proxy.(updatedAt := env.now);
      proxies := proxies[proxy.id := proxy];
      FireEvent(proxy.id, ProxyKind, Saved);
      err := None;
    }

    method ApplyPool(metadata: Metadata, spec: PoolSpec, env: Env) returns (err: Option<Error>)
      modifies this
      ensures (Contents(), err) == Exec(old(Contents()), lib, Apply(metadata, PoolBody(spec)), env)
    {
      if !ValidPoolSpec(spec) {
        return Some(SpecInvalid);
      }
      var meta := metadata;
      if meta.name == "" {
        meta := meta.(name := env.generated);
      }
      var pool := BuildPool(meta, spec);
      if !ValidPool(pool) {
        return Some(DomainInvalid);
      }
      if pool.ptype == STATIC {
        var missing := RequireAll(MemberIds(pool), proxies.Keys);
        if missing.Some? {
          return Some(MissingRef(ProxyKind, missing.value));
        }
      }
      if pool.ptype != STATIC {
        var weighted := CollectDependents(BalancerKind, balancers, BalancersOn(pool.id, WEIGHTED));
        if weighted != [] {
          return Some(WeightedBalancerRefersTo(weighted[0].name));
        }
      }
      var created := env.now;
      if pool.id in pools {
        created := pools[pool.id].createdAt;
      }
      pool := pool.(createdAt := created, updatedAt := env.now);
      pools := pools[pool.id := pool];
      FireEvent(pool.id, PoolKind, Saved);
      err := None;
    }

    static method BuildPool(meta: Metadata, spec: PoolSpec) returns (pool: Pool)
      ensures pool == PoolFromSpec(meta, spec)
    {
      pool := Pool(meta.name, spec.title, spec.ptype, meta.labels, [], None, 0, 0);
      if pool.ptype == STATIC {
        var members := R.AppendAll(MemberFromSpec, spec.members);
        pool := pool.(members := members);
      } else if pool.ptype == DYNAMIC {
        pool := pool.(selector := spec.selector);
      }
    }

    method ApplyBalancer(metadata: Metadata, spec: BalancerSpec, env: Env) returns (err: Option<Error>)
      modifies this
      ensures (Contents(), err) == Exec(old(Contents()), lib, Apply(metadata, BalancerBody(spec)), env)
    {
      if !ValidBalancerSpec(spec) {
        return Some(SpecInvalid);
      }
      var meta := metadata;
      if meta.name == "" {
        meta := meta.(name := env.generated);
      }
      var lb := Balancer(meta.name, spec.title, spec.btype, spec.poolId, 0, 0, 0);
      if !ValidBalancerType(lb.btype) {
        return Some(DomainInvalid);
      }
      if lb.btype == LEAST_BYTES {
        lb := lb.(resetInterval := ResolvedInterval(spec.resetInterval));
      }
      if lb.poolId !in pools {
        return Some(MissingRef(PoolKind, lb.poolId));
      }
      if lb.btype == WEIGHTED {
        var pool := pools[lb.poolId];
        if pool.ptype != STATIC {
          return Some(WeightedNeedsStatic);
        }
      }
      var created := env.now;
      if lb.id in balancers {
        created := balancers[lb.id].createdAt;
      }
      lb := lb.(createdAt := created, updatedAt := env.now);
      balancers := balancers[lb.id := lb];
      FireEvent(lb.id, BalancerKind, Saved);
      err := None;
    }

    /** The stored router has no compiled patterns: they are not persisted. */
    method ApplyRouter(metadata: Metadata, spec: R.RouterSpec, env: Env) returns (err: Option<Error>)
      modifies this
      ensures (Contents(), err) == Exec(old(Contents()), lib, Apply(metadata, RouterBody(spec)), env)
    {
      if !ValidRouterSpec(spec) {
        return Some(SpecInvalid);
      }
      var meta := metadata;
      if meta.name == "" {
        meta := meta.(name := env.generated);
      }
      var rules := R.AppendAll(R.RuleFromSpec, spec.rules);
      var router := R.Router(meta.name, spec.title, spec.description, rules, 0, 0);
      if !R.ValidRouter(lib, router.rules) {
        return Some(DomainInvalid);
      }
      var missing := RequireAll(Targets(router), balancers.Keys);
      if missing.Some? {
        return Some(MissingRef(BalancerKind, missing.value));
      }
      var created := env.now;
      if router.id in routers {
        created := routers[router.id].createdAt;
      }
      router := router.(createdAt := created, updatedAt := env.now);
      routers := routers[router.id := router];
      FireEvent(router.id, RouterKind, Saved);
      err := None;
    }

    method ApplyFlow(metadata: Metadata, spec: FlowSpec, env: Env) returns (err: Option<Error>)
      modifies this
      ensures (Contents(), err) == Exec(old(Contents()), lib, Apply(metadata, FlowBody(spec)), env)
    {
      if !ValidFlowSpec(spec) {
        return Some(SpecInvalid);
      }
      var meta := metadata;
      if meta.name == "" {
        meta := meta.(name := env.generated);
      }
      var flow := Flow(meta.name, spec.routerId, spec.balancerId, 0, 0);
      if flow.routerId != "" && flow.routerId !in routers {
        return Some(MissingRef(RouterKind, flow.routerId));
      }
      if flow.balancerId != "" && flow.balancerId !in balancers {
        return Some(MissingRef(BalancerKind, flow.balancerId));
      }
      var created := env.now;
      if flow.id in flows {
        created := flows[flow.id].createdAt;
      }
      flow := flow.(createdAt := created, updatedAt := env.now);
      flows := flows[flow.id := flow];
      FireEvent(flow.id, FlowKind, Saved);
      err := None;
    }

    method ApplyEntrypoint(metadata: Metadata, spec: EntrypointSpec, env: Env) returns (err: Option<Error>)
      modifies this
      ensures (Contents(), err) == Exec(old(Contents()), lib, Apply(metadata, EntrypointBody(spec)), env)
    {
      if !ValidEntrypointSpec(spec) {
        return Some(SpecInvalid);
      }
      var meta := metadata;
      if meta.name == "" {
        meta := meta.(name := env.generated);
      }
      var ep := Entrypoint(meta.name, spec.title, spec.protocol, spec.host, spec.port, spec.flowId, 0, 0);
      if !ValidEntrypoint(ep) {
        return Some(DomainInvalid);
      }
      if ep.flowId !in flows {
        return Some(MissingRef(FlowKind, ep.flowId));
      }
      var created := env.now;
      if ep.id in entrypoints {
        created := entrypoints[ep.id].createdAt;
      }
      ep := ep.(createdAt := created, updatedAt := env.now);
      entrypoints := entrypoints[ep.id := ep];
      FireEvent(ep.id, EntrypointKind, Saved);
      err := None;
    }

    // ---------- Documents ----------

    /** The dispatcher's switch on a document's kind and version. */
    method ApplyRaw(d: Document, env: Env) returns (err: Option<Error>)
      modifies this
      ensures (Contents(), err) == ApplyDocument(old(Contents()), lib, d, env)
    {
      if Rank(d) == UNKNOWN_RANK || d.version != "v1" {
        return Some(UnknownResource);
      }
      if BodyRank(d.body) != Rank(d) {
        return Some(DecodeFailed);
      }
      match d.body
      case ProxyBody(spec) => err := ApplyProxy(d.meta, spec, env);
      case PoolBody(spec) => err := ApplyPool(d.meta, spec, env);
      case BalancerBody(spec) => err := ApplyBalancer(d.meta, spec, env);
      case RouterBody(spec) => err := ApplyRouter(d.meta, spec, env);
      case FlowBody(spec) => err := ApplyFlow(d.meta, spec, env);
      case EntrypointBody(spec) => err := ApplyEntrypoint(d.meta, spec, env);
    }

    /** Applies documents in dependency order and stops at the first error. */
    method ApplyDocuments(docs: seq<Document>, env: nat -> Env) returns (err: Option<Error>)
      modifies this
      ensures (Contents(), err) == ApplyAll(old(Contents()), lib, docs, env)
    {
      var ordered := SortByApplyOrder(docs);
      ghost var step := DocumentStep(lib, ordered, env);
      for i := 0 to |ordered|
        invariant (Contents(), None) == RunSteps(step, old(Contents()), i)
      {
        err := ApplyRaw(ordered[i], env(i));
        assert (Contents(), err) == RunSteps(step, old(Contents()), i + 1);
        if err.Some? {
          StoppedSteps(step, old(Contents()), i + 1, |ordered|);
          return;
        }
      }
      err := None;
    }
  }

  /** Page size 0 with no cursor lists every match. */
  lemma ListAll<T>(rows: seq<Row<T>>, filter: Filter<T>)
    ensures Page(rows, ListParams(0, ""), filter).items == Select(rows, filter)
  {
    var matching := Select(rows, filter);
    FromIsSuffix(matching, "", 0);
    assert matching[..|matching|] == matching;
  }

  /** After a failure the remaining steps are not taken. */
  lemma {:induction false} StoppedSteps<S, E>(step: (S, nat) -> (S, Option<E>), s: S, i: nat, n: nat)
    requires i <= n && RunSteps(step, s, i).1.Some?
    ensures RunSteps(step, s, n) == RunSteps(step, s, i)
  {
    if i < n {
      StoppedSteps(step, s, i, n - 1);
    }
  }
}
