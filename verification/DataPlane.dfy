/** The data plane's view of a store: building the balancers, and taking a request
    from its entrypoint to a balancer.
 */
module DataPlane {
  import opened Options
  import opened Keys
  import opened Pagination
  import opened Resources
  import opened ResourceGraph
  import opened ApplyOrder
  import R = Routing

  // ---------- Resolving the proxies of a pool ----------

  /** A label that is absent reads as the empty string. */
  predicate MatchesLabels(actual: map<string, string>, required: map<string, string>)
  {
    forall k | k in required :: (if k in actual then actual[k] else "") == required[k]
  }

  function WithLabels(required: map<string, string>): Filter<Proxy>
  {
    if required == map[] then Everything else Matching((p: Proxy) => MatchesLabels(p.labels, required))
  }

  function RowValue<T>(r: Row<T>): T { r.value }

  /** The proxies of the given ids, in that order; None when one is missing. */
  function ProxiesByIds(proxies: map<string, Proxy>, ids: seq<string>): (r: Option<seq<Proxy>>)
  {
    if forall i | 0 <= i < |ids| :: ids[i] in proxies
    then Some(seq(|ids|, i requires 0 <= i < |ids| && ids[i] in proxies => proxies[ids[i]]))
    else None
  }

  /** The loop that fetches the members of a static pool, stopping at a missing one. */
  method FetchByIds(proxies: map<string, Proxy>, ids: seq<string>) returns (r: Option<seq<Proxy>>)
    ensures r == ProxiesByIds(proxies, ids)
  {
    var found := [];
    for i := 0 to |ids|
      invariant |found| == i
      invariant forall j | 0 <= j < i :: ids[j] in proxies && found[j] == proxies[ids[j]]
    {
      if ids[i] !in proxies {
        return None;
      }
      found := found + [proxies[ids[i]]];
    }
    assert found == ProxiesByIds(proxies, ids).value;
    r := Some(found);
  }

  function Resolve(st: Store, pool: Pool): (r: Option<seq<Proxy>>)
  {
    if pool.ptype == STATIC then ProxiesByIds(st.proxies, MemberIds(pool))
    else if pool.ptype == DYNAMIC && pool.selector.Some? then
      Some(R.Map(RowValue, Select(RowsOf(st.proxies), WithLabels(pool.selector.value))))
    else None
  }

  // ---------- Building balancers ----------

  datatype Instance = Instance(btype: string, proxies: seq<Proxy>, weights: seq<int>)

  /** The checks of the weighted balancer's constructor. */
  predicate WeightedBuilds(pool: Pool, proxies: seq<Proxy>)
  {
    && pool.ptype == STATIC && |proxies| == |pool.members|
    && forall i | 0 <= i < |pool.members| ::
         pool.members[i].weight >= 1 && proxies[i].id == pool.members[i].proxyId
  }

  function Build(lb: Balancer, pool: Pool, proxies: seq<Proxy>): (r: Option<Instance>)
  {
    if lb.btype == WEIGHTED then
      if WeightedBuilds(pool, proxies)
      then Some(Instance(WEIGHTED, proxies, R.Map((m: Member) => m.weight, pool.members)))
      else None
    else if lb.btype == ROUND_ROBIN || lb.btype == LEAST_BYTES then Some(Instance(lb.btype, proxies, []))
    else None
  }

  /** The balancer instance of a stored balancer; None when it cannot be built. */
  function BuildFor(st: Store, lb: Balancer): (r: Option<Instance>)
  {
    if lb.poolId !in st.pools then None
    else
      var pool := st.pools[lb.poolId];
      match Resolve(st, pool)
      case None => None
      case Some(proxies) => Build(lb, pool, proxies)
  }

  class BalancerService {
    var registry: map<string, Instance>

    constructor ()
      ensures registry == map[]
    {
      registry := map[];
    }

    /** Reloads every balancer into a fresh registry, or leaves the old registry in
        place when one of them cannot be built. */
    method Bootstrap(st: Store) returns (ok: bool)
      modifies this
      ensures ok == forall id | id in st.balancers :: BuildFor(st, st.balancers[id]).Some?
      ensures ok ==> registry.Keys == st.balancers.Keys
      ensures ok ==> forall id | id in st.balancers :: Some(registry[id]) == BuildFor(st, st.balancers[id])
      ensures !ok ==> registry == old(registry)
    {
      var rows := RowsOf(st.balancers);
      forall r: Row<Balancer>
        ensures r in rows <==> r.key in st.balancers && st.balancers[r.key] == r.value
      {
        RowsOfMembers(st.balancers, r);
      }
      var next: map<string, Instance> := map[];
      for i := 0 to |rows|
        invariant forall j | 0 <= j < i :: BuildFor(st, rows[j].value).Some? && rows[j].key in next
        invariant forall id | id in next :: id in st.balancers && Some(next[id]) == BuildFor(st, st.balancers[id])
      {
        assert rows[i] in rows;
        var instance := BuildFor(st, rows[i].value);
        if instance == None {
          return false;
        }
        next := next[rows[i].key := instance.value];
      }
      forall id | id in st.balancers
        ensures id in next
      {
        assert Row(id, st.balancers[id]) in rows;
      }
      registry := next;
      ok := true;
    }
  }

  /** On every reachable store every balancer can be built, so a reload never fails:
      the checks of the control plane imply those of the data plane. */
  lemma ReachableStoresLoad(lib: R.Library, st: Store, id: string)
    requires Reachable(lib, st) && id in st.balancers
    ensures BuildFor(st, st.balancers[id]).Some?
    ensures var pool := st.pools[st.balancers[id].poolId];
      pool.ptype == STATIC ==> BuildFor(st, st.balancers[id]).value.proxies != []
  {
    var lb := st.balancers[id];
    var pool := st.pools[lb.poolId];
    assert BalancerFormed(id, lb) && PoolFormed(lb.poolId, pool);
    if pool.ptype == STATIC {
      var ids := MemberIds(pool);
      forall i | 0 <= i < |ids|
        ensures ids[i] in st.proxies && st.proxies[ids[i]].id == pool.members[i].proxyId
        ensures pool.members[i].weight >= 1
      {
        assert pool.members[i] in pool.members;
        assert ProxyFormed(ids[i], st.proxies[ids[i]]);
      }
    }
  }

  // ---------- Requests ----------

  datatype Outcome =
    | Routed(balancer: string)
    | NoEntrypoint
    | NoFlow
    | NoRouter
    | NoMatchingRule
    | NothingConfigured
    | NoBalancer
    | NoProxy

  /** The next proxy of a balancer exists exactly when the balancer has proxies. */
  function PickFrom(registry: map<string, Instance>, balancer: string): Outcome
  {
    if balancer !in registry then NoBalancer
    else if registry[balancer].proxies == [] then NoProxy
    else Routed(balancer)
  }

  /** From an entrypoint through its flow, and its router if it has one, to a balancer;
      the cached routers are compiled. */
  ghost function ExecuteFlow(lib: R.Library, st: Store, registry: map<string, Instance>, entrypoint: string,
                             req: R.Request): (r: Outcome)
  {
    if entrypoint !in st.entrypoints then NoEntrypoint
    else
      var flowId := st.entrypoints[entrypoint].flowId;
      if flowId !in st.flows then NoFlow
      else
        var flow := st.flows[flowId];
        if flow.routerId != "" then
          if flow.routerId !in st.routers then NoRouter
          else
            match R.FirstMatch(lib, R.Map(R.CompiledRule, st.routers[flow.routerId].rules), req)
            case None => NoMatchingRule
            case Some(target) => PickFrom(registry, target)
        else if flow.balancerId != "" then PickFrom(registry, flow.balancerId)
        else NothingConfigured
  }

  ghost predicate Loaded(st: Store, registry: map<string, Instance>)
  {
    && registry.Keys == st.balancers.Keys
    && forall id | id in st.balancers :: Some(registry[id]) == BuildFor(st, st.balancers[id])
  }

  /** The labels that the pool selects by are carried by no stored proxy. */
  ghost predicate SelectsNothing(st: Store, pool: Pool)
  {
    && pool.ptype == DYNAMIC && pool.selector.Some?
    && Select(RowsOf(st.proxies), WithLabels(pool.selector.value)) == []
  }

  lemma PickNeverBroken(lib: R.Library, st: Store, registry: map<string, Instance>, balancer: string)
    requires Reachable(lib, st) && Loaded(st, registry) && balancer in st.balancers
    ensures PickFrom(registry, balancer)
         == if SelectsNothing(st, st.pools[st.balancers[balancer].poolId]) then NoProxy else Routed(balancer)
  {
    var lb := st.balancers[balancer];
    var pool := st.pools[lb.poolId];
    ReachableStoresLoad(lib, st, balancer);
    assert Some(registry[balancer]) == BuildFor(st, lb);
    assert PoolFormed(lb.poolId, pool);
    assert registry[balancer].proxies == Resolve(st, pool).value;
    if pool.ptype == DYNAMIC {
      assert |registry[balancer].proxies| == |Select(RowsOf(st.proxies), WithLabels(pool.selector.value))|;
    }
  }

  /** Rule `k` is the first that applies to the request. */
  ghost predicate FirstToApply(lib: R.Library, rules: seq<R.Rule>, req: R.Request, k: nat)
  {
    && k < |rules| && R.Says(lib, rules[k].match_, req)
    && forall j | 0 <= j < k :: !R.Says(lib, rules[j].match_, req)
  }

  /** The balancer that the configuration chooses for a request: the target of the first rule
      that applies, or the flow's own balancer when it has no router. */
  ghost predicate Chooses(lib: R.Library, st: Store, flow: Flow, req: R.Request, balancer: string)
  {
    if flow.routerId == "" then balancer == flow.balancerId
    else
      && flow.routerId in st.routers
      && exists k: nat :: FirstToApply(lib, st.routers[flow.routerId].rules, req, k)
                          && st.routers[flow.routerId].rules[k].target == balancer
  }

  /** What the configuration says about a request, and nothing else, explains the outcome. */
  ghost predicate Explained(lib: R.Library, st: Store, entrypoint: string, req: R.Request, outcome: Outcome)
  {
    && entrypoint in st.entrypoints && st.entrypoints[entrypoint].flowId in st.flows
    && var flow := st.flows[st.entrypoints[entrypoint].flowId];
       match outcome
       case Routed(balancer) =>
         && Chooses(lib, st, flow, req, balancer) && balancer in st.balancers
         && st.balancers[balancer].poolId in st.pools
         && !SelectsNothing(st, st.pools[st.balancers[balancer].poolId])
       case NoMatchingRule =>
         && flow.routerId != "" && flow.routerId in st.routers
         && forall rule | rule in st.routers[flow.routerId].rules :: !R.Says(lib, rule.match_, req)
       case NoProxy =>
         exists balancer ::
           && Chooses(lib, st, flow, req, balancer) && balancer in st.balancers
           && st.balancers[balancer].poolId in st.pools
           && SelectsNothing(st, st.pools[st.balancers[balancer].poolId])
       case _ => false
  }

  lemma PickExplained(lib: R.Library, st: Store, registry: map<string, Instance>, entrypoint: string, req: R.Request,
                      balancer: string)
    requires Reachable(lib, st) && Loaded(st, registry) && entrypoint in st.entrypoints && balancer in st.balancers
    requires Chooses(lib, st, st.flows[st.entrypoints[entrypoint].flowId], req, balancer)
    ensures Explained(lib, st, entrypoint, req, PickFrom(registry, balancer))
  {
    PickNeverBroken(lib, st, registry, balancer);
  }

  /** On every reachable store, a request to any stored entrypoint reaches the balancer that
      the configuration chooses for it, except in the two ways a configuration can mean: no
      rule of the router applies to the request, or the pool of the chosen balancer selects
      by labels that no proxy carries.  Missing flows, routers, balancers, pools or proxies
      never occur. */
  lemma RequestsNeverDangle(lib: R.Library, st: Store, registry: map<string, Instance>, entrypoint: string,
                            req: R.Request)
    requires Reachable(lib, st) && Loaded(st, registry) && entrypoint in st.entrypoints
    ensures Explained(lib, st, entrypoint, req, ExecuteFlow(lib, st, registry, entrypoint, req))
  {
    var flowId := st.entrypoints[entrypoint].flowId;
    var flow := st.flows[flowId];
    assert FlowFormed(flowId, flow);
    if flow.routerId != "" {
      var router := st.routers[flow.routerId];
      assert RouterFormed(lib, flow.routerId, router);
      var k := R.ResolveMeaning(lib, router.rules, req);
      if k < |router.rules| {
        assert FirstToApply(lib, router.rules, req, k);
        assert router.rules[k] in router.rules;
        PickExplained(lib, st, registry, entrypoint, req, router.rules[k].target);
      }
    } else {
      PickExplained(lib, st, registry, entrypoint, req, flow.balancerId);
    }
  }

  /** The same over whole runs: whatever was applied and deleted before, and however
      the balancers were loaded since. */
  lemma EveryRunServes(lib: R.Library, calls: seq<Call>, registry: map<string, Instance>, entrypoint: string,
                       req: R.Request)
    requires ProperRun(calls)
    requires Loaded(Run(INITIAL, lib, calls).store, registry)
    requires entrypoint in Run(INITIAL, lib, calls).store.entrypoints
    ensures var st := Run(INITIAL, lib, calls).store;
      Explained(lib, st, entrypoint, req, ExecuteFlow(lib, st, registry, entrypoint, req))
  {
    EveryRunSound(lib, calls);
    EveryRunFormed(lib, calls);
    RequestsNeverDangle(lib, Run(INITIAL, lib, calls).store, registry, entrypoint, req);
  }
}
