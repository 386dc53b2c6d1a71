/** What the data plane's balancers are made of, and the shares they give: said of the stored
    resources, not of how the balancers are built.
 */
module Instances {
  import opened Options
  import opened Keys
  import opened Pagination
  import opened Resources
  import opened ResourceGraph
  import opened ApplyOrder
  import opened DataPlane
  import opened Balancing
  import R = Routing

  /** The instance of a balancer on a static pool has its type, and in the order of the pool's
      members their stored proxies; a weighted one has their weights. */
  lemma StaticInstance(lib: R.Library, st: Store, id: string)
    requires Reachable(lib, st) && id in st.balancers
    requires st.pools[st.balancers[id].poolId].ptype == "static"
    ensures BuildFor(st, st.balancers[id]).Some?
    ensures var inst, members := BuildFor(st, st.balancers[id]).value, st.pools[st.balancers[id].poolId].members;
      && inst.btype == st.balancers[id].btype && |inst.proxies| == |members| > 0
      && (forall i | 0 <= i < |members| ::
            members[i].proxyId in st.proxies && inst.proxies[i] == st.proxies[members[i].proxyId])
      && (inst.btype == "weighted" ==>
            |inst.weights| == |members| && forall i | 0 <= i < |members| :: inst.weights[i] == members[i].weight)
  {
    ReachableStoresLoad(lib, st, id);
    var lb := st.balancers[id];
    var pool := st.pools[lb.poolId];
    assert BalancerFormed(id, lb) && PoolFormed(lb.poolId, pool);
    var ids := MemberIds(pool);
    assert |ids| == |pool.members| && forall i | 0 <= i < |ids| :: ids[i] == pool.members[i].proxyId;
    assert Resolve(st, pool) == ProxiesByIds(st.proxies, ids);
  }

  /** A proxy carries every required label; an absent label reads as empty. */
  predicate Carries(p: Proxy, required: map<string, string>)
  {
    forall k | k in required :: if k in p.labels then p.labels[k] == required[k] else required[k] == ""
  }

  /** The instance of a balancer on a dynamic pool has exactly the stored proxies that carry
      every label of the selector, once each, in key order. */
  lemma DynamicInstance(lib: R.Library, st: Store, id: string, p: Proxy)
    requires Reachable(lib, st) && id in st.balancers
    requires st.pools[st.balancers[id].poolId].ptype == "dynamic"
    ensures BuildFor(st, st.balancers[id]).Some? && st.pools[st.balancers[id].poolId].selector.Some?
    ensures var inst := BuildFor(st, st.balancers[id]).value;
      var required := st.pools[st.balancers[id].poolId].selector.value;
      && inst.btype == st.balancers[id].btype
      && (p in inst.proxies <==> p.id in st.proxies && st.proxies[p.id] == p && Carries(p, required))
      && (forall i, j :: 0 <= i < j < |inst.proxies| ==> Less(inst.proxies[i].id, inst.proxies[j].id))
  {
    ReachableStoresLoad(lib, st, id);
    var lb := st.balancers[id];
    var pool := st.pools[lb.poolId];
    assert BalancerFormed(id, lb) && PoolFormed(lb.poolId, pool);
    SelectedProxies(lib, st, pool.selector.value, p);
  }

  lemma SelectedRow(lib: R.Library, st: Store, required: map<string, string>, r: Row<Proxy>)
    requires Formed(lib, st)
    ensures r in Select(RowsOf(st.proxies), WithLabels(required)) <==>
      r.key in st.proxies && st.proxies[r.key] == r.value && Carries(r.value, required)
    ensures r.key in st.proxies && st.proxies[r.key] == r.value ==> r.value.id == r.key
  {
    SelectMembers(RowsOf(st.proxies), WithLabels(required), r);
    RowsOfMembers(st.proxies, r);
    if r.key in st.proxies {
      assert ProxyFormed(r.key, st.proxies[r.key]);
    }
  }

  lemma SelectedProxies(lib: R.Library, st: Store, required: map<string, string>, p: Proxy)
    requires Formed(lib, st)
    ensures var proxies := R.Map(RowValue, Select(RowsOf(st.proxies), WithLabels(required)));
      && (p in proxies <==> p.id in st.proxies && st.proxies[p.id] == p && Carries(p, required))
      && (forall i, j :: 0 <= i < j < |proxies| ==> Less(proxies[i].id, proxies[j].id))
  {
    var rows := Select(RowsOf(st.proxies), WithLabels(required));
    RowsOfSorted(st.proxies);
    SelectSorted(RowsOf(st.proxies), WithLabels(required));
    forall i | 0 <= i < |rows|
      ensures rows[i].key in st.proxies && st.proxies[rows[i].key] == rows[i].value && rows[i].value.id == rows[i].key
      ensures Carries(rows[i].value, required)
    {
      SelectedRow(lib, st, required, rows[i]);
    }
    SelectedRow(lib, st, required, Row(p.id, p));
    if Row(p.id, p) in rows {
      ValuesOf(rows, Row(p.id, p));
    }
  }

  lemma ValuesOf(rows: seq<Row<Proxy>>, r: Row<Proxy>)
    requires r in rows
    ensures r.value in R.Map(RowValue, rows)
  {
    var i :| 0 <= i < |rows| && rows[i] == r;
    assert R.Map(RowValue, rows)[i] == r.value;
  }

  function Weights(pool: Pool): (w: seq<int>)
    ensures |w| == |pool.members| && forall i | 0 <= i < |w| :: w[i] == pool.members[i].weight
  {
    seq(|pool.members|, i requires 0 <= i < |pool.members| => pool.members[i].weight)
  }

  /** In the window of `total` picks from `k` on, index `i` of `n` is picked `times` times. */
  ghost predicate Picked(picks: seq<nat>, n: nat, k: nat, total: nat, i: nat, times: int)
  {
    InRange(picks, n) && k + total <= |picks| && i < n && Counts(picks[k..k + total], n)[i] == times
  }

  /** Every window of as many picks as the members' weights sum to picks each member exactly as
      often as its weight, for every weighted balancer of every loaded store. */
  lemma LoadedShares(lib: R.Library, st: Store, registry: map<string, Instance>, id: string, picks: seq<nat>,
                     credits: seq<seq<int>>, total: nat, k: nat, i: nat)
    requires id in st.balancers && st.balancers[id].btype == "weighted" && st.balancers[id].poolId in st.pools
    requires id in registry && IsRun(registry[id].weights, picks, credits)
    requires Reachable(lib, st) && Loaded(st, registry)
    requires total == Sum(Weights(st.pools[st.balancers[id].poolId])) && k + total <= |picks|
    requires i < |st.pools[st.balancers[id].poolId].members|
    ensures var members := st.pools[st.balancers[id].poolId].members;
      && |registry[id].proxies| == |members| && members[i].proxyId in st.proxies
      && registry[id].proxies[i] == st.proxies[members[i].proxyId]
      && Picked(picks, |members|, k, total, i, members[i].weight)
  {
    var pool := st.pools[st.balancers[id].poolId];
    assert Some(registry[id]) == BuildFor(st, st.balancers[id]);
    StaticInstance(lib, st, id);
    assert PoolFormed(pool.id, pool);
    assert registry[id].weights == Weights(pool);
    assert ValidWeights(registry[id].weights) by {
      assert forall j | 0 <= j < |pool.members| :: pool.members[j] in pool.members;
    }
    EveryWindowExact(registry[id].weights, picks, credits, total, k);
  }

  /** The same over whole runs. */
  lemma EveryRunShares(lib: R.Library, calls: seq<Call>, registry: map<string, Instance>, id: string, picks: seq<nat>,
                       credits: seq<seq<int>>, total: nat, k: nat, i: nat)
    requires ProperRun(calls)
    requires var st := Run(INITIAL, lib, calls).store;
      && Loaded(st, registry) && id in st.balancers && id in registry && st.balancers[id].btype == "weighted"
      && IsRun(registry[id].weights, picks, credits)
      && st.balancers[id].poolId in st.pools
      && total == Sum(Weights(st.pools[st.balancers[id].poolId])) && k + total <= |picks|
      && i < |st.pools[st.balancers[id].poolId].members|
    ensures var st := Run(INITIAL, lib, calls).store;
      var members := st.pools[st.balancers[id].poolId].members;
      && |registry[id].proxies| == |members| && members[i].proxyId in st.proxies
      && registry[id].proxies[i] == st.proxies[members[i].proxyId]
      && Picked(picks, |members|, k, total, i, members[i].weight)
  {
    EveryRunSound(lib, calls);
    EveryRunFormed(lib, calls);
    StaticInstance(lib, Run(INITIAL, lib, calls).store, id);
    LoadedShares(lib, Run(INITIAL, lib, calls).store, registry, id, picks, credits, total, k, i);
  }
}
