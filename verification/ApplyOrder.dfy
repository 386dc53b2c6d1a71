/** Multi-document apply: the dependency order of documents, rebuilding a store from
    the documents of its resources in any order, and tearing a store down in the
    reverse order.
 */
module ApplyOrder {
  import opened Options
  import opened Resources
  import opened ResourceGraph
  import opened StableSort
  import opened Steps
  import R = Routing

  datatype Document = Document(kind: string, version: string, meta: Metadata, body: Body)

  const UNKNOWN_RANK := 6

  function KindRank(kind: string): nat
  {
    if kind == "Proxy" then 0
    else if kind == "Pool" then 1
    else if kind == "LoadBalancer" then 2
    else if kind == "Router" then 3
    else if kind == "Flow" then 4
    else if kind == "Entrypoint" then 5
    else UNKNOWN_RANK
  }

  function Rank(d: Document): nat { KindRank(d.kind) }

  function SortByApplyOrder(docs: seq<Document>): (r: seq<Document>)
  {
    Sort(Rank, docs)
  }

  // ---------- Applying documents ----------

  /** The dispatcher's switch on kind and version, and the decoding of the body. */
  function ApplyDocument(s: State, lib: R.Library, d: Document, env: Env): (State, Option<Error>)
  {
    if Rank(d) == UNKNOWN_RANK || d.version != "v1" then (s, Some(UnknownResource))
    else if BodyRank(d.body) != Rank(d) then (s, Some(DecodeFailed))
    else ExecApply(s, lib, d.meta, d.body, env)
  }

  /** Exactly the six kinds in version v1 are known. */
  lemma UnknownRefused(s: State, lib: R.Library, d: Document, env: Env)
    ensures ApplyDocument(s, lib, d, env).1 == Some(UnknownResource) <==>
      d.version != "v1" || d.kind !in {"Proxy", "Pool", "LoadBalancer", "Router", "Flow", "Entrypoint"}
    ensures ApplyDocument(s, lib, d, env).1 == Some(UnknownResource) ==> ApplyDocument(s, lib, d, env).0 == s
  {
  }

  function BodyRank(b: Body): nat
  {
    match b
    case ProxyBody(_) => 0
    case PoolBody(_) => 1
    case BalancerBody(_) => 2
    case RouterBody(_) => 3
    case FlowBody(_) => 4
    case EntrypointBody(_) => 5
  }

  /** The documents in turn, stopping at the first refusal. */
  function ApplyInTurn(s: State, lib: R.Library, docs: seq<Document>, env: nat -> Env): (State, Option<Error>)
  {
    RunSteps(DocumentStep(lib, docs, env), s, |docs|)
  }

  function DocumentStep(lib: R.Library, docs: seq<Document>, env: nat -> Env): (State, nat) -> (State, Option<Error>)
  {
    (s: State, i: nat) => if i < |docs| then ApplyDocument(s, lib, docs[i], env(i)) else (s, None)
  }

  function ApplyAll(s: State, lib: R.Library, docs: seq<Document>, env: nat -> Env): (State, Option<Error>)
  {
    ApplyInTurn(s, lib, SortByApplyOrder(docs), env)
  }

  /** A refusal is that of the first refused document in apply order: those before it have
      been applied and those after it have not been tried. */
  lemma StopsAtFirstRefusal(s: State, lib: R.Library, docs: seq<Document>, env: nat -> Env) returns (k: nat)
    requires ApplyAll(s, lib, docs, env).1.Some?
    ensures var ordered := SortByApplyOrder(docs);
      && k < |ordered|
      && RunSteps(DocumentStep(lib, ordered, env), s, k).1 == None
      && ApplyDocument(RunSteps(DocumentStep(lib, ordered, env), s, k).0, lib, ordered[k], env(k))
           == ApplyAll(s, lib, docs, env)
  {
    k := FirstFailure(DocumentStep(lib, SortByApplyOrder(docs), env), s, |SortByApplyOrder(docs)|);
  }

  // ---------- Well-formed stores ----------

  ghost predicate ProxyFormed(id: string, p: Proxy)
  {
    p.id == id && id != "" && ValidProxy(p)
  }

  ghost predicate PoolFormed(id: string, p: Pool)
  {
    p.id == id && ValidPool(p)
  }

  ghost predicate BalancerFormed(id: string, b: Balancer)
  {
    && b.id == id && id != "" && ValidBalancerType(b.btype) && b.poolId != ""
    && (if b.btype == LEAST_BYTES then b.resetInterval > 0 else b.resetInterval == 0)
  }

  ghost predicate RouterFormed(lib: R.Library, id: string, r: R.Router)
  {
    && r.id == id && id != "" && r.rules != [] && R.ValidRouter(lib, r.rules)
    && R.Map(R.StripRule, r.rules) == r.rules
    && forall rule | rule in r.rules :: ValidRuleSpec(R.RuleToSpec(rule))
  }

  ghost predicate FlowFormed(id: string, f: Flow)
  {
    f.id == id && id != "" && (f.routerId != "" || f.balancerId != "")
  }

  ghost predicate EntrypointFormed(id: string, e: Entrypoint)
  {
    e.id == id && id != "" && ValidEntrypoint(e) && e.flowId != ""
  }

  /** Every stored resource carries the id it is stored under and passed its
      validations. */
  ghost predicate Formed(lib: R.Library, st: Store)
  {
    && (forall id | id in st.proxies :: ProxyFormed(id, st.proxies[id]))
    && (forall id | id in st.pools :: PoolFormed(id, st.pools[id]))
    && (forall id | id in st.balancers :: BalancerFormed(id, st.balancers[id]))
    && (forall id | id in st.routers :: RouterFormed(lib, id, st.routers[id]))
    && (forall id | id in st.flows :: FlowFormed(id, st.flows[id]))
    && (forall id | id in st.entrypoints :: EntrypointFormed(id, st.entrypoints[id]))
  }

  lemma CheckedRouterFormed(st: Store, lib: R.Library, meta: Metadata, s: R.RouterSpec, env: Env)
    requires CheckRouter(st, lib, meta, s, env).Ok? && env.generated != ""
    ensures var r := CheckRouter(st, lib, meta, s, env).value; RouterFormed(lib, r.id, r)
  {
    var r := CheckRouter(st, lib, meta, s, env).value;
    forall i | 0 <= i < |s.rules|
      ensures R.StripRule(r.rules[i]) == r.rules[i] && ValidRuleSpec(R.RuleToSpec(r.rules[i]))
    {
      R.RuleSpecDumpRoundTrip(s.rules[i]);
      R.RuleDumpRoundTrip(r.rules[i]);
      assert s.rules[i] in s.rules;
    }
    assert R.Map(R.StripRule, r.rules) == r.rules;
  }

  lemma CheckedProxyFormed(st: Store, meta: Metadata, s: ProxySpec, env: Env)
    requires CheckProxy(st, meta, s, env).Ok? && env.generated != ""
    ensures var p := CheckProxy(st, meta, s, env).value; ProxyFormed(p.id, p)
  {
  }

  lemma CheckedPoolFormed(st: Store, meta: Metadata, s: PoolSpec, env: Env)
    requires CheckPool(st, meta, s, env).Ok?
    ensures var p := CheckPool(st, meta, s, env).value; PoolFormed(p.id, p)
  {
  }

  lemma CheckedBalancerFormed(st: Store, meta: Metadata, s: BalancerSpec, env: Env)
    requires CheckBalancer(st, meta, s, env).Ok? && env.generated != ""
    ensures var b := CheckBalancer(st, meta, s, env).value; BalancerFormed(b.id, b)
  {
  }

  lemma CheckedFlowFormed(st: Store, meta: Metadata, s: FlowSpec, env: Env)
    requires CheckFlow(st, meta, s, env).Ok? && env.generated != ""
    ensures var f := CheckFlow(st, meta, s, env).value; FlowFormed(f.id, f)
  {
  }

  lemma CheckedEntrypointFormed(st: Store, meta: Metadata, s: EntrypointSpec, env: Env)
    requires CheckEntrypoint(st, meta, s, env).Ok? && env.generated != ""
    ensures var e := CheckEntrypoint(st, meta, s, env).value; EntrypointFormed(e.id, e)
  {
  }

  lemma ApplyKeepsFormed(s: State, lib: R.Library, meta: Metadata, body: Body, env: Env)
    requires Formed(lib, s.store) && env.generated != ""
    ensures Formed(lib, ExecApply(s, lib, meta, body, env).0.store)
  {
    var st := s.store;
    if ExecApply(s, lib, meta, body, env).1 == None {
      match body
      case ProxyBody(spec) => CheckedProxyFormed(st, meta, spec, env);
      case PoolBody(spec) => CheckedPoolFormed(st, meta, spec, env);
      case BalancerBody(spec) => CheckedBalancerFormed(st, meta, spec, env);
      case RouterBody(spec) => CheckedRouterFormed(st, lib, meta, spec, env);
      case FlowBody(spec) => CheckedFlowFormed(st, meta, spec, env);
      case EntrypointBody(spec) => CheckedEntrypointFormed(st, meta, spec, env);
    }
  }

  lemma DeleteKeepsFormed(s: State, lib: R.Library, kind: Kind, name: string)
    requires Formed(lib, s.store)
    ensures Formed(lib, ExecDelete(s, kind, name).0.store)
  {
  }

  lemma {:induction false} EveryRunFormed(lib: R.Library, calls: seq<Call>)
    requires ProperRun(calls)
    ensures Formed(lib, Run(INITIAL, lib, calls).store)
  {
    if calls != [] {
      var prefix, last := calls[..|calls| - 1], calls[|calls| - 1];
      EveryRunFormed(lib, prefix);
      var s := Run(INITIAL, lib, prefix);
      match last.command
      case Delete(kind, name) => DeleteKeepsFormed(s, lib, kind, name);
      case Apply(meta, body) => ApplyKeepsFormed(s, lib, meta, body, last.env);
    }
  }

  // ---------- Rebuilding a store from its documents ----------

  function ProxyToSpec(p: Proxy): ProxySpec { ProxySpec("", None, p.protocol, p.host, p.port, p.auth) }
  function MemberToSpec(m: Member): MemberSpec { MemberSpec(m.proxyId, Some(m.weight)) }
  function PoolToSpec(p: Pool): PoolSpec
  {
    PoolSpec(p.title, p.ptype, R.Map(MemberToSpec, p.members), p.selector)
  }
  function BalancerToSpec(b: Balancer): BalancerSpec
  {
    BalancerSpec(b.title, b.btype, b.poolId, if b.btype == LEAST_BYTES then Given(b.resetInterval) else Unset)
  }
  function RouterToSpec(r: R.Router): R.RouterSpec
  {
    R.RouterSpec(r.title, r.description, R.Map(R.RuleToSpec, r.rules))
  }

  function RankOf(kind: Kind): nat
  {
    match kind
    case ProxyKind => 0
    case PoolKind => 1
    case BalancerKind => 2
    case RouterKind => 3
    case FlowKind => 4
    case EntrypointKind => 5
  }

  /** The document of a stored resource. */
  function DocumentOf(st: Store, kind: Kind, id: string): (d: Document)
    requires id in st.Ids(kind)
    ensures Rank(d) == BodyRank(d.body) == RankOf(kind) && d.version == "v1"
  {
    match kind
    case ProxyKind =>
      var p := st.proxies[id];
      Document("Proxy", "v1", Metadata(p.id, p.labels), ProxyBody(ProxyToSpec(p)))
    case PoolKind =>
      var p := st.pools[id];
      Document("Pool", "v1", Metadata(p.id, p.labels), PoolBody(PoolToSpec(p)))
    case BalancerKind =>
      var b := st.balancers[id];
      Document("LoadBalancer", "v1", Metadata(b.id, map[]), BalancerBody(BalancerToSpec(b)))
    case RouterKind =>
      var r := st.routers[id];
      Document("Router", "v1", Metadata(r.id, map[]), RouterBody(RouterToSpec(r)))
    case FlowKind =>
      var f := st.flows[id];
      Document("Flow", "v1", Metadata(f.id, map[]), FlowBody(FlowSpec(f.routerId, f.balancerId)))
    case EntrypointKind =>
      var e := st.entrypoints[id];
      Document("Entrypoint", "v1", Metadata(e.id, map[]),
               EntrypointBody(EntrypointSpec(e.title, e.protocol, e.host, e.port, e.flowId)))
  }

  /** `docs` are the documents of the resources of `st`: in any order, and possibly
      with repetitions. */
  ghost predicate DocumentsOf(docs: seq<Document>, st: Store)
  {
    && (forall kind: Kind, id | id in st.Ids(kind) :: DocumentOf(st, kind, id) in docs)
    && (forall d | d in docs :: exists kind: Kind, id :: id in st.Ids(kind) && d == DocumentOf(st, kind, id))
  }

  // Resources without their timestamps, and equality up to timestamps.
  function UntimedProxy(p: Proxy): Proxy { p.(createdAt := 0, updatedAt := 0) }
  predicate SameProxy(p: Proxy, q: Proxy) { UntimedProxy(p) == UntimedProxy(q) }
  function UntimedPool(p: Pool): Pool { p.(createdAt := 0, updatedAt := 0) }
  predicate SamePool(p: Pool, q: Pool) { UntimedPool(p) == UntimedPool(q) }
  function UntimedBalancer(p: Balancer): Balancer { p.(createdAt := 0, updatedAt := 0) }
  predicate SameBalancer(p: Balancer, q: Balancer) { UntimedBalancer(p) == UntimedBalancer(q) }
  function UntimedRouter(p: R.Router): R.Router { p.(createdAt := 0, updatedAt := 0) }
  predicate SameRouter(p: R.Router, q: R.Router) { UntimedRouter(p) == UntimedRouter(q) }
  function UntimedFlow(p: Flow): Flow { p.(createdAt := 0, updatedAt := 0) }
  predicate SameFlow(p: Flow, q: Flow) { UntimedFlow(p) == UntimedFlow(q) }
  function UntimedEntrypoint(p: Entrypoint): Entrypoint { p.(createdAt := 0, updatedAt := 0) }
  predicate SameEntrypoint(p: Entrypoint, q: Entrypoint) { UntimedEntrypoint(p) == UntimedEntrypoint(q) }

  function Each<T>(f: T -> T, m: map<string, T>): map<string, T>
  {
    map id | id in m :: f(m[id])
  }

  lemma EachEqual<T>(f: T -> T, a: map<string, T>, b: map<string, T>)
    requires a.Keys == b.Keys && forall id | id in a :: f(a[id]) == f(b[id])
    ensures Each(f, a) == Each(f, b)
  {
  }

  /** A store without its timestamps. */
  function Untimed(st: Store): Store
  {
    Store(Each(UntimedProxy, st.proxies), Each(UntimedPool, st.pools), Each(UntimedBalancer, st.balancers),
          Each(UntimedRouter, st.routers), Each(UntimedFlow, st.flows), Each(UntimedEntrypoint, st.entrypoints))
  }

  /** `part` holds some of the resources of `whole`, up to timestamps. */
  ghost predicate PartOf(part: Store, whole: Store)
  {
    && (forall id | id in part.proxies :: id in whole.proxies && SameProxy(part.proxies[id], whole.proxies[id]))
    && (forall id | id in part.pools :: id in whole.pools && SamePool(part.pools[id], whole.pools[id]))
    && (forall id | id in part.balancers ::
          id in whole.balancers && SameBalancer(part.balancers[id], whole.balancers[id]))
    && (forall id | id in part.routers :: id in whole.routers && SameRouter(part.routers[id], whole.routers[id]))
    && (forall id | id in part.flows :: id in whole.flows && SameFlow(part.flows[id], whole.flows[id]))
    && (forall id | id in part.entrypoints ::
          id in whole.entrypoints && SameEntrypoint(part.entrypoints[id], whole.entrypoints[id]))
  }

  /** A part with all the ids is the whole, up to timestamps. */
  lemma FullPart(part: Store, whole: Store)
    requires PartOf(part, whole) && forall kind: Kind :: part.Ids(kind) == whole.Ids(kind)
    ensures Untimed(part) == Untimed(whole)
  {
    assert part.Ids(ProxyKind) == whole.Ids(ProxyKind);
    EachEqual(UntimedProxy, part.proxies, whole.proxies);
    assert part.Ids(PoolKind) == whole.Ids(PoolKind);
    EachEqual(UntimedPool, part.pools, whole.pools);
    assert part.Ids(BalancerKind) == whole.Ids(BalancerKind);
    EachEqual(UntimedBalancer, part.balancers, whole.balancers);
    assert part.Ids(RouterKind) == whole.Ids(RouterKind);
    EachEqual(UntimedRouter, part.routers, whole.routers);
    assert part.Ids(FlowKind) == whole.Ids(FlowKind);
    EachEqual(UntimedFlow, part.flows, whole.flows);
    assert part.Ids(EntrypointKind) == whole.Ids(EntrypointKind);
    EachEqual(UntimedEntrypoint, part.entrypoints, whole.entrypoints);
  }

  /** The store a run may reach: what `EveryRunSound` and `EveryRunFormed` establish. */
  ghost predicate Reachable(lib: R.Library, st: Store)
  {
    NoDangling(st) && WeightedOnStatic(st) && Formed(lib, st)
  }

  /** Everything a resource refers to ranks below it, and is named by `Needs`. */
  ghost predicate Needs(st: Store, kind: Kind, id: string, refKind: Kind, ref: string)
    requires id in st.Ids(kind)
  {
    match kind
    case ProxyKind => false
    case PoolKind => refKind == ProxyKind && PoolUses(st.pools[id], ref)
    case BalancerKind => refKind == PoolKind && ref == st.balancers[id].poolId
    case RouterKind => refKind == BalancerKind && RouterTargets(st.routers[id], ref)
    case FlowKind =>
      || (refKind == RouterKind && ref == st.flows[id].routerId && ref != "")
      || (refKind == BalancerKind && ref == st.flows[id].balancerId && ref != "")
    case EntrypointKind => refKind == FlowKind && ref == st.entrypoints[id].flowId
  }

  lemma NeedsStoredBelow(st: Store, kind: Kind, id: string, refKind: Kind, ref: string)
    requires NoDangling(st) && id in st.Ids(kind) && Needs(st, kind, id, refKind, ref)
    ensures ref in st.Ids(refKind) && RankOf(refKind) < RankOf(kind)
  {
  }

  ghost predicate NeedsMet(part: Store, whole: Store, kind: Kind, id: string)
    requires id in whole.Ids(kind)
  {
    forall refKind: Kind, ref | Needs(whole, kind, id, refKind, ref) :: ref in part.Ids(refKind)
  }

  lemma PoolSpecRoundTrip(p: Pool)
    requires ValidPool(p)
    ensures ValidPoolSpec(PoolToSpec(p))
    ensures PoolFromSpec(Metadata(p.id, p.labels), PoolToSpec(p)) == p.(createdAt := 0, updatedAt := 0)
  {
    var s := PoolToSpec(p);
    assert forall i | 0 <= i < |p.members| :: s.members[i].proxyId == p.members[i].proxyId;
    if p.ptype == STATIC {
      assert R.Map(MemberFromSpec, s.members) == p.members;
    }
  }

  lemma RouterSpecRoundTrip(lib: R.Library, id: string, r: R.Router)
    requires RouterFormed(lib, id, r)
    ensures ValidRouterSpec(RouterToSpec(r))
    ensures RouterFromSpec(Metadata(r.id, map[]), RouterToSpec(r)) == r.(createdAt := 0, updatedAt := 0)
  {
    var s := RouterToSpec(r);
    var back := RouterFromSpec(Metadata(r.id, map[]), s);
    forall i | 0 <= i < |r.rules|
      ensures back.rules[i] == r.rules[i] && ValidRuleSpec(s.rules[i])
    {
      R.RuleDumpRoundTrip(r.rules[i]);
      assert R.Map(R.StripRule, r.rules)[i] == r.rules[i];
      assert r.rules[i] in r.rules;
    }
    assert back.rules == r.rules;
  }

  lemma ProxyAccepted(part: Store, whole: Store, id: string, env: Env)
    requires PartOf(part, whole) && id in whole.proxies && ProxyFormed(id, whole.proxies[id])
    ensures var p := whole.proxies[id];
      var r := CheckProxy(part, Metadata(p.id, p.labels), ProxyToSpec(p), env);
      r.Ok? && r.value.id == id && SameProxy(r.value, p)
  {
  }

  lemma PoolAccepted(part: Store, whole: Store, id: string, env: Env)
    requires PartOf(part, whole) && WeightedOnStatic(whole)
    requires id in whole.pools && PoolFormed(id, whole.pools[id])
    requires NeedsMet(part, whole, PoolKind, id)
    ensures var p := whole.pools[id];
      var r := CheckPool(part, Metadata(p.id, p.labels), PoolToSpec(p), env);
      r.Ok? && r.value.id == id && SamePool(r.value, p)
  {
    var p := whole.pools[id];
    PoolSpecRoundTrip(p);
    var built := PoolFromSpec(Metadata(p.id, p.labels), PoolToSpec(p));
    assert FirstMissing(MemberIds(built), part.proxies.Keys) == None by {
      forall i | 0 <= i < |p.members|
        ensures MemberIds(built)[i] in part.proxies
      {
        assert p.members[i] in p.members;
        assert Needs(whole, PoolKind, id, ProxyKind, p.members[i].proxyId);
        assert p.members[i].proxyId in part.Ids(ProxyKind);
      }
    }
    if p.ptype != STATIC {
      ListedNone(BalancerKind, part.balancers, BalancersOn(id, WEIGHTED));
    }
  }

  lemma BalancerAccepted(part: Store, whole: Store, id: string, env: Env)
    requires PartOf(part, whole) && WeightedOnStatic(whole)
    requires id in whole.balancers && BalancerFormed(id, whole.balancers[id])
    requires NeedsMet(part, whole, BalancerKind, id)
    ensures var b := whole.balancers[id];
      var r := CheckBalancer(part, Metadata(b.id, map[]), BalancerToSpec(b), env);
      r.Ok? && r.value.id == id && SameBalancer(r.value, b)
  {
    var b := whole.balancers[id];
    assert Needs(whole, BalancerKind, id, PoolKind, b.poolId);
    assert b.poolId in part.Ids(PoolKind);
    assert SamePool(part.pools[b.poolId], whole.pools[b.poolId]);
  }

  lemma RouterAccepted(part: Store, whole: Store, lib: R.Library, id: string, env: Env)
    requires PartOf(part, whole)
    requires id in whole.routers && RouterFormed(lib, id, whole.routers[id])
    requires NeedsMet(part, whole, RouterKind, id)
    ensures var w := whole.routers[id];
      var r := CheckRouter(part, lib, Metadata(w.id, map[]), RouterToSpec(w), env);
      r.Ok? && r.value.id == id && SameRouter(r.value, w)
  {
    var r := whole.routers[id];
    RouterSpecRoundTrip(lib, id, r);
    var built := RouterFromSpec(Metadata(r.id, map[]), RouterToSpec(r));
    assert FirstMissing(Targets(built), part.balancers.Keys) == None by {
      forall i | 0 <= i < |r.rules|
        ensures Targets(built)[i] in part.balancers
      {
        assert r.rules[i] in r.rules;
        assert Needs(whole, RouterKind, id, BalancerKind, r.rules[i].target);
        assert r.rules[i].target in part.Ids(BalancerKind);
      }
    }
  }

  lemma FlowAccepted(part: Store, whole: Store, id: string, env: Env)
    requires PartOf(part, whole) && id in whole.flows && FlowFormed(id, whole.flows[id])
    requires NeedsMet(part, whole, FlowKind, id)
    ensures var f := whole.flows[id];
      var r := CheckFlow(part, Metadata(f.id, map[]), FlowSpec(f.routerId, f.balancerId), env);
      r.Ok? && r.value.id == id && SameFlow(r.value, f)
  {
    var f := whole.flows[id];
    if f.routerId != "" {
      assert Needs(whole, FlowKind, id, RouterKind, f.routerId);
      assert f.routerId in part.Ids(RouterKind);
    }
    if f.balancerId != "" {
      assert Needs(whole, FlowKind, id, BalancerKind, f.balancerId);
      assert f.balancerId in part.Ids(BalancerKind);
    }
  }

  lemma EntrypointAccepted(part: Store, whole: Store, id: string, env: Env)
    requires PartOf(part, whole) && id in whole.entrypoints && EntrypointFormed(id, whole.entrypoints[id])
    requires NeedsMet(part, whole, EntrypointKind, id)
    ensures var e := whole.entrypoints[id];
      var spec := EntrypointSpec(e.title, e.protocol, e.host, e.port, e.flowId);
      var r := CheckEntrypoint(part, Metadata(e.id, map[]), spec, env);
      r.Ok? && r.value.id == id && SameEntrypoint(r.value, e)
  {
    var e := whole.entrypoints[id];
    assert Needs(whole, EntrypointKind, id, FlowKind, e.flowId);
    assert e.flowId in part.Ids(FlowKind);
  }

  /** `s'` is `s` with one resource of `whole` added. */
  ghost predicate Added(s: State, s': State, whole: Store, kind: Kind, id: string)
  {
    && PartOf(s'.store, whole)
    && forall k: Kind :: s'.store.Ids(k) == s.store.Ids(k) + if k == kind then {id} else {}
  }

  lemma ProxySaved(s: State, whole: Store, id: string, v: Proxy)
    requires PartOf(s.store, whole) && id in whole.proxies && SameProxy(v, whole.proxies[id])
    ensures Added(s, Publish(s, s.store.(proxies := s.store.proxies[id := v]), ProxyKind, id, Saved),
                  whole, ProxyKind, id)
  {
  }

  lemma PoolSaved(s: State, whole: Store, id: string, v: Pool)
    requires PartOf(s.store, whole) && id in whole.pools && SamePool(v, whole.pools[id])
    ensures Added(s, Publish(s, s.store.(pools := s.store.pools[id := v]), PoolKind, id, Saved),
                  whole, PoolKind, id)
  {
  }

  lemma BalancerSaved(s: State, whole: Store, id: string, v: Balancer)
    requires PartOf(s.store, whole) && id in whole.balancers && SameBalancer(v, whole.balancers[id])
    ensures Added(s, Publish(s, s.store.(balancers := s.store.balancers[id := v]), BalancerKind, id, Saved),
                  whole, BalancerKind, id)
  {
  }

  lemma RouterSaved(s: State, whole: Store, id: string, v: R.Router)
    requires PartOf(s.store, whole) && id in whole.routers && SameRouter(v, whole.routers[id])
    ensures Added(s, Publish(s, s.store.(routers := s.store.routers[id := v]), RouterKind, id, Saved),
                  whole, RouterKind, id)
  {
  }

  lemma FlowSaved(s: State, whole: Store, id: string, v: Flow)
    requires PartOf(s.store, whole) && id in whole.flows && SameFlow(v, whole.flows[id])
    ensures Added(s, Publish(s, s.store.(flows := s.store.flows[id := v]), FlowKind, id, Saved),
                  whole, FlowKind, id)
  {
  }

  lemma EntrypointSaved(s: State, whole: Store, id: string, v: Entrypoint)
    requires PartOf(s.store, whole) && id in whole.entrypoints && SameEntrypoint(v, whole.entrypoints[id])
    ensures Added(s, Publish(s, s.store.(entrypoints := s.store.entrypoints[id := v]), EntrypointKind, id, Saved),
                  whole, EntrypointKind, id)
  {
  }

  /** Applying the document of one resource of `whole` to a part of `whole` that holds
      everything it refers to succeeds and adds exactly that resource. */
  lemma DocumentAccepted(s: State, whole: Store, lib: R.Library, kind: Kind, id: string, env: Env)
    requires Reachable(lib, whole) && PartOf(s.store, whole)
    requires id in whole.Ids(kind) && NeedsMet(s.store, whole, kind, id)
    ensures var r := ApplyDocument(s, lib, DocumentOf(whole, kind, id), env);
      r.1 == None && Added(s, r.0, whole, kind, id)
  {
    var d, st := DocumentOf(whole, kind, id), s.store;
    assert ApplyDocument(s, lib, d, env) == ExecApply(s, lib, d.meta, d.body, env);
    match kind
    case ProxyKind =>
      ProxyAccepted(st, whole, id, env);
      ProxySaved(s, whole, id, CheckProxy(st, d.meta, d.body.proxy, env).value);
    case PoolKind =>
      PoolAccepted(st, whole, id, env);
      PoolSaved(s, whole, id, CheckPool(st, d.meta, d.body.pool, env).value);
    case BalancerKind =>
      BalancerAccepted(st, whole, id, env);
      BalancerSaved(s, whole, id, CheckBalancer(st, d.meta, d.body.balancer, env).value);
    case RouterKind =>
      RouterAccepted(st, whole, lib, id, env);
      RouterSaved(s, whole, id, CheckRouter(st, lib, d.meta, d.body.router, env).value);
    case FlowKind =>
      FlowAccepted(st, whole, id, env);
      FlowSaved(s, whole, id, CheckFlow(st, d.meta, d.body.flow, env).value);
    case EntrypointKind =>
      EntrypointAccepted(st, whole, id, env);
      EntrypointSaved(s, whole, id, CheckEntrypoint(st, d.meta, d.body.entrypoint, env).value);
  }

  // ---------- The rebuild ----------

  ghost predicate Progress(s: State, whole: Store, docs: seq<Document>, n: nat)
    requires n <= |docs|
  {
    && PartOf(s.store, whole)
    && forall kind: Kind, id | id in whole.Ids(kind) && DocumentOf(whole, kind, id) in docs[..n] ::
         id in s.store.Ids(kind)
  }

  /** In rank order, a document of lower rank has been applied before. */
  lemma LowerRankApplied(s: State, whole: Store, docs: seq<Document>, n: nat, kind: Kind, id: string)
    requires Ranked(Rank, docs) && n < |docs| && Progress(s, whole, docs, n)
    requires id in whole.Ids(kind) && DocumentOf(whole, kind, id) in docs && RankOf(kind) < Rank(docs[n])
    ensures id in s.store.Ids(kind)
  {
    var d := DocumentOf(whole, kind, id);
    var j :| 0 <= j < |docs| && docs[j] == d;
    assert d in docs[..n] by {
      assert j < n;
    }
  }

  /** So whatever the next document refers to has been applied. */
  lemma EarlierDocumentsSuffice(s: State, whole: Store, docs: seq<Document>, n: nat, kind: Kind, id: string)
    requires NoDangling(whole) && DocumentsOf(docs, whole) && Ranked(Rank, docs)
    requires n < |docs| && Progress(s, whole, docs, n)
    requires id in whole.Ids(kind) && docs[n] == DocumentOf(whole, kind, id)
    ensures NeedsMet(s.store, whole, kind, id)
  {
    forall refKind: Kind, ref | Needs(whole, kind, id, refKind, ref)
      ensures ref in s.store.Ids(refKind)
    {
      NeedsStoredBelow(whole, kind, id, refKind, ref);
      LowerRankApplied(s, whole, docs, n, refKind, ref);
    }
  }

  lemma StepProgresses(s: State, whole: Store, lib: R.Library, docs: seq<Document>, n: nat, env: Env)
    requires Reachable(lib, whole) && DocumentsOf(docs, whole) && Ranked(Rank, docs)
    requires n < |docs| && Progress(s, whole, docs, n)
    ensures var r := ApplyDocument(s, lib, docs[n], env);
      r.1 == None && Progress(r.0, whole, docs, n + 1)
  {
    assert docs[n] in docs;
    var kind: Kind, id :| id in whole.Ids(kind) && docs[n] == DocumentOf(whole, kind, id);
    EarlierDocumentsSuffice(s, whole, docs, n, kind, id);
    DocumentAccepted(s, whole, lib, kind, id, env);
    AddedProgresses(s, ApplyDocument(s, lib, docs[n], env).0, whole, lib, docs, n, kind, id);
  }

  lemma ApplyInTurnProgresses(s: State, whole: Store, lib: R.Library, docs: seq<Document>, env: nat -> Env)
    requires Reachable(lib, whole) && DocumentsOf(docs, whole) && Ranked(Rank, docs)
    requires Progress(s, whole, docs, 0)
    ensures var r := ApplyInTurn(s, lib, docs, env);
      r.1 == None && Progress(r.0, whole, docs, |docs|)
  {
    var step := DocumentStep(lib, docs, env);
    var inv := (t: State, i: nat) => i <= |docs| && Progress(t, whole, docs, i);
    forall t: State, i: nat | i < |docs| && inv(t, i)
      ensures step(t, i).1 == None && inv(step(t, i).0, i + 1)
    {
      StepProgresses(t, whole, lib, docs, i, env(i));
    }
    StepsKeep(step, inv, s, |docs|);
  }

  lemma SameDocumentSameResource(whole: Store, lib: R.Library, kind: Kind, id: string, kind': Kind, id': string)
    requires Formed(lib, whole)
    requires id in whole.Ids(kind) && id' in whole.Ids(kind')
    requires DocumentOf(whole, kind, id) == DocumentOf(whole, kind', id')
    ensures kind == kind' && id == id'
  {
    assert RankOf(kind) == RankOf(kind');
    assert DocumentOf(whole, kind, id).meta.name == id;
    assert DocumentOf(whole, kind', id').meta.name == id';
  }

  lemma AddedKeeps(s: State, s': State, whole: Store, lib: R.Library, docs: seq<Document>, n: nat, kind: Kind,
                   id: string, k: Kind, x: string)
    requires n < |docs| && Formed(lib, whole) && Added(s, s', whole, kind, id)
    requires id in whole.Ids(kind) && docs[n] == DocumentOf(whole, kind, id)
    requires x in whole.Ids(k) && (DocumentOf(whole, k, x) in docs[..n] ==> x in s.store.Ids(k))
    requires DocumentOf(whole, k, x) in docs[..n + 1]
    ensures x in s'.store.Ids(k)
  {
    assert docs[..n + 1] == docs[..n] + [docs[n]];
    if DocumentOf(whole, k, x) == docs[n] {
      SameDocumentSameResource(whole, lib, kind, id, k, x);
    }
  }

  lemma AddedProgresses(s: State, s': State, whole: Store, lib: R.Library, docs: seq<Document>, n: nat, kind: Kind,
                        id: string)
    requires n < |docs| && Formed(lib, whole) && Progress(s, whole, docs, n)
    requires id in whole.Ids(kind) && docs[n] == DocumentOf(whole, kind, id)
    requires Added(s, s', whole, kind, id)
    ensures Progress(s', whole, docs, n + 1)
  {
    forall k: Kind, x | x in whole.Ids(k) && DocumentOf(whole, k, x) in docs[..n + 1]
      ensures x in s'.store.Ids(k)
    {
      AddedKeeps(s, s', whole, lib, docs, n, kind, id, k, x);
    }
  }

  /** For every reachable store: the documents of all its resources, in any order,
      applied to an empty store all succeed and rebuild the store, up to timestamps. */
  lemma RebuildFromDocuments(events: seq<Event>, whole: Store, lib: R.Library, docs: seq<Document>, env: nat -> Env)
    requires Reachable(lib, whole) && DocumentsOf(docs, whole)
    ensures var r := ApplyAll(State(EMPTY_STORE, events), lib, docs, env);
      r.1 == None && Untimed(r.0.store) == Untimed(whole)
  {
    var ordered := SortByApplyOrder(docs);
    SortIsStable(Rank, docs, 0);
    SortKeepsDocuments(docs, whole);
    ApplyInTurnProgresses(State(EMPTY_STORE, events), whole, lib, ordered, env);
    var s := ApplyInTurn(State(EMPTY_STORE, events), lib, ordered, env).0;
    assert ordered[..|ordered|] == ordered;
    forall kind: Kind
      ensures s.store.Ids(kind) == whole.Ids(kind)
    {
      PartIds(s.store, whole, kind);
    }
    FullPart(s.store, whole);
  }

  lemma PartIds(part: Store, whole: Store, kind: Kind)
    requires PartOf(part, whole)
    ensures part.Ids(kind) <= whole.Ids(kind)
  {
  }

  lemma SortKeepsDocuments(docs: seq<Document>, whole: Store)
    requires DocumentsOf(docs, whole)
    ensures DocumentsOf(SortByApplyOrder(docs), whole)
  {
    forall d
      ensures d in SortByApplyOrder(docs) <==> d in docs
    {
      SortMembers(Rank, docs, d);
    }
  }

  /** Over every run: what was built by any sequence of calls can be rebuilt from its
      documents in any order. */
  lemma EveryRunRebuilds(lib: R.Library, calls: seq<Call>, docs: seq<Document>, env: nat -> Env)
    requires ProperRun(calls) && DocumentsOf(docs, Run(INITIAL, lib, calls).store)
    ensures var r := ApplyAll(INITIAL, lib, docs, env);
      r.1 == None && Untimed(r.0.store) == Untimed(Run(INITIAL, lib, calls).store)
  {
    EveryRunSound(lib, calls);
    EveryRunFormed(lib, calls);
    RebuildFromDocuments([], Run(INITIAL, lib, calls).store, lib, docs, env);
  }

  // ---------- The teardown ----------

  datatype Target = Target(kind: Kind, id: string)

  function DeleteInTurn(s: State, targets: seq<Target>): (State, Option<Error>)
  {
    RunSteps(DeleteStep(targets), s, |targets|)
  }

  function DeleteStep(targets: seq<Target>): (State, nat) -> (State, Option<Error>)
  {
    (s: State, i: nat) => if i < |targets| then ExecDelete(s, targets[i].kind, targets[i].id) else (s, None)
  }

  /** Every resource once, dependents first: entrypoints, flows, routers, balancers,
      pools, proxies. */
  ghost predicate TeardownOrder(targets: seq<Target>, st: Store)
  {
    && (forall t | t in targets :: t.id in st.Ids(t.kind))
    && (forall kind: Kind, id | id in st.Ids(kind) :: Target(kind, id) in targets)
    && (forall i, j :: 0 <= i < j < |targets| ==> targets[i] != targets[j])
    && (forall i, j :: 0 <= i < j < |targets| ==> RankOf(targets[i].kind) >= RankOf(targets[j].kind))
  }

  /** Whatever refers to a resource ranks above it. */
  lemma ReferrerRanksAbove(st: Store, kind: Kind, name: string)
    requires Referenced(st, kind, name)
    ensures exists k: Kind, id :: id in st.Ids(k) && RankOf(k) > RankOf(kind)
  {
    match kind
    case ProxyKind =>
      var id :| id in st.pools && PoolUses(st.pools[id], name);
      assert id in st.Ids(PoolKind);
    case PoolKind =>
      var id :| id in st.balancers && st.balancers[id].poolId == name;
      assert id in st.Ids(BalancerKind);
    case BalancerKind =>
      if id :| id in st.flows && st.flows[id].balancerId == name {
        assert id in st.Ids(FlowKind);
      } else {
        var id :| id in st.routers && RouterTargets(st.routers[id], name);
        assert id in st.Ids(RouterKind);
      }
    case RouterKind =>
      var id :| id in st.flows && st.flows[id].routerId == name;
      assert id in st.Ids(FlowKind);
    case FlowKind =>
      var id :| id in st.entrypoints && st.entrypoints[id].flowId == name;
      assert id in st.Ids(EntrypointKind);
  }

  ghost predicate Remaining(s: State, st: Store, targets: seq<Target>, n: nat)
    requires n <= |targets|
  {
    forall kind: Kind, id :: id in s.store.Ids(kind) <==> id in st.Ids(kind) && Target(kind, id) !in targets[..n]
  }

  lemma NextDeleteAccepted(s: State, st: Store, lib: R.Library, targets: seq<Target>, n: nat)
    requires Formed(lib, st) && TeardownOrder(targets, st) && n < |targets|
    requires Remaining(s, st, targets, n)
    ensures ExecDelete(s, targets[n].kind, targets[n].id).1 == None
  {
    var t := targets[n];
    assert t in targets;
    assert t !in targets[..n];
    assert t.id in s.store.Ids(t.kind);
    assert t.id != "" by {
      match t.kind
      case ProxyKind => assert ProxyFormed(t.id, st.proxies[t.id]);
      case PoolKind => assert PoolFormed(t.id, st.pools[t.id]);
      case BalancerKind => assert BalancerFormed(t.id, st.balancers[t.id]);
      case RouterKind => assert RouterFormed(lib, t.id, st.routers[t.id]);
      case FlowKind => assert FlowFormed(t.id, st.flows[t.id]);
      case EntrypointKind => assert EntrypointFormed(t.id, st.entrypoints[t.id]);
    }
    DependentsIffReferenced(s.store, t.kind, t.id);
    if Referenced(s.store, t.kind, t.id) {
      ReferrerRanksAbove(s.store, t.kind, t.id);
      assert false;
    }
  }

  lemma DeleteStepRemains(s: State, st: Store, targets: seq<Target>, n: nat)
    requires n < |targets| && Remaining(s, st, targets, n)
    requires ExecDelete(s, targets[n].kind, targets[n].id).1 == None
    ensures Remaining(ExecDelete(s, targets[n].kind, targets[n].id).0, st, targets, n + 1)
  {
    var t := targets[n];
    assert targets[..n + 1] == targets[..n] + [t];
    forall kind: Kind, id
      ensures id in s.store.Without(t.kind, t.id).Ids(kind)
         <==> id in st.Ids(kind) && Target(kind, id) !in targets[..n + 1]
    {
      WithoutIds(s.store, t.kind, t.id, kind);
    }
  }

  lemma WithoutIds(st: Store, kind: Kind, id: string, k: Kind)
    ensures st.Without(kind, id).Ids(k) == st.Ids(k) - if k == kind then {id} else {}
  {
  }

  /** From every reachable store, deleting everything in reverse apply order is never
      refused and leaves nothing. */
  lemma TeardownEmpties(s: State, lib: R.Library, targets: seq<Target>)
    requires Formed(lib, s.store) && TeardownOrder(targets, s.store)
    ensures var r := DeleteInTurn(s, targets);
      r.1 == None && r.0.store == EMPTY_STORE
  {
    var step := DeleteStep(targets);
    var inv := (t: State, i: nat) => i <= |targets| && Remaining(t, s.store, targets, i);
    forall t: State, i: nat | i < |targets| && inv(t, i)
      ensures step(t, i).1 == None && inv(step(t, i).0, i + 1)
    {
      NextDeleteAccepted(t, s.store, lib, targets, i);
      DeleteStepRemains(t, s.store, targets, i);
    }
    StepsKeep(step, inv, s, |targets|);
    AllDeleted(DeleteInTurn(s, targets).0, s.store, targets);
  }

  lemma AllDeleted(s: State, st: Store, targets: seq<Target>)
    requires TeardownOrder(targets, st) && Remaining(s, st, targets, |targets|)
    ensures s.store == EMPTY_STORE
  {
    assert targets[..|targets|] == targets;
    forall kind: Kind
      ensures s.store.Ids(kind) == {}
    {
    }
    NothingLeft(s.store);
  }

  /** Over every run: whatever any sequence of calls built can be torn down. */
  lemma EveryRunTearsDown(lib: R.Library, calls: seq<Call>, targets: seq<Target>)
    requires ProperRun(calls) && TeardownOrder(targets, Run(INITIAL, lib, calls).store)
    ensures var r := DeleteInTurn(Run(INITIAL, lib, calls), targets);
      r.1 == None && r.0.store == EMPTY_STORE
  {
    EveryRunFormed(lib, calls);
    TeardownEmpties(Run(INITIAL, lib, calls), lib, targets);
  }

  lemma NothingLeft(st: Store)
    requires forall kind: Kind :: st.Ids(kind) == {}
    ensures st == EMPTY_STORE
  {
    assert st.Ids(ProxyKind) == {} && st.Ids(PoolKind) == {} && st.Ids(BalancerKind) == {};
    assert st.Ids(RouterKind) == {} && st.Ids(FlowKind) == {} && st.Ids(EntrypointKind) == {};
    assert st.proxies == map[] && st.pools == map[] && st.balancers == map[];
    assert st.routers == map[] && st.flows == map[] && st.entrypoints == map[];
  }
}
