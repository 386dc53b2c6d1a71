/** The six kinds of resource, their specification documents, and what each Apply
    and Delete of the control plane does to the stored resources.
 */
module Resources {
  import opened Options
  import opened Keys
  import opened Pagination
  import R = Routing

  // ---------- Domain values ----------

  datatype Metadata = Metadata(name: string, labels: map<string, string>)
  datatype Auth = Auth(user: string, pass: string)
  datatype Member = Member(proxyId: string, weight: int)

  datatype Proxy = Proxy(id: string, protocol: string, host: string, port: nat, auth: Option<Auth>,
                         labels: map<string, string>, createdAt: int, updatedAt: int)
  datatype Pool = Pool(id: string, title: string, ptype: string, labels: map<string, string>, members: seq<Member>,
                       selector: Option<map<string, string>>, createdAt: int, updatedAt: int)
  datatype Balancer = Balancer(id: string, title: string, btype: string, poolId: string, resetInterval: int,
                               createdAt: int, updatedAt: int)
  datatype Flow = Flow(id: string, routerId: string, balancerId: string, createdAt: int, updatedAt: int)
  datatype Entrypoint = Entrypoint(id: string, title: string, protocol: string, host: string, port: nat,
                                   flowId: string, createdAt: int, updatedAt: int)

  const STATIC := "static"
  const DYNAMIC := "dynamic"
  const ROUND_ROBIN := "round-robin"
  const WEIGHTED := "weighted"
  const LEAST_BYTES := "least-bytes"

  /** One minute, in nanoseconds. */
  const DEFAULT_RESET_INTERVAL := 60_000_000_000

  predicate ValidProtocol(p: string) { p == "http" || p == "https" || p == "socks5" }
  predicate ValidBalancerType(t: string) { t == ROUND_ROBIN || t == WEIGHTED || t == LEAST_BYTES }

  // ---------- Specifications ----------

  /** What parsing a proxy URL yields. */
  datatype Endpoint = Endpoint(protocol: string, host: string, port: nat, auth: Option<Auth>)

  /** `parsed` is the outcome of parsing `url`; it is looked at only when `url` is set. */
  datatype ProxySpec = ProxySpec(url: string, parsed: Option<Endpoint>, protocol: string, host: string, port: nat,
                                 auth: Option<Auth>)
  datatype MemberSpec = MemberSpec(proxyId: string, weight: Option<int>)
  datatype PoolSpec = PoolSpec(title: string, ptype: string, members: seq<MemberSpec>,
                               selector: Option<map<string, string>>)

  /** The reset interval of a document: absent, unreadable, or a duration. */
  datatype Interval = Unset | Unreadable | Given(duration: int)
  datatype BalancerSpec = BalancerSpec(title: string, btype: string, poolId: string, resetInterval: Interval)
  datatype FlowSpec = FlowSpec(routerId: string, balancerId: string)
  datatype EntrypointSpec = EntrypointSpec(title: string, protocol: string, host: string, port: nat, flowId: string)

  predicate ValidProxySpec(s: ProxySpec)
  {
    s.url != "" || (s.protocol != "" && s.host != "" && s.port != 0)
  }

  predicate ValidPoolSpec(s: PoolSpec)
  {
    if s.ptype == STATIC then
      && s.members != [] && s.selector == None
      && (forall m | m in s.members :: m.proxyId != "" && (m.weight.Some? ==> m.weight.value >= 1))
      && (forall i, j :: 0 <= i < j < |s.members| ==> s.members[i].proxyId != s.members[j].proxyId)
    else
      s.ptype == DYNAMIC && s.selector.Some? && s.selector.value != map[] && s.members == []
  }

  predicate ValidBalancerSpec(s: BalancerSpec)
  {
    && ValidBalancerType(s.btype) && s.poolId != ""
    && (s.resetInterval != Unset ==>
          s.btype == LEAST_BYTES && s.resetInterval.Given? && s.resetInterval.duration > 0)
  }

  predicate ValidRouterSpec(s: R.RouterSpec)
  {
    s.rules != [] && forall r | r in s.rules :: ValidRuleSpec(r)
  }

  predicate ValidRuleSpec(r: R.RuleSpec)
  {
    var m := r.match_;
    && r.id != "" && r.target != ""
    && (m.ctype != "" || m.all != [] || m.any != [])
    && (m.ctype != "" && m.ctype != R.CATCH_ALL ==> m.value != "")
  }

  predicate ValidFlowSpec(s: FlowSpec)
  {
    s.routerId != "" || s.balancerId != ""
  }

  predicate ValidEntrypointSpec(s: EntrypointSpec)
  {
    s.protocol != "" && s.host != "" && s.port != 0 && s.flowId != ""
  }

  // ---------- From specification to domain ----------

  /** None when the URL does not parse. */
  function ProxyFromSpec(meta: Metadata, s: ProxySpec): Option<Proxy>
  {
    if s.url != "" then
      match s.parsed
      case None => None
      case Some(e) => Some(Proxy(meta.name, e.protocol, e.host, e.port, e.auth, meta.labels, 0, 0))
    else Some(Proxy(meta.name, s.protocol, s.host, s.port, s.auth, meta.labels, 0, 0))
  }

  predicate ValidProxy(p: Proxy)
  {
    ValidProtocol(p.protocol) && p.host != "" && p.port != 0
  }

  function MemberFromSpec(m: MemberSpec): Member
  {
    Member(m.proxyId, if m.weight.Some? then m.weight.value else 1)
  }

  function PoolFromSpec(meta: Metadata, s: PoolSpec): Pool
  {
    Pool(meta.name, s.title, s.ptype, meta.labels,
         if s.ptype == STATIC then R.Map(MemberFromSpec, s.members) else [],
         if s.ptype == DYNAMIC then s.selector else None, 0, 0)
  }

  predicate ValidPool(p: Pool)
  {
    && p.id != ""
    && if p.ptype == STATIC then
         && p.members != [] && p.selector == None
         && (forall m | m in p.members :: m.proxyId != "" && m.weight >= 1)
         && (forall i, j :: 0 <= i < j < |p.members| ==> p.members[i].proxyId != p.members[j].proxyId)
       else
         p.ptype == DYNAMIC && p.selector.Some? && p.selector.value != map[] && p.members == []
  }

  function ResolvedInterval(i: Interval): int
  {
    if i.Given? && i.duration > 0 then i.duration else DEFAULT_RESET_INTERVAL
  }

  function BalancerFromSpec(meta: Metadata, s: BalancerSpec): Balancer
  {
    Balancer(meta.name, s.title, s.btype, s.poolId,
             if s.btype == LEAST_BYTES then ResolvedInterval(s.resetInterval) else 0, 0, 0)
  }

  function RouterFromSpec(meta: Metadata, s: R.RouterSpec): R.Router
  {
    R.Router(meta.name, s.title, s.description, R.Map(R.RuleFromSpec, s.rules), 0, 0)
  }

  function FlowFromSpec(meta: Metadata, s: FlowSpec): Flow
  {
    Flow(meta.name, s.routerId, s.balancerId, 0, 0)
  }

  function EntrypointFromSpec(meta: Metadata, s: EntrypointSpec): Entrypoint
  {
    Entrypoint(meta.name, s.title, s.protocol, s.host, s.port, s.flowId, 0, 0)
  }

  predicate ValidEntrypoint(e: Entrypoint)
  {
    ValidProtocol(e.protocol) && e.host != "" && e.port != 0
  }

  // ---------- The store ----------

  datatype Kind = ProxyKind | PoolKind | BalancerKind | RouterKind | FlowKind | EntrypointKind

  datatype Store = Store(
    proxies: map<string, Proxy>,
    pools: map<string, Pool>,
    balancers: map<string, Balancer>,
    routers: map<string, R.Router>,
    flows: map<string, Flow>,
    entrypoints: map<string, Entrypoint>)
  {
    /** The ids stored under one kind. */
    function Ids(kind: Kind): set<string>
    {
      match kind
      case ProxyKind => proxies.Keys
      case PoolKind => pools.Keys
      case BalancerKind => balancers.Keys
      case RouterKind => routers.Keys
      case FlowKind => flows.Keys
      case EntrypointKind => entrypoints.Keys
    }

    function Without(kind: Kind, id: string): Store
    {
      match kind
      case ProxyKind => this.(proxies := proxies - {id})
      case PoolKind => this.(pools := pools - {id})
      case BalancerKind => this.(balancers := balancers - {id})
      case RouterKind => this.(routers := routers - {id})
      case FlowKind => this.(flows := flows - {id})
      case EntrypointKind => this.(entrypoints := entrypoints - {id})
    }
  }

  const EMPTY_STORE := Store(map[], map[], map[], map[], map[], map[])

  datatype Change = Saved | Deleted
  datatype Event = Event(kind: Kind, id: string, change: Change)

  /** Stored resources and everything published so far. */
  datatype State = State(store: Store, events: seq<Event>)

  datatype Dependent = Dependent(kind: Kind, name: string)

  datatype Error =
    | SpecInvalid
    | DomainInvalid
    | MissingRef(kind: Kind, name: string)
    | WeightedNeedsStatic
    | WeightedBalancerRefersTo(balancer: string)
    | NameRequired
    | InUse(dependents: seq<Dependent>)
    | NotFound
    | UnknownResource
    | DecodeFailed

  /** What a call takes from its surroundings: a generated name and the time. */
  datatype Env = Env(generated: string, now: int)

  function Named(meta: Metadata, env: Env): Metadata
  {
    if meta.name == "" then meta.(name := env.generated) else meta
  }

  /** The creation time survives an update. */
  function CreatedAt(existing: Option<int>, now: int): int
  {
    if existing.Some? then existing.value else now
  }

  // ---------- Reverse references ----------

  predicate PoolUses(p: Pool, proxyId: string)
  {
    exists m | m in p.members :: m.proxyId == proxyId
  }

  predicate RouterTargets(r: R.Router, balancerId: string)
  {
    exists rule | rule in r.rules :: rule.target == balancerId
  }

  // The repository filters: an empty field does not restrict, and a filter without
  // any restriction is no filter at all.
  function PoolsUsing(proxyId: string): Filter<Pool>
  {
    if proxyId == "" then Everything else Matching((p: Pool) => PoolUses(p, proxyId))
  }

  function BalancersOn(poolId: string, btype: string): Filter<Balancer>
  {
    if poolId == "" && btype == "" then Everything
    else Matching((b: Balancer) => (btype == "" || b.btype == btype) && (poolId == "" || b.poolId == poolId))
  }

  function RoutersTargeting(balancerId: string): Filter<R.Router>
  {
    if balancerId == "" then Everything else Matching((r: R.Router) => RouterTargets(r, balancerId))
  }

  function FlowsThrough(routerId: string, balancerId: string): Filter<Flow>
  {
    if routerId == "" && balancerId == "" then Everything
    else Matching((f: Flow) =>
      (routerId == "" || f.routerId == routerId) && (balancerId == "" || f.balancerId == balancerId))
  }

  function EntrypointsInto(flowId: string): Filter<Entrypoint>
  {
    if flowId == "" then Everything else Matching((e: Entrypoint) => e.flowId == flowId)
  }

  /** The dependents a listing names, in key order. */
  function Listed<T>(kind: Kind, stored: map<string, T>, filter: Filter<T>): (deps: seq<Dependent>)
  {
    var rows := Select(RowsOf(stored), filter);
    seq(|rows|, i requires 0 <= i < |rows| => Dependent(kind, rows[i].key))
  }

  /** The resources that would lose a reference if `name` were deleted. */
  function Dependents(st: Store, kind: Kind, name: string): (deps: seq<Dependent>)
  {
    match kind
    case ProxyKind => Listed(PoolKind, st.pools, PoolsUsing(name))
    case PoolKind => Listed(BalancerKind, st.balancers, BalancersOn(name, ""))
    case BalancerKind =>
      Listed(FlowKind, st.flows, FlowsThrough("", name)) + Listed(RouterKind, st.routers, RoutersTargeting(name))
    case RouterKind => Listed(FlowKind, st.flows, FlowsThrough(name, ""))
    case FlowKind => Listed(EntrypointKind, st.entrypoints, EntrypointsInto(name))
    case EntrypointKind => []
  }

  // ---------- Apply ----------

  /** The first reference that is not stored. */
  function FirstMissing(refs: seq<string>, stored: set<string>): (r: Option<string>)
    ensures r == None <==> forall x | x in refs :: x in stored
  {
    if refs == [] then None
    else if refs[0] !in stored then Some(refs[0])
    else
      assert refs == [refs[0]] + refs[1..];
      FirstMissing(refs[1..], stored)
  }

  function MemberIds(p: Pool): seq<string> { R.Map((m: Member) => m.proxyId, p.members) }
  function Targets(r: R.Router): seq<string> { R.Map((rule: R.Rule) => rule.target, r.rules) }

  /** A resource as it will be stored, or why it is refused. */
  function CheckProxy(st: Store, meta: Metadata, s: ProxySpec, env: Env): Result<Proxy, Error>
  {
    if !ValidProxySpec(s) then Err(SpecInvalid)
    else
      match ProxyFromSpec(Named(meta, env), s)
      case None => Err(DomainInvalid)
      case Some(p) =>
        if !ValidProxy(p) then Err(DomainInvalid)
        else if p.id in st.proxies then
          // an update by fields that omits credentials keeps the stored ones
          var stored := st.proxies[p.id];
          Ok(p.(auth := if s.url == "" && s.auth == None && stored.auth.Some? then stored.auth else p.auth,
                createdAt := stored.createdAt, updatedAt := env.now))
        else Ok(p.(createdAt := env.now, updatedAt := env.now))
  }

  function CheckPool(st: Store, meta: Metadata, s: PoolSpec, env: Env): Result<Pool, Error>
  {
    var p := PoolFromSpec(Named(meta, env), s);
    if !ValidPoolSpec(s) then Err(SpecInvalid)
    else if !ValidPool(p) then Err(DomainInvalid)
    else
      var missing := FirstMissing(MemberIds(p), st.proxies.Keys);
      var weighted := Listed(BalancerKind, st.balancers, BalancersOn(p.id, WEIGHTED));
      if p.ptype == STATIC && missing.Some? then Err(MissingRef(ProxyKind, missing.value))
      else if p.ptype != STATIC && weighted != [] then Err(WeightedBalancerRefersTo(weighted[0].name))
      else
        var created := if p.id in st.pools then Some(st.pools[p.id].createdAt) else None;
        Ok(p.(createdAt := CreatedAt(created, env.now), updatedAt := env.now))
  }

  function CheckBalancer(st: Store, meta: Metadata, s: BalancerSpec, env: Env): Result<Balancer, Error>
  {
    var b := BalancerFromSpec(Named(meta, env), s);
    if !ValidBalancerSpec(s) then Err(SpecInvalid)
    else if !ValidBalancerType(b.btype) then Err(DomainInvalid)
    else if b.poolId !in st.pools then Err(MissingRef(PoolKind, b.poolId))
    else if b.btype == WEIGHTED && st.pools[b.poolId].ptype != STATIC then Err(WeightedNeedsStatic)
    else
      var created := if b.id in st.balancers then Some(st.balancers[b.id].createdAt) else None;
      Ok(b.(createdAt := CreatedAt(created, env.now), updatedAt := env.now))
  }

  function CheckRouter(st: Store, lib: R.Library, meta: Metadata, s: R.RouterSpec, env: Env): Result<R.Router, Error>
  {
    var r := RouterFromSpec(Named(meta, env), s);
    if !ValidRouterSpec(s) then Err(SpecInvalid)
    else if !R.ValidRouter(lib, r.rules) then Err(DomainInvalid)
    else
      var missing := FirstMissing(Targets(r), st.balancers.Keys);
      if missing.Some? then Err(MissingRef(BalancerKind, missing.value))
      else
        var created := if r.id in st.routers then Some(st.routers[r.id].createdAt) else None;
        Ok(r.(createdAt := CreatedAt(created, env.now), updatedAt := env.now))
  }

  function CheckFlow(st: Store, meta: Metadata, s: FlowSpec, env: Env): Result<Flow, Error>
  {
    var f := FlowFromSpec(Named(meta, env), s);
    if !ValidFlowSpec(s) then Err(SpecInvalid)
    else if f.routerId != "" && f.routerId !in st.routers then Err(MissingRef(RouterKind, f.routerId))
    else if f.balancerId != "" && f.balancerId !in st.balancers then Err(MissingRef(BalancerKind, f.balancerId))
    else
      var created := if f.id in st.flows then Some(st.flows[f.id].createdAt) else None;
      Ok(f.(createdAt := CreatedAt(created, env.now), updatedAt := env.now))
  }

  function CheckEntrypoint(st: Store, meta: Metadata, s: EntrypointSpec, env: Env): Result<Entrypoint, Error>
  {
    var e := EntrypointFromSpec(Named(meta, env), s);
    if !ValidEntrypointSpec(s) then Err(SpecInvalid)
    else if !ValidEntrypoint(e) then Err(DomainInvalid)
    else if e.flowId !in st.flows then Err(MissingRef(FlowKind, e.flowId))
    else
      var created := if e.id in st.entrypoints then Some(st.entrypoints[e.id].createdAt) else None;
      Ok(e.(createdAt := CreatedAt(created, env.now), updatedAt := env.now))
  }

  // ---------- Commands ----------

  datatype Body =
    | ProxyBody(proxy: ProxySpec)
    | PoolBody(pool: PoolSpec)
    | BalancerBody(balancer: BalancerSpec)
    | RouterBody(router: R.RouterSpec)
    | FlowBody(flow: FlowSpec)
    | EntrypointBody(entrypoint: EntrypointSpec)

  datatype Command = Apply(meta: Metadata, body: Body) | Delete(kind: Kind, name: string)

  function Publish(s: State, store: Store, kind: Kind, id: string, change: Change): State
  {
    State(store, s.events + [Event(kind, id, change)])
  }

  /** The new state, and the error if the command was refused. */
  function Exec(s: State, lib: R.Library, c: Command, env: Env): (State, Option<Error>)
  {
    match c
    case Delete(kind, name) => ExecDelete(s, kind, name)
    case Apply(meta, body) => ExecApply(s, lib, meta, body, env)
  }

  function ExecDelete(s: State, kind: Kind, name: string): (State, Option<Error>)
  {
    if name == "" then (s, Some(NameRequired))
    else if Dependents(s.store, kind, name) != [] then (s, Some(InUse(Dependents(s.store, kind, name))))
    else if name !in s.store.Ids(kind) then (s, Some(NotFound))
    else (Publish(s, s.store.Without(kind, name), kind, name, Deleted), None)
  }

  function ExecApply(s: State, lib: R.Library, meta: Metadata, body: Body, env: Env): (State, Option<Error>)
  {
    var st := s.store;
    match body
    case ProxyBody(spec) =>
      (match CheckProxy(st, meta, spec, env)
       case Err(e) => (s, Some(e))
       case Ok(p) => (Publish(s, st.(proxies := st.proxies[p.id := p]), ProxyKind, p.id, Saved), None))
    case PoolBody(spec) =>
      (match CheckPool(st, meta, spec, env)
       case Err(e) => (s, Some(e))
       case Ok(p) => (Publish(s, st.(pools := st.pools[p.id := p]), PoolKind, p.id, Saved), None))
    case BalancerBody(spec) =>
      (match CheckBalancer(st, meta, spec, env)
       case Err(e) => (s, Some(e))
       case Ok(b) => (Publish(s, st.(balancers := st.balancers[b.id := b]), BalancerKind, b.id, Saved), None))
    case RouterBody(spec) =>
      (match CheckRouter(st, lib, meta, spec, env)
       case Err(e) => (s, Some(e))
       case Ok(r) => (Publish(s, st.(routers := st.routers[r.id := r]), RouterKind, r.id, Saved), None))
    case FlowBody(spec) =>
      (match CheckFlow(st, meta, spec, env)
       case Err(e) => (s, Some(e))
       case Ok(f) => (Publish(s, st.(flows := st.flows[f.id := f]), FlowKind, f.id, Saved), None))
    case EntrypointBody(spec) =>
      (match CheckEntrypoint(st, meta, spec, env)
       case Err(e) => (s, Some(e))
       case Ok(ep) =>
         (Publish(s, st.(entrypoints := st.entrypoints[ep.id := ep]), EntrypointKind, ep.id, Saved), None))
  }

  /** A run: each command with its surroundings, refused or not. */
  datatype Call = Call(command: Command, env: Env)

  function Run(s: State, lib: R.Library, calls: seq<Call>): State
  {
    if calls == [] then s
    else
      var prefix, last := calls[..|calls| - 1], calls[|calls| - 1];
      Exec(Run(s, lib, prefix), lib, last.command, last.env).0
  }

  const INITIAL := State(EMPTY_STORE, [])

  /** Generated names are never empty. */
  predicate ProperRun(calls: seq<Call>)
  {
    forall c | c in calls :: c.env.generated != ""
  }
}
