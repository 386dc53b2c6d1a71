/** What applying a document means, kind by kind: when it is accepted, and what is stored
    then.  Nothing here mentions how the service arrives at it.
 */
module Documents {
  import opened Options
  import opened Keys
  import opened Pagination
  import opened Resources
  import opened ResourceGraph
  import R = Routing

  /** The name of a document, or the generated one. */
  function NameOf(meta: Metadata, env: Env): string { if meta.name != "" then meta.name else env.generated }

  /** What applying left behind, and whether it was accepted. */
  function Afterwards(s: State, lib: R.Library, meta: Metadata, body: Body, env: Env): State
  {
    ExecApply(s, lib, meta, body, env).0
  }

  predicate Accepted(s: State, lib: R.Library, meta: Metadata, body: Body, env: Env)
  {
    ExecApply(s, lib, meta, body, env).1 == None
  }

  /** A resource keeps its first creation time, and carries the time of this update. */
  predicate Stamped(createdAt: int, updatedAt: int, before: Option<int>, now: int)
  {
    updatedAt == now && createdAt == (if before == None then now else before.value)
  }

  // ---------- Proxies ----------

  /** Where a proxy document points: what its URL says, or its fields. */
  function Pointed(s: ProxySpec): Option<Endpoint>
  {
    if s.url == "" then Some(Endpoint(s.protocol, s.host, s.port, s.auth)) else s.parsed
  }

  lemma ProxyAcceptedIff(s: State, lib: R.Library, meta: Metadata, spec: ProxySpec, env: Env)
    ensures Accepted(s, lib, meta, ProxyBody(spec), env) <==>
      && Pointed(spec).Some?
      && var e := Pointed(spec).value;
         (e.protocol == "http" || e.protocol == "https" || e.protocol == "socks5") && e.host != "" && e.port != 0
  {
  }

  /** An accepted proxy document stores the endpoint it points at, with the labels of the
      document and nothing else changed. */
  lemma ProxyStored(s: State, lib: R.Library, meta: Metadata, spec: ProxySpec, env: Env)
    requires Accepted(s, lib, meta, ProxyBody(spec), env)
    ensures var st, id := Afterwards(s, lib, meta, ProxyBody(spec), env).store, NameOf(meta, env);
      && id in st.proxies && st == s.store.(proxies := s.store.proxies[id := st.proxies[id]])
      && var p, e := st.proxies[id], Pointed(spec).value;
         && p.id == id && p.labels == meta.labels
         && p.protocol == e.protocol && p.host == e.host && p.port == e.port
         && Stamped(p.createdAt, p.updatedAt,
                    if id in s.store.proxies then Some(s.store.proxies[id].createdAt) else None, env.now)
  {
  }

  // ---------- Pools ----------

  predicate Distinct(members: seq<MemberSpec>)
  {
    forall i, j :: 0 <= i < j < |members| ==> members[i].proxyId != members[j].proxyId
  }

  /** A static pool lists distinct stored proxies with positive weights; a dynamic pool has a
      selector, no members, and no weighted balancer on it. */
  lemma PoolAcceptedIff(s: State, lib: R.Library, meta: Metadata, spec: PoolSpec, env: Env)
    requires env.generated != ""
    ensures Accepted(s, lib, meta, PoolBody(spec), env) <==>
      if spec.ptype == "static" then
        && |spec.members| > 0 && spec.selector == None && Distinct(spec.members)
        && forall i | 0 <= i < |spec.members| ::
             && spec.members[i].proxyId != "" && spec.members[i].proxyId in s.store.proxies
             && (spec.members[i].weight == None || spec.members[i].weight.value >= 1)
      else
        && spec.ptype == "dynamic" && |spec.members| == 0
        && spec.selector.Some? && spec.selector.value != map[]
        && !exists id :: id in s.store.balancers && s.store.balancers[id].btype == "weighted"
                         && s.store.balancers[id].poolId == NameOf(meta, env)
  {
    var st, p := s.store, PoolFromSpec(Named(meta, env), spec);
    if spec.ptype == "static" {
      StaticPool(st, meta, spec, env);
    } else {
      ListedNone(BalancerKind, st.balancers, BalancersOn(p.id, WEIGHTED));
    }
  }

  /** What the members of a static pool must satisfy, apart from being stored. */
  ghost predicate GoodMembers(spec: PoolSpec)
  {
    && |spec.members| > 0 && spec.selector == None && Distinct(spec.members)
    && forall i | 0 <= i < |spec.members| ::
         spec.members[i].proxyId != "" && (spec.members[i].weight == None || spec.members[i].weight.value >= 1)
  }

  lemma MembersGood(spec: PoolSpec)
    requires spec.ptype == "static"
    ensures ValidPoolSpec(spec) <==> GoodMembers(spec)
  {
    assert forall i | 0 <= i < |spec.members| :: spec.members[i] in spec.members;
  }

  lemma PoolValid(meta: Metadata, spec: PoolSpec)
    requires spec.ptype == "static" && GoodMembers(spec) && meta.name != ""
    ensures ValidPool(PoolFromSpec(meta, spec))
  {
    var p := PoolFromSpec(meta, spec);
    assert |p.members| == |spec.members|;
    assert forall i | 0 <= i < |p.members| :: p.members[i].proxyId == spec.members[i].proxyId;
  }

  lemma NoneMissing(refs: seq<string>, stored: set<string>)
    ensures FirstMissing(refs, stored) == None <==> forall i | 0 <= i < |refs| :: refs[i] in stored
  {
    assert forall i | 0 <= i < |refs| :: refs[i] in refs;
  }

  lemma StaticPool(st: Store, meta: Metadata, spec: PoolSpec, env: Env)
    requires env.generated != "" && spec.ptype == "static"
    ensures CheckPool(st, meta, spec, env).Ok? <==>
      GoodMembers(spec) && forall i | 0 <= i < |spec.members| :: spec.members[i].proxyId in st.proxies
  {
    MembersGood(spec);
    if GoodMembers(spec) {
      var p := PoolFromSpec(Named(meta, env), spec);
      PoolValid(Named(meta, env), spec);
      NoneMissing(MemberIds(p), st.proxies.Keys);
      assert forall i | 0 <= i < |p.members| :: MemberIds(p)[i] == spec.members[i].proxyId;
    }
  }

  /** An accepted pool document stores one member per given member, in order, with the given
      weight or 1; or the selector. */
  lemma PoolStored(s: State, lib: R.Library, meta: Metadata, spec: PoolSpec, env: Env)
    requires Accepted(s, lib, meta, PoolBody(spec), env)
    ensures var st, id := Afterwards(s, lib, meta, PoolBody(spec), env).store, NameOf(meta, env);
      && id in st.pools && st == s.store.(pools := s.store.pools[id := st.pools[id]])
      && var p := st.pools[id];
         && p.id == id && p.title == spec.title && p.ptype == spec.ptype && p.labels == meta.labels
         && |p.members| == |spec.members| && p.selector == spec.selector
         && (forall i | 0 <= i < |p.members| ::
               && p.members[i].proxyId == spec.members[i].proxyId
               && p.members[i].weight == (if spec.members[i].weight == None then 1 else spec.members[i].weight.value))
         && Stamped(p.createdAt, p.updatedAt,
                    if id in s.store.pools then Some(s.store.pools[id].createdAt) else None, env.now)
  {
  }

  // ---------- Balancers ----------

  lemma BalancerAcceptedIff(s: State, lib: R.Library, meta: Metadata, spec: BalancerSpec, env: Env)
    ensures Accepted(s, lib, meta, BalancerBody(spec), env) <==>
      && (spec.btype == "round-robin" || spec.btype == "weighted" || spec.btype == "least-bytes")
      && spec.poolId != "" && spec.poolId in s.store.pools
      && (spec.btype == "weighted" ==> s.store.pools[spec.poolId].ptype == "static")
      && (spec.resetInterval.Unset? ||
          (spec.btype == "least-bytes" && spec.resetInterval.Given? && spec.resetInterval.duration > 0))
  {
  }

  /** The reset interval is the given one; a least-bytes document that gives none gets one
      minute, and the other types have none. */
  lemma BalancerStored(s: State, lib: R.Library, meta: Metadata, spec: BalancerSpec, env: Env)
    requires Accepted(s, lib, meta, BalancerBody(spec), env)
    ensures var st, id := Afterwards(s, lib, meta, BalancerBody(spec), env).store, NameOf(meta, env);
      && id in st.balancers && st == s.store.(balancers := s.store.balancers[id := st.balancers[id]])
      && var b := st.balancers[id];
         && b.id == id && b.title == spec.title && b.btype == spec.btype && b.poolId == spec.poolId
         && b.resetInterval == (if spec.resetInterval.Given? then spec.resetInterval.duration
                                else if spec.btype == "least-bytes" then 60 * 1_000_000_000 else 0)
         && Stamped(b.createdAt, b.updatedAt,
                    if id in s.store.balancers then Some(s.store.balancers[id].createdAt) else None, env.now)
  {
  }

  // ---------- Routers ----------

  /** A condition of a document and the stored one. */
  predicate SameCondition(c: R.Condition, spec: R.ConditionSpec) { c == R.Condition(spec.ctype, spec.value, None) }

  ghost predicate SameConditions(cs: seq<R.Condition>, specs: seq<R.ConditionSpec>)
  {
    |cs| == |specs| && forall i | 0 <= i < |cs| :: SameCondition(cs[i], specs[i])
  }

  ghost predicate SameRule(r: R.Rule, spec: R.RuleSpec)
  {
    && r.id == spec.id && r.target == spec.target
    && r.match_.ctype == spec.match_.ctype && r.match_.value == spec.match_.value && r.match_.re == None
    && SameConditions(r.match_.all, spec.match_.all) && SameConditions(r.match_.any, spec.match_.any)
    && (r.match_.not == None <==> spec.match_.not == None)
    && (r.match_.not.Some? ==> SameCondition(r.match_.not.value, spec.match_.not.value))
  }

  lemma RuleIsSame(spec: R.RuleSpec)
    ensures SameRule(R.RuleFromSpec(spec), spec)
  {
  }

  /** An accepted router document stores its rules in order, each with its own conditions in
      order, and no compiled patterns. */
  lemma RouterStored(s: State, lib: R.Library, meta: Metadata, spec: R.RouterSpec, env: Env)
    requires Accepted(s, lib, meta, RouterBody(spec), env)
    ensures var st, id := Afterwards(s, lib, meta, RouterBody(spec), env).store, NameOf(meta, env);
      && id in st.routers && st == s.store.(routers := s.store.routers[id := st.routers[id]])
      && var r := st.routers[id];
         && r.id == id && r.title == spec.title && r.description == spec.description
         && |r.rules| == |spec.rules| && (forall i | 0 <= i < |r.rules| :: SameRule(r.rules[i], spec.rules[i]))
         && Stamped(r.createdAt, r.updatedAt,
                    if id in s.store.routers then Some(s.store.routers[id].createdAt) else None, env.now)
  {
    forall i | 0 <= i < |spec.rules|
      ensures SameRule(R.RuleFromSpec(spec.rules[i]), spec.rules[i])
    {
      RuleIsSame(spec.rules[i]);
    }
  }

  ghost predicate KnownConditions(lib: R.Library, cs: seq<R.ConditionSpec>)
  {
    forall i | 0 <= i < |cs| :: R.ValidType(cs[i].ctype) && (cs[i].ctype == "path_regex" ==> lib.compiles(cs[i].value))
  }

  /** What a rule of a document must satisfy: an id, a stored target, something to match, a
      value where the shorthand needs one, known condition types, and patterns that compile. */
  ghost predicate GoodRule(lib: R.Library, balancers: set<string>, r: R.RuleSpec)
  {
    var m := r.match_;
    && r.id != "" && r.target != "" && r.target in balancers
    && (R.ValidType(m.ctype) || |m.all| > 0 || |m.any| > 0)
    && (m.value == "" ==> m.ctype == "" || m.ctype == "catch_all")
    && (m.ctype == "path_regex" ==> lib.compiles(m.value))
    && KnownConditions(lib, m.all) && KnownConditions(lib, m.any)
    && (m.not == None || KnownConditions(lib, [m.not.value]))
  }

  lemma ConditionsKnown(lib: R.Library, cs: seq<R.ConditionSpec>)
    ensures KnownConditions(lib, cs) <==>
      forall c | c in R.Map(R.ConditionFromSpec, cs) :: R.ValidType(c.ctype) && R.Compilable(lib, c.ctype, c.value)
  {
    var built := R.Map(R.ConditionFromSpec, cs);
    assert forall i | 0 <= i < |cs| :: built[i] in built;
  }

  lemma RuleGood(lib: R.Library, balancers: set<string>, r: R.RuleSpec)
    ensures GoodRule(lib, balancers, r) <==>
      && ValidRuleSpec(r) && r.target in balancers
      && R.ValidRule(R.RuleFromSpec(r)) && R.CompilableMatch(lib, R.RuleFromSpec(r).match_)
  {
    ConditionsKnown(lib, r.match_.all);
    ConditionsKnown(lib, r.match_.any);
    if r.match_.not.Some? {
      var c := r.match_.not.value;
      assert [c][0] == c;
      assert KnownConditions(lib, [c]) <==> R.ValidType(c.ctype) && R.Compilable(lib, c.ctype, c.value);
    }
  }

  lemma RulesGood(lib: R.Library, balancers: set<string>, specs: seq<R.RuleSpec>, rules: seq<R.Rule>)
    requires rules == R.Map(R.RuleFromSpec, specs)
    ensures (forall i | 0 <= i < |specs| :: GoodRule(lib, balancers, specs[i])) <==>
      && (forall r | r in specs :: ValidRuleSpec(r)) && R.ValidRouter(lib, rules)
      && (forall i | 0 <= i < |specs| :: specs[i].target in balancers)
  {
    forall i | 0 <= i < |specs|
      ensures GoodRule(lib, balancers, specs[i]) <==>
        && ValidRuleSpec(specs[i]) && specs[i].target in balancers
        && R.ValidRule(rules[i]) && R.CompilableMatch(lib, rules[i].match_)
      ensures specs[i] in specs && rules[i] in rules
    {
      RuleGood(lib, balancers, specs[i]);
    }
  }

  lemma RouterAcceptedIff(s: State, lib: R.Library, meta: Metadata, spec: R.RouterSpec, env: Env)
    ensures Accepted(s, lib, meta, RouterBody(spec), env) <==>
      |spec.rules| > 0 && forall i | 0 <= i < |spec.rules| :: GoodRule(lib, s.store.balancers.Keys, spec.rules[i])
  {
    var r := RouterFromSpec(Named(meta, env), spec);
    RulesGood(lib, s.store.balancers.Keys, spec.rules, r.rules);
    NoneMissing(Targets(r), s.store.balancers.Keys);
    assert forall i | 0 <= i < |spec.rules| :: Targets(r)[i] == spec.rules[i].target;
  }

  /** A rule that arrives without a match is refused. */
  lemma EmptyMessageRefused(s: State, lib: R.Library, meta: Metadata, title: string, id: string, target: string,
                            env: Env)
    ensures var spec := R.SpecFromMessage(R.SpecMessage(title, title, [R.RuleMessage(id, None, target)]));
      ExecApply(s, lib, meta, RouterBody(spec), env).1 == Some(SpecInvalid)
  {
    var spec := R.SpecFromMessage(R.SpecMessage(title, title, [R.RuleMessage(id, None, target)]));
    assert spec.rules[0] in spec.rules;
  }

  // ---------- Flows and entrypoints ----------

  lemma FlowAcceptedIff(s: State, lib: R.Library, meta: Metadata, spec: FlowSpec, env: Env)
    ensures Accepted(s, lib, meta, FlowBody(spec), env) <==>
      && !(spec.routerId == "" && spec.balancerId == "")
      && (spec.routerId == "" || spec.routerId in s.store.routers)
      && (spec.balancerId == "" || spec.balancerId in s.store.balancers)
  {
  }

  lemma FlowStored(s: State, lib: R.Library, meta: Metadata, spec: FlowSpec, env: Env)
    requires Accepted(s, lib, meta, FlowBody(spec), env)
    ensures var st, id := Afterwards(s, lib, meta, FlowBody(spec), env).store, NameOf(meta, env);
      && id in st.flows && st == s.store.(flows := s.store.flows[id := st.flows[id]])
      && var f := st.flows[id];
         && f.id == id && f.routerId == spec.routerId && f.balancerId == spec.balancerId
         && Stamped(f.createdAt, f.updatedAt,
                    if id in s.store.flows then Some(s.store.flows[id].createdAt) else None, env.now)
  {
  }

  lemma EntrypointAcceptedIff(s: State, lib: R.Library, meta: Metadata, spec: EntrypointSpec, env: Env)
    ensures Accepted(s, lib, meta, EntrypointBody(spec), env) <==>
      && (spec.protocol == "http" || spec.protocol == "https" || spec.protocol == "socks5")
      && spec.host != "" && spec.port != 0 && spec.flowId != "" && spec.flowId in s.store.flows
  {
  }

  lemma EntrypointStored(s: State, lib: R.Library, meta: Metadata, spec: EntrypointSpec, env: Env)
    requires Accepted(s, lib, meta, EntrypointBody(spec), env)
    ensures var st, id := Afterwards(s, lib, meta, EntrypointBody(spec), env).store, NameOf(meta, env);
      && id in st.entrypoints && st == s.store.(entrypoints := s.store.entrypoints[id := st.entrypoints[id]])
      && var e := st.entrypoints[id];
         && e.id == id && e.title == spec.title && e.protocol == spec.protocol
         && e.host == spec.host && e.port == spec.port && e.flowId == spec.flowId
         && Stamped(e.createdAt, e.updatedAt,
                    if id in s.store.entrypoints then Some(s.store.entrypoints[id].createdAt) else None, env.now)
  {
  }

  // ---------- Refusals and deletions ----------

  /** A refusal for a missing reference names the first reference that is missing. */
  lemma MissingIsFirst(s: State, lib: R.Library, meta: Metadata, body: Body, env: Env)
    requires ExecApply(s, lib, meta, body, env).1.Some? && ExecApply(s, lib, meta, body, env).1.value.MissingRef?
    ensures var err := ExecApply(s, lib, meta, body, env).1.value;
      && err.name !in s.store.Ids(err.kind)
      && match body
         case PoolBody(spec) => err.kind == ProxyKind && exists i ::
           0 <= i < |spec.members| && spec.members[i].proxyId == err.name
           && forall j | 0 <= j < i :: spec.members[j].proxyId in s.store.proxies
         case BalancerBody(spec) => err.kind == PoolKind && err.name == spec.poolId
         case RouterBody(spec) => err.kind == BalancerKind && exists i ::
           0 <= i < |spec.rules| && spec.rules[i].target == err.name
           && forall j | 0 <= j < i :: spec.rules[j].target in s.store.balancers
         case FlowBody(spec) =>
           || (err.kind == RouterKind && err.name == spec.routerId)
           || (err.kind == BalancerKind && err.name == spec.balancerId)
         case EntrypointBody(spec) => err.kind == FlowKind && err.name == spec.flowId
         case ProxyBody(_) => false
  {
    match body
    case PoolBody(spec) =>
      var p := PoolFromSpec(Named(meta, env), spec);
      FirstMissingIs(MemberIds(p), s.store.proxies.Keys);
    case RouterBody(spec) =>
      var r := RouterFromSpec(Named(meta, env), spec);
      FirstMissingIs(Targets(r), s.store.balancers.Keys);
    case _ =>
  }

  lemma {:induction false} FirstMissingIs(refs: seq<string>, stored: set<string>)
    requires FirstMissing(refs, stored).Some?
    ensures var x := FirstMissing(refs, stored).value;
      x !in stored && exists i :: 0 <= i < |refs| && refs[i] == x && forall j | 0 <= j < i :: refs[j] in stored
  {
    if refs[0] in stored {
      FirstMissingIs(refs[1..], stored);
      var x := FirstMissing(refs, stored).value;
      var i :| 0 <= i < |refs| - 1 && refs[1..][i] == x && forall j | 0 <= j < i :: refs[1..][j] in stored;
      assert refs[i + 1] == x;
      forall j | 0 <= j < i + 1
        ensures refs[j] in stored
      {
        assert j > 0 ==> refs[j] == refs[1..][j - 1];
      }
    }
  }

  /** Why a document is refused: because of what it says itself, or because of what is stored;
      the first reason counts. */
  lemma SimpleRefusals(s: State, lib: R.Library, meta: Metadata, env: Env, proxy: ProxySpec, balancer: BalancerSpec,
                       flow: FlowSpec, entrypoint: EntrypointSpec)
    ensures !Accepted(s, lib, meta, ProxyBody(proxy), env) ==>
      ExecApply(s, lib, meta, ProxyBody(proxy), env).1
        == Some(if proxy.url == "" && (proxy.protocol == "" || proxy.host == "" || proxy.port == 0) then SpecInvalid
                else DomainInvalid)
    ensures !Accepted(s, lib, meta, BalancerBody(balancer), env) ==>
      ExecApply(s, lib, meta, BalancerBody(balancer), env).1
        == Some(if balancer.btype !in {"round-robin", "weighted", "least-bytes"} || balancer.poolId == ""
                   || (balancer.resetInterval != Unset && balancer.btype != "least-bytes")
                   || balancer.resetInterval == Unreadable
                   || (balancer.resetInterval.Given? && balancer.resetInterval.duration <= 0) then SpecInvalid
                else if balancer.poolId !in s.store.pools then MissingRef(PoolKind, balancer.poolId)
                else WeightedNeedsStatic)
    ensures !Accepted(s, lib, meta, FlowBody(flow), env) ==>
      ExecApply(s, lib, meta, FlowBody(flow), env).1
        == Some(if flow.routerId == "" && flow.balancerId == "" then SpecInvalid
                else if flow.routerId != "" && flow.routerId !in s.store.routers
                then MissingRef(RouterKind, flow.routerId)
                else MissingRef(BalancerKind, flow.balancerId))
    ensures !Accepted(s, lib, meta, EntrypointBody(entrypoint), env) ==>
      ExecApply(s, lib, meta, EntrypointBody(entrypoint), env).1
        == Some(if entrypoint.protocol == "" || entrypoint.host == "" || entrypoint.port == 0 || entrypoint.flowId == ""
                then SpecInvalid
                else if entrypoint.protocol !in {"http", "https", "socks5"} then DomainInvalid
                else MissingRef(FlowKind, entrypoint.flowId))
  {
  }

  /** A pool is refused for what it says, for a member that is not stored, or for a stored
      weighted balancer that it would leave without a static pool. */
  lemma PoolRefusal(s: State, lib: R.Library, meta: Metadata, spec: PoolSpec, env: Env)
    requires env.generated != "" && !Accepted(s, lib, meta, PoolBody(spec), env)
    ensures var err := ExecApply(s, lib, meta, PoolBody(spec), env).1.value;
      if spec.ptype == "static" then
        if GoodMembers(spec) then err.MissingRef? else err == SpecInvalid
      else if spec.ptype == "dynamic" && |spec.members| == 0 && spec.selector.Some? && spec.selector.value != map[] then
        && err.WeightedBalancerRefersTo? && err.balancer in s.store.balancers
        && s.store.balancers[err.balancer].btype == "weighted"
        && s.store.balancers[err.balancer].poolId == NameOf(meta, env)
      else err == SpecInvalid
  {
    if spec.ptype == "static" {
      MembersGood(spec);
      if GoodMembers(spec) {
        PoolValid(Named(meta, env), spec);
      }
    } else {
      FirstWeighted(s.store, NameOf(meta, env));
    }
  }

  lemma FirstWeighted(st: Store, pool: string)
    requires pool != ""
    ensures var listed := Listed(BalancerKind, st.balancers, BalancersOn(pool, WEIGHTED));
      listed != [] ==>
        && listed[0].name in st.balancers && st.balancers[listed[0].name].btype == "weighted"
        && st.balancers[listed[0].name].poolId == pool
  {
    var listed := Listed(BalancerKind, st.balancers, BalancersOn(pool, WEIGHTED));
    if listed != [] {
      assert listed[0] == Dependent(BalancerKind, listed[0].name);
      ListedExactly(BalancerKind, st.balancers, BalancersOn(pool, WEIGHTED), listed[0].name);
    }
  }

  /** A router is refused for what its document says, for its rules or patterns, or for a
      target that is not stored. */
  lemma RouterRefusal(s: State, lib: R.Library, meta: Metadata, spec: R.RouterSpec, env: Env)
    requires !Accepted(s, lib, meta, RouterBody(spec), env)
    ensures var err := ExecApply(s, lib, meta, RouterBody(spec), env).1.value;
      && (err == SpecInvalid || err == DomainInvalid || err.MissingRef?)
      && (err == SpecInvalid <==>
            |spec.rules| == 0 || exists i :: 0 <= i < |spec.rules| && !SaysEnough(spec.rules[i]))
      && (err.MissingRef? <==>
            && |spec.rules| > 0
            && forall i | 0 <= i < |spec.rules| :: GoodRule(lib, {spec.rules[i].target}, spec.rules[i]))
  {
    var r := RouterFromSpec(Named(meta, env), spec);
    forall i | 0 <= i < |spec.rules|
      ensures SaysEnough(spec.rules[i]) <==> ValidRuleSpec(spec.rules[i])
      ensures spec.rules[i] in spec.rules
    {
    }
    RulesGoodApart(lib, spec.rules, r.rules);
  }

  /** What the document must say about a rule: an id, a target, something to match, and a value
      for anything but a catch_all. */
  predicate SaysEnough(r: R.RuleSpec)
  {
    && r.id != "" && r.target != "" && !(r.match_.ctype == "" && |r.match_.all| == 0 && |r.match_.any| == 0)
    && (r.match_.value == "" ==> r.match_.ctype == "" || r.match_.ctype == "catch_all")
  }

  lemma RulesGoodApart(lib: R.Library, specs: seq<R.RuleSpec>, rules: seq<R.Rule>)
    requires rules == R.Map(R.RuleFromSpec, specs)
    ensures (forall i | 0 <= i < |specs| :: GoodRule(lib, {specs[i].target}, specs[i])) <==>
      (forall r | r in specs :: ValidRuleSpec(r)) && R.ValidRouter(lib, rules)
  {
    forall i | 0 <= i < |specs|
      ensures GoodRule(lib, {specs[i].target}, specs[i]) <==>
        ValidRuleSpec(specs[i]) && R.ValidRule(rules[i]) && R.CompilableMatch(lib, rules[i].match_)
      ensures specs[i] in specs && rules[i] in rules
    {
      RuleGood(lib, {specs[i].target}, specs[i]);
    }
  }

  /** A delete is refused without a name, while something refers to the resource, and when
      there is no such resource; otherwise exactly that resource goes. */
  lemma DeleteOutcome(s: State, kind: Kind, name: string)
    ensures var (after, err) := ExecDelete(s, kind, name);
      if name == "" then err == Some(NameRequired) && after == s
      else if Referenced(s.store, kind, name) then
        && err.Some? && err.value.InUse? && after == s && err.value.dependents != []
        && (forall d: Dependent :: d in err.value.dependents <==> Refers(s.store, d, kind, name))
        && InListingOrder(err.value.dependents)
      else if name !in s.store.Ids(kind) then err == Some(NotFound) && after == s
      else
        && err == None && after.store == s.store.Without(kind, name)
        && after.events == s.events + [Event(kind, name, Deleted)]
        && forall k: Kind :: after.store.Ids(k) == if k == kind then s.store.Ids(k) - {name} else s.store.Ids(k)
  {
    if name != "" {
      DependentsIffReferenced(s.store, kind, name);
      DependentsRefer(s.store, kind, name);
    }
  }

  /** The stored resource `d` refers to the resource of this kind and name. */
  ghost predicate Refers(st: Store, d: Dependent, kind: Kind, name: string)
  {
    && d.name in st.Ids(d.kind)
    && match (d.kind, kind)
       case (PoolKind, ProxyKind) => exists m | m in st.pools[d.name].members :: m.proxyId == name
       case (BalancerKind, PoolKind) => st.balancers[d.name].poolId == name
       case (FlowKind, BalancerKind) => st.flows[d.name].balancerId == name
       case (RouterKind, BalancerKind) => exists r | r in st.routers[d.name].rules :: r.target == name
       case (FlowKind, RouterKind) => st.flows[d.name].routerId == name
       case (EntrypointKind, FlowKind) => st.entrypoints[d.name].flowId == name
       case _ => false
  }

  /** Each dependent once, by name, and flows before routers. */
  ghost predicate InListingOrder(deps: seq<Dependent>)
  {
    forall i, j :: 0 <= i < j < |deps| ==>
      if deps[i].kind == deps[j].kind then Less(deps[i].name, deps[j].name)
      else deps[i].kind == FlowKind && deps[j].kind == RouterKind
  }

  lemma ListedRefers<T>(kind: Kind, stored: map<string, T>, filter: Filter<T>, d: Dependent)
    ensures d in Listed(kind, stored, filter) <==>
      d.kind == kind && d.name in stored && Keeps(filter, Row(d.name, stored[d.name]))
  {
    ListedExactly(kind, stored, filter, d.name);
  }

  lemma ListedInOrder<T>(kind: Kind, stored: map<string, T>, filter: Filter<T>)
    ensures InListingOrder(Listed(kind, stored, filter))
    ensures forall d | d in Listed(kind, stored, filter) :: d.kind == kind
  {
    RowsOfSorted(stored);
    SelectSorted(RowsOf(stored), filter);
  }

  lemma DependentsRefer(st: Store, kind: Kind, name: string)
    requires name != ""
    ensures forall d: Dependent :: d in Dependents(st, kind, name) <==> Refers(st, d, kind, name)
    ensures InListingOrder(Dependents(st, kind, name))
  {
    forall d: Dependent
      ensures d in Dependents(st, kind, name) <==> Refers(st, d, kind, name)
    {
      DependentRefers(st, kind, name, d);
    }
    match kind
    case ProxyKind => ListedInOrder(PoolKind, st.pools, PoolsUsing(name));
    case PoolKind => ListedInOrder(BalancerKind, st.balancers, BalancersOn(name, ""));
    case BalancerKind =>
      ListedInOrder(FlowKind, st.flows, FlowsThrough("", name));
      ListedInOrder(RouterKind, st.routers, RoutersTargeting(name));
    case RouterKind => ListedInOrder(FlowKind, st.flows, FlowsThrough(name, ""));
    case FlowKind => ListedInOrder(EntrypointKind, st.entrypoints, EntrypointsInto(name));
    case EntrypointKind =>
  }

  lemma DependentRefers(st: Store, kind: Kind, name: string, d: Dependent)
    requires name != ""
    ensures d in Dependents(st, kind, name) <==> Refers(st, d, kind, name)
  {
    match kind
    case ProxyKind => ListedRefers(PoolKind, st.pools, PoolsUsing(name), d);
    case PoolKind => ListedRefers(BalancerKind, st.balancers, BalancersOn(name, ""), d);
    case BalancerKind =>
      ListedRefers(FlowKind, st.flows, FlowsThrough("", name), d);
      ListedRefers(RouterKind, st.routers, RoutersTargeting(name), d);
    case RouterKind => ListedRefers(FlowKind, st.flows, FlowsThrough(name, ""), d);
    case FlowKind => ListedRefers(EntrypointKind, st.entrypoints, EntrypointsInto(name), d);
    case EntrypointKind =>
  }
}
