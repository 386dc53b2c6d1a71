/** What re-applying a resource keeps: its creation time, credentials that a document
    omits, and, for the same document, everything.
 */
module Updates {
  import opened Options
  import opened Resources
  import R = Routing

  /** When a stored resource was created. */
  function Created(st: Store, kind: Kind, id: string): int
    requires id in st.Ids(kind)
  {
    match kind
    case ProxyKind => st.proxies[id].createdAt
    case PoolKind => st.pools[id].createdAt
    case BalancerKind => st.balancers[id].createdAt
    case RouterKind => st.routers[id].createdAt
    case FlowKind => st.flows[id].createdAt
    case EntrypointKind => st.entrypoints[id].createdAt
  }

  lemma StepKeepsCreation(s: State, lib: R.Library, c: Command, env: Env, kind: Kind, id: string)
    requires id in s.store.Ids(kind) && id in Exec(s, lib, c, env).0.store.Ids(kind)
    ensures Created(Exec(s, lib, c, env).0.store, kind, id) == Created(s.store, kind, id)
  {
    match c
    case Delete(k, name) => DeleteKeepsCreation(s, k, name, kind, id);
    case Apply(meta, body) => ApplyKeepsCreation(s, lib, meta, body, env, kind, id);
  }

  lemma DeleteKeepsCreation(s: State, k: Kind, name: string, kind: Kind, id: string)
    requires id in s.store.Ids(kind) && id in ExecDelete(s, k, name).0.store.Ids(kind)
    ensures Created(ExecDelete(s, k, name).0.store, kind, id) == Created(s.store, kind, id)
  {
  }

  lemma ApplyKeepsCreation(s: State, lib: R.Library, meta: Metadata, body: Body, env: Env, kind: Kind, id: string)
    requires id in s.store.Ids(kind)
    ensures var st := ExecApply(s, lib, meta, body, env).0.store;
      id in st.Ids(kind) && Created(st, kind, id) == Created(s.store, kind, id)
  {
    var st := s.store;
    match body
    case ProxyBody(spec) => var r := CheckProxy(st, meta, spec, env);
    case PoolBody(spec) => var r := CheckPool(st, meta, spec, env);
    case BalancerBody(spec) => var r := CheckBalancer(st, meta, spec, env);
    case RouterBody(spec) => var r := CheckRouter(st, lib, meta, spec, env);
    case FlowBody(spec) => var r := CheckFlow(st, meta, spec, env);
    case EntrypointBody(spec) => var r := CheckEntrypoint(st, meta, spec, env);
  }

  /** Stored after every call. */
  ghost predicate StoredThroughout(s: State, lib: R.Library, calls: seq<Call>, kind: Kind, id: string)
  {
    forall k | 0 <= k <= |calls| :: id in Run(s, lib, calls[..k]).store.Ids(kind)
  }

  lemma {:induction false} ThroughoutPrefix(s: State, lib: R.Library, calls: seq<Call>, kind: Kind, id: string)
    requires StoredThroughout(s, lib, calls, kind, id)
    ensures id in s.store.Ids(kind) && id in Run(s, lib, calls).store.Ids(kind)
    ensures calls != [] ==> StoredThroughout(s, lib, calls[..|calls| - 1], kind, id)
  {
    assert calls[..0] == [] && calls[..|calls|] == calls;
    if calls != [] {
      var n := |calls| - 1;
      forall k | 0 <= k <= n
        ensures id in Run(s, lib, calls[..n][..k]).store.Ids(kind)
      {
        assert calls[..n][..k] == calls[..k];
      }
    }
  }

  /** A resource keeps its creation time for as long as it stays stored, however often it
      is applied again. */
  lemma {:induction false} CreationTimeStays(s: State, lib: R.Library, calls: seq<Call>, kind: Kind, id: string)
    requires StoredThroughout(s, lib, calls, kind, id)
    ensures id in s.store.Ids(kind) && id in Run(s, lib, calls).store.Ids(kind)
    ensures Created(Run(s, lib, calls).store, kind, id) == Created(s.store, kind, id)
    decreases |calls|
  {
    ThroughoutPrefix(s, lib, calls, kind, id);
    if calls != [] {
      var n := |calls| - 1;
      CreationTimeStays(s, lib, calls[..n], kind, id);
      StepKeepsCreation(Run(s, lib, calls[..n]), lib, calls[n].command, calls[n].env, kind, id);
    }
  }

  // ---------- Credentials of a proxy ----------

  /** The call neither deletes the proxy nor says anything about its credentials: an update
      by fields that leaves them out, or something else altogether. */
  predicate SilentOn(call: Call, id: string)
  {
    match call.command
    case Delete(kind, name) => kind != ProxyKind || name != id
    case Apply(meta, ProxyBody(spec)) => Named(meta, call.env).name == id ==> spec.url == "" && spec.auth == None
    case Apply(_, _) => true
  }

  lemma StepKeepsCredentials(s: State, lib: R.Library, call: Call, id: string)
    requires id in s.store.proxies && s.store.proxies[id].auth.Some? && SilentOn(call, id)
    ensures var st := Exec(s, lib, call.command, call.env).0.store;
      id in st.proxies && st.proxies[id].auth == s.store.proxies[id].auth
  {
    match call.command
    case Delete(k, name) =>
    case Apply(meta, body) =>
      if body.ProxyBody? {
        SilentUpdate(s.store, meta, body.proxy, call.env, id);
      } else {
        OthersKeepProxies(s, lib, meta, body, call.env);
      }
  }

  lemma OthersKeepProxies(s: State, lib: R.Library, meta: Metadata, body: Body, env: Env)
    requires !body.ProxyBody?
    ensures ExecApply(s, lib, meta, body, env).0.store.proxies == s.store.proxies
  {
  }

  lemma SilentUpdate(st: Store, meta: Metadata, spec: ProxySpec, env: Env, id: string)
    requires id in st.proxies && st.proxies[id].auth.Some?
    requires Named(meta, env).name == id ==> spec.url == "" && spec.auth == None
    ensures var r := CheckProxy(st, meta, spec, env);
      r.Ok? && r.value.id == id ==> r.value.auth == st.proxies[id].auth
  {
  }

  /** Credentials survive any number of updates that leave them out. */
  lemma {:induction false} OmittedCredentialsSurvive(s: State, lib: R.Library, calls: seq<Call>, id: string)
    requires id in s.store.proxies && s.store.proxies[id].auth.Some?
    requires forall c | c in calls :: SilentOn(c, id)
    ensures var st := Run(s, lib, calls).store;
      id in st.proxies && st.proxies[id].auth == s.store.proxies[id].auth
    decreases |calls|
  {
    if calls != [] {
      var n := |calls| - 1;
      OmittedCredentialsSurvive(s, lib, calls[..n], id);
      StepKeepsCredentials(Run(s, lib, calls[..n]), lib, calls[n], id);
    }
  }

  /** What a document itself says about credentials. */
  function GivenAuth(spec: ProxySpec): Option<Auth>
  {
    if spec.url == "" then spec.auth
    else match spec.parsed
         case None => None
         case Some(e) => e.auth
  }

  /** A document that is not silent replaces the credentials by exactly what it says: by a
      URL without credentials they are removed. */
  lemma GivenCredentialsReplace(s: State, lib: R.Library, meta: Metadata, spec: ProxySpec, env: Env)
    requires ExecApply(s, lib, meta, ProxyBody(spec), env).1 == None
    requires spec.url != "" || spec.auth.Some? || Named(meta, env).name !in s.store.proxies
    ensures var st, id := ExecApply(s, lib, meta, ProxyBody(spec), env).0.store, Named(meta, env).name;
      id in st.proxies && st.proxies[id].auth == GivenAuth(spec)
  {
  }

  // ---------- Applying twice ----------

  function KindOf(body: Body): Kind
  {
    match body
    case ProxyBody(_) => ProxyKind
    case PoolBody(_) => PoolKind
    case BalancerBody(_) => BalancerKind
    case RouterBody(_) => RouterKind
    case FlowBody(_) => FlowKind
    case EntrypointBody(_) => EntrypointKind
  }

  /** The store with one resource's time of update replaced. */
  function Restamped(st: Store, kind: Kind, id: string, now: int): Store
    requires id in st.Ids(kind)
  {
    match kind
    case ProxyKind => st.(proxies := st.proxies[id := st.proxies[id].(updatedAt := now)])
    case PoolKind => st.(pools := st.pools[id := st.pools[id].(updatedAt := now)])
    case BalancerKind => st.(balancers := st.balancers[id := st.balancers[id].(updatedAt := now)])
    case RouterKind => st.(routers := st.routers[id := st.routers[id].(updatedAt := now)])
    case FlowKind => st.(flows := st.flows[id := st.flows[id].(updatedAt := now)])
    case EntrypointKind => st.(entrypoints := st.entrypoints[id := st.entrypoints[id].(updatedAt := now)])
  }

  /** Applying a named document a second time is accepted and changes nothing but the time
      of the update. */
  lemma ApplyTwice(s: State, lib: R.Library, meta: Metadata, body: Body, env: Env, env': Env)
    requires meta.name != "" && ExecApply(s, lib, meta, body, env).1 == None
    ensures var once := ExecApply(s, lib, meta, body, env).0;
      var twice := ExecApply(once, lib, meta, body, env');
      && twice.1 == None && meta.name in once.store.Ids(KindOf(body))
      && twice.0.store == Restamped(once.store, KindOf(body), meta.name, env'.now)
  {
    match body
    case ProxyBody(spec) => ProxyTwice(s.store, meta, spec, env, env');
    case PoolBody(spec) => PoolTwice(s.store, meta, spec, env, env');
    case BalancerBody(spec) => BalancerTwice(s.store, meta, spec, env, env');
    case RouterBody(spec) => RouterTwice(s.store, lib, meta, spec, env, env');
    case FlowBody(spec) => FlowTwice(s.store, meta, spec, env, env');
    case EntrypointBody(spec) => EntrypointTwice(s.store, meta, spec, env, env');
  }

  lemma ProxyTwice(st: Store, meta: Metadata, s: ProxySpec, env: Env, env': Env)
    requires meta.name != "" && CheckProxy(st, meta, s, env).Ok?
    ensures var v := CheckProxy(st, meta, s, env).value;
      && v.id == meta.name
      && CheckProxy(st.(proxies := st.proxies[v.id := v]), meta, s, env') == Ok(v.(updatedAt := env'.now))
  {
  }

  lemma PoolTwice(st: Store, meta: Metadata, s: PoolSpec, env: Env, env': Env)
    requires meta.name != "" && CheckPool(st, meta, s, env).Ok?
    ensures var v := CheckPool(st, meta, s, env).value;
      && v.id == meta.name
      && CheckPool(st.(pools := st.pools[v.id := v]), meta, s, env') == Ok(v.(updatedAt := env'.now))
  {
  }

  lemma BalancerTwice(st: Store, meta: Metadata, s: BalancerSpec, env: Env, env': Env)
    requires meta.name != "" && CheckBalancer(st, meta, s, env).Ok?
    ensures var v := CheckBalancer(st, meta, s, env).value;
      && v.id == meta.name
      && CheckBalancer(st.(balancers := st.balancers[v.id := v]), meta, s, env') == Ok(v.(updatedAt := env'.now))
  {
  }

  lemma RouterTwice(st: Store, lib: R.Library, meta: Metadata, s: R.RouterSpec, env: Env, env': Env)
    requires meta.name != "" && CheckRouter(st, lib, meta, s, env).Ok?
    ensures var v := CheckRouter(st, lib, meta, s, env).value;
      && v.id == meta.name
      && CheckRouter(st.(routers := st.routers[v.id := v]), lib, meta, s, env') == Ok(v.(updatedAt := env'.now))
  {
  }

  lemma FlowTwice(st: Store, meta: Metadata, s: FlowSpec, env: Env, env': Env)
    requires meta.name != "" && CheckFlow(st, meta, s, env).Ok?
    ensures var v := CheckFlow(st, meta, s, env).value;
      && v.id == meta.name
      && CheckFlow(st.(flows := st.flows[v.id := v]), meta, s, env') == Ok(v.(updatedAt := env'.now))
  {
  }

  lemma EntrypointTwice(st: Store, meta: Metadata, s: EntrypointSpec, env: Env, env': Env)
    requires meta.name != "" && CheckEntrypoint(st, meta, s, env).Ok?
    ensures var v := CheckEntrypoint(st, meta, s, env).value;
      && v.id == meta.name
      && CheckEntrypoint(st.(entrypoints := st.entrypoints[v.id := v]), meta, s, env') == Ok(v.(updatedAt := env'.now))
  {
  }
}
