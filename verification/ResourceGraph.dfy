/** What every run of Apply and Delete calls keeps: no reference dangles, weighted
    balancers sit on static pools, stored resources are well formed, and the
    published events tell exactly what is stored.
 */
module ResourceGraph {
  import opened Options
  import opened Keys
  import opened Pagination
  import opened Resources
  import R = Routing

  // ---------- The invariants ----------

  /** Every member of a pool is a stored proxy. */
  ghost predicate PoolsResolve(st: Store)
  {
    forall id, m | id in st.pools && m in st.pools[id].members :: m.proxyId in st.proxies
  }

  /** Every balancer's pool is stored. */
  ghost predicate BalancersResolve(st: Store)
  {
    forall id | id in st.balancers :: st.balancers[id].poolId in st.pools
  }

  /** Every weighted balancer's pool is static. */
  ghost predicate WeightedOnStatic(st: Store)
  {
    forall id | id in st.balancers && st.balancers[id].btype == WEIGHTED ::
      st.balancers[id].poolId in st.pools && st.pools[st.balancers[id].poolId].ptype == STATIC
  }

  /** Every rule's target is a stored balancer. */
  ghost predicate RoutersResolve(st: Store)
  {
    forall id, rule | id in st.routers && rule in st.routers[id].rules :: rule.target in st.balancers
  }

  /** Every router and balancer a flow names is stored. */
  ghost predicate FlowsResolve(st: Store)
  {
    forall id | id in st.flows ::
      && (st.flows[id].routerId != "" ==> st.flows[id].routerId in st.routers)
      && (st.flows[id].balancerId != "" ==> st.flows[id].balancerId in st.balancers)
  }

  /** Every entrypoint's flow is stored. */
  ghost predicate EntrypointsResolve(st: Store)
  {
    forall id | id in st.entrypoints :: st.entrypoints[id].flowId in st.flows
  }

  ghost predicate NoDangling(st: Store)
  {
    && PoolsResolve(st) && BalancersResolve(st) && RoutersResolve(st)
    && FlowsResolve(st) && EntrypointsResolve(st)
  }

  // ---------- Listings are exact ----------

  /** A dependents listing names exactly the stored resources that match. */
  lemma ListedExactly<T>(kind: Kind, stored: map<string, T>, filter: Filter<T>, name: string)
    ensures Dependent(kind, name) in Listed(kind, stored, filter)
       <==> name in stored && Keeps(filter, Row(name, stored[name]))
  {
    var rows := Select(RowsOf(stored), filter);
    var deps := Listed(kind, stored, filter);
    if name in stored {
      var r := Row(name, stored[name]);
      RowsOfMembers(stored, r);
      SelectMembers(RowsOf(stored), filter, r);
      if r in rows {
        var i :| 0 <= i < |rows| && rows[i] == r;
        assert deps[i] == Dependent(kind, name);
      }
    }
    if Dependent(kind, name) in deps {
      var i :| 0 <= i < |deps| && deps[i] == Dependent(kind, name);
      SelectMembers(RowsOf(stored), filter, rows[i]);
      RowsOfMembers(stored, rows[i]);
    }
  }

  /** Nothing is listed exactly when nothing stored matches. */
  lemma ListedNone<T>(kind: Kind, stored: map<string, T>, filter: Filter<T>)
    ensures Listed(kind, stored, filter) == []
       <==> forall name | name in stored :: !Keeps(filter, Row(name, stored[name]))
  {
    var deps := Listed(kind, stored, filter);
    if deps != [] {
      var rows := Select(RowsOf(stored), filter);
      assert deps[0] == Dependent(kind, rows[0].key);
      ListedExactly(kind, stored, filter, rows[0].key);
    } else {
      forall name | name in stored
        ensures !Keeps(filter, Row(name, stored[name]))
      {
        ListedExactly(kind, stored, filter, name);
      }
    }
  }

  /** The check before a delete refuses exactly when some stored resource refers to
      the name. */
  ghost predicate Referenced(st: Store, kind: Kind, name: string)
  {
    match kind
    case ProxyKind => exists id | id in st.pools :: PoolUses(st.pools[id], name)
    case PoolKind => exists id | id in st.balancers :: st.balancers[id].poolId == name
    case BalancerKind =>
      || (exists id | id in st.flows :: st.flows[id].balancerId == name)
      || (exists id | id in st.routers :: RouterTargets(st.routers[id], name))
    case RouterKind => exists id | id in st.flows :: st.flows[id].routerId == name
    case FlowKind => exists id | id in st.entrypoints :: st.entrypoints[id].flowId == name
    case EntrypointKind => false
  }

  lemma DependentsIffReferenced(st: Store, kind: Kind, name: string)
    requires name != ""
    ensures Dependents(st, kind, name) != [] <==> Referenced(st, kind, name)
  {
    match kind
    case ProxyKind => ListedNone(PoolKind, st.pools, PoolsUsing(name));
    case PoolKind => ListedNone(BalancerKind, st.balancers, BalancersOn(name, ""));
    case BalancerKind =>
      ListedNone(FlowKind, st.flows, FlowsThrough("", name));
      ListedNone(RouterKind, st.routers, RoutersTargeting(name));
    case RouterKind => ListedNone(FlowKind, st.flows, FlowsThrough(name, ""));
    case FlowKind => ListedNone(EntrypointKind, st.entrypoints, EntrypointsInto(name));
    case EntrypointKind =>
  }

  // ---------- Delete keeps the invariants ----------

  lemma DeleteKeepsReferences(s: State, kind: Kind, name: string)
    requires NoDangling(s.store)
    ensures NoDangling(ExecDelete(s, kind, name).0.store)
  {
    if ExecDelete(s, kind, name).1 == None {
      DependentsIffReferenced(s.store, kind, name);
      UnreferencedRemoval(s.store, kind, name);
    }
  }

  lemma UnreferencedRemoval(st: Store, kind: Kind, name: string)
    requires NoDangling(st) && !Referenced(st, kind, name)
    ensures NoDangling(st.Without(kind, name))
  {
    match kind
    case ProxyKind =>
      forall id, m | id in st.pools && m in st.pools[id].members
        ensures m.proxyId != name
      {
        assert !PoolUses(st.pools[id], name);
      }
    case PoolKind =>
    case BalancerKind =>
      forall id, rule | id in st.routers && rule in st.routers[id].rules
        ensures rule.target != name
      {
        assert !RouterTargets(st.routers[id], name);
      }
    case RouterKind =>
    case FlowKind =>
    case EntrypointKind =>
  }

  lemma DeleteKeepsWeighted(s: State, kind: Kind, name: string)
    requires WeightedOnStatic(s.store) && BalancersResolve(s.store)
    ensures WeightedOnStatic(ExecDelete(s, kind, name).0.store)
  {
    if ExecDelete(s, kind, name).1 == None {
      DependentsIffReferenced(s.store, kind, name);
    }
  }

  // ---------- Apply keeps the invariants ----------

  lemma MembersStored(p: Pool, stored: set<string>)
    requires FirstMissing(MemberIds(p), stored) == None
    ensures forall m | m in p.members :: m.proxyId in stored
  {
    forall i | 0 <= i < |p.members|
      ensures p.members[i].proxyId in stored
    {
      assert MemberIds(p)[i] in MemberIds(p);
    }
  }

  lemma TargetsStored(r: R.Router, stored: set<string>)
    requires FirstMissing(Targets(r), stored) == None
    ensures forall rule | rule in r.rules :: rule.target in stored
  {
    forall i | 0 <= i < |r.rules|
      ensures r.rules[i].target in stored
    {
      assert Targets(r)[i] in Targets(r);
    }
  }

  lemma ApplyKeepsReferences(s: State, lib: R.Library, meta: Metadata, body: Body, env: Env)
    requires NoDangling(s.store)
    ensures NoDangling(ExecApply(s, lib, meta, body, env).0.store)
  {
    var st := s.store;
    match body
    case ProxyBody(spec) =>
    case PoolBody(spec) =>
      var r := CheckPool(st, meta, spec, env);
      if r.Ok? {
        if r.value.ptype == STATIC {
          MembersStored(r.value, st.proxies.Keys);
        }
        assert forall m | m in r.value.members :: m.proxyId in st.proxies;
      }
    case BalancerBody(spec) =>
    case RouterBody(spec) =>
      var r := CheckRouter(st, lib, meta, spec, env);
      if r.Ok? {
        TargetsStored(r.value, st.balancers.Keys);
      }
    case FlowBody(spec) =>
    case EntrypointBody(spec) =>
  }

  /** Neither applying a weighted balancer nor re-applying its pool can break the
      rule, whichever comes first. */
  lemma ApplyKeepsWeighted(s: State, lib: R.Library, meta: Metadata, body: Body, env: Env)
    requires WeightedOnStatic(s.store) && (meta.name != "" || env.generated != "")
    ensures WeightedOnStatic(ExecApply(s, lib, meta, body, env).0.store)
  {
    if body.PoolBody? {
      var r := CheckPool(s.store, meta, body.pool, env);
      if r.Ok? && r.value.ptype != STATIC {
        ListedNone(BalancerKind, s.store.balancers, BalancersOn(r.value.id, WEIGHTED));
      }
    }
  }

  // ---------- Events ----------

  /** The ids of a kind that a listener knows of after hearing the events. */
  function Heard(events: seq<Event>, kind: Kind): (ids: set<string>)
  {
    if events == [] then {}
    else
      var last, before := events[|events| - 1], Heard(events[..|events| - 1], kind);
      if last.kind != kind then before
      else if last.change == Saved then before + {last.id}
      else before - {last.id}
  }

  ghost predicate EventsTell(s: State)
  {
    forall kind: Kind :: Heard(s.events, kind) == s.store.Ids(kind)
  }

  lemma HeardStep(events: seq<Event>, e: Event, kind: Kind)
    ensures Heard(events + [e], kind)
         == if e.kind != kind then Heard(events, kind)
            else if e.change == Saved then Heard(events, kind) + {e.id}
            else Heard(events, kind) - {e.id}
  {
    assert (events + [e])[..|events|] == events;
  }

  /** A refused command changes nothing and publishes nothing. */
  lemma RefusedIsSilent(s: State, lib: R.Library, c: Command, env: Env)
    requires Exec(s, lib, c, env).1.Some?
    ensures Exec(s, lib, c, env).0 == s
  {
  }

  lemma DeleteKeepsEvents(s: State, kind: Kind, name: string)
    requires EventsTell(s)
    ensures EventsTell(ExecDelete(s, kind, name).0)
  {
    forall k: Kind
      ensures Heard(ExecDelete(s, kind, name).0.events, k) == ExecDelete(s, kind, name).0.store.Ids(k)
    {
      HeardStep(s.events, Event(kind, name, Deleted), k);
    }
  }

  /** A store with one more id of one kind, and the event that says so. */
  lemma SavedKeepsEvents(s: State, store: Store, kind: Kind, id: string)
    requires EventsTell(s)
    requires forall k: Kind :: store.Ids(k) == s.store.Ids(k) + if k == kind then {id} else {}
    ensures EventsTell(Publish(s, store, kind, id, Saved))
  {
    forall k: Kind
      ensures Heard(Publish(s, store, kind, id, Saved).events, k) == store.Ids(k)
    {
      HeardStep(s.events, Event(kind, id, Saved), k);
    }
  }

  lemma ApplyKeepsEvents(s: State, lib: R.Library, meta: Metadata, body: Body, env: Env)
    requires EventsTell(s)
    ensures EventsTell(ExecApply(s, lib, meta, body, env).0)
  {
    var s' := ExecApply(s, lib, meta, body, env).0;
    if s' != s {
      var e := s'.events[|s.events|];
      assert s' == Publish(s, s'.store, e.kind, e.id, Saved);
      SavedKeepsEvents(s, s'.store, e.kind, e.id);
    }
  }

  // ---------- Whole runs ----------

  ghost predicate Sound(s: State)
  {
    NoDangling(s.store) && WeightedOnStatic(s.store) && EventsTell(s)
  }

  lemma StepKeepsSound(s: State, lib: R.Library, c: Command, env: Env)
    requires Sound(s) && env.generated != ""
    ensures Sound(Exec(s, lib, c, env).0)
  {
    match c
    case Delete(kind, name) =>
      DeleteKeepsReferences(s, kind, name);
      DeleteKeepsWeighted(s, kind, name);
      DeleteKeepsEvents(s, kind, name);
    case Apply(meta, body) =>
      ApplyKeepsReferences(s, lib, meta, body, env);
      ApplyKeepsWeighted(s, lib, meta, body, env);
      ApplyKeepsEvents(s, lib, meta, body, env);
  }

  /** Over every run from an empty store: no reference dangles, every weighted
      balancer's pool is static, and replaying the published events gives exactly
      the stored ids of every kind. */
  lemma {:induction false} EveryRunSound(lib: R.Library, calls: seq<Call>)
    requires ProperRun(calls)
    ensures Sound(Run(INITIAL, lib, calls))
  {
    if calls != [] {
      var prefix, last := calls[..|calls| - 1], calls[|calls| - 1];
      EveryRunSound(lib, prefix);
      StepKeepsSound(Run(INITIAL, lib, prefix), lib, last.command, last.env);
    }
  }
}
