/** Bringing the running entrypoint servers in line with the configured entrypoints.

    Each reconciliation changes the server map in one critical section and then
    starts and stops the servers it collected.  A run is any sequence of critical
    sections, in whatever order concurrent reconciliations enter them.
 */
module Listeners {

  datatype Entrypoint = Entrypoint(id: string, addr: string)

  /** A server object: `handle` is its identity. */
  datatype Server = Server(handle: nat, addr: string)

  /** The server map, and every server scheduled to start and to stop so far. */
  datatype Listening = Listening(servers: map<string, Server>, nextHandle: nat, started: seq<Server>,
                                 stopped: seq<Server>)

  /** Entrypoints by id; the last one of an id counts. */
  function Desired(eps: seq<Entrypoint>): (d: map<string, string>)
  {
    if eps == [] then map[]
    else var n := |eps| - 1; Desired(eps[..n])[eps[n].id := eps[n].addr]
  }

  /** Exactly the ids of the entrypoints are desired, each with the address that comes last. */
  lemma {:induction false} DesiredMeaning(eps: seq<Entrypoint>, id: string)
    ensures id in Desired(eps) <==> exists i :: 0 <= i < |eps| && eps[i].id == id
    ensures forall i | 0 <= i < |eps| && eps[i].id == id && (forall j | i < j < |eps| :: eps[j].id != id) ::
      id in Desired(eps) && Desired(eps)[id] == eps[i].addr
  {
    if eps != [] {
      var front, last := eps[..|eps| - 1], eps[|eps| - 1];
      DesiredMeaning(front, id);
      assert forall i | 0 <= i < |front| :: front[i] == eps[i];
      if last.id != id && id in Desired(eps) {
        var i :| 0 <= i < |front| && front[i].id == id;
        assert eps[i].id == id;
      }
    }
  }

  ghost predicate Distinct<T>(s: seq<T>)
  {
    forall i, j :: 0 <= i < j < |s| ==> s[i] != s[j]
  }

  /** No two ids share a server. */
  ghost predicate Injective(servers: map<string, Server>)
  {
    forall id, id' | id in servers && id' in servers && id != id' :: servers[id] != servers[id']
  }

  /** `list` holds the servers of the distinct ids `ids`. */
  ghost predicate Listing(servers: map<string, Server>, ids: seq<string>, list: seq<Server>)
  {
    && |ids| == |list| && Distinct(ids)
    && forall i | 0 <= i < |ids| :: ids[i] in servers && list[i] == servers[ids[i]]
  }

  lemma ListingDistinct(servers: map<string, Server>, ids: seq<string>, list: seq<Server>)
    requires Injective(servers) && Listing(servers, ids, list)
    ensures Distinct(list)
    ensures forall srv :: srv in list <==> exists id | id in ids :: id in servers && servers[id] == srv
  {
    forall i, j | 0 <= i < j < |list|
      ensures list[i] != list[j]
    {
      assert ids[i] != ids[j];
    }
    forall srv
      ensures srv in list <==> exists id | id in ids :: id in servers && servers[id] == srv
    {
      if srv in list {
        var i :| 0 <= i < |list| && list[i] == srv;
        assert ids[i] in ids;
      }
      if id :| id in ids && id in servers && servers[id] == srv {
        var i :| 0 <= i < |ids| && ids[i] == id;
        assert list[i] == srv;
      }
    }
  }

  /** The server of `id` serves the desired address. */
  predicate UpToDate(servers: map<string, Server>, desired: map<string, string>, id: string)
  {
    id in servers && id in desired && servers[id].addr == desired[id]
  }

  /** What one critical section does. */
  ghost predicate Reconciled(before: Listening, after: Listening, desired: map<string, string>)
  {
    && Aligned(before, after.servers, after.nextHandle, after.started, desired)
    && Appended(before.stopped, after.stopped, ObsoleteServers(before, desired))
  }

  /** The map matches the desired entrypoints; up-to-date servers stay, the others are
      new, distinct, and scheduled to start. */
  ghost predicate Aligned(before: Listening, servers: map<string, Server>, next: nat, started: seq<Server>,
                          desired: map<string, string>)
  {
    && servers.Keys == desired.Keys
    && (forall id | id in desired :: servers[id].addr == desired[id])
    && (forall id | UpToDate(before.servers, desired, id) :: servers[id] == before.servers[id])
    && (forall id | id in desired && !UpToDate(before.servers, desired, id) ::
          before.nextHandle <= servers[id].handle < next)
    && (forall id, id' | id in desired && id' in desired && id != id' && !UpToDate(before.servers, desired, id)
          && !UpToDate(before.servers, desired, id') :: servers[id] != servers[id'])
    && before.nextHandle <= next
    && Appended(before.started, started, NewServers(before, servers, desired))
  }

  ghost function NewServers(before: Listening, servers: map<string, Server>, desired: map<string, string>): set<Server>
  {
    set id | id in servers && !UpToDate(before.servers, desired, id) :: servers[id]
  }

  ghost function ObsoleteServers(before: Listening, desired: map<string, string>): set<Server>
  {
    set id | id in before.servers && !UpToDate(before.servers, desired, id) :: before.servers[id]
  }

  /** `after` is `before` followed by the given elements, each once, in some order. */
  ghost predicate Appended(before: seq<Server>, after: seq<Server>, elements: set<Server>)
  {
    && before <= after
    && Distinct(after[|before|..])
    && forall x :: x in after[|before|..] <==> x in elements
  }

  class Adapter {
    var servers: map<string, Server>
    var nextHandle: nat
    var started: seq<Server>
    var stopped: seq<Server>

    ghost function Contents(): Listening
      reads this
    {
      Listening(servers, nextHandle, started, stopped)
    }

    /** The map has one server per entrypoint; none is started yet. */
    constructor (eps: seq<Entrypoint>)
      ensures servers.Keys == Desired(eps).Keys
      ensures forall id | id in servers :: servers[id].addr == Desired(eps)[id] && servers[id].handle < nextHandle
      ensures Injective(servers)
      ensures started == [] && stopped == []
    {
      var built: map<string, Server>, handle := map[], 0;
      for i := 0 to |eps|
        invariant built.Keys == Desired(eps[..i]).Keys
        invariant forall id | id in built :: built[id].addr == Desired(eps[..i])[id] && built[id].handle < handle
        invariant Injective(built)
      {
        assert eps[..i + 1][..i] == eps[..i];
        built := built[eps[i].id := Server(handle, eps[i].addr)];
        handle := handle + 1;
      }
      assert eps[..|eps|] == eps;
      servers, nextHandle, started, stopped := built, handle, [], [];
    }

    /** Starts every configured server, in map order. */
    method Run()
      requires started == [] && Injective(servers)
      modifies this`started
      ensures Appended([], started, servers.Values)
    {
      var todo := servers.Keys;
      ghost var ids: seq<string> := [];
      while todo != {}
        invariant Listing(servers, ids, started)
        invariant todo <= servers.Keys && forall id | id in servers :: id in ids <==> id !in todo
        decreases todo
      {
        var id :| id in todo;
        todo := todo - {id};
        ids := ids + [id];
        started := started + [servers[id]];
      }
      ListingDistinct(servers, ids, started);
      assert started[0..] == started;
      assert forall srv | srv in servers.Values :: exists id | id in servers :: servers[id] == srv;
    }

    /** The critical section of a reconciliation. */
    method Reconcile(eps: seq<Entrypoint>)
      requires Injective(servers)
      modifies this
      ensures Reconciled(old(Contents()), Contents(), Desired(eps))
    {
      var desired := BuildDesired(eps);
      ghost var before := Contents();
      StopObsolete(desired);
      StartMissing(desired, before);
    }

    method BuildDesired(eps: seq<Entrypoint>) returns (desired: map<string, string>)
      ensures desired == Desired(eps)
    {
      desired := map[];
      for i := 0 to |eps|
        invariant desired == Desired(eps[..i])
      {
        assert eps[..i + 1][..i] == eps[..i];
        desired := desired[eps[i].id := eps[i].addr];
      }
      assert eps[..|eps|] == eps;
    }

    /** Removals and address changes: the old server leaves the map and is to be stopped. */
    method StopObsolete(desired: map<string, string>)
      requires Injective(servers)
      modifies this`servers, this`stopped
      ensures servers == map id | id in old(servers) && UpToDate(old(servers), desired, id) :: old(servers)[id]
      ensures Appended(old(stopped), stopped, ObsoleteServers(old(Contents()), desired))
    {
      ghost var ids: seq<string> := [];
      var before, kept, toStop: seq<Server> := servers, servers, [];
      var todo := servers.Keys;
      while todo != {}
        invariant todo <= kept.Keys <= before.Keys && stopped == old(stopped)
        invariant forall id | id in kept :: kept[id] == before[id]
        invariant forall id | id in before :: id in kept <==> id in todo || UpToDate(before, desired, id)
        invariant Listing(before, ids, toStop)
        invariant forall id | id in before :: id in ids <==> id !in todo && !UpToDate(before, desired, id)
        decreases todo
      {
        var id :| id in todo;
        todo := todo - {id};
        if id !in desired || kept[id].addr != desired[id] {
          toStop := toStop + [kept[id]];
          kept := kept - {id};
          ids := ids + [id];
        }
      }
      servers := kept;
      ListingDistinct(before, ids, toStop);
      stopped := stopped + toStop;
      assert stopped[|old(stopped)|..] == toStop;
    }

    /** Additions and replacements: a new server enters the map and is to be started. */
    method StartMissing(desired: map<string, string>, ghost before: Listening)
      requires nextHandle == before.nextHandle && started == before.started
      requires servers == map id | id in before.servers && UpToDate(before.servers, desired, id) :: before.servers[id]
      modifies this`servers, this`started, this`nextHandle
      ensures Aligned(before, servers, nextHandle, started, desired)
    {
      ghost var ids: seq<string> := [];
      var toStart: seq<Server> := [];
      var todo := desired.Keys;
      while todo != {}
        invariant started == before.started
        invariant Filling(before, desired, todo, servers, nextHandle, ids, toStart)
        decreases todo
      {
        var id :| id in todo;
        if id !in servers {
          FillStep(before, desired, todo, servers, nextHandle, ids, toStart, id);
          var srv := Server(nextHandle, desired[id]);
          nextHandle := nextHandle + 1;
          servers := servers[id := srv];
          toStart := toStart + [srv];
          ids := ids + [id];
        }
        todo := todo - {id};
      }
      FillDone(before, desired, servers, nextHandle, ids, toStart);
      started := started + toStart;
    }
  }

  /** The map while missing servers are being added: those of `ids` so far. */
  ghost predicate Filling(before: Listening, desired: map<string, string>, todo: set<string>,
                          servers: map<string, Server>, next: nat, ids: seq<string>, list: seq<Server>)
  {
    && todo <= desired.Keys
    && (forall id ::
          id in servers <==> id in desired && (id !in todo || UpToDate(before.servers, desired, id) || id in ids))
    && (forall id | id in servers :: servers[id].addr == desired[id])
    && (forall id | UpToDate(before.servers, desired, id) :: servers[id] == before.servers[id])
    && Numbered(before.nextHandle, next, servers, ids, list)
    && (forall i | 0 <= i < |ids| :: !UpToDate(before.servers, desired, ids[i]))
    && (forall id | id in servers && !UpToDate(before.servers, desired, id) :: id in ids)
  }

  lemma FillStep(before: Listening, desired: map<string, string>, todo: set<string>, servers: map<string, Server>,
                 next: nat, ids: seq<string>, list: seq<Server>, id: string)
    requires Filling(before, desired, todo, servers, next, ids, list) && id in todo && id !in servers
    ensures var srv := Server(next, desired[id]);
      Filling(before, desired, todo - {id}, servers[id := srv], next + 1, ids + [id], list + [srv])
  {
  }

  lemma FillDone(before: Listening, desired: map<string, string>, servers: map<string, Server>, next: nat,
                 ids: seq<string>, list: seq<Server>)
    requires Filling(before, desired, {}, servers, next, ids, list)
    ensures Aligned(before, servers, next, before.started + list, desired)
  {
    FillFacts(before, desired, servers, next, ids, list);
    NumberedDistinct(before.nextHandle, next, servers, ids, list);
    StartedAreNew(before, desired, servers, ids, list);
  }

  lemma FillFacts(before: Listening, desired: map<string, string>, servers: map<string, Server>, next: nat,
                  ids: seq<string>, list: seq<Server>)
    requires Filling(before, desired, {}, servers, next, ids, list)
    ensures servers.Keys == desired.Keys
    ensures forall id | id in servers :: id in ids <==> !UpToDate(before.servers, desired, id)
  {
    forall id | id in ids
      ensures !UpToDate(before.servers, desired, id)
    {
      var i :| 0 <= i < |ids| && ids[i] == id;
    }
  }

  lemma StartedAreNew(before: Listening, desired: map<string, string>, servers: map<string, Server>, ids: seq<string>,
                      list: seq<Server>)
    requires forall id | id in servers :: id in ids <==> !UpToDate(before.servers, desired, id)
    requires Distinct(list)
    requires forall id | id in ids :: id in servers && servers[id] in list
    requires forall srv | srv in list :: exists id | id in ids :: id in servers && servers[id] == srv
    ensures Appended(before.started, before.started + list, NewServers(before, servers, desired))
  {
    assert (before.started + list)[|before.started|..] == list;
    forall srv
      ensures srv in list <==> srv in NewServers(before, servers, desired)
    {
      if srv in list {
        var id :| id in ids && id in servers && servers[id] == srv;
      }
    }
  }

  /** The servers of `ids` were created one after the other, from handle `first` on. */
  ghost predicate Numbered(first: nat, next: nat, servers: map<string, Server>, ids: seq<string>, list: seq<Server>)
  {
    && |ids| == |list| && next == first + |ids|
    && forall i | 0 <= i < |ids| :: ids[i] in servers && list[i] == servers[ids[i]] && list[i].handle == first + i
  }

  lemma NumberedDistinct(first: nat, next: nat, servers: map<string, Server>, ids: seq<string>, list: seq<Server>)
    requires Numbered(first, next, servers, ids, list)
    ensures Distinct(list)
    ensures forall id | id in ids :: id in servers && servers[id] in list && first <= servers[id].handle < next
    ensures forall srv | srv in list :: exists id | id in ids :: id in servers && servers[id] == srv
    ensures forall id, id' | id in ids && id' in ids && id != id' :: servers[id] != servers[id']
  {
    forall id, id' | id in ids && id' in ids && id != id'
      ensures servers[id] != servers[id']
    {
      var i :| 0 <= i < |ids| && ids[i] == id;
      var j :| 0 <= j < |ids| && ids[j] == id';
    }
    forall srv | srv in list
      ensures exists id | id in ids :: id in servers && servers[id] == srv
    {
      var i :| 0 <= i < |list| && list[i] == srv;
      assert ids[i] in ids;
    }
  }

  // ---------- Every run ----------

  /** Every server was scheduled to start at most once and to stop at most once, only
      started servers are stopped, and those started and not stopped are exactly the
      servers of the map. */
  ghost predicate Accounted(s: Listening)
  {
    && Distinct(s.started) && Distinct(s.stopped) && Injective(s.servers)
    && (forall srv | srv in s.stopped :: srv in s.started)
    && (forall srv | srv in s.started :: srv.handle < s.nextHandle)
    && (forall srv :: srv in s.started && srv !in s.stopped <==> srv in s.servers.Values)
  }

  lemma AppendedMembers(before: seq<Server>, after: seq<Server>, elements: set<Server>)
    requires Appended(before, after, elements)
    ensures forall srv :: srv in after <==> srv in before || srv in elements
    ensures Distinct(before) && (forall srv | srv in before :: srv !in elements) ==> Distinct(after)
  {
    var rest := after[|before|..];
    assert after == before + rest;
    if Distinct(before) && forall srv | srv in before :: srv !in elements {
      forall i, j | 0 <= i < j < |after|
        ensures after[i] != after[j]
      {
        if i < |before| <= j {
          assert before[i] in before && rest[j - |before|] in rest;
        } else if |before| <= i {
          assert rest[i - |before|] != rest[j - |before|];
        } else {
          assert before[i] != before[j];
        }
      }
    }
  }

  lemma StartsAreNew(before: Listening, after: Listening, desired: map<string, string>)
    requires Accounted(before) && Reconciled(before, after, desired)
    ensures Distinct(after.started)
    ensures forall srv | srv in after.started :: srv.handle < after.nextHandle
  {
    AppendedMembers(before.started, after.started, NewServers(before, after.servers, desired));
  }

  lemma StopsAreRunning(before: Listening, after: Listening, desired: map<string, string>)
    requires Accounted(before) && Reconciled(before, after, desired)
    ensures Distinct(after.stopped)
    ensures forall srv | srv in after.stopped :: srv in after.started
  {
    var obsolete := ObsoleteServers(before, desired);
    AppendedMembers(before.stopped, after.stopped, obsolete);
    AppendedMembers(before.started, after.started, NewServers(before, after.servers, desired));
    assert forall srv | srv in obsolete :: srv in before.servers.Values;
  }

  lemma RunningIsMap(before: Listening, after: Listening, desired: map<string, string>, srv: Server)
    requires Accounted(before) && Reconciled(before, after, desired)
    ensures srv in after.started && srv !in after.stopped <==> srv in after.servers.Values
  {
    var new_, obsolete := NewServers(before, after.servers, desired), ObsoleteServers(before, desired);
    AppendedMembers(before.started, after.started, new_);
    AppendedMembers(before.stopped, after.stopped, obsolete);
    if srv in after.servers.Values {
      var id :| id in after.servers && after.servers[id] == srv;
      if UpToDate(before.servers, desired, id) {
        assert before.servers[id] in before.servers.Values;
      }
    } else if srv in before.servers.Values {
      var id :| id in before.servers && before.servers[id] == srv;
      assert srv in obsolete;
    }
  }

  lemma StaysInjective(before: Listening, after: Listening, desired: map<string, string>)
    requires Accounted(before) && Reconciled(before, after, desired)
    ensures Injective(after.servers)
  {
    forall id, id' | id in after.servers && id' in after.servers && id != id'
      ensures after.servers[id] != after.servers[id']
    {
      if UpToDate(before.servers, desired, id) {
        assert before.servers[id] in before.servers.Values;
      }
      if UpToDate(before.servers, desired, id') {
        assert before.servers[id'] in before.servers.Values;
      }
    }
  }

  lemma ReconcileKeepsAccounted(before: Listening, after: Listening, desired: map<string, string>)
    requires Accounted(before) && Reconciled(before, after, desired)
    ensures Accounted(after)
  {
    StartsAreNew(before, after, desired);
    StopsAreRunning(before, after, desired);
    StaysInjective(before, after, desired);
    forall srv: Server
      ensures srv in after.started && srv !in after.stopped <==> srv in after.servers.Values
    {
      RunningIsMap(before, after, desired, srv);
    }
  }

  /** Successive states, each the outcome of one critical section on the previous one;
      `wanted[i]` is what section `i` saw. */
  ghost predicate IsRun(states: seq<Listening>, wanted: seq<map<string, string>>)
  {
    && |states| == |wanted| + 1
    && forall i | 0 <= i < |wanted| :: Reconciled(states[i], states[i + 1], wanted[i])
  }

  /** After `Run` started everything, whatever critical sections follow in whatever
      order: starts and stops stay accounted for, and the map is that of the last
      section. */
  lemma {:induction false} EveryRunAccounted(states: seq<Listening>, wanted: seq<map<string, string>>, n: nat)
    requires IsRun(states, wanted) && n < |states|
    requires Injective(states[0].servers) && states[0].stopped == []
    requires Appended([], states[0].started, states[0].servers.Values)
    requires forall id | id in states[0].servers :: states[0].servers[id].handle < states[0].nextHandle
    ensures Accounted(states[n])
    ensures n > 0 ==> states[n].servers.Keys == wanted[n - 1].Keys
    ensures n > 0 ==> forall id | id in wanted[n - 1] :: states[n].servers[id].addr == wanted[n - 1][id]
  {
    if n == 0 {
      assert states[0].started[0..] == states[0].started;
      assert forall srv | srv in states[0].servers.Values :: srv.handle < states[0].nextHandle;
    } else {
      EveryRunAccounted(states, wanted, n - 1);
      assert Reconciled(states[n - 1], states[n], wanted[n - 1]);
      ReconcileKeepsAccounted(states[n - 1], states[n], wanted[n - 1]);
    }
  }

  /** A server whose entrypoint keeps its address through sections `from` to `n` is
      never replaced. */
  lemma {:induction false} UnchangedStaysSame(states: seq<Listening>, wanted: seq<map<string, string>>, id: string,
                                              from: nat, n: nat)
    requires IsRun(states, wanted) && from <= n < |states| && id in states[from].servers
    requires forall i | from <= i < n :: id in wanted[i] && wanted[i][id] == states[from].servers[id].addr
    ensures id in states[n].servers && states[n].servers[id] == states[from].servers[id]
  {
    if from < n {
      UnchangedStaysSame(states, wanted, id, from, n - 1);
      assert Reconciled(states[n - 1], states[n], wanted[n - 1]);
    }
  }
}
