/** Data-plane bootstrap over an unreliable network: each host turns a single-use
    registration token into stored credentials, retrying what may be transient.
 */
module Bootstrap {
  import opened Options
  import opened Credentials
  import opened CredentialSafety

  datatype Saved = Saved(agentId: string, token: string)

  datatype Failure = Misconfigured | StateUnusable | NameTaken | AuthRejected

  datatype Status = Running | Succeeded(credentials: Saved) | Failed(failure: Failure)

  /** A data-plane host.  `stored` is its state file, which survives restarts;
      `delivered` counts the handler replies that reached it in the current run. */
  datatype Host = Host(regToken: string, agent: Agent, stored: Option<Saved>, status: Status, delivered: nat)

  /** What comes back from one registration call. */
  datatype Outcome =
    | Unreachable
    | Accepted(agentId: string, token: string)
    | Unauthenticated
    | AlreadyExists
    | OtherStatus

  /** One attempt: load the state file, or register and save.  `loadable` and `savable`
      say whether the file system cooperates. */
  function Attempt(h: Host, outcome: Outcome, loadable: bool, savable: bool): Host
  {
    if h.status != Running then h
    else if !loadable then h.(status := Failed(StateUnusable))
    else if h.stored.Some? then h.(status := Succeeded(h.stored.value))
    else if h.regToken == "" then h.(status := Failed(Misconfigured))
    else
      match outcome
      case Unreachable => h
      case Accepted(id, token) =>
        var creds := Saved(if id == "" then h.agent.id else id, token);
        if savable then h.(stored := Some(creds), status := Succeeded(creds), delivered := h.delivered + 1)
        else h.(status := Failed(StateUnusable), delivered := h.delivered + 1)
      case Unauthenticated => h.(status := Failed(AuthRejected), delivered := h.delivered + 1)
      case AlreadyExists => h.(status := Failed(NameTaken), delivered := h.delivered + 1)
      case OtherStatus => h.(delivered := h.delivered + 1)
  }

  /** Whether an attempt gets as far as calling the control plane. */
  predicate Calls(h: Host, loadable: bool)
  {
    h.status == Running && loadable && h.stored == None && h.regToken != ""
  }

  datatype Try = Try(outcome: Outcome, loadable: bool, savable: bool)

  function Attempts(h: Host, tries: seq<Try>): Host
  {
    if tries == [] then h
    else
      var n := |tries| - 1;
      Attempt(Attempts(h, tries[..n]), tries[n].outcome, tries[n].loadable, tries[n].savable)
  }

  lemma {:induction false} EndedStays(h: Host, tries: seq<Try>, n: nat)
    requires n <= |tries| && Attempts(h, tries[..n]).status != Running
    ensures Attempts(h, tries) == Attempts(h, tries[..n])
  {
    var k := |tries| - 1;
    if n == |tries| {
      assert tries[..n] == tries;
    } else {
      assert tries[..k][..n] == tries[..n];
      EndedStays(h, tries[..k], n);
    }
  }

  /** The retry loop: until success, a permanent error, or cancellation (the tries are
      used up). */
  method BootstrapWithRetry(host: Host, tries: seq<Try>) returns (h: Host)
    ensures h == Attempts(host, tries)
  {
    h := host;
    var i := 0;
    while i < |tries|
      invariant i <= |tries| && h == Attempts(host, tries[..i])
    {
      if h.status != Running {
        EndedStays(host, tries, i);
        return;
      }
      assert tries[..i + 1][..i] == tries[..i];
      h := Attempt(h, tries[i].outcome, tries[i].loadable, tries[i].savable);
      i := i + 1;
    }
    assert tries[..|tries|] == tries;
  }

  // ---------- Hosts and the control plane ----------

  datatype World = World(cp: Stores, hosts: map<string, Host>)

  datatype Network = RequestLost | ReplyLost | Delivered

  datatype Step =
    | ControlPlane(action: Action)
    | Bootstrapping(host: string, secret: string, now: int, writes: nat, network: Network, loadable: bool,
                    savable: bool)
    | RestartHost(host: string)

  /** The registration handler and the client's reading of its status.  A request without
      a name is refused before the service is asked.  When a write fails, the handler
      reports a bad token if it was the consumption, and an internal error otherwise. */
  function HandlerOutcome(cp: Stores, cfg: Config, h: Host, secret: string, now: int, writes: nat): Outcome
  {
    if h.agent.id == "" then OtherStatus
    else
      var plan := PlanRegister(cp, cfg, h.regToken, h.agent, secret, now);
      if writes < |plan.writes| then (if writes == 0 then Unauthenticated else OtherStatus)
      else
        match plan.reply
        case Registered(id, token) => Accepted(id, token)
        case InvalidRegistrationToken => Unauthenticated
        case AgentExists => AlreadyExists
        case _ => OtherStatus
  }

  function HandlerEffect(cp: Stores, cfg: Config, h: Host, secret: string, now: int, writes: nat): Stores
  {
    if h.agent.id == "" then cp else Exec(cp, cfg, Register(h.regToken, h.agent, secret), now, writes)
  }

  function Next(w: World, cfg: Config, step: Step): World
  {
    match step
    case ControlPlane(a) => w.(cp := Exec(w.cp, cfg, a.op, a.now, a.writes))
    case RestartHost(name) =>
      if name in w.hosts then w.(hosts := w.hosts[name := w.hosts[name].(status := Running, delivered := 0)]) else w
    case Bootstrapping(name, secret, now, writes, network, loadable, savable) =>
      if name !in w.hosts then w
      else
        var h := w.hosts[name];
        var called := Calls(h, loadable) && network != RequestLost;
        var outcome := if called && network == Delivered then HandlerOutcome(w.cp, cfg, h, secret, now, writes)
                       else Unreachable;
        World(if called then HandlerEffect(w.cp, cfg, h, secret, now, writes) else w.cp,
              w.hosts[name := Attempt(h, outcome, loadable, savable)])
  }

  predicate FreshStep(w: World, step: Step)
  {
    match step
    case ControlPlane(a) => FreshSecret(w.cp, a.op)
    case Bootstrapping(_, secret, _, _, _, _, _) => secret !in w.cp.issued && secret != ""
    case RestartHost(_) => true
  }

  function RunWorld(w: World, cfg: Config, steps: seq<Step>): World
  {
    if steps == [] then w
    else var n := |steps| - 1; Next(RunWorld(w, cfg, steps[..n]), cfg, steps[n])
  }

  ghost predicate ProperSteps(w: World, cfg: Config, steps: seq<Step>)
    decreases |steps|
  {
    steps == [] ||
    (var n := |steps| - 1; ProperSteps(w, cfg, steps[..n]) && FreshStep(RunWorld(w, cfg, steps[..n]), steps[n]))
  }

  // ---------- What every run keeps ----------

  /** A registration token that was created and consumed; it cannot come back. */
  ghost predicate Spent(cp: Stores, reg: string)
  {
    reg in cp.minted && reg !in cp.regTokens
  }

  /** The control plane only ever adds to what it has created and issued. */
  ghost predicate Grows(cp: Stores, cp': Stores)
  {
    && (forall reg | Spent(cp, reg) :: Spent(cp', reg))
    && (forall h | h in cp.issued :: h in cp'.issued && cp'.issued[h] == cp.issued[h])
  }

  lemma WriteGrows(s: Stores, w: Write)
    requires Justified(s, w)
    ensures Grows(s, Apply(s, w))
  {
  }

  lemma {:induction false} WritesGrow(s: Stores, ws: seq<Write>, n: nat)
    requires AllJustified(s, ws)
    ensures Grows(s, ApplyWrites(s, Prefix(ws, n)))
    decreases |ws|
  {
    if ws != [] && n > 0 {
      WriteGrows(s, ws[0]);
      WritesGrow(Apply(s, ws[0]), ws[1..], n - 1);
      assert Prefix(ws, n)[1..] == Prefix(ws[1..], n - 1);
    }
  }

  lemma OperationGrows(s: Stores, cfg: Config, op: Operation, now: int, writes: nat)
    requires Safe(s) && FreshSecret(s, op)
    ensures Safe(Exec(s, cfg, op, now, writes)) && Grows(s, Exec(s, cfg, op, now, writes))
  {
    OperationJustified(s, cfg, op, now);
    WritesKeepSafe(s, PlanFor(s, cfg, op, now).writes, writes);
    WritesGrow(s, PlanFor(s, cfg, op, now).writes, writes);
  }

  /** Stored credentials were issued by the control plane for this very agent, and a run
      that is still going after a reply has spent its registration token. */
  ghost predicate HostSound(cp: Stores, h: Host)
  {
    && (h.stored.Some? ==>
          && h.stored.value.token in cp.issued
          && cp.issued[h.stored.value.token].agentId == h.stored.value.agentId == h.agent.id)
    && (h.status.Succeeded? ==> h.stored == Some(h.status.credentials))
    && (h.agent.id != "" ==>
          && h.delivered <= 2
          && (h.status == Running && h.delivered > 0 ==> h.delivered == 1 && Spent(cp, h.regToken)))
  }

  ghost predicate WorldSound(w: World)
  {
    Safe(w.cp) && forall name | name in w.hosts :: HostSound(w.cp, w.hosts[name])
  }

  lemma HostSoundGrows(cp: Stores, cp': Stores, h: Host)
    requires HostSound(cp, h) && Grows(cp, cp')
    ensures HostSound(cp', h)
  {
  }

  /** A spent token is answered with a rejection, whoever presents it. */
  lemma SpentIsRejected(cp: Stores, cfg: Config, h: Host, secret: string, now: int, writes: nat)
    requires Spent(cp, h.regToken) && h.agent.id != ""
    ensures HandlerOutcome(cp, cfg, h, secret, now, writes) == Unauthenticated
  {
  }

  lemma ThreeWrites(s: Stores, w: Write, x: Write, y: Write, n: nat)
    requires n >= 3
    ensures ApplyWrites(s, Prefix([w, x, y], n)) == Apply(Apply(Apply(s, w), x), y)
  {
    var ws := [w, x, y];
    assert Prefix(ws, n) == ws && ws[1..] == [x, y];
    TwoWrites(Apply(s, w), x, y, 2);
    assert Prefix([x, y], 2) == [x, y];
  }

  /** An accepted registration issued the returned token for the host's agent. */
  lemma AcceptedIsIssued(cp: Stores, cfg: Config, h: Host, secret: string, now: int, writes: nat)
    requires HandlerOutcome(cp, cfg, h, secret, now, writes).Accepted?
    ensures HandlerOutcome(cp, cfg, h, secret, now, writes) == Accepted(h.agent.id, secret) && h.agent.id != ""
    ensures var cp' := HandlerEffect(cp, cfg, h, secret, now, writes);
      secret in cp'.issued && cp'.issued[secret].agentId == h.agent.id
  {
    var ws := PlanRegister(cp, cfg, h.regToken, h.agent, secret, now).writes;
    assert ws == [ws[0], ws[1], ws[2]];
    ThreeWrites(cp, ws[0], ws[1], ws[2], writes);
  }

  /** Any other status than a rejection means that the token was consumed. */
  lemma OtherStatusSpends(cp: Stores, cfg: Config, h: Host, secret: string, now: int, writes: nat)
    requires Safe(cp) && secret !in cp.issued && h.agent.id != ""
    requires HandlerOutcome(cp, cfg, h, secret, now, writes) == OtherStatus
    ensures Spent(HandlerEffect(cp, cfg, h, secret, now, writes), h.regToken)
  {
    var ws := PlanRegister(cp, cfg, h.regToken, h.agent, secret, now).writes;
    RegisterJustified(cp, cfg, h.regToken, h.agent, secret, now);
    var after := Apply(cp, ws[0]);
    assert Spent(after, h.regToken);
    WritesGrow(after, ws[1..], writes - 1);
    assert Prefix(ws, writes)[1..] == Prefix(ws[1..], writes - 1);
  }

  lemma AttemptKeepsSound(w: World, cfg: Config, step: Step)
    requires WorldSound(w) && FreshStep(w, step) && step.Bootstrapping? && step.host in w.hosts
    ensures HostSound(Next(w, cfg, step).cp, Next(w, cfg, step).hosts[step.host])
    ensures Safe(Next(w, cfg, step).cp) && Grows(w.cp, Next(w, cfg, step).cp)
  {
    var h := w.hosts[step.host];
    assert HostSound(w.cp, h);
    var op := Register(h.regToken, h.agent, step.secret);
    OperationGrows(w.cp, cfg, op, step.now, step.writes);
    var cp' := Next(w, cfg, step).cp;
    HostSoundGrows(w.cp, cp', h);
    if Calls(h, step.loadable) && step.network == Delivered {
      CalledKeepsSound(w.cp, cfg, h, step.secret, step.now, step.writes, step.savable);
    }
  }

  lemma CalledKeepsSound(cp: Stores, cfg: Config, h: Host, secret: string, now: int, writes: nat, savable: bool)
    requires Safe(cp) && HostSound(cp, h) && secret !in cp.issued && Calls(h, true)
    ensures HostSound(HandlerEffect(cp, cfg, h, secret, now, writes),
                      Attempt(h, HandlerOutcome(cp, cfg, h, secret, now, writes), true, savable))
  {
    var outcome := HandlerOutcome(cp, cfg, h, secret, now, writes);
    if h.agent.id != "" && Spent(cp, h.regToken) {
      SpentIsRejected(cp, cfg, h, secret, now, writes);
    }
    match outcome
    case Accepted(_, _) => AcceptedIsIssued(cp, cfg, h, secret, now, writes);
    case OtherStatus =>
      if h.agent.id != "" {
        OtherStatusSpends(cp, cfg, h, secret, now, writes);
      }
    case _ =>
  }

  lemma StepKeepsSound(w: World, cfg: Config, step: Step)
    requires WorldSound(w) && FreshStep(w, step)
    ensures WorldSound(Next(w, cfg, step))
  {
    var w' := Next(w, cfg, step);
    match step
    case ControlPlane(a) => OperationGrows(w.cp, cfg, a.op, a.now, a.writes);
    case RestartHost(_) =>
    case Bootstrapping(name, _, _, _, _, _, _) =>
      if name in w.hosts {
        AttemptKeepsSound(w, cfg, step);
      }
    forall name | name in w'.hosts
      ensures HostSound(w'.cp, w'.hosts[name])
    {
      if name in w.hosts && w'.hosts[name] == w.hosts[name] && Grows(w.cp, w'.cp) {
        HostSoundGrows(w.cp, w'.cp, w.hosts[name]);
      }
    }
  }

  /** Under lost requests and replies, failed and interrupted writes, several hosts and
      restarts: no registration token ever creates two agent records, a bootstrap run of
      a host with a name ends after at most two delivered replies, and stored credentials
      were issued by the control plane for the host's own agent. */
  lemma {:induction false} EveryBootstrapSound(w: World, cfg: Config, steps: seq<Step>)
    requires WorldSound(w) && ProperSteps(w, cfg, steps)
    ensures WorldSound(RunWorld(w, cfg, steps))
    decreases |steps|
  {
    if steps != [] {
      var n := |steps| - 1;
      EveryBootstrapSound(w, cfg, steps[..n]);
      StepKeepsSound(RunWorld(w, cfg, steps[..n]), cfg, steps[n]);
    }
  }

  lemma {:induction false} HostsStay(w: World, cfg: Config, steps: seq<Step>)
    ensures RunWorld(w, cfg, steps).hosts.Keys == w.hosts.Keys
    ensures forall name | name in w.hosts :: RunWorld(w, cfg, steps).hosts[name].agent == w.hosts[name].agent
    decreases |steps|
  {
    if steps != [] {
      HostsStay(w, cfg, steps[..|steps| - 1]);
    }
  }

  /** A new host that has a registration token and no stored credentials. */
  predicate NewHost(h: Host)
  {
    h.regToken != "" && h.stored == None && h.status == Running && h.delivered == 0
  }

  ghost function Alone(h: Host): World { World(EMPTY, map["host" := h]) }

  const RETRY := Bootstrapping("host", "secret", 0, 0, Delivered, true, true)

  /** Without a name the handler's refusal is taken for a transient failure, again and
      again. */
  lemma {:induction false} NamelessNeverEnds(cfg: Config, h: Host, n: nat) returns (steps: seq<Step>)
    requires NewHost(h) && h.agent.id == ""
    ensures ProperSteps(Alone(h), cfg, steps)
    ensures RunWorld(Alone(h), cfg, steps) == World(EMPTY, map["host" := h.(delivered := n)])
  {
    if n == 0 {
      steps := [];
    } else {
      var before := NamelessNeverEnds(cfg, h, n - 1);
      steps := before + [RETRY];
      assert steps[..|steps| - 1] == before;
      assert Next(World(EMPTY, map["host" := h.(delivered := n - 1)]), cfg, RETRY)
          == World(EMPTY, map["host" := h.(delivered := n)]);
    }
  }

  /** A new host's bootstrap is bounded, and over with the second delivered reply, if and
      only if the host has a name. */
  lemma BootstrapEndsIffNamed(cfg: Config, h: Host)
    requires NewHost(h)
    ensures (forall steps | ProperSteps(Alone(h), cfg, steps) ::
               RunWorld(Alone(h), cfg, steps).hosts.Keys == {"host"}
               && RunWorld(Alone(h), cfg, steps).hosts["host"].delivered <= 2
               && (RunWorld(Alone(h), cfg, steps).hosts["host"].delivered == 2 ==>
                     RunWorld(Alone(h), cfg, steps).hosts["host"].status != Running))
       <==> h.agent.id != ""
  {
    if h.agent.id != "" {
      forall steps | ProperSteps(Alone(h), cfg, steps)
        ensures RunWorld(Alone(h), cfg, steps).hosts.Keys == {"host"}
        ensures RunWorld(Alone(h), cfg, steps).hosts["host"].delivered <= 2
        ensures RunWorld(Alone(h), cfg, steps).hosts["host"].delivered == 2 ==>
          RunWorld(Alone(h), cfg, steps).hosts["host"].status != Running
      {
        HostsStay(Alone(h), cfg, steps);
        EveryBootstrapSound(Alone(h), cfg, steps);
        assert "host" in RunWorld(Alone(h), cfg, steps).hosts;
      }
    } else {
      var steps := NamelessNeverEnds(cfg, h, 3);
      assert RunWorld(Alone(h), cfg, steps).hosts["host"].delivered == 3;
    }
  }

  // ---------- What an attempt means ----------

  /** The handler's answer to a well-formed request, when every write succeeds. */
  lemma HandlerMeaning(cp: Stores, cfg: Config, h: Host, secret: string, now: int, writes: nat)
    requires h.agent.id != "" && "" !in h.agent.labels && cfg.agentTTL > 0 && writes >= 3
    ensures HandlerOutcome(cp, cfg, h, secret, now, writes)
         == if h.regToken !in cp.regTokens || now > cp.regTokens[h.regToken] then Unauthenticated
            else if h.agent.id in cp.agents then AlreadyExists
            else Accepted(h.agent.id, secret)
  {
  }

  /** Stored credentials are used without asking the control plane, and nothing is asked
      without a registration token. */
  lemma AttemptWithoutCall(h: Host, outcome: Outcome, loadable: bool, savable: bool)
    requires h.status == Running && !Calls(h, loadable)
    ensures var after := Attempt(h, outcome, loadable, savable);
      && after == h.(status := after.status)
      && after.status == if !loadable then Failed(StateUnusable)
                         else if h.stored.Some? then Succeeded(h.stored.value) else Failed(Misconfigured)
  {
  }

  /** An accepted registration is saved before it is used; a rejected token and a taken name
      end the run, and anything else is tried again. */
  lemma AttemptWithCall(h: Host, outcome: Outcome, savable: bool)
    requires Calls(h, true)
    ensures var after := Attempt(h, outcome, true, savable);
      match outcome
      case Accepted(id, token) =>
        if savable then
          && after.stored == Some(Saved(if id != "" then id else h.agent.id, token))
          && after.status == Succeeded(after.stored.value)
        else after.status == Failed(StateUnusable) && after.stored == None
      case Unauthenticated => after.status == Failed(AuthRejected) && after.stored == None
      case AlreadyExists => after.status == Failed(NameTaken) && after.stored == None
      case _ => after.status == Running && after.stored == None
  {
  }

  /** Credentials once stored stay stored, over every run and every restart. */
  lemma {:induction false} StoredStays(w: World, cfg: Config, steps: seq<Step>, name: string)
    requires name in w.hosts && w.hosts[name].stored.Some?
    ensures var end := RunWorld(w, cfg, steps);
      name in end.hosts && end.hosts[name].stored == w.hosts[name].stored
    decreases |steps|
  {
    if steps != [] {
      StoredStays(w, cfg, steps[..|steps| - 1], name);
    }
  }

  /** A lost request does nothing; a lost reply leaves the host as it was although the control
      plane has handled the request; a restart lets the host try again. */
  lemma NetworkMeaning(w: World, cfg: Config, name: string, secret: string, now: int, writes: nat, savable: bool)
    requires name in w.hosts && Calls(w.hosts[name], true) && w.hosts[name].agent.id != ""
    ensures Next(w, cfg, Bootstrapping(name, secret, now, writes, RequestLost, true, savable)) == w
    ensures var lost := Next(w, cfg, Bootstrapping(name, secret, now, writes, ReplyLost, true, savable));
      && lost.hosts == w.hosts
      && lost.cp == Exec(w.cp, cfg, Register(w.hosts[name].regToken, w.hosts[name].agent, secret), now, writes)
    ensures var restarted := Next(w, cfg, RestartHost(name));
      restarted == w.(hosts := w.hosts[name := w.hosts[name].(status := Running, delivered := 0)])
  {
    assert w.hosts[name := w.hosts[name]] == w.hosts;
  }
}
