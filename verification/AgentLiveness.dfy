/** An agent that keeps sending heartbeats keeps its credential. */
module AgentLiveness {
  import opened Options
  import opened Credentials
  import opened CredentialSafety

  /** `h` is the stored token of agent `a`, and expires between `lo` and `hi`. */
  ghost predicate HasToken(s: Stores, h: string, a: string, lo: int, hi: int)
  {
    && h != "" && a != "" && h in s.issued && a in s.agents
    && h in s.tokens && s.tokens[h].userId == "" && s.tokens[h].agentId == a
    && s.tokens[h].expiresAt.Some? && lo <= s.tokens[h].expiresAt.value <= hi
  }

  /** A write that neither takes the token away nor shortens it. */
  ghost predicate Spares(w: Write, h: string, a: string, lo: int, hi: int)
  {
    match w
    case DropToken(secret) => secret != h
    case DropAgentTokens(id) => id != a
    case DeleteAgentRecord(id) => id != a
    case DropUserTokens(id) => id != ""
    case IssueToken(secret, _) => secret != h
    case ExtendToken(secret, expires) => secret == h ==> lo <= expires <= hi
    case _ => true
  }

  lemma {:induction false} SparingWrites(s: Stores, ws: seq<Write>, h: string, a: string, lo: int, hi: int)
    requires HasToken(s, h, a, lo, hi) && forall w | w in ws :: Spares(w, h, a, lo, hi)
    ensures HasToken(ApplyWrites(s, ws), h, a, lo, hi)
    decreases |ws|
  {
    if ws != [] {
      assert Spares(ws[0], h, a, lo, hi);
      SparingWrites(Apply(s, ws[0]), ws[1..], h, a, lo, hi);
    }
  }

  lemma Authenticates(s: Stores, h: string, a: string, lo: int, hi: int, now: int)
    requires HasToken(s, h, a, lo, hi) && now <= lo
    ensures Authenticate(s, h, now) == AgentPrincipal(s.agents[a])
  {
  }

  /** Only deleting the agent, logging its token out, or letting it expire can take the
      token away; only its own heartbeat changes its expiry, and never backwards. */
  lemma OperationSpares(s: Stores, cfg: Config, op: Operation, now: int, h: string, a: string, e: int)
    requires Safe(s) && FreshSecret(s, op) && HasToken(s, h, a, e, e) && now <= e <= now + cfg.agentTTL
    requires op != DeleteAgent(a) && op != Logout(h)
    ensures forall w | w in PlanFor(s, cfg, op, now).writes :: Spares(w, h, a, e, now + cfg.agentTTL)
  {
    if op.Heartbeat? || op.Deregister? || op.Verify? {
      BearerSpares(s, cfg, op.bearer, now, h, a, e);
    }
  }

  lemma BearerSpares(s: Stores, cfg: Config, bearer: string, now: int, h: string, a: string, e: int)
    requires Safe(s) && HasToken(s, h, a, e, e) && now <= e <= now + cfg.agentTTL
    ensures forall w | w in PlanHeartbeat(s, cfg, bearer, now).writes :: Spares(w, h, a, e, now + cfg.agentTTL)
    ensures forall w | w in PlanDeregister(s, bearer, now).writes :: Spares(w, h, a, e, now + cfg.agentTTL)
    ensures forall w | w in AuthWrites(s, bearer, now) :: Spares(w, h, a, e, now + cfg.agentTTL)
  {
    Authenticates(s, h, a, e, e, now);
  }

  lemma PrefixMembers<T>(s: seq<T>, n: nat)
    ensures forall x | x in Prefix(s, n) :: x in s
  {
  }

  /** One operation, possibly interrupted, while the token is valid. */
  lemma StepKeepsToken(s: Stores, cfg: Config, op: Operation, now: int, writes: nat, h: string, a: string, e: int)
    requires Safe(s) && FreshSecret(s, op) && HasToken(s, h, a, e, e) && now <= e <= now + cfg.agentTTL
    requires op != DeleteAgent(a) && op != Logout(h)
    ensures HasToken(Exec(s, cfg, op, now, writes), h, a, e, now + cfg.agentTTL)
  {
    OperationSpares(s, cfg, op, now, h, a, e);
    var ws := PlanFor(s, cfg, op, now).writes;
    PrefixMembers(ws, writes);
    SparingWrites(s, Prefix(ws, writes), h, a, e, now + cfg.agentTTL);
  }

  /** A completed heartbeat sets the expiry to the full lifetime from now. */
  lemma HeartbeatExtends(s: Stores, cfg: Config, now: int, writes: nat, h: string, a: string, e: int)
    requires Safe(s) && HasToken(s, h, a, e, e) && now <= e && cfg.agentTTL > 0 && writes >= 2
    ensures HasToken(Exec(s, cfg, Heartbeat(h), now, writes), h, a, now + cfg.agentTTL, now + cfg.agentTTL)
  {
    Authenticates(s, h, a, e, e, now);
    var saved := SaveAgent(s.agents[a].(lastHeartbeat := Some(now), updatedAt := now));
    assert saved.agent.id == a;
    var extend := ExtendToken(h, now + cfg.agentTTL);
    assert PlanFor(s, cfg, Heartbeat(h), now).writes == [saved, extend];
    TwoWrites(s, saved, extend, writes);
  }

  // ---------- Whole runs ----------

  /** When the agent last completed a heartbeat, or got its token. */
  function LastBeat(actions: seq<Action>, h: string, start: int): int
  {
    if actions == [] then start
    else
      var n := |actions| - 1;
      if actions[n].op == Heartbeat(h) && actions[n].writes >= 2 then actions[n].now
      else LastBeat(actions[..n], h, start)
  }

  /** From `s` on: secrets are new, time does not go back, nobody deletes the agent or logs
      its token out, and nothing happens later than a token lifetime after the last
      completed heartbeat. */
  ghost predicate KeepsBeating(s: Stores, cfg: Config, actions: seq<Action>, h: string, a: string, start: int)
    decreases |actions|
  {
    actions == [] ||
    (var n := |actions| - 1;
     var last, before := actions[n], actions[..n];
     && KeepsBeating(s, cfg, before, h, a, start)
     && FreshSecret(Run(s, cfg, before), last.op)
     && last.op != DeleteAgent(a) && last.op != Logout(h)
     && Clock(before, start) <= last.now <= LastBeat(before, h, start) + cfg.agentTTL)
  }

  ghost predicate Alive(s: Stores, cfg: Config, h: string, a: string, beat: int, clock: int)
  {
    Safe(s) && HasToken(s, h, a, beat + cfg.agentTTL, clock + cfg.agentTTL)
  }

  lemma StepStaysAlive(s: Stores, cfg: Config, act: Action, h: string, a: string, beat: int, clock: int)
    requires cfg.agentTTL > 0 && Alive(s, cfg, h, a, beat, clock)
    requires FreshSecret(s, act.op) && act.op != DeleteAgent(a) && act.op != Logout(h)
    requires clock <= act.now <= beat + cfg.agentTTL
    ensures var beat' := if act.op == Heartbeat(h) && act.writes >= 2 then act.now else beat;
      Alive(Exec(s, cfg, act.op, act.now, act.writes), cfg, h, a, beat', act.now)
    ensures s.tokens[h].expiresAt.value
         <= Exec(s, cfg, act.op, act.now, act.writes).tokens[h].expiresAt.value
  {
    var e := s.tokens[h].expiresAt.value;
    StepKeepsSafe(s, cfg, act.op, act.now, act.writes);
    StepKeepsToken(s, cfg, act.op, act.now, act.writes, h, a, e);
    if act.op == Heartbeat(h) && act.writes >= 2 {
      HeartbeatExtends(s, cfg, act.now, act.writes, h, a, e);
    }
  }

  /** An agent whose completed heartbeats are at most a token lifetime apart authenticates
      at every moment up to a lifetime after the last one, whatever else happens and
      wherever operations are interrupted, until someone deletes it. */
  lemma {:induction false} BeatingAgentStaysAlive(s: Stores, cfg: Config, actions: seq<Action>, h: string, a: string,
                                                  start: int)
    requires cfg.agentTTL > 0 && Alive(s, cfg, h, a, start, start)
    requires KeepsBeating(s, cfg, actions, h, a, start)
    ensures Alive(Run(s, cfg, actions), cfg, h, a, LastBeat(actions, h, start), Clock(actions, start))
    decreases |actions|
  {
    if actions != [] {
      var n := |actions| - 1;
      BeatingAgentStaysAlive(s, cfg, actions[..n], h, a, start);
      StepStaysAlive(Run(s, cfg, actions[..n]), cfg, actions[n], h, a, LastBeat(actions[..n], h, start),
                     Clock(actions[..n], start));
    }
  }

  /** So it is never turned away. */
  lemma BeatingAgentAuthenticates(s: Stores, cfg: Config, actions: seq<Action>, h: string, a: string, start: int,
                                  now: int)
    requires cfg.agentTTL > 0 && Alive(s, cfg, h, a, start, start)
    requires KeepsBeating(s, cfg, actions, h, a, start)
    requires now <= LastBeat(actions, h, start) + cfg.agentTTL
    ensures Authenticate(Run(s, cfg, actions), h, now).AgentPrincipal?
    ensures Authenticate(Run(s, cfg, actions), h, now).agent.id == a
  {
    BeatingAgentStaysAlive(s, cfg, actions, h, a, start);
    var end := Run(s, cfg, actions);
    Authenticates(end, h, a, LastBeat(actions, h, start) + cfg.agentTTL, Clock(actions, start) + cfg.agentTTL, now);
  }

  /** A completed registration is where such a run starts. */
  lemma RegistrationStartsAlive(s: Stores, cfg: Config, reg: string, agent: Agent, secret: string, now: int,
                                writes: nat)
    requires Safe(s) && secret !in s.issued && secret != "" && writes >= 3
    requires PlanRegister(s, cfg, reg, agent, secret, now).reply.Registered?
    ensures cfg.agentTTL > 0
    ensures Alive(Exec(s, cfg, Register(reg, agent, secret), now, writes), cfg, secret, agent.id, now, now)
  {
    StepKeepsSafe(s, cfg, Register(reg, agent, secret), now, writes);
    var ws := PlanRegister(s, cfg, reg, agent, secret, now).writes;
    assert Prefix(ws, writes) == ws;
    var t := Apply(Apply(s, ws[0]), ws[1]);
    assert ws[1..] == [ws[1], ws[2]] && [ws[1], ws[2]][1..] == [ws[2]] && [ws[2]][1..] == [];
    assert ApplyWrites(t, [ws[2]]) == ApplyWrites(Apply(t, ws[2]), []);
    assert ApplyWrites(s, ws) == Apply(t, ws[2]);
  }
}
