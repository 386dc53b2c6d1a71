/** What a registration that does not complete leaves behind. */
module Registration {
  import opened Options
  import opened Credentials
  import opened CredentialSafety

  /** The registration gets as far as creating the agent's record. */
  predicate CreatesRecord(s: Stores, reg: string, agent: Agent, now: int, writes: nat)
  {
    reg in s.regTokens && now <= s.regTokens[reg] && ValidAgent(agent) && agent.id !in s.agents && writes >= 2
  }

  lemma ExecRegister(s: Stores, cfg: Config, reg: string, agent: Agent, secret: string, now: int, writes: nat)
    ensures var plan := PlanRegister(s, cfg, reg, agent, secret, now);
      Exec(s, cfg, Register(reg, agent, secret), now, writes)
        == if writes == 0 || plan.writes == [] then s
           else if writes == 1 || |plan.writes| == 1 then Apply(s, plan.writes[0])
           else if writes == 2 || |plan.writes| == 2 then Apply(Apply(s, plan.writes[0]), plan.writes[1])
           else Apply(Apply(Apply(s, plan.writes[0]), plan.writes[1]), plan.writes[2])
  {
    var ws := PlanRegister(s, cfg, reg, agent, secret, now).writes;
    var done := Prefix(ws, writes);
    Unrolled(s, done);
  }

  lemma Unrolled(s: Stores, ws: seq<Write>)
    requires |ws| <= 3
    ensures ApplyWrites(s, ws)
         == if |ws| == 0 then s
            else if |ws| == 1 then Apply(s, ws[0])
            else if |ws| == 2 then Apply(Apply(s, ws[0]), ws[1])
            else Apply(Apply(Apply(s, ws[0]), ws[1]), ws[2])
  {
    if |ws| > 0 {
      var t := Apply(s, ws[0]);
      assert ApplyWrites(t, []) == t;
      if |ws| == 1 {
        assert ws[1..] == [];
      } else {
        UnrolledTwo(t, ws[1..]);
      }
    }
  }

  lemma UnrolledTwo(s: Stores, ws: seq<Write>)
    requires 1 <= |ws| <= 2
    ensures ApplyWrites(s, ws) == if |ws| == 1 then Apply(s, ws[0]) else Apply(Apply(s, ws[0]), ws[1])
  {
    var t := Apply(s, ws[0]);
    assert ApplyWrites(t, []) == t;
    if |ws| == 1 {
      assert ws[1..] == [];
    } else {
      var u := Apply(t, ws[1]);
      assert ApplyWrites(u, []) == u;
      assert ws[1..][1..] == [];
    }
  }

  /** A registration that does not complete leaves the registry as it was if and only if it
      does not get as far as creating the record.  If it does, the record has no token. */
  lemma RegistryCleanIff(s: Stores, cfg: Config, reg: string, agent: Agent, secret: string, now: int, writes: nat)
    requires Safe(s)
    requires !(PlanRegister(s, cfg, reg, agent, secret, now).reply.Registered? && writes >= 3)
    ensures var after := Exec(s, cfg, Register(reg, agent, secret), now, writes);
      && (after.agents == s.agents <==> !CreatesRecord(s, reg, agent, now, writes))
      && (CreatesRecord(s, reg, agent, now, writes) ==>
            agent.id in after.agents && forall h | h in after.tokens :: after.tokens[h].agentId != agent.id)
  {
    if CreatesRecord(s, reg, agent, now, writes) {
      RecordLeft(s, cfg, reg, agent, secret, now, writes);
    } else {
      ExecRegister(s, cfg, reg, agent, secret, now, writes);
    }
  }

  lemma RecordLeft(s: Stores, cfg: Config, reg: string, agent: Agent, secret: string, now: int, writes: nat)
    requires Safe(s) && CreatesRecord(s, reg, agent, now, writes) && (cfg.agentTTL <= 0 || writes == 2)
    ensures var after := Exec(s, cfg, Register(reg, agent, secret), now, writes);
      && agent.id in after.agents && agent.id !in s.agents
      && forall h | h in after.tokens :: after.tokens[h].agentId != agent.id
  {
    ExecRegister(s, cfg, reg, agent, secret, now, writes);
  }

  const AGENT := Agent("a", {}, None, 0, 0)
  const MINTED := EMPTY.(regTokens := map["r" := 10], minted := {"r"})

  /** It does happen: without any interruption when tokens are configured to have no
      lifetime, and otherwise when issuing the token fails. */
  lemma UncleanInputs(ttl: int)
    ensures Safe(MINTED)
    ensures ttl <= 0 ==>
      && PlanRegister(MINTED, Config(ttl, 0), "r", AGENT, "t", 5).reply == Internal
      && Exec(MINTED, Config(ttl, 0), Register("r", AGENT, "t"), 5, 3).agents.Keys == {"a"}
    ensures ttl > 0 ==> Exec(MINTED, Config(ttl, 0), Register("r", AGENT, "t"), 5, 2).agents.Keys == {"a"}
  {
    ExecRegister(MINTED, Config(ttl, 0), "r", AGENT, "t", 5, 3);
    ExecRegister(MINTED, Config(ttl, 0), "r", AGENT, "t", 5, 2);
    assert MINTED.created == [] && Admins(MINTED) == {};
  }

  // ---------- Minting a fresh token and retrying ----------

  lemma {:induction false} WritesKeepRecord(s: Stores, ws: seq<Write>, id: string)
    requires id in s.agents && DeleteAgentRecord(id) !in ws
    ensures id in ApplyWrites(s, ws).agents
    decreases |ws|
  {
    if ws != [] {
      assert ws[0] in ws;
      WritesKeepRecord(Apply(s, ws[0]), ws[1..], id);
    }
  }

  /** Only deleting the agent removes its record. */
  lemma NoDeletePlanned(s: Stores, cfg: Config, op: Operation, now: int, id: string)
    requires op != DeleteAgent(id)
    ensures DeleteAgentRecord(id) !in PlanFor(s, cfg, op, now).writes
  {
  }

  lemma {:induction false} RecordStays(s: Stores, cfg: Config, actions: seq<Action>, id: string)
    requires id in s.agents && forall a | a in actions :: a.op != DeleteAgent(id)
    ensures id in Run(s, cfg, actions).agents
    decreases |actions|
  {
    if actions != [] {
      var n := |actions| - 1;
      var before, last := Run(s, cfg, actions[..n]), actions[n];
      RecordStays(s, cfg, actions[..n], id);
      assert last in actions;
      NoDeletePlanned(before, cfg, last.op, last.now, id);
      WritesKeepRecord(before, Prefix(PlanFor(before, cfg, last.op, last.now).writes, last.writes), id);
    }
  }

  /** Until the agent is deleted, whatever else is done, every further registration of the
      name fails, fresh registration tokens included. */
  lemma RetryIsRefused(s: Stores, cfg: Config, reg: string, agent: Agent, secret: string, now: int, writes: nat,
                       actions: seq<Action>, reg': string, agent': Agent, secret': string, later: int)
    requires Safe(s) && CreatesRecord(s, reg, agent, now, writes)
    requires !(PlanRegister(s, cfg, reg, agent, secret, now).reply.Registered? && writes >= 3)
    requires (forall a | a in actions :: a.op != DeleteAgent(agent.id)) && ValidAgent(agent') && agent'.id == agent.id
    ensures var end := Run(Exec(s, cfg, Register(reg, agent, secret), now, writes), cfg, actions);
      PlanRegister(end, cfg, reg', agent', secret', later).reply
        == if reg' in end.regTokens && later <= end.regTokens[reg'] then AgentExists else InvalidRegistrationToken
  {
    RegistryCleanIff(s, cfg, reg, agent, secret, now, writes);
    RecordStays(Exec(s, cfg, Register(reg, agent, secret), now, writes), cfg, actions, agent.id);
  }

  /** After a completed deletion the name can be registered again. */
  lemma DeletionUnblocks(s: Stores, cfg: Config, name: string, now: int, writes: nat, reg: string, agent: Agent,
                         secret: string, later: int)
    requires PlanFor(s, cfg, DeleteAgent(name), now).reply == Done && writes >= 2 && cfg.agentTTL > 0
    requires ValidAgent(agent) && agent.id == name && reg in s.regTokens && later <= s.regTokens[reg]
    ensures PlanRegister(Exec(s, cfg, DeleteAgent(name), now, writes), cfg, reg, agent, secret, later).reply
         == Registered(name, secret)
  {
    TwoWrites(s, DropAgentTokens(name), DeleteAgentRecord(name), writes);
  }
}
