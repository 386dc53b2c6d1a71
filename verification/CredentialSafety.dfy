/** What every run of credential operations keeps, interrupted or not. */
module CredentialSafety {
  import opened Options
  import opened Credentials

  // ---------- The invariants ----------

  /** Every stored agent token names an agent that has a record, and no two stored tokens
      name the same agent. */
  ghost predicate TokensOwned(s: Stores)
  {
    && (forall h | h in s.tokens :: h in s.issued)
    && (forall h | h in s.tokens && s.tokens[h].agentId != "" ::
          s.tokens[h].agentId in s.agents && s.tokens[h].userId == "")
    && (forall h, h' | h in s.tokens && h' in s.tokens && h != h' && s.tokens[h].agentId != "" ::
          s.tokens[h].agentId != s.tokens[h'].agentId)
  }

  /** A registration token that created an agent is gone for good, and created one. */
  ghost predicate RegistrationsSpent(s: Stores)
  {
    && s.regTokens.Keys <= s.minted
    && (forall c | c in s.created :: c.regToken in s.minted && c.regToken !in s.regTokens)
    && (forall i, j :: 0 <= i < j < |s.created| ==> s.created[i].regToken != s.created[j].regToken)
  }

  ghost predicate UsersProper(s: Stores)
  {
    && (forall id | id in s.users :: id != "" && s.users[id].id == id)
    && (forall id | id in s.agents :: id != "" && s.agents[id].id == id)
    && s.inits <= 1 && (s.inits == 1 ==> Admins(s) != {})
  }

  ghost predicate Safe(s: Stores)
  {
    TokensOwned(s) && RegistrationsSpent(s) && UsersProper(s)
  }

  // ---------- Single writes ----------

  /** What an operation must have made sure of before a write. */
  ghost predicate Justified(s: Stores, w: Write)
  {
    match w
    case SaveReg(secret, _) => secret !in s.minted
    case CreateAgent(a, reg) =>
      && a.id != "" && a.id !in s.agents && reg in s.minted && reg !in s.regTokens
      && forall c | c in s.created :: c.regToken != reg
    case SaveAgent(a) => a.id in s.agents
    case DeleteAgentRecord(id) => forall h | h in s.tokens && s.tokens[h].agentId != "" :: s.tokens[h].agentId != id
    case IssueToken(secret, t) =>
      && secret !in s.issued
      && (t.agentId != "" ==> t.userId == "" && t.agentId in s.agents)
      && (t.agentId != "" ==> forall h | h in s.tokens :: s.tokens[h].agentId != t.agentId)
    case CreateUserRecord(u, initial) =>
      u.id != "" && u.id !in s.users && (initial ==> s.users == map[] && u.role == ADMIN)
    case DeleteUserRecord(id) => id in s.users && (s.users[id].role == ADMIN ==> |Admins(s)| > 1)
    case _ => true
  }

  lemma WriteKeepsTokens(s: Stores, w: Write)
    requires TokensOwned(s) && Justified(s, w)
    ensures TokensOwned(Apply(s, w))
  {
  }

  lemma WriteKeepsRegistrations(s: Stores, w: Write)
    requires RegistrationsSpent(s) && Justified(s, w)
    ensures RegistrationsSpent(Apply(s, w))
  {
  }

  /** Once there is an administrator, there always is one. */
  lemma WriteKeepsAdmin(s: Stores, w: Write)
    requires Justified(s, w) && Admins(s) != {}
    ensures Admins(Apply(s, w)) != {}
  {
    var s' := Apply(s, w);
    match w
    case CreateUserRecord(u, _) =>
      var id :| id in Admins(s);
      assert id in Admins(s');
    case SavePassword(name, _) =>
      var id :| id in Admins(s);
      assert id in Admins(s');
    case DeleteUserRecord(id) =>
      assert Admins(s') == Admins(s) - {id};
      if id in Admins(s) {
        assert |Admins(s')| == |Admins(s)| - 1;
      }
    case _ =>
      assert Admins(s') == Admins(s);
  }

  lemma WriteKeepsUsers(s: Stores, w: Write)
    requires UsersProper(s) && Justified(s, w)
    ensures UsersProper(Apply(s, w))
  {
    if Admins(s) != {} {
      WriteKeepsAdmin(s, w);
    }
    if w.CreateUserRecord? && w.initial {
      assert Admins(s) == {};
      assert w.user.id in Admins(Apply(s, w));
    }
  }

  // ---------- Operations, stopped anywhere ----------

  ghost predicate AllJustified(s: Stores, ws: seq<Write>)
    decreases |ws|
  {
    ws == [] || (Justified(s, ws[0]) && AllJustified(Apply(s, ws[0]), ws[1..]))
  }

  lemma {:induction false} WritesKeepSafe(s: Stores, ws: seq<Write>, n: nat)
    requires Safe(s) && AllJustified(s, ws)
    ensures Safe(ApplyWrites(s, Prefix(ws, n)))
    ensures Admins(s) != {} ==> Admins(ApplyWrites(s, Prefix(ws, n))) != {}
    decreases |ws|
  {
    if ws != [] && n > 0 {
      var w := ws[0];
      WriteKeepsTokens(s, w);
      WriteKeepsRegistrations(s, w);
      WriteKeepsUsers(s, w);
      if Admins(s) != {} {
        WriteKeepsAdmin(s, w);
      }
      WritesKeepSafe(Apply(s, w), ws[1..], n - 1);
      assert Prefix(ws, n)[1..] == Prefix(ws[1..], n - 1);
    }
  }

  lemma JustifiedOne(s: Stores, w: Write)
    requires Justified(s, w)
    ensures AllJustified(s, [w])
  {
  }

  lemma JustifiedTwo(s: Stores, w: Write, x: Write)
    requires Justified(s, w) && Justified(Apply(s, w), x)
    ensures AllJustified(s, [w, x])
  {
    JustifiedOne(Apply(s, w), x);
    assert [w, x][1..] == [x];
  }

  lemma JustifiedThree(s: Stores, w: Write, x: Write, y: Write)
    requires Justified(s, w) && Justified(Apply(s, w), x) && Justified(Apply(Apply(s, w), x), y)
    ensures AllJustified(s, [w, x, y])
  {
    JustifiedTwo(Apply(s, w), x, y);
    assert [w, x, y][1..] == [x, y];
  }

  lemma RegisterJustified(s: Stores, cfg: Config, reg: string, agent: Agent, secret: string, now: int)
    requires Safe(s) && secret !in s.issued
    ensures AllJustified(s, PlanRegister(s, cfg, reg, agent, secret, now).writes)
  {
    var ws := PlanRegister(s, cfg, reg, agent, secret, now).writes;
    if |ws| == 1 {
      JustifiedOne(s, ws[0]);
    } else if |ws| == 2 {
      JustifiedTwo(s, ws[0], ws[1]);
    } else if |ws| == 3 {
      JustifiedThree(s, ws[0], ws[1], ws[2]);
      assert ws == [ws[0], ws[1], ws[2]];
    }
  }

  lemma BearerJustified(s: Stores, cfg: Config, bearer: string, now: int)
    requires Safe(s)
    ensures AllJustified(s, AuthWrites(s, bearer, now))
    ensures AllJustified(s, PlanHeartbeat(s, cfg, bearer, now).writes)
    ensures AllJustified(s, PlanDeregister(s, bearer, now).writes)
  {
    JustifiedOne(s, DropToken(bearer));
    if Authenticate(s, bearer, now).AgentPrincipal? {
      var a := Authenticate(s, bearer, now).agent;
      var saved := SaveAgent(a.(lastHeartbeat := Some(now), updatedAt := now));
      JustifiedOne(s, saved);
      JustifiedTwo(s, saved, ExtendToken(bearer, now + cfg.agentTTL));
      JustifiedOne(s, SaveAgent(a.(lastHeartbeat := None, updatedAt := now)));
    }
  }

  lemma UserOperationsJustified(s: Stores, cfg: Config, op: Operation, now: int)
    requires Safe(s) && FreshSecret(s, op)
    requires op.InitAdmin? || op.Login? || op.CreateUser? || op.DeleteUser? || op.ChangePassword? || op.ResetPassword?
    ensures AllJustified(s, PlanFor(s, cfg, op, now).writes)
  {
    var ws := PlanFor(s, cfg, op, now).writes;
    if |ws| == 1 {
      JustifiedOne(s, ws[0]);
    } else if |ws| == 2 {
      JustifiedTwo(s, ws[0], ws[1]);
    } else if |ws| == 3 {
      JustifiedThree(s, ws[0], ws[1], ws[2]);
      assert ws == [ws[0], ws[1], ws[2]];
    }
  }

  lemma OperationJustified(s: Stores, cfg: Config, op: Operation, now: int)
    requires Safe(s) && FreshSecret(s, op)
    ensures AllJustified(s, PlanFor(s, cfg, op, now).writes)
  {
    match op
    case Register(reg, agent, secret) => RegisterJustified(s, cfg, reg, agent, secret, now);
    case Heartbeat(bearer) => BearerJustified(s, cfg, bearer, now);
    case Deregister(bearer) => BearerJustified(s, cfg, bearer, now);
    case Verify(bearer) => BearerJustified(s, cfg, bearer, now);
    case DeleteAgent(name) =>
      if name in s.agents && name != "" {
        JustifiedTwo(s, DropAgentTokens(name), DeleteAgentRecord(name));
      }
    case InitAdmin(_, _, _, _) => UserOperationsJustified(s, cfg, op, now);
    case Login(_, _, _, _, _) => UserOperationsJustified(s, cfg, op, now);
    case CreateUser(_, _, _, _) => UserOperationsJustified(s, cfg, op, now);
    case DeleteUser(_) => UserOperationsJustified(s, cfg, op, now);
    case ChangePassword(_, _, _) => UserOperationsJustified(s, cfg, op, now);
    case ResetPassword(_, _) => UserOperationsJustified(s, cfg, op, now);
    case _ =>
      var ws := PlanFor(s, cfg, op, now).writes;
      if ws != [] {
        JustifiedOne(s, ws[0]);
      }
  }

  // ---------- Runs ----------

  /** Any operation, stopped anywhere, keeps the stores safe and keeps an administrator. */
  lemma StepKeepsSafe(s: Stores, cfg: Config, op: Operation, now: int, writes: nat)
    requires Safe(s) && FreshSecret(s, op)
    ensures Safe(Exec(s, cfg, op, now, writes))
    ensures Admins(s) != {} ==> Admins(Exec(s, cfg, op, now, writes)) != {}
  {
    OperationJustified(s, cfg, op, now);
    WritesKeepSafe(s, PlanFor(s, cfg, op, now).writes, writes);
  }

  /** Over every run, with any operation stopped after any of its writes: every stored
      agent token names an agent that has a record, each agent has at most one stored
      token, each registration token has created at most one agent record, and
      first-time initialisation has created at most one user. */
  lemma {:induction false} EveryRunSafe(cfg: Config, actions: seq<Action>)
    requires ProperRun(cfg, actions)
    ensures Safe(Run(EMPTY, cfg, actions))
  {
    if actions != [] {
      var n := |actions| - 1;
      EveryRunSafe(cfg, actions[..n]);
      StepKeepsSafe(Run(EMPTY, cfg, actions[..n]), cfg, actions[n].op, actions[n].now, actions[n].writes);
    }
  }

  lemma AdminStep(cfg: Config, actions: seq<Action>)
    requires ProperRun(cfg, actions) && actions != []
    requires Admins(Run(EMPTY, cfg, actions[..|actions| - 1])) != {}
    ensures Admins(Run(EMPTY, cfg, actions)) != {}
  {
    var n := |actions| - 1;
    EveryRunSafe(cfg, actions[..n]);
    StepKeepsSafe(Run(EMPTY, cfg, actions[..n]), cfg, actions[n].op, actions[n].now, actions[n].writes);
  }

  ghost predicate HasAdmin(cfg: Config, actions: seq<Action>)
  {
    Admins(Run(EMPTY, cfg, actions)) != {}
  }

  /** Once an administrator exists, every later state of the run has one. */
  lemma {:induction false} AdminRemains(cfg: Config, actions: seq<Action>, k: nat)
    requires ProperRun(cfg, actions) && k <= |actions| && HasAdmin(cfg, actions[..k])
    ensures HasAdmin(cfg, actions)
    decreases |actions|
  {
    if k == |actions| {
      assert actions[..k] == actions;
    } else {
      var n := |actions| - 1;
      assert actions[..n][..k] == actions[..k];
      AdminRemains(cfg, actions[..n], k);
      AdminStep(cfg, actions);
    }
  }

  lemma TwoWrites(s: Stores, w: Write, x: Write, n: nat)
    requires n >= 2
    ensures ApplyWrites(s, Prefix([w, x], n)) == Apply(Apply(s, w), x)
  {
    var ws, t, u := [w, x], Apply(s, w), Apply(Apply(s, w), x);
    assert Prefix(ws, n) == ws && ws[1..] == [x];
    assert ApplyWrites(t, [x]) == ApplyWrites(u, []);
  }

  /** A completed deletion or password change of a user leaves no token of that user. */
  lemma UserTokensRevoked(s: Stores, cfg: Config, op: Operation, now: int, writes: nat)
    requires op.DeleteUser? || op.ResetPassword? || op.ChangePassword?
    requires PlanFor(s, cfg, op, now).reply == Done && writes >= 2
    ensures forall h | h in Exec(s, cfg, op, now, writes).tokens ::
      Exec(s, cfg, op, now, writes).tokens[h].userId != op.username
  {
    var ws := PlanFor(s, cfg, op, now).writes;
    assert ws == [ws[0], DropUserTokens(op.username)];
    TwoWrites(s, ws[0], ws[1], writes);
  }

  /** A completed deletion of an agent leaves no record and no token of it. */
  lemma AgentTokensRevoked(s: Stores, cfg: Config, name: string, now: int, writes: nat)
    requires PlanFor(s, cfg, DeleteAgent(name), now).reply == Done && writes >= 2
    ensures name !in Exec(s, cfg, DeleteAgent(name), now, writes).agents
    ensures forall h | h in Exec(s, cfg, DeleteAgent(name), now, writes).tokens ::
      Exec(s, cfg, DeleteAgent(name), now, writes).tokens[h].agentId != name
  {
    TwoWrites(s, DropAgentTokens(name), DeleteAgentRecord(name), writes);
  }
}
