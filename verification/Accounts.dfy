/** What the account and agent operations mean to their callers: who may do what, what is
    recorded, and where the authority of the first administrator comes from.
 */
module Accounts {
  import opened Options
  import opened Credentials
  import opened CredentialSafety
  import opened Sessions

  // ---------- First-time initialisation ----------

  /** The operation wrote the bootstrap token, or cleared it. */
  predicate Touches(s: Stores, cfg: Config, act: Action)
  {
    match act.op
    case Bootstrap(_) => act.writes >= 1 && s.users == map[]
    case Restart => act.writes >= 1
    case InitAdmin(_, _, _, _) => act.writes >= 2 && PlanFor(s, cfg, act.op, act.now).reply.Secret?
    case _ => false
  }

  lemma {:induction false} WritesKeepBootstrap(s: Stores, ws: seq<Write>)
    requires forall w | w in ws :: !w.SetBootstrap?
    ensures ApplyWrites(s, ws).bootstrap == s.bootstrap
    decreases |ws|
  {
    if ws != [] {
      assert ws[0] in ws;
      WritesKeepBootstrap(Apply(s, ws[0]), ws[1..]);
    }
  }

  /** Nothing else touches it. */
  lemma UntouchedBootstrap(s: Stores, cfg: Config, act: Action)
    requires !Touches(s, cfg, act)
    ensures Exec(s, cfg, act.op, act.now, act.writes).bootstrap == s.bootstrap
  {
    var ws := PlanFor(s, cfg, act.op, act.now).writes;
    if act.op.InitAdmin? {
      InitUntouched(s, cfg, act);
    } else {
      NeverSets(s, cfg, act);
    }
    WritesKeepBootstrap(s, Prefix(ws, act.writes));
  }

  lemma NeverSets(s: Stores, cfg: Config, act: Action)
    requires !Touches(s, cfg, act) && !act.op.InitAdmin?
    ensures forall w | w in Prefix(PlanFor(s, cfg, act.op, act.now).writes, act.writes) :: !w.SetBootstrap?
  {
  }

  lemma InitUntouched(s: Stores, cfg: Config, act: Action)
    requires !Touches(s, cfg, act) && act.op.InitAdmin?
    ensures forall w | w in Prefix(PlanFor(s, cfg, act.op, act.now).writes, act.writes) :: !w.SetBootstrap?
  {
  }

  lemma TouchedBootstrap(s: Stores, cfg: Config, act: Action)
    requires Touches(s, cfg, act)
    ensures Exec(s, cfg, act.op, act.now, act.writes).bootstrap
         == if act.op.Bootstrap? then act.op.secret else ""
  {
    var ws := PlanFor(s, cfg, act.op, act.now).writes;
    if act.op.InitAdmin? {
      InitWrites(s, cfg, act.op, act.now, act.writes);
    } else {
      OneWrite(s, ws[0], act.writes);
    }
  }

  /** The stores after an accepted initialisation. */
  lemma InitWrites(s: Stores, cfg: Config, op: Operation, now: int, writes: nat)
    requires op.InitAdmin? && PlanFor(s, cfg, op, now).reply.Secret?
    ensures var after := Exec(s, cfg, op, now, writes);
      && (writes == 0 ==> after == s)
      && (writes >= 1 ==>
            after.users == map[op.username := User(op.username, op.password, "admin")] && after.inits == s.inits + 1)
      && (writes >= 2 ==> after.bootstrap == "")
  {
    var ws := PlanFor(s, cfg, op, now).writes;
    if writes >= 1 {
      OneWrite(s, ws[0], 1);
      if writes == 1 {
        assert Prefix(ws, 1) == [ws[0]] == Prefix([ws[0]], 1);
      } else if writes == 2 {
        TwoWrites(s, ws[0], ws[1], 2);
        assert Prefix(ws, 2) == [ws[0], ws[1]] == Prefix([ws[0], ws[1]], 2);
      } else {
        assert Prefix(ws, writes) == ws && ws[1..] == [ws[1], ws[2]];
        TwoWrites(Apply(s, ws[0]), ws[1], ws[2], 2);
        assert Prefix([ws[1], ws[2]], 2) == [ws[1], ws[2]];
      }
    }
  }

  /** Action `k` of the run started the bootstrap with this secret: there was no user, and
      since then there was no restart, no other bootstrap and no initialisation that used
      the secret up. */
  ghost predicate Started(cfg: Config, actions: seq<Action>, k: nat, secret: string)
  {
    && k < |actions| && actions[k].op == Bootstrap(secret) && actions[k].writes >= 1
    && Run(EMPTY, cfg, actions[..k]).users == map[]
    && forall j | k < j < |actions| :: !TouchedAt(cfg, actions, j)
  }

  ghost predicate TouchedAt(cfg: Config, actions: seq<Action>, j: nat)
    requires j < |actions|
  {
    Touches(Run(EMPTY, cfg, actions[..j]), cfg, actions[j])
  }

  lemma TouchedInPrefix(cfg: Config, actions: seq<Action>, n: nat, j: nat)
    requires j < n <= |actions|
    ensures TouchedAt(cfg, actions[..n], j) == TouchedAt(cfg, actions, j)
  {
    assert actions[..n][..j] == actions[..j];
  }

  /** A bootstrap secret that is still good was started by some action of the run. */
  lemma {:induction false} BootstrapStarted(cfg: Config, actions: seq<Action>)
    requires Run(EMPTY, cfg, actions).bootstrap != ""
    ensures exists k: nat :: Started(cfg, actions, k, Run(EMPTY, cfg, actions).bootstrap)
    decreases |actions|
  {
    if actions != [] {
      var n := |actions| - 1;
      var s, act := Run(EMPTY, cfg, actions[..n]), actions[n];
      if Touches(s, cfg, act) {
        TouchedBootstrap(s, cfg, act);
        assert Started(cfg, actions, n, act.op.secret);
      } else {
        UntouchedBootstrap(s, cfg, act);
        BootstrapStarted(cfg, actions[..n]);
        var k: nat :| Started(cfg, actions[..n], k, s.bootstrap);
        StillStarted(cfg, actions, k, s.bootstrap);
      }
    }
  }

  lemma StillStarted(cfg: Config, actions: seq<Action>, k: nat, secret: string)
    requires actions != [] && Started(cfg, actions[..|actions| - 1], k, secret)
    requires !TouchedAt(cfg, actions, |actions| - 1)
    ensures Started(cfg, actions, k, secret)
  {
    var n := |actions| - 1;
    assert actions[..n][..k] == actions[..k];
    forall j | k < j < |actions|
      ensures !TouchedAt(cfg, actions, j)
    {
      if j < n {
        TouchedInPrefix(cfg, actions, n, j);
      }
    }
  }

  lemma {:induction false} WritesKeepInits(s: Stores, ws: seq<Write>)
    requires forall w | w in ws :: !(w.CreateUserRecord? && w.initial)
    ensures ApplyWrites(s, ws).inits == s.inits
    decreases |ws|
  {
    if ws != [] {
      assert ws[0] in ws;
      WritesKeepInits(Apply(s, ws[0]), ws[1..]);
    }
  }

  lemma NeverInitial(s: Stores, cfg: Config, op: Operation, now: int)
    requires !(op.InitAdmin? && PlanFor(s, cfg, op, now).reply.Secret?)
    ensures forall w | w in PlanFor(s, cfg, op, now).writes :: !(w.CreateUserRecord? && w.initial)
  {
  }

  /** Only an initialisation with the current bootstrap secret, and only without users,
      creates a first user. */
  lemma InitializesOnlyWithSecret(s: Stores, cfg: Config, op: Operation, now: int, writes: nat)
    requires Exec(s, cfg, op, now, writes).inits != s.inits
    ensures op.InitAdmin? && s.users == map[] && s.bootstrap != "" && op.token == s.bootstrap && writes >= 1
    ensures PlanFor(s, cfg, op, now).reply.Secret?
  {
    var ws := Prefix(PlanFor(s, cfg, op, now).writes, writes);
    assert writes == 0 ==> ws == [];
    if !(op.InitAdmin? && PlanFor(s, cfg, op, now).reply.Secret?) {
      NeverInitial(s, cfg, op, now);
      WritesKeepInits(s, ws);
    }
  }

  /** Over every run: when an initialisation creates a user, there was none before, its token
      is the secret of the bootstrap that is still good, and the new user is an administrator
      who logs in with exactly the given password. */
  lemma FirstAdminIsAuthorised(cfg: Config, actions: seq<Action>, tried: string, ttl: int, noExpiry: bool,
                               secret: string, later: int)
    requires actions != []
    requires var n := |actions| - 1; Run(EMPTY, cfg, actions).inits != Run(EMPTY, cfg, actions[..n]).inits
    ensures var n := |actions| - 1;
      var op, after := actions[n].op, Run(EMPTY, cfg, actions);
      && op.InitAdmin? && op.token != "" && (exists k: nat :: Started(cfg, actions[..n], k, op.token))
      && Run(EMPTY, cfg, actions[..n]).users == map[]
      && after.users == map[op.username := User(op.username, op.password, "admin")]
      && PlanLogin(after, cfg, op.username, tried, ttl, noExpiry, secret, later).reply
           == if tried == op.password then Secret(secret) else InvalidCredentials
  {
    var n := |actions| - 1;
    var before, act := Run(EMPTY, cfg, actions[..n]), actions[n];
    InitializesOnlyWithSecret(before, cfg, act.op, act.now, act.writes);
    BootstrapStarted(cfg, actions[..n]);
    InitWrites(before, cfg, act.op, act.now, act.writes);
  }

  /** And an initialisation with the good secret is accepted, given a name and a password of
      acceptable length. */
  lemma InitAcceptedIff(s: Stores, cfg: Config, token: string, username: string, password: string, secret: string,
                        now: int)
    ensures PlanInitAdmin(s, cfg, token, username, password, secret, now).reply == Secret(secret) <==>
      && s.users == map[] && token != "" && token == s.bootstrap
      && username != "" && 8 <= |password| <= 72
  {
  }

  // ---------- Users ----------

  /** A login succeeds exactly with the user's current password. */
  lemma LoginAcceptedIff(s: Stores, cfg: Config, username: string, password: string, ttl: int, noExpiry: bool,
                         secret: string, now: int)
    ensures PlanLogin(s, cfg, username, password, ttl, noExpiry, secret, now).reply
         == if username in s.users && password == s.users[username].password then Secret(secret) else InvalidCredentials
  {
  }

  /** A password change is done exactly when the old password would have logged in and the new
      one has an acceptable length. */
  lemma ChangeNeedsOldPassword(s: Stores, cfg: Config, username: string, old_: string, new_: string, now: int, ttl: int,
                               noExpiry: bool, secret: string)
    ensures PlanFor(s, cfg, ChangePassword(username, old_, new_), now).reply == Done <==>
      PlanLogin(s, cfg, username, old_, ttl, noExpiry, secret, now).reply == Secret(secret) && 8 <= |new_| <= 72
  {
  }

  /** A created user has the given role, or is a member when none is given. */
  lemma CreatedRole(s: Stores, cfg: Config, username: string, password: string, generated: string, role: string,
                    now: int, writes: nat)
    requires PlanCreateUser(s, username, password, generated, role).reply == Done && writes >= 1
    ensures var after := Exec(s, cfg, CreateUser(username, password, generated, role), now, writes);
      && username !in s.users && username in after.users && after.users == s.users[username := after.users[username]]
      && after.users[username].role == (if role == "" then "member" else role)
      && after.users[username].id == username
  {
    OneWrite(s, PlanCreateUser(s, username, password, generated, role).writes[0], writes);
  }

  lemma CreateAcceptedIff(s: Stores, username: string, password: string, generated: string, role: string)
    ensures PlanCreateUser(s, username, password, generated, role).reply == Done <==>
      && username != "" && username !in s.users && (role == "" || role == "admin" || role == "member")
      && 8 <= |if password == "" then generated else password| <= 72
  {
  }

  /** Exactly the only administrator cannot be deleted. */
  lemma OnlyLastAdminRefused(s: Stores, username: string)
    ensures PlanDeleteUser(s, username).reply
         == if username !in s.users then NotFound
            else if (set id | id in s.users && s.users[id].role == "admin") == {username} then LastAdmin
            else Done
  {
    if username in Admins(s) {
      if |Admins(s)| <= 1 {
        var others := Admins(s) - {username};
        assert |others| == 0;
        assert Admins(s) == {username};
      } else {
        assert Admins(s) != {username};
      }
    }
  }

  // ---------- Agents ----------

  /** A new registration token is good for its lifetime, for any valid agent with a free
      name. */
  lemma TokenLifetime(s: Stores, cfg: Config, reg: string, ttl: int, now: int, writes: nat, agent: Agent,
                      secret: string, later: int)
    requires ttl > 0 && writes >= 1 && cfg.agentTTL > 0
    requires agent.id != "" && "" !in agent.labels && agent.id !in s.agents
    ensures var minted := Exec(s, cfg, CreateRegistrationToken(reg, ttl), now, writes);
      PlanRegister(minted, cfg, reg, agent, secret, later).reply
         == if later <= now + ttl then Registered(agent.id, secret) else InvalidRegistrationToken
  {
    OneWrite(s, SaveReg(reg, now + ttl), writes);
  }

  /** An agent without a name, or with an unnamed label, is not registered. */
  lemma InvalidAgentRefused(s: Stores, cfg: Config, reg: string, agent: Agent, secret: string, now: int)
    requires reg in s.regTokens && now <= s.regTokens[reg] && (agent.id == "" || "" in agent.labels)
    ensures PlanRegister(s, cfg, reg, agent, secret, now) == Plan([ConsumeReg(reg)], Internal)
  {
  }

  /** A completed registration records the agent as given, with the time. */
  lemma RegisteredRecord(s: Stores, cfg: Config, reg: string, agent: Agent, secret: string, now: int, writes: nat)
    requires PlanRegister(s, cfg, reg, agent, secret, now).reply.Registered? && writes >= 3
    ensures var after := Exec(s, cfg, Register(reg, agent, secret), now, writes);
      && after.agents == s.agents[agent.id := Agent(agent.id, agent.labels, agent.lastHeartbeat, now, now)]
      && after.regTokens == s.regTokens - {reg}
      && after.tokens == s.tokens[secret := Token("", agent.id, Some(now + cfg.agentTTL))]
  {
    var ws := PlanRegister(s, cfg, reg, agent, secret, now).writes;
    assert Prefix(ws, writes) == ws && ws[1..] == [ws[1], ws[2]];
    TwoWrites(Apply(s, ws[0]), ws[1], ws[2], 2);
    assert Prefix([ws[1], ws[2]], 2) == [ws[1], ws[2]];
  }

  /** A completed heartbeat records its time and nothing else about the agent; deregistering
      takes the agent off the list of the living and keeps its token. */
  lemma HeartbeatRecorded(s: Stores, cfg: Config, bearer: string, now: int, writes: nat)
    requires Safe(s) && Authenticate(s, bearer, now).AgentPrincipal? && cfg.agentTTL > 0 && writes >= 2
    ensures var a := Authenticate(s, bearer, now).agent;
      && Exec(s, cfg, Heartbeat(bearer), now, writes).agents
           == s.agents[a.id := a.(lastHeartbeat := Some(now), updatedAt := now)]
      && Exec(s, cfg, Deregister(bearer), now, writes).agents
           == s.agents[a.id := a.(lastHeartbeat := None, updatedAt := now)]
      && Exec(s, cfg, Deregister(bearer), now, writes).tokens == s.tokens
  {
    var a := Authenticate(s, bearer, now).agent;
    var saved := SaveAgent(a.(lastHeartbeat := Some(now), updatedAt := now));
    var extend := ExtendToken(bearer, now + cfg.agentTTL);
    assert PlanFor(s, cfg, Heartbeat(bearer), now).writes == [saved, extend];
    TwoWrites(s, saved, extend, writes);
    OneWrite(s, SaveAgent(a.(lastHeartbeat := None, updatedAt := now)), writes);
  }

  /** Users' tokens are no agents' tokens, and rejected ones are neither. */
  lemma OnlyAgentsBeat(s: Stores, cfg: Config, bearer: string, now: int)
    requires !Authenticate(s, bearer, now).AgentPrincipal?
    ensures PlanHeartbeat(s, cfg, bearer, now).reply
         == if Authenticate(s, bearer, now).UserPrincipal? then PermissionDenied else InvalidToken
    ensures PlanDeregister(s, bearer, now).reply == PlanHeartbeat(s, cfg, bearer, now).reply
    ensures forall w | w in PlanHeartbeat(s, cfg, bearer, now).writes :: w == DropToken(bearer)
    ensures forall w | w in PlanDeregister(s, bearer, now).writes :: w == DropToken(bearer)
  {
  }

  /** A token stands for the user or agent it was issued to, as long as it is stored, not
      expired, and that user or agent is still there. */
  lemma WhoIsIt(s: Stores, bearer: string, now: int)
    ensures Authenticate(s, bearer, now).UserPrincipal? <==>
      && bearer != "" && bearer in s.tokens && s.tokens[bearer].userId != "" && s.tokens[bearer].userId in s.users
      && (s.tokens[bearer].expiresAt == None || now <= s.tokens[bearer].expiresAt.value)
    ensures Authenticate(s, bearer, now).AgentPrincipal? <==>
      && bearer != "" && bearer in s.tokens && s.tokens[bearer].userId == ""
      && s.tokens[bearer].agentId != "" && s.tokens[bearer].agentId in s.agents
      && (s.tokens[bearer].expiresAt == None || now <= s.tokens[bearer].expiresAt.value)
    ensures Authenticate(s, bearer, now).UserPrincipal? ==>
      Authenticate(s, bearer, now).user == s.users[s.tokens[bearer].userId]
    ensures Authenticate(s, bearer, now).AgentPrincipal? ==>
      Authenticate(s, bearer, now).agent == s.agents[s.tokens[bearer].agentId]
  {
  }

  /** Deleting an agent is refused without a name and for an unknown one. */
  lemma DeleteAgentReply(s: Stores, cfg: Config, name: string, now: int)
    ensures PlanFor(s, cfg, DeleteAgent(name), now).reply
         == if name == "" then BadRequest else if name !in s.agents then NotFound else Done
  {
  }

  /** Verifying says done exactly of a token that stands for somebody, and otherwise drops it. */
  lemma VerifyMeaning(s: Stores, cfg: Config, bearer: string, now: int)
    ensures PlanFor(s, cfg, Verify(bearer), now)
         == if Authenticate(s, bearer, now) != Rejected then Plan([], Done)
            else Plan(if bearer != "" && bearer in s.tokens then [DropToken(bearer)] else [], InvalidToken)
  {
  }

  // ---------- Registration tokens last ----------

  predicate LeavesReg(w: Write, reg: string)
  {
    match w
    case SaveReg(secret, _) => secret != reg
    case ConsumeReg(secret) => secret != reg
    case _ => true
  }

  lemma {:induction false} WritesLeaveReg(s: Stores, ws: seq<Write>, reg: string)
    requires reg in s.regTokens && forall w | w in ws :: LeavesReg(w, reg)
    ensures reg in ApplyWrites(s, ws).regTokens && ApplyWrites(s, ws).regTokens[reg] == s.regTokens[reg]
    decreases |ws|
  {
    if ws != [] {
      assert LeavesReg(ws[0], reg);
      WritesLeaveReg(Apply(s, ws[0]), ws[1..], reg);
    }
  }

  /** Only a registration with it, or time, uses a registration token up. */
  lemma OperationLeavesReg(s: Stores, cfg: Config, op: Operation, now: int, reg: string)
    requires reg in s.regTokens && now <= s.regTokens[reg]
    requires !(op.Register? && op.regToken == reg) && !(op.CreateRegistrationToken? && op.secret == reg)
    ensures forall w | w in PlanFor(s, cfg, op, now).writes :: LeavesReg(w, reg)
  {
  }

  /** A registration token that nobody uses stays good until its time, whatever else is done
      and wherever it is interrupted. */
  lemma {:induction false} RegistrationTokenLasts(s: Stores, cfg: Config, actions: seq<Action>, reg: string)
    requires reg in s.regTokens
    requires forall a | a in actions ::
      && a.now <= s.regTokens[reg] && !(a.op.Register? && a.op.regToken == reg)
      && !(a.op.CreateRegistrationToken? && a.op.secret == reg)
    ensures reg in Run(s, cfg, actions).regTokens && Run(s, cfg, actions).regTokens[reg] == s.regTokens[reg]
    decreases |actions|
  {
    if actions != [] {
      var n := |actions| - 1;
      var before, last := Run(s, cfg, actions[..n]), actions[n];
      RegistrationTokenLasts(s, cfg, actions[..n], reg);
      assert last in actions;
      OperationLeavesReg(before, cfg, last.op, last.now, reg);
      WritesLeaveReg(before, Prefix(PlanFor(before, cfg, last.op, last.now).writes, last.writes), reg);
    }
  }
}
