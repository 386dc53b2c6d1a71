/** The control plane's account and agent services, as they read and write the stores.
    Each call performs the writes its plan says, in that order, and stops early when
    the process does.
 */
module CredentialServices {
  import opened Options
  import opened Credentials

  lemma NoneLeft(s: Stores, n: nat)
    ensures ApplyWrites(s, Prefix([], n)) == s
  {
  }

  lemma NextWrite(s: Stores, ws: seq<Write>, n: nat)
    requires ws != []
    ensures ApplyWrites(s, Prefix(ws, n))
         == if n == 0 then s else ApplyWrites(Apply(s, ws[0]), Prefix(ws[1..], n - 1))
  {
    if n > 0 {
      assert Prefix(ws, n)[1..] == Prefix(ws[1..], n - 1);
    }
  }

  /** The call did what `op` plans, up to the write that failed or at which the process
      stopped.  There is no reply then, except that a rejected token is rejected whether or
      not it could be deleted. */
  ghost predicate Did(before: Stores, after: Stores, cfg: Config, op: Operation, now: int, budget: nat,
                      reply: Option<Reply>)
  {
    var plan := PlanFor(before, cfg, op, now);
    && after == Exec(before, cfg, op, now, budget)
    && reply == if |plan.writes| <= budget || plan.reply == InvalidToken then Some(plan.reply) else None
  }

  class CredentialService {
    const cfg: Config
    var users: map<string, User>
    var agents: map<string, Agent>
    var tokens: map<string, Token>
    var regTokens: map<string, int>
    var bootstrap: string
    ghost var minted: set<string>
    ghost var issued: map<string, Token>
    ghost var created: seq<Creation>
    ghost var inits: nat

    /** How many more store writes happen before the process stops. */
    var budget: nat

    ghost function Contents(): Stores
      reads this
    {
      Stores(users, agents, tokens, regTokens, bootstrap, minted, issued, created, inits)
    }

    /** One store write: `rest` are the writes still planned. */
    method Write(w: Write, ghost rest: seq<Write>) returns (ok: bool)
      requires rest != [] && rest[0] == w
      modifies this
      ensures ok == (old(budget) > 0) && (ok ==> budget == old(budget) - 1 && Contents() == Apply(old(Contents()), w))
      ensures ApplyWrites(old(Contents()), Prefix(rest, old(budget)))
           == if ok then ApplyWrites(Contents(), Prefix(rest[1..], budget)) else Contents()
    {
      ghost var before := Contents();
      NextWrite(before, rest, budget);
      if budget == 0 {
        return false;
      }
      Store(w);
      budget := budget - 1;
      ok := true;
    }

    method Store(w: Write)
      modifies this
      ensures Contents() == Apply(old(Contents()), w) && budget == old(budget)
    {
      if w.CreateUserRecord? || w.SavePassword? || w.DeleteUserRecord? || w.SetBootstrap? {
        StoreUser(w);
      } else if w.DropAgentTokens? {
        DeleteWhere((t: Token) => t.agentId == w.agentId);
      } else if w.DropUserTokens? {
        DeleteWhere((t: Token) => t.userId == w.userId);
      } else {
        StoreAgent(w);
      }
    }

    method StoreUser(w: Write)
      requires w.CreateUserRecord? || w.SavePassword? || w.DeleteUserRecord? || w.SetBootstrap?
      modifies this`users, this`bootstrap, this`inits
      ensures Contents() == Apply(old(Contents()), w)
    {
      match w
      case CreateUserRecord(u, initial) =>
        users := users[u.id := u];
        inits := inits + if initial then 1 else 0;
      case SavePassword(id, password) =>
        if id in users {
          users := users[id := users[id].(password := password)];
        }
      case DeleteUserRecord(id) => users := users - {id};
      case SetBootstrap(secret) => bootstrap := secret;
    }

    method StoreAgent(w: Write)
      requires !w.CreateUserRecord? && !w.SavePassword? && !w.DeleteUserRecord? && !w.SetBootstrap?
      requires !w.DropAgentTokens? && !w.DropUserTokens?
      modifies this`agents, this`tokens, this`regTokens, this`minted, this`issued, this`created
      ensures Contents() == Apply(old(Contents()), w)
    {
      match w
      case SaveReg(secret, expires) => regTokens, minted := regTokens[secret := expires], minted + {secret};
      case ConsumeReg(secret) => regTokens := regTokens - {secret};
      case CreateAgent(a, reg) => agents, created := agents[a.id := a], created + [Creation(reg, a.id)];
      case SaveAgent(a) => agents := agents[a.id := a];
      case DeleteAgentRecord(id) => agents := agents - {id};
      case IssueToken(secret, token) => tokens, issued := tokens[secret := token], issued[secret := token];
      case ExtendToken(secret, expires) =>
        if secret in tokens {
          tokens := tokens[secret := tokens[secret].(expiresAt := Some(expires))];
        }
      case DropToken(secret) => tokens := tokens - {secret};
    }

    /** Collects the matching keys, then deletes them, in one transaction. */
    method DeleteWhere(match_: Token -> bool)
      modifies this`tokens
      ensures tokens == map h | h in old(tokens) && !match_(old(tokens)[h]) :: old(tokens)[h]
    {
      var keys: seq<string>, todo := [], tokens.Keys;
      while todo != {}
        invariant todo <= tokens.Keys && tokens == old(tokens)
        invariant forall h | h in tokens :: h in keys <==> h !in todo && match_(tokens[h])
        invariant forall i | 0 <= i < |keys| :: keys[i] in tokens
        decreases todo
      {
        var h :| h in todo;
        todo := todo - {h};
        if match_(tokens[h]) {
          keys := keys + [h];
        }
      }
      for i := 0 to |keys|
        invariant forall h | h in tokens :: h in old(tokens) && tokens[h] == old(tokens)[h]
        invariant forall h | h in old(tokens) :: h in tokens <==> h !in keys[..i]
      {
        assert keys[..i + 1] == keys[..i] + [keys[i]];
        tokens := tokens - {keys[i]};
      }
      assert keys[..|keys|] == keys;
    }

    /** The shared check of every authenticated call; a dead token is deleted on sight. */
    method VerifyBearer(bearer: string, now: int) returns (reply: Option<Reply>)
      modifies this
      ensures Did(old(Contents()), Contents(), cfg, Verify(bearer), now, old(budget), reply)
    {
      ghost var rest := PlanFor(Contents(), cfg, Verify(bearer), now).writes;
      NoneLeft(Contents(), budget);
      if bearer == "" || bearer !in tokens {
        return Some(InvalidToken);
      }
      var record := tokens[bearer];
      if !Expired(record, now) {
        if record.userId != "" {
          if record.userId in users {
            return Some(Done);
          }
        } else if record.agentId != "" && record.agentId in agents {
          return Some(Done);
        }
      }
      var _ := Write(DropToken(bearer), rest);
      NoneLeft(Contents(), budget);
      reply := Some(InvalidToken);
    }

    /** consume, create, issue */
    method RegisterAgent(reg: string, agent: Agent, secret: string, now: int) returns (reply: Option<Reply>)
      modifies this
      ensures Did(old(Contents()), Contents(), cfg, Register(reg, agent, secret), now, old(budget), reply)
    {
      ghost var rest := PlanRegister(Contents(), cfg, reg, agent, secret, now).writes;
      if reg !in regTokens {
        NoneLeft(Contents(), budget);
        return Some(InvalidRegistrationToken);
      }
      var expires, taken := regTokens[reg], agent.id in agents;
      var consumed := Write(ConsumeReg(reg), rest);
      if !consumed {
        return None;
      }
      NoneLeft(Contents(), budget);
      if now > expires {
        return Some(InvalidRegistrationToken);
      }
      if !ValidAgent(agent) {
        return Some(Internal);
      }
      if taken {
        return Some(AgentExists);
      }
      reply := CreateAndIssue(reg, agent, secret, now, rest[1..]);
    }

    /** The rest of a registration, once nothing speaks against it. */
    method CreateAndIssue(reg: string, agent: Agent, secret: string, now: int, ghost rest: seq<Write>)
      returns (reply: Option<Reply>)
      requires var create := CreateAgent(agent.(createdAt := now, updatedAt := now), reg);
        rest == if cfg.agentTTL <= 0 then [create]
                else [create, IssueToken(secret, Token("", agent.id, Some(now + cfg.agentTTL)))]
      modifies this
      ensures Contents() == ApplyWrites(old(Contents()), Prefix(rest, old(budget)))
      ensures reply == if old(budget) < |rest| then None
                       else if cfg.agentTTL <= 0 then Some(Internal) else Some(Registered(agent.id, secret))
    {
      var stamped := agent.(createdAt := now, updatedAt := now);
      var saved := Write(CreateAgent(stamped, reg), rest);
      if !saved {
        return None;
      }
      NoneLeft(Contents(), budget);
      if cfg.agentTTL <= 0 {
        return Some(Internal);
      }
      var issue := Write(IssueToken(secret, Token("", agent.id, Some(now + cfg.agentTTL))), rest[1..]);
      NoneLeft(Contents(), budget);
      reply := if issue then Some(Registered(agent.id, secret)) else None;
    }

    method SendHeartbeat(bearer: string, now: int) returns (reply: Option<Reply>)
      modifies this
      ensures Did(old(Contents()), Contents(), cfg, Heartbeat(bearer), now, old(budget), reply)
    {
      ghost var rest := PlanHeartbeat(Contents(), cfg, bearer, now).writes;
      var principal := Authenticate(Snapshot(), bearer, now);
      NoneLeft(Contents(), budget);
      match principal {
        case UserPrincipal(_) => return Some(PermissionDenied);
        case Rejected =>
          if bearer != "" && bearer in tokens {
            var _ := Write(DropToken(bearer), rest);
            NoneLeft(Contents(), budget);
            return Some(InvalidToken);
          }
          return Some(InvalidToken);
        case AgentPrincipal(a) =>
          var saved := Write(SaveAgent(a.(lastHeartbeat := Some(now), updatedAt := now)), rest);
          if !saved {
            return None;
          }
          NoneLeft(Contents(), budget);
          if cfg.agentTTL <= 0 {
            return Some(Internal);
          }
          var extended := Write(ExtendToken(bearer, now + cfg.agentTTL), rest[1..]);
          NoneLeft(Contents(), budget);
          reply := if extended then Some(Done) else None;
      }
    }

    /** The stores as one value; the history fields play no part in any decision. */
    function Snapshot(): (s: Stores)
      reads this
      ensures forall bearer, now :: Authenticate(s, bearer, now) == Authenticate(Contents(), bearer, now)
    {
      Stores(users, agents, tokens, regTokens, bootstrap, {}, map[], [], 0)
    }

    /** revoke first, then remove the record */
    method RemoveAgent(name: string, now: int) returns (reply: Option<Reply>)
      modifies this
      ensures Did(old(Contents()), Contents(), cfg, DeleteAgent(name), now, old(budget), reply)
    {
      ghost var rest := PlanDeleteAgent(Contents(), name).writes;
      NoneLeft(Contents(), budget);
      if name == "" {
        return Some(BadRequest);
      }
      if name !in agents {
        return Some(NotFound);
      }
      var revoked := Write(DropAgentTokens(name), rest);
      if !revoked {
        return None;
      }
      var removed := Write(DeleteAgentRecord(name), rest[1..]);
      NoneLeft(Contents(), budget);
      reply := if removed then Some(Done) else None;
    }

    /** First-time initialisation: creates the first administrator. */
    method Initialise(token: string, username: string, password: string, secret: string, now: int)
      returns (reply: Option<Reply>)
      modifies this
      ensures var op := InitAdmin(token, username, password, secret);
        Did(old(Contents()), Contents(), cfg, op, now, old(budget), reply)
    {
      ghost var rest := PlanInitAdmin(Contents(), cfg, token, username, password, secret, now).writes;
      NoneLeft(Contents(), budget);
      if users != map[] {
        return Some(AlreadyInitialized);
      }
      if bootstrap == "" || bootstrap != token {
        return Some(InvalidBootstrapToken);
      }
      if !UsablePassword(password) || username == "" {
        return Some(BadRequest);
      }
      var saved := Write(CreateUserRecord(User(username, password, ADMIN), true), rest);
      if !saved {
        return None;
      }
      var cleared := Write(SetBootstrap(""), rest[1..]);
      if !cleared {
        return None;
      }
      var issue := Write(IssueToken(secret, UserToken(username, cfg.defaultTTL, now)), rest[2..]);
      NoneLeft(Contents(), budget);
      reply := if issue then Some(Secret(secret)) else None;
    }

    method CountAdmins() returns (n: nat)
      ensures n == |Admins(Contents())|
    {
      var admins := set id | id in users && users[id].role == ADMIN;
      assert admins == Admins(Contents());
      n := |admins|;
    }

    /** remove the record, then revoke */
    method RemoveUser(username: string, now: int) returns (reply: Option<Reply>)
      modifies this
      ensures Did(old(Contents()), Contents(), cfg, DeleteUser(username), now, old(budget), reply)
    {
      ghost var rest := PlanDeleteUser(Contents(), username).writes;
      NoneLeft(Contents(), budget);
      if username !in users {
        return Some(NotFound);
      }
      if users[username].role == ADMIN {
        var admins := CountAdmins();
        if admins <= 1 {
          return Some(LastAdmin);
        }
      }
      var removed := Write(DeleteUserRecord(username), rest);
      if !removed {
        return None;
      }
      var revoked := Write(DropUserTokens(username), rest[1..]);
      NoneLeft(Contents(), budget);
      reply := if revoked then Some(Done) else None;
    }

    /** A password change ends every session of the user. */
    method SetPassword(username: string, password: string, now: int) returns (reply: Option<Reply>)
      modifies this
      ensures Did(old(Contents()), Contents(), cfg, ResetPassword(username, password), now, old(budget), reply)
    {
      ghost var rest := PlanFor(Contents(), cfg, ResetPassword(username, password), now).writes;
      NoneLeft(Contents(), budget);
      if username !in users {
        return Some(NotFound);
      }
      if !UsablePassword(password) {
        return Some(BadRequest);
      }
      var saved := Write(SavePassword(username, password), rest);
      if !saved {
        return None;
      }
      var revoked := Write(DropUserTokens(username), rest[1..]);
      NoneLeft(Contents(), budget);
      reply := if revoked then Some(Done) else None;
    }
  }
}
