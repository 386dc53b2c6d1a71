/** Users, agents and their credentials on the control plane.

    An operation is a sequence of store writes.  Operations run one at a time, but a
    process may be stopped, or a write may fail, after any of them: `Exec` takes the
    number of writes that still happen.  A secret stands for its own hash.
 */
module Credentials {
  import opened Options

  datatype User = User(id: string, password: string, role: string)
  datatype Agent = Agent(id: string, labels: set<string>, lastHeartbeat: Option<int>, createdAt: int, updatedAt: int)
  datatype Token = Token(userId: string, agentId: string, expiresAt: Option<int>)

  const ADMIN := "admin"
  const MEMBER := "member"

  /** How long issued tokens live: configuration. */
  datatype Config = Config(agentTTL: int, defaultTTL: int)

  /** The stores.  `minted` and `issued` record every registration token and bearer token
      ever created (the latter with its record), `created` every agent record ever created and the registration token
      it cost, `inits` how many users first-time initialisation created. */
  datatype Stores = Stores(
    users: map<string, User>,
    agents: map<string, Agent>,
    tokens: map<string, Token>,
    regTokens: map<string, int>,
    bootstrap: string,
    minted: set<string>,
    issued: map<string, Token>,
    created: seq<Creation>,
    inits: nat)

  datatype Creation = Creation(regToken: string, agentId: string)

  const EMPTY := Stores(map[], map[], map[], map[], "", {}, map[], [], 0)

  // ---------- Store writes ----------

  datatype Write =
    | SaveReg(secret: string, expires: int)
    | ConsumeReg(secret: string)
    | CreateAgent(agent: Agent, regToken: string)
    | SaveAgent(agent: Agent)
    | DeleteAgentRecord(agentId: string)
    | IssueToken(secret: string, token: Token)
    | ExtendToken(secret: string, expires: int)
    | DropToken(secret: string)
    | DropAgentTokens(agentId: string)
    | DropUserTokens(userId: string)
    | CreateUserRecord(user: User, initial: bool)
    | SavePassword(userId: string, password: string)
    | DeleteUserRecord(userId: string)
    | SetBootstrap(secret: string)

  function Apply(s: Stores, w: Write): Stores
  {
    match w
    case SaveReg(secret, expires) =>
      s.(regTokens := s.regTokens[secret := expires], minted := s.minted + {secret})
    case ConsumeReg(secret) => s.(regTokens := s.regTokens - {secret})
    case CreateAgent(a, reg) => s.(agents := s.agents[a.id := a], created := s.created + [Creation(reg, a.id)])
    case SaveAgent(a) => s.(agents := s.agents[a.id := a])
    case DeleteAgentRecord(id) => s.(agents := s.agents - {id})
    case IssueToken(secret, token) =>
      s.(tokens := s.tokens[secret := token], issued := s.issued[secret := token])
    case ExtendToken(secret, expires) =>
      if secret in s.tokens then s.(tokens := s.tokens[secret := s.tokens[secret].(expiresAt := Some(expires))]) else s
    case DropToken(secret) => s.(tokens := s.tokens - {secret})
    case DropAgentTokens(id) =>
      s.(tokens := map h | h in s.tokens && s.tokens[h].agentId != id :: s.tokens[h])
    case DropUserTokens(id) =>
      s.(tokens := map h | h in s.tokens && s.tokens[h].userId != id :: s.tokens[h])
    case CreateUserRecord(u, initial) =>
      s.(users := s.users[u.id := u], inits := s.inits + if initial then 1 else 0)
    case SavePassword(id, password) =>
      if id in s.users then s.(users := s.users[id := s.users[id].(password := password)]) else s
    case DeleteUserRecord(id) => s.(users := s.users - {id})
    case SetBootstrap(secret) => s.(bootstrap := secret)
  }

  function ApplyWrites(s: Stores, ws: seq<Write>): Stores
    decreases |ws|
  {
    if ws == [] then s else ApplyWrites(Apply(s, ws[0]), ws[1..])
  }

  // ---------- Authentication ----------

  datatype Principal = UserPrincipal(user: User) | AgentPrincipal(agent: Agent) | Rejected

  predicate Expired(t: Token, now: int)
  {
    t.expiresAt.Some? && now > t.expiresAt.value
  }

  /** Who a bearer token stands for, at a moment. */
  function Authenticate(s: Stores, bearer: string, now: int): Principal
  {
    if bearer == "" || bearer !in s.tokens || Expired(s.tokens[bearer], now) then Rejected
    else
      var t := s.tokens[bearer];
      if t.userId != "" then (if t.userId in s.users then UserPrincipal(s.users[t.userId]) else Rejected)
      else if t.agentId != "" && t.agentId in s.agents then AgentPrincipal(s.agents[t.agentId])
      else Rejected
  }

  /** A stored token that does not authenticate is dropped on sight. */
  function AuthWrites(s: Stores, bearer: string, now: int): seq<Write>
  {
    if bearer != "" && bearer in s.tokens && Authenticate(s, bearer, now) == Rejected then [DropToken(bearer)] else []
  }

  // ---------- Operations ----------

  datatype Operation =
    | CreateRegistrationToken(secret: string, ttl: int)
    | Register(regToken: string, agent: Agent, secret: string)
    | Heartbeat(bearer: string)
    | Deregister(bearer: string)
    | DeleteAgent(name: string)
    | Verify(bearer: string)
    | Bootstrap(secret: string)
    | InitAdmin(token: string, username: string, password: string, secret: string)
    | Login(username: string, password: string, ttl: int, noExpiry: bool, secret: string)
    | Logout(bearer: string)
    | CreateUser(username: string, password: string, generated: string, role: string)
    | DeleteUser(username: string)
    | ChangePassword(username: string, oldPassword: string, newPassword: string)
    | ResetPassword(username: string, newPassword: string)
    | Evict(secret: string)
    | Restart

  datatype Reply =
    | Done
    | Secret(secret: string)
    | Registered(agentId: string, token: string)
    | InvalidRegistrationToken
    | AgentExists
    | Internal
    | NotFound
    | InvalidToken
    | PermissionDenied
    | AlreadyInitialized
    | InvalidBootstrapToken
    | InvalidCredentials
    | UserExists
    | LastAdmin
    | BadRequest

  datatype Plan = Plan(writes: seq<Write>, reply: Reply)

  predicate ValidAgent(a: Agent) { a.id != "" && "" !in a.labels }
  predicate ValidRole(r: string) { r == ADMIN || r == MEMBER }

  /** The password hash accepts 8 to 72 bytes. */
  predicate UsablePassword(p: string) { 8 <= |p| <= 72 }

  function UserToken(user: string, ttl: int, now: int): Token
  {
    Token(user, "", if ttl > 0 then Some(now + ttl) else None)
  }

  function Admins(s: Stores): set<string>
  {
    set id | id in s.users && s.users[id].role == ADMIN
  }

  /** consume, create, issue */
  function PlanRegister(s: Stores, cfg: Config, reg: string, agent: Agent, secret: string, now: int): Plan
  {
    if reg !in s.regTokens then Plan([], InvalidRegistrationToken)
    else
      var consumed := [ConsumeReg(reg)];
      var a := agent.(createdAt := now, updatedAt := now);
      if now > s.regTokens[reg] then Plan(consumed, InvalidRegistrationToken)
      else if !ValidAgent(agent) then Plan(consumed, Internal)
      else if agent.id in s.agents then Plan(consumed, AgentExists)
      else if cfg.agentTTL <= 0 then Plan(consumed + [CreateAgent(a, reg)], Internal)
      else
        Plan(consumed + [CreateAgent(a, reg), IssueToken(secret, Token("", agent.id, Some(now + cfg.agentTTL)))],
             Registered(agent.id, secret))
  }

  function PlanHeartbeat(s: Stores, cfg: Config, bearer: string, now: int): Plan
  {
    match Authenticate(s, bearer, now)
    case Rejected => Plan(AuthWrites(s, bearer, now), InvalidToken)
    case UserPrincipal(_) => Plan([], PermissionDenied)
    case AgentPrincipal(a) =>
      var saved := [SaveAgent(a.(lastHeartbeat := Some(now), updatedAt := now))];
      if cfg.agentTTL <= 0 then Plan(saved, Internal)
      else Plan(saved + [ExtendToken(bearer, now + cfg.agentTTL)], Done)
  }

  function PlanDeregister(s: Stores, bearer: string, now: int): Plan
  {
    match Authenticate(s, bearer, now)
    case Rejected => Plan(AuthWrites(s, bearer, now), InvalidToken)
    case UserPrincipal(_) => Plan([], PermissionDenied)
    case AgentPrincipal(a) => Plan([SaveAgent(a.(lastHeartbeat := None, updatedAt := now))], Done)
  }

  /** revoke first, then remove the record */
  function PlanDeleteAgent(s: Stores, name: string): Plan
  {
    if name == "" then Plan([], BadRequest)
    else if name !in s.agents then Plan([], NotFound)
    else Plan([DropAgentTokens(name), DeleteAgentRecord(name)], Done)
  }

  function PlanInitAdmin(s: Stores, cfg: Config, token: string, username: string, password: string, secret: string,
                         now: int): Plan
  {
    if s.users != map[] then Plan([], AlreadyInitialized)
    else if s.bootstrap == "" || s.bootstrap != token then Plan([], InvalidBootstrapToken)
    else if !UsablePassword(password) || username == "" then Plan([], BadRequest)
    else
      Plan([CreateUserRecord(User(username, password, ADMIN), true), SetBootstrap(""),
            IssueToken(secret, UserToken(username, cfg.defaultTTL, now))],
           Secret(secret))
  }

  function PlanLogin(s: Stores, cfg: Config, username: string, password: string, ttl: int, noExpiry: bool,
                     secret: string, now: int): Plan
  {
    if username !in s.users || s.users[username].password != password then Plan([], InvalidCredentials)
    else
      var life := if noExpiry then 0 else if ttl <= 0 then cfg.defaultTTL else ttl;
      Plan([IssueToken(secret, UserToken(username, life, now))], Secret(secret))
  }

  /** Without a password, a generated one is used and handed back. */
  function PlanCreateUser(s: Stores, username: string, password: string, generated: string, role: string): Plan
  {
    var r, p := if role == "" then MEMBER else role, if password == "" then generated else password;
    if !UsablePassword(p) || username == "" || !ValidRole(r) then Plan([], BadRequest)
    else if username in s.users then Plan([], UserExists)
    else Plan([CreateUserRecord(User(username, p, r), false)], Done)
  }

  /** remove the record, then revoke */
  function PlanDeleteUser(s: Stores, username: string): Plan
  {
    if username !in s.users then Plan([], NotFound)
    else if s.users[username].role == ADMIN && |Admins(s)| <= 1 then Plan([], LastAdmin)
    else Plan([DeleteUserRecord(username), DropUserTokens(username)], Done)
  }

  function PlanSetPassword(s: Stores, username: string, password: string): Plan
  {
    if !UsablePassword(password) then Plan([], BadRequest)
    else Plan([SavePassword(username, password), DropUserTokens(username)], Done)
  }

  function PlanFor(s: Stores, cfg: Config, op: Operation, now: int): Plan
  {
    match op
    case CreateRegistrationToken(secret, ttl) =>
      if ttl <= 0 then Plan([], Internal) else Plan([SaveReg(secret, now + ttl)], Secret(secret))
    case Register(reg, agent, secret) => PlanRegister(s, cfg, reg, agent, secret, now)
    case Heartbeat(bearer) => PlanHeartbeat(s, cfg, bearer, now)
    case Deregister(bearer) => PlanDeregister(s, bearer, now)
    case DeleteAgent(name) => PlanDeleteAgent(s, name)
    case Verify(bearer) =>
      Plan(AuthWrites(s, bearer, now), if Authenticate(s, bearer, now) == Rejected then InvalidToken else Done)
    case Bootstrap(secret) => if s.users != map[] then Plan([], Done) else Plan([SetBootstrap(secret)], Done)
    case InitAdmin(token, username, password, secret) => PlanInitAdmin(s, cfg, token, username, password, secret, now)
    case Login(username, password, ttl, noExpiry, secret) =>
      PlanLogin(s, cfg, username, password, ttl, noExpiry, secret, now)
    case Logout(bearer) => if bearer in s.tokens then Plan([DropToken(bearer)], Done) else Plan([], InvalidToken)
    case CreateUser(username, password, generated, role) => PlanCreateUser(s, username, password, generated, role)
    case DeleteUser(username) => PlanDeleteUser(s, username)
    case ChangePassword(username, oldPassword, newPassword) =>
      if username !in s.users then Plan([], NotFound)
      else if s.users[username].password != oldPassword then Plan([], InvalidCredentials)
      else PlanSetPassword(s, username, newPassword)
    case ResetPassword(username, newPassword) =>
      if username !in s.users then Plan([], NotFound) else PlanSetPassword(s, username, newPassword)
    case Evict(secret) =>
      // the storage engine drops expired records by itself
      if secret in s.tokens && Expired(s.tokens[secret], now) then Plan([DropToken(secret)], Done)
      else if secret in s.regTokens && now > s.regTokens[secret] then Plan([ConsumeReg(secret)], Done)
      else Plan([], Done)
    case Restart => Plan([SetBootstrap("")], Done)
  }

  function Prefix<T>(s: seq<T>, n: nat): seq<T> { if n <= |s| then s[..n] else s }

  /** The stores after an operation of which at most `writes` store writes happen. */
  function Exec(s: Stores, cfg: Config, op: Operation, now: int, writes: nat): Stores
  {
    ApplyWrites(s, Prefix(PlanFor(s, cfg, op, now).writes, writes))
  }

  // ---------- Runs ----------

  datatype Action = Action(op: Operation, now: int, writes: nat)

  /** Generated secrets are new; the empty string is never generated. */
  predicate FreshSecret(s: Stores, op: Operation)
  {
    match op
    case CreateRegistrationToken(secret, _) => secret !in s.minted && secret != ""
    case Register(_, _, secret) => secret !in s.issued && secret != ""
    case InitAdmin(_, _, _, secret) => secret !in s.issued && secret != ""
    case Login(_, _, _, _, secret) => secret !in s.issued && secret != ""
    case _ => true
  }

  function Run(s: Stores, cfg: Config, actions: seq<Action>): Stores
  {
    if actions == [] then s
    else
      var n := |actions| - 1;
      Exec(Run(s, cfg, actions[..n]), cfg, actions[n].op, actions[n].now, actions[n].writes)
  }

  /** Each action's secret is new, and time does not go back. */
  ghost predicate ProperRun(cfg: Config, actions: seq<Action>)
    decreases |actions|
  {
    actions == [] ||
    (var n := |actions| - 1;
     && ProperRun(cfg, actions[..n])
     && FreshSecret(Run(EMPTY, cfg, actions[..n]), actions[n].op)
     && (n > 0 ==> actions[n - 1].now <= actions[n].now))
  }

  /** The time of the last action. */
  function Clock(actions: seq<Action>, start: int): int
  {
    if actions == [] then start else actions[|actions| - 1].now
  }

  /** The same for a run that goes on from `s` at time `start`. */
  ghost predicate ProperFrom(s: Stores, cfg: Config, actions: seq<Action>, start: int)
    decreases |actions|
  {
    actions == [] ||
    (var n := |actions| - 1;
     && ProperFrom(s, cfg, actions[..n], start)
     && FreshSecret(Run(s, cfg, actions[..n]), actions[n].op)
     && Clock(actions[..n], start) <= actions[n].now)
  }
}
