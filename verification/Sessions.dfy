/** What credentials do: tokens stand for whom they were issued to, and a revoked token is
    gone for good.
 */
module Sessions {
  import opened Options
  import opened Credentials
  import opened CredentialSafety

  lemma OneWrite(s: Stores, w: Write, n: nat)
    requires n >= 1
    ensures ApplyWrites(s, Prefix([w], n)) == Apply(s, w)
  {
    assert Prefix([w], n) == [w] && [w][1..] == [];
    assert ApplyWrites(Apply(s, w), []) == Apply(s, w);
  }

  /** How long a login lasts; None is for ever. */
  function SessionLife(cfg: Config, ttl: int, noExpiry: bool): Option<int>
  {
    if noExpiry then None
    else if ttl > 0 then Some(ttl)
    else if cfg.defaultTTL > 0 then Some(cfg.defaultTTL)
    else None
  }

  /** A completed login hands out a token that stands for this very user for exactly the
      session's lifetime. */
  lemma LoginAuthenticates(s: Stores, cfg: Config, username: string, password: string, ttl: int, noExpiry: bool,
                           secret: string, now: int, writes: nat, later: int)
    requires Safe(s) && secret != "" && writes >= 1
    requires PlanLogin(s, cfg, username, password, ttl, noExpiry, secret, now).reply == Secret(secret)
    ensures var life := SessionLife(cfg, ttl, noExpiry);
      Authenticate(Exec(s, cfg, Login(username, password, ttl, noExpiry, secret), now, writes), secret, later)
        == if life == None || later <= now + life.value then UserPrincipal(s.users[username]) else Rejected
  {
    var op := Login(username, password, ttl, noExpiry, secret);
    var ws := PlanFor(s, cfg, op, now).writes;
    OneWrite(s, ws[0], writes);
  }

  /** After a completed password change the new password logs in and no other does. */
  lemma NewPasswordDecides(s: Stores, cfg: Config, username: string, password: string, now: int, writes: nat,
                           tried: string, ttl: int, noExpiry: bool, secret: string, later: int)
    requires PlanFor(s, cfg, ResetPassword(username, password), now).reply == Done && writes >= 2
    ensures var after := Exec(s, cfg, ResetPassword(username, password), now, writes);
      PlanLogin(after, cfg, username, tried, ttl, noExpiry, secret, later).reply
        == if tried == password then Secret(secret) else InvalidCredentials
  {
    TwoWrites(s, SavePassword(username, password), DropUserTokens(username), writes);
  }

  /** And the user is otherwise the same, and so are all the others. */
  lemma OnlyPasswordChanges(s: Stores, cfg: Config, username: string, password: string, now: int, writes: nat)
    requires PlanFor(s, cfg, ResetPassword(username, password), now).reply == Done && writes >= 2
    ensures var after := Exec(s, cfg, ResetPassword(username, password), now, writes);
      && username in s.users
      && after.users == s.users[username := User(s.users[username].id, password, s.users[username].role)]
      && after.agents == s.agents && after.regTokens == s.regTokens && after.bootstrap == s.bootstrap
      && forall h | h in s.tokens && s.tokens[h].userId != username ::
           h in after.tokens && after.tokens[h] == s.tokens[h]
  {
    TwoWrites(s, SavePassword(username, password), DropUserTokens(username), writes);
  }

  /** A created user can log in with the given password, or the generated one if none was
      given, and with no other. */
  lemma CreatedUserLogsIn(s: Stores, cfg: Config, username: string, password: string, generated: string, role: string,
                          now: int, writes: nat, tried: string, ttl: int, noExpiry: bool, secret: string, later: int)
    requires PlanCreateUser(s, username, password, generated, role).reply == Done && writes >= 1
    ensures var after := Exec(s, cfg, CreateUser(username, password, generated, role), now, writes);
      PlanLogin(after, cfg, username, tried, ttl, noExpiry, secret, later).reply
        == if tried == (if password == "" then generated else password) then Secret(secret) else InvalidCredentials
  {
    OneWrite(s, PlanCreateUser(s, username, password, generated, role).writes[0], writes);
  }

  // ---------- Revocation ----------

  /** Issued once, and no longer stored. */
  ghost predicate Revoked(s: Stores, h: string)
  {
    h in s.issued && h !in s.tokens
  }

  lemma {:induction false} WritesKeepRevoked(s: Stores, ws: seq<Write>, n: nat, h: string)
    requires AllJustified(s, ws) && Revoked(s, h)
    ensures Revoked(ApplyWrites(s, Prefix(ws, n)), h)
    decreases |ws|
  {
    if ws != [] && n > 0 {
      assert Revoked(Apply(s, ws[0]), h);
      WritesKeepRevoked(Apply(s, ws[0]), ws[1..], n - 1, h);
      assert Prefix(ws, n)[1..] == Prefix(ws[1..], n - 1);
    }
  }

  /** A token that has been revoked, by logout, deletion, a password change or expiry, never
      authenticates again, whatever follows and wherever it is interrupted. */
  lemma {:induction false} RevokedForGood(cfg: Config, actions: seq<Action>, k: nat, h: string, moment: int)
    requires ProperRun(cfg, actions) && k <= |actions| && Revoked(Run(EMPTY, cfg, actions[..k]), h)
    ensures Revoked(Run(EMPTY, cfg, actions), h)
    ensures Authenticate(Run(EMPTY, cfg, actions), h, moment) == Rejected
    decreases |actions|
  {
    if k == |actions| {
      assert actions[..k] == actions;
    } else {
      var n := |actions| - 1;
      assert actions[..n][..k] == actions[..k];
      RevokedForGood(cfg, actions[..n], k, h, moment);
      var before := Run(EMPTY, cfg, actions[..n]);
      EveryRunSafe(cfg, actions[..n]);
      OperationJustified(before, cfg, actions[n].op, actions[n].now);
      WritesKeepRevoked(before, PlanFor(before, cfg, actions[n].op, actions[n].now).writes, actions[n].writes, h);
    }
  }

  /** A completed logout revokes the token; so does a failed authentication of a stored one. */
  lemma LogoutRevokes(s: Stores, cfg: Config, bearer: string, now: int, writes: nat)
    requires Safe(s) && bearer in s.tokens && writes >= 1
    ensures Revoked(Exec(s, cfg, Logout(bearer), now, writes), bearer)
    ensures bearer != "" && Authenticate(s, bearer, now) == Rejected ==>
      Revoked(Exec(s, cfg, Verify(bearer), now, writes), bearer)
  {
    OneWrite(s, DropToken(bearer), writes);
  }

  // ---------- Interrupted deletions and password changes ----------

  /** `h` was issued to a user; it is stored as `t`, or not at all. */
  ghost predicate StoredAs(s: Stores, h: string, t: Token)
  {
    h in s.issued && t.userId != "" && (h in s.tokens ==> s.tokens[h] == t)
  }

  /** A write that does not write the token, though it may drop it. */
  predicate Leaves(w: Write, h: string)
  {
    match w
    case IssueToken(secret, _) => secret != h
    case ExtendToken(secret, _) => secret != h
    case _ => true
  }

  lemma {:induction false} WritesLeave(s: Stores, ws: seq<Write>, h: string, t: Token)
    requires StoredAs(s, h, t) && forall w | w in ws :: Leaves(w, h)
    ensures StoredAs(ApplyWrites(s, ws), h, t)
    ensures h !in s.tokens ==> h !in ApplyWrites(s, ws).tokens
    decreases |ws|
  {
    if ws != [] {
      assert Leaves(ws[0], h);
      WritesLeave(Apply(s, ws[0]), ws[1..], h, t);
    }
  }

  /** Only agents' tokens are ever extended, and no secret is issued twice. */
  lemma OperationLeaves(s: Stores, cfg: Config, op: Operation, now: int, h: string, t: Token)
    requires StoredAs(s, h, t) && FreshSecret(s, op)
    ensures forall w | w in PlanFor(s, cfg, op, now).writes :: Leaves(w, h)
  {
  }

  lemma StepLeaves(s: Stores, cfg: Config, op: Operation, now: int, writes: nat, h: string, t: Token)
    requires StoredAs(s, h, t) && FreshSecret(s, op)
    ensures StoredAs(Exec(s, cfg, op, now, writes), h, t)
    ensures h !in s.tokens ==> h !in Exec(s, cfg, op, now, writes).tokens
  {
    OperationLeaves(s, cfg, op, now, h, t);
    WritesLeave(s, Prefix(PlanFor(s, cfg, op, now).writes, writes), h, t);
  }

  lemma {:induction false} RunLeaves(s: Stores, cfg: Config, actions: seq<Action>, start: int, h: string, t: Token)
    requires StoredAs(s, h, t) && ProperFrom(s, cfg, actions, start)
    ensures StoredAs(Run(s, cfg, actions), h, t) && start <= Clock(actions, start)
    ensures h !in s.tokens ==> h !in Run(s, cfg, actions).tokens
    decreases |actions|
  {
    if actions != [] {
      var n := |actions| - 1;
      RunLeaves(s, cfg, actions[..n], start, h, t);
      StepLeaves(Run(s, cfg, actions[..n]), cfg, actions[n].op, actions[n].now, actions[n].writes, h, t);
    }
  }

  /** From `s` on, whatever follows, the token is turned away at every moment. */
  ghost predicate NeverAgain(s: Stores, cfg: Config, start: int, h: string)
  {
    forall actions, moment | ProperFrom(s, cfg, actions, start) && Clock(actions, start) <= moment ::
      Authenticate(Run(s, cfg, actions), h, moment) == Rejected
  }

  lemma GoneIsNeverAgain(s: Stores, cfg: Config, start: int, h: string, t: Token)
    requires StoredAs(s, h, t) && (h !in s.tokens || Expired(t, start))
    ensures NeverAgain(s, cfg, start, h)
  {
    forall actions, moment | ProperFrom(s, cfg, actions, start) && Clock(actions, start) <= moment
      ensures Authenticate(Run(s, cfg, actions), h, moment) == Rejected
    {
      RunLeaves(s, cfg, actions, start, h, t);
    }
  }

  const REPLACEMENT := "replacement"

  /** Somebody else gets the name: a token left over stands for the new user. */
  lemma LeftOverToken(s: Stores, cfg: Config, now: int, h: string)
    requires h != "" && h in s.tokens && s.tokens[h].userId != "" && !Expired(s.tokens[h], now)
    ensures !NeverAgain(s, cfg, now, h)
  {
    var name := s.tokens[h].userId;
    if name in s.users {
      assert Run(s, cfg, []) == s && Clock([], now) == now;
      assert Authenticate(Run(s, cfg, []), h, now) != Rejected;
    } else {
      var action := Action(CreateUser(name, REPLACEMENT, "", MEMBER), now, 1);
      var actions := [action];
      assert actions[..0] == [];
      assert Run(s, cfg, []) == s && Clock([], now) == now && ProperFrom(s, cfg, [], now);
      assert ProperFrom(s, cfg, actions, now);
      var created := CreateUserRecord(User(name, REPLACEMENT, MEMBER), false);
      assert PlanFor(s, cfg, action.op, now).writes == [created];
      OneWrite(s, created, 1);
      assert Run(s, cfg, actions) == Apply(s, created);
      assert Authenticate(Run(s, cfg, actions), h, now) == UserPrincipal(created.user);
      assert Clock(actions, now) <= now;
    }
  }

  /** After a deletion or a password change, stopped anywhere, a token issued before is turned
      away for good if and only if the revocation was reached or the token had expired. */
  lemma TurnedAwayIff(s: Stores, cfg: Config, op: Operation, now: int, writes: nat, h: string)
    requires Safe(s) && (op.DeleteUser? || op.ResetPassword? || op.ChangePassword?)
    requires PlanFor(s, cfg, op, now).reply == Done
    requires h != "" && h in s.tokens && s.tokens[h].userId == op.username
    ensures NeverAgain(Exec(s, cfg, op, now, writes), cfg, now, h) <==> writes >= 2 || Expired(s.tokens[h], now)
  {
    var after, t := Exec(s, cfg, op, now, writes), s.tokens[h];
    StepLeaves(s, cfg, op, now, writes, h, t);
    if writes >= 2 {
      UserTokensRevoked(s, cfg, op, now, writes);
      GoneIsNeverAgain(after, cfg, now, h, t);
    } else if Expired(t, now) {
      GoneIsNeverAgain(after, cfg, now, h, t);
    } else {
      NotYetRevoked(s, cfg, op, now, writes);
      LeftOverToken(after, cfg, now, h);
    }
  }

  lemma NotYetRevoked(s: Stores, cfg: Config, op: Operation, now: int, writes: nat)
    requires op.DeleteUser? || op.ResetPassword? || op.ChangePassword?
    requires PlanFor(s, cfg, op, now).reply == Done && writes < 2
    ensures Exec(s, cfg, op, now, writes).tokens == s.tokens
  {
    var ws := PlanFor(s, cfg, op, now).writes;
    if writes == 1 {
      assert Prefix(ws, 1) == [ws[0]] && [ws[0]][1..] == [];
      assert ApplyWrites(Apply(s, ws[0]), []) == Apply(s, ws[0]);
    }
  }

  /** Nor can such a deletion be completed by repeating it: the user is not found. */
  lemma RetryNotFound(s: Stores, cfg: Config, username: string, now: int)
    requires PlanDeleteUser(s, username).reply == Done
    ensures var after := Exec(s, cfg, DeleteUser(username), now, 1);
      PlanDeleteUser(after, username) == Plan([], NotFound) && after.tokens == s.tokens
  {
    NotYetRevoked(s, cfg, DeleteUser(username), now, 1);
    var ws := PlanDeleteUser(s, username).writes;
    assert Prefix(ws, 1) == [ws[0]];
    OneWrite(s, ws[0], 1);
    assert Prefix([ws[0]], 1) == [ws[0]];
  }
}
