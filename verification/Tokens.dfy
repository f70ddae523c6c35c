/** Refresh tokens: rotation, revocation, and the rows they leave in the store. */
module Tokens {
  import opened Results

  /** A refresh token is determined by its claims: the user, and the seconds of issue and of expiry. */
  datatype Jwt = Jwt(user: nat, iat: nat, exp: nat)

  /** A row of refresh_tokens; its key stands for the unique token hash. */
  datatype Row = Row(user: nat, expires: nat, revoked: bool)

  /** A user's password_reset_token and password_reset_expires. */
  datatype Reset = Reset(token: nat, expires: nat)

  /** Passwords stand for their hashes: hashing and verifying are taken as injective. */
  datatype Store = Store(
    rows: map<Jwt, Row>, active: set<nat>, passwords: map<nat, nat>, resets: map<nat, Reset>,
    clock: nat, ttl: nat, resetTtl: nat)

  /**
   * Creating a token reads the clock for exp and again for iat; pause is how many seconds tick in
   * between, most often none.
   */
  datatype Op =
    | Register(user: nat, password: nat)
    | Login(user: nat, password: nat, pause: nat)
    | Refresh(token: Jwt, pause: nat)
    | Logout(token: Jwt)
    | LogoutAll(user: nat)
    | ForgotPassword(user: nat, resetToken: nat)
    | ResetPassword(user: nat, resetToken: nat, newPassword: nat)
    | ChangePassword(user: nat, current: nat, newPassword: nat)
    | SetActive(user: nat, isActive: bool)
    | Tick(seconds: nat)

  /** delete_expired: rows of the user that expired before now. */
  function WithoutExpired(rows: map<Jwt, Row>, user: nat, now: nat): map<Jwt, Row> {
    map t | t in rows && !(rows[t].user == user && rows[t].expires < now) :: rows[t]
  }

  /** The token that create_refresh_token makes next. */
  function NextToken(s: Store, user: nat, pause: nat): Jwt {
    Jwt(user, s.clock + pause, s.clock + s.ttl)
  }

  /** _issue_tokens: a second token of a user with the same claims violates the unique hash and fails. */
  function Issue(s: Store, user: nat, pause: nat): Result<Store> {
    var token, now := NextToken(s, user, pause), s.clock + pause;
    if token in s.rows then Err(Crash)
    else Ok(s.(rows := WithoutExpired(s.rows[token := Row(user, now + s.ttl, false)], user, now), clock := now))
  }

  function Revoked(rows: map<Jwt, Row>, user: nat): map<Jwt, Row> {
    map t | t in rows :: if rows[t].user == user then rows[t].(revoked := true) else rows[t]
  }

  /** The checks of refresh: the claim exp, then the row. */
  predicate Redeemable(s: Store, t: Jwt) {
    && s.clock <= t.exp
    && t in s.rows && !s.rows[t].revoked && s.clock < s.rows[t].expires
  }

  function DoRefresh(s: Store, t: Jwt, pause: nat): Result<Store> {
    if !Redeemable(s, t) then Err(Invalid)
    else
      var spent := s.(rows := s.rows[t := s.rows[t].(revoked := true)]);
      if s.rows[t].user !in s.active then Err(Invalid)
      else Issue(spent, s.rows[t].user, pause)
  }

  predicate PasswordIs(s: Store, user: nat, password: nat) {
    user in s.passwords && s.passwords[user] == password
  }

  function DoForgot(s: Store, user: nat, token: nat): Store {
    if user in s.passwords && user in s.active
    then s.(resets := s.resets[user := Reset(token, s.clock + s.resetTtl)])
    else s
  }

  /** The user is the one whose row holds the token; random reset tokens are taken as distinct. */
  function DoReset(s: Store, user: nat, token: nat, newPassword: nat): Result<Store> {
    if user !in s.resets || s.resets[user].token != token || s.resets[user].expires < s.clock then Err(Invalid)
    else Ok(s.(passwords := s.passwords[user := newPassword], resets := s.resets - {user},
               rows := Revoked(s.rows, user)))
  }

  function DoChange(s: Store, user: nat, current: nat, newPassword: nat): Result<Store> {
    if !PasswordIs(s, user, current) || current == newPassword then Err(Invalid)
    else Ok(s.(passwords := s.passwords[user := newPassword], rows := Revoked(s.rows, user)))
  }

  function Apply(s: Store, op: Op): Result<Store> {
    match op
    case Register(u, password) =>
      if u in s.passwords then Err(Invalid)
      else Ok(s.(passwords := s.passwords[u := password], active := s.active + {u}))
    case Login(u, password, pause) =>
      if !PasswordIs(s, u, password) || u !in s.active then Err(Invalid) else Issue(s, u, pause)
    case Refresh(t, pause) => DoRefresh(s, t, pause)
    case Logout(t) => Ok(if t in s.rows then s.(rows := s.rows[t := s.rows[t].(revoked := true)]) else s)
    case LogoutAll(u) => Ok(s.(rows := Revoked(s.rows, u)))
    case ForgotPassword(u, token) => Ok(DoForgot(s, u, token))
    case ResetPassword(u, token, password) => DoReset(s, u, token, password)
    case ChangePassword(u, current, password) => DoChange(s, u, current, password)
    case SetActive(u, a) => Ok(s.(active := if a then s.active + {u} else s.active - {u}))
    case Tick(d) => Ok(s.(clock := s.clock + d))
  }

  /** The calls that revoke every token of a user when they succeed. */
  predicate RevokesAll(s: Store, op: Op, user: nat) {
    Apply(s, op).Ok? && (op.LogoutAll? || op.ResetPassword? || op.ChangePassword?) && op.user == user
  }

  /** A failing call rolls back, also the revocation refresh already wrote; the time it took is a Tick. */
  function Exec(s: Store, op: Op): Store {
    match Apply(s, op)
    case Ok(t) => t
    case Err(_) => s
  }

  function After(s: Store, ops: seq<Op>): Store
    decreases |ops|
  {
    if ops == [] then s else After(Exec(s, ops[0]), ops[1..])
  }

  function Fresh(ttl: nat, resetTtl: nat): Store {
    Store(map[], {}, map[], map[], 0, ttl, resetTtl)
  }

  /** The tokens a run redeems, in order. */
  function Redeemed(s: Store, ops: seq<Op>): seq<Jwt>
    decreases |ops|
  {
    if ops == [] then []
    else
      (if ops[0].Refresh? && Apply(s, ops[0]).Ok? then [ops[0].token] else [])
      + Redeemed(Exec(s, ops[0]), ops[1..])
  }

  // ------------------------------------------------------------------
  // Spent tokens
  // ------------------------------------------------------------------

  ghost predicate RowsOk(s: Store) {
    forall t | t in s.rows ::
      && s.rows[t].user == t.user && s.rows[t].expires == t.iat + s.ttl
      && t.iat <= s.clock && t.exp <= t.iat + s.ttl
  }

  /** Revoked, or gone for good: a token of an earlier second is never issued again. */
  predicate Spent(s: Store, t: Jwt) {
    if t in s.rows then s.rows[t].revoked else t.iat < s.clock
  }

  lemma StepKeepsRows(s: Store, op: Op)
    requires RowsOk(s)
    ensures RowsOk(Exec(s, op))
  {
  }

  lemma SpentStaysSpent(s: Store, op: Op, t: Jwt)
    requires RowsOk(s) && Spent(s, t)
    ensures Spent(Exec(s, op), t)
  {
  }

  lemma SpentIsRefused(s: Store, t: Jwt, pause: nat)
    requires Spent(s, t)
    ensures Apply(s, Refresh(t, pause)).Err?
  {
  }

  lemma RedeemedIsSpent(s: Store, t: Jwt, pause: nat)
    requires RowsOk(s) && Apply(s, Refresh(t, pause)).Ok?
    ensures Spent(Exec(s, Refresh(t, pause)), t)
  {
  }

  lemma StepKeepsTime(s: Store, op: Op)
    ensures Exec(s, op).ttl == s.ttl && Exec(s, op).clock >= s.clock
  {
  }

  lemma {:induction false} RowsOkAfter(s: Store, ops: seq<Op>)
    requires RowsOk(s)
    ensures RowsOk(After(s, ops)) && After(s, ops).ttl == s.ttl && After(s, ops).clock >= s.clock
    decreases |ops|
  {
    if ops != [] {
      StepKeepsRows(s, ops[0]);
      StepKeepsTime(s, ops[0]);
      RowsOkAfter(Exec(s, ops[0]), ops[1..]);
    }
  }

  /** Every run has the row invariant that the theorems below start from. */
  lemma RowsOkInEveryRun(ttl: nat, resetTtl: nat, ops: seq<Op>)
    ensures RowsOk(After(Fresh(ttl, resetTtl), ops))
  {
    RowsOkAfter(Fresh(ttl, resetTtl), ops);
  }

  /**
   * Rotation succeeds exactly for a live token of an active user, unless a token with the new one's
   * claims is stored. That can only be one issued in this second, with both its clock readings in it.
   */
  lemma RefreshSucceedsIff(s: Store, t: Jwt, pause: nat)
    requires RowsOk(s)
    ensures Apply(s, Refresh(t, pause)).Ok? <==>
            Redeemable(s, t) && t.user in s.active && NextToken(s, t.user, pause) !in s.rows
    ensures pause > 0 ==> NextToken(s, t.user, pause) !in s.rows
    ensures t.iat == s.clock && t.exp == s.clock + s.ttl && pause == 0 ==> Apply(s, Refresh(t, pause)).Err?
  {
  }

  /** A user who logs in and refreshes within one second is refused, although the token is redeemable. */
  lemma RefreshInTheSecondOfIssueFails(ttl: nat, resetTtl: nat)
    requires ttl > 0
    ensures
      var s := After(Fresh(ttl, resetTtl), [Register(0, 7), Login(0, 7, 0)]);
      && Redeemable(s, Jwt(0, 0, ttl)) && 0 in s.active
      && Apply(s, Refresh(Jwt(0, 0, ttl), 0)) == Err(Crash)
  {
    var ops := [Register(0, 7), Login(0, 7, 0)];
    var s := Exec(Fresh(ttl, resetTtl), ops[0]);
    assert ops[1..] == [ops[1]] && ops[1..][1..] == [];
    assert After(Fresh(ttl, resetTtl), ops) == Exec(s, ops[1]);
    assert Exec(s, ops[1]).rows == map[Jwt(0, 0, ttl) := Row(0, ttl, false)];
  }

  /** If the second ended between the two readings of the login, the same refresh is accepted. */
  lemma RefreshAfterPausedLogin(ttl: nat, resetTtl: nat)
    requires ttl > 0
    ensures
      var s := After(Fresh(ttl, resetTtl), [Register(0, 7), Login(0, 7, 1)]);
      && s.clock == 1 && Jwt(0, 1, ttl) in s.rows
      && Apply(s, Refresh(Jwt(0, 1, ttl), 0)).Ok?
  {
    var ops := [Register(0, 7), Login(0, 7, 1)];
    var s := Exec(Fresh(ttl, resetTtl), ops[0]);
    assert ops[1..] == [ops[1]] && ops[1..][1..] == [];
    assert After(Fresh(ttl, resetTtl), ops) == Exec(s, ops[1]);
    assert Exec(s, ops[1]).rows == map[Jwt(0, 1, ttl) := Row(0, 1 + ttl, false)];
  }

  lemma {:induction false} SpentIsNeverRedeemed(s: Store, ops: seq<Op>, t: Jwt)
    requires RowsOk(s) && Spent(s, t)
    ensures t !in Redeemed(s, ops)
    decreases |ops|
  {
    if ops != [] {
      if ops[0].Refresh? && ops[0].token == t {
        SpentIsRefused(s, t, ops[0].pause);
      }
      StepKeepsRows(s, ops[0]);
      SpentStaysSpent(s, ops[0], t);
      SpentIsNeverRedeemed(Exec(s, ops[0]), ops[1..], t);
    }
  }

  ghost predicate Distinct(ts: seq<Jwt>) {
    forall i, j | 0 <= i < j < |ts| :: ts[i] != ts[j]
  }

  /** In any run a refresh token is redeemed at most once. */
  lemma {:induction false} RedeemedAtMostOnce(s: Store, ops: seq<Op>)
    requires RowsOk(s)
    ensures Distinct(Redeemed(s, ops))
    decreases |ops|
  {
    if ops != [] {
      var next := Exec(s, ops[0]);
      StepKeepsRows(s, ops[0]);
      RedeemedAtMostOnce(next, ops[1..]);
      if ops[0].Refresh? && Apply(s, ops[0]).Ok? {
        RedeemedIsSpent(s, ops[0].token, ops[0].pause);
        SpentIsNeverRedeemed(next, ops[1..], ops[0].token);
      }
    }
  }

  /** After logout-all, reset or password change a token the user had before is never redeemed. */
  lemma RevokeAllIsFinal(s: Store, op: Op, ops: seq<Op>, t: Jwt)
    requires RowsOk(s) && t in s.rows && RevokesAll(s, op, t.user)
    ensures t !in Redeemed(Exec(s, op), ops)
  {
    StepKeepsRows(s, op);
    assert Spent(Exec(s, op), t);
    SpentIsNeverRedeemed(Exec(s, op), ops, t);
  }

  ghost predicate Forgets(ops: seq<Op>, user: nat, token: nat) {
    exists i | 0 <= i < |ops| :: ops[i] == ForgotPassword(user, token)
  }

  /** A reset token works once: after a successful reset it is refused until the same token is issued anew. */
  lemma {:induction false} ResetTokenWorksOnce(s: Store, ops: seq<Op>, user: nat, token: nat, password: nat)
    requires user in s.resets ==> s.resets[user].token != token
    requires !Forgets(ops, user, token)
    ensures Apply(After(s, ops), ResetPassword(user, token, password)).Err?
    decreases |ops|
  {
    if ops != [] {
      assert ops[0] != ForgotPassword(user, token);
      forall i | 0 <= i < |ops[1..]| ensures ops[1..][i] != ForgotPassword(user, token) {
        assert ops[1..][i] == ops[i + 1];
      }
      ResetTokenWorksOnce(Exec(s, ops[0]), ops[1..], user, token, password);
    }
  }

  /**
   * Logout ends the presented token for good and does nothing else: no later run redeems it, every other
   * row and every other field stays as it was, and a token that is not stored changes nothing.
   */
  lemma LogoutIsFinal(s: Store, t: Jwt, ops: seq<Op>, r: Jwt)
    requires RowsOk(s)
    ensures Apply(s, Logout(t)).Ok?
    ensures
      var next := Exec(s, Logout(t));
      && (t in s.rows ==> t !in Redeemed(next, ops))
      && (r != t ==> (r in next.rows <==> r in s.rows) && (r in s.rows ==> next.rows[r] == s.rows[r]))
      && (t in s.rows ==> t in next.rows && next.rows[t].(revoked := false) == s.rows[t].(revoked := false))
      && next.(rows := s.rows) == s
      && (t !in s.rows ==> next == s)
  {
    if t in s.rows {
      StepKeepsRows(s, Logout(t));
      SpentIsNeverRedeemed(Exec(s, Logout(t)), ops, t);
    }
  }

  /** A token just issued by a login or a refresh can be redeemed, if issuing it did not outlast it. */
  lemma IssuedIsRedeemable(s: Store, op: Op, user: nat)
    requires (op.Login? && op.user == user) || (op.Refresh? && op.token in s.rows && s.rows[op.token].user == user)
    requires Apply(s, op).Ok? && s.ttl > 0 && op.pause <= s.ttl
    ensures Redeemable(Exec(s, op), NextToken(s, user, op.pause))
  {
  }

  /** Registration takes a new name, and its password logs in at once. */
  lemma RegistrationLogsIn(s: Store, user: nat, password: nat, tried: nat, pause: nat)
    ensures Apply(s, Register(user, password)).Ok? <==> user !in s.passwords
    ensures Apply(s, Register(user, password)).Ok? ==>
              var t := Exec(s, Register(user, password));
              Apply(t, Login(user, tried, pause)).Ok? <==>
              tried == password && NextToken(t, user, pause) !in t.rows
  {
  }

  /** Time passes, and nothing else happens. */
  lemma TickTicks(s: Store, seconds: nat)
    ensures Apply(s, Tick(seconds)).Ok?
    ensures
      var t := Exec(s, Tick(seconds));
      t.clock - s.clock == seconds && t.(clock := s.clock) == s
  {
  }

  /** A forgotten-password call is never an error; it does nothing for a user who is unknown or inactive. */
  lemma ForgotIsSilent(s: Store, user: nat, token: nat, other: nat)
    ensures Apply(s, ForgotPassword(user, token)).Ok?
    ensures
      var t := Exec(s, ForgotPassword(user, token));
      && (user !in s.passwords || user !in s.active ==> t == s)
      && t.(resets := s.resets) == s
      && (other != user ==> (other in t.resets <==> other in s.resets))
      && (other != user && other in s.resets ==> t.resets[other] == s.resets[other])
  {
  }

  predicate Activates(op: Op, user: nat) {
    (op.SetActive? || op.Register?) && op.user == user
  }

  lemma {:induction false} ActiveStays(s: Store, ops: seq<Op>, user: nat)
    requires forall i | 0 <= i < |ops| :: !Activates(ops[i], user)
    ensures user in After(s, ops).active <==> user in s.active
    decreases |ops|
  {
    if ops != [] {
      assert forall i | 0 <= i < |ops[1..]| :: ops[1..][i] == ops[i + 1];
      ActiveStays(Exec(s, ops[0]), ops[1..], user);
    }
  }

  /** An account is active or not as it was last set; nobody who is inactive logs in or refreshes. */
  lemma ActiveAsSet(s: Store, ops: seq<Op>, user: nat, password: nat, t: Jwt, pause: nat)
    requires RowsOk(s) && forall i | 0 <= i < |ops| :: !Activates(ops[i], user)
    ensures user in After(s, ops).active <==> user in s.active
    ensures user !in s.active ==>
              && Apply(After(s, ops), Login(user, password, pause)).Err?
              && (t.user == user ==> Apply(After(s, ops), Refresh(t, pause)).Err?)
  {
    ActiveStays(s, ops, user);
    RowsOkAfter(s, ops);
    RefreshSucceedsIff(After(s, ops), t, pause);
  }

  lemma SetActiveSets(s: Store, user: nat, isActive: bool, other: nat)
    ensures Apply(s, SetActive(user, isActive)).Ok?
    ensures
      var t := Exec(s, SetActive(user, isActive));
      && (user in t.active <==> isActive) && (other != user ==> (other in t.active <==> other in s.active))
      && t.(active := s.active) == s
  {
  }

  predicate TouchesReset(op: Op, user: nat) {
    (op.ForgotPassword? || op.ResetPassword?) && op.user == user
  }

  lemma {:induction false} ResetStays(s: Store, ops: seq<Op>, user: nat)
    requires forall i | 0 <= i < |ops| :: !TouchesReset(ops[i], user)
    ensures user in After(s, ops).resets <==> user in s.resets
    ensures user in s.resets ==> After(s, ops).resets[user] == s.resets[user]
    decreases |ops|
  {
    if ops != [] {
      assert forall i | 0 <= i < |ops[1..]| :: ops[1..][i] == ops[i + 1];
      ResetStays(Exec(s, ops[0]), ops[1..], user);
    }
  }

  /**
   * After a forgotten-password call for an active user, and until the next such call or reset, a reset is
   * accepted exactly with the token sent and within its lifetime.
   */
  lemma ResetAcceptedIff(s: Store, ops: seq<Op>, user: nat, token: nat, tried: nat, password: nat)
    requires user in s.passwords && user in s.active
    requires forall i | 0 <= i < |ops| :: !TouchesReset(ops[i], user)
    ensures
      var now := After(Exec(s, ForgotPassword(user, token)), ops);
      Apply(now, ResetPassword(user, tried, password)).Ok? <==>
      tried == token && now.clock <= s.clock + s.resetTtl
  {
    ResetStays(Exec(s, ForgotPassword(user, token)), ops, user);
  }

  /**
   * After a registration, a reset or a change, and until the next one, a change is accepted exactly with
   * that password as the current one and a different one as the new.
   */
  lemma ChangeAcceptedIff(s: Store, op: Op, ops: seq<Op>, current: nat, next: nat)
    requires op.Register? || op.ResetPassword? || op.ChangePassword?
    requires Apply(s, op).Ok? && KeepsPassword(ops, op.user)
    ensures
      var given := if op.Register? then op.password else op.newPassword;
      Apply(After(Exec(s, op), ops), ChangePassword(op.user, current, next)).Ok? <==>
      current == given && next != current
  {
    PasswordStays(Exec(s, op), ops, op.user);
  }

  /** After a reset its token, like any other, is refused until one is issued anew. */
  lemma UsedResetTokenIsRefused(s: Store, op: Op, ops: seq<Op>, token: nat, password: nat)
    requires op.ResetPassword? && Apply(s, op).Ok? && !Forgets(ops, op.user, token)
    ensures Apply(After(Exec(s, op), ops), ResetPassword(op.user, token, password)).Err?
  {
    ResetTokenWorksOnce(Exec(s, op), ops, op.user, token, password);
  }

  /** Calls that may give the user another password. */
  predicate Repasswords(op: Op, user: nat) {
    (op.ResetPassword? || op.ChangePassword?) && op.user == user
  }

  ghost predicate KeepsPassword(ops: seq<Op>, user: nat) {
    forall i | 0 <= i < |ops| :: !Repasswords(ops[i], user)
  }

  lemma KeepsPasswordTail(ops: seq<Op>, user: nat)
    requires ops != [] && KeepsPassword(ops, user)
    ensures !Repasswords(ops[0], user) && KeepsPassword(ops[1..], user)
  {
  }

  lemma {:induction false} PasswordStays(s: Store, ops: seq<Op>, user: nat)
    requires user in s.passwords && KeepsPassword(ops, user)
    ensures user in After(s, ops).passwords && After(s, ops).passwords[user] == s.passwords[user]
    decreases |ops|
  {
    if ops != [] {
      KeepsPasswordTail(ops, user);
      PasswordStays(Exec(s, ops[0]), ops[1..], user);
    }
  }

  lemma {:induction false} SpentForGood(s: Store, ops: seq<Op>, t: Jwt)
    requires RowsOk(s) && Spent(s, t)
    ensures Spent(After(s, ops), t)
    decreases |ops|
  {
    if ops != [] {
      StepKeepsRows(s, ops[0]);
      SpentStaysSpent(s, ops[0], t);
      SpentForGood(Exec(s, ops[0]), ops[1..], t);
    }
  }

  /**
   * After a reset or a change, and for as long as neither is called for the user again, exactly the new
   * password logs an active user in, and no token from before gets in by a refresh.
   */
  lemma NewPasswordTakesEffect(s: Store, op: Op, ops: seq<Op>, tried: nat, earlier: Jwt, pause: nat)
    requires RowsOk(s) && (op.ResetPassword? || op.ChangePassword?) && Apply(s, op).Ok?
    requires KeepsPassword(ops, op.user)
    ensures
      var t := After(Exec(s, op), ops);
      && (Apply(t, Login(op.user, tried, pause)).Ok? <==>
          tried == op.newPassword && op.user in t.active && NextToken(t, op.user, pause) !in t.rows)
      && (earlier in s.rows && earlier.user == op.user ==> Apply(t, Refresh(earlier, pause)).Err?)
  {
    var next := Exec(s, op);
    PasswordStays(next, ops, op.user);
    if earlier in s.rows && earlier.user == op.user {
      StepKeepsRows(s, op);
      assert Spent(next, earlier);
      SpentForGood(next, ops, earlier);
      SpentIsRefused(After(next, ops), earlier, pause);
    }
  }

  predicate RevokesFor(op: Op) {
    op.LogoutAll? || op.ResetPassword? || op.ChangePassword?
  }

  lemma OtherRowsUnaffected(s: Store, op: Op, t: Jwt)
    requires RowsOk(s) && RevokesFor(op) && t.user != op.user
    ensures t in Exec(s, op).rows <==> t in s.rows
    ensures t in s.rows ==> Exec(s, op).rows[t] == s.rows[t]
    ensures Exec(s, op).(rows := s.rows, passwords := s.passwords, resets := s.resets) == s
  {
  }

  lemma OtherLoginUnaffected(s: Store, op: Op, other: nat, password: nat, pause: nat)
    requires RowsOk(s) && RevokesFor(op) && other != op.user
    ensures Apply(Exec(s, op), Login(other, password, pause)).Ok? <==> Apply(s, Login(other, password, pause)).Ok?
  {
    var t := Exec(s, op);
    OtherRowsUnaffected(s, op, NextToken(s, other, pause));
    assert NextToken(t, other, pause) == NextToken(s, other, pause);
    assert PasswordIs(t, other, password) <==> PasswordIs(s, other, password);
  }

  lemma OtherRefreshUnaffected(s: Store, op: Op, t: Jwt, pause: nat)
    requires RowsOk(s) && RevokesFor(op) && t.user != op.user
    ensures Apply(Exec(s, op), Refresh(t, pause)).Ok? <==> Apply(s, Refresh(t, pause)).Ok?
  {
    StepKeepsRows(s, op);
    OtherRowsUnaffected(s, op, t);
    OtherRowsUnaffected(s, op, NextToken(s, t.user, pause));
    RefreshSucceedsIff(s, t, pause);
    RefreshSucceedsIff(Exec(s, op), t, pause);
  }

  /** A logout-all, a reset or a change changes nothing for anybody else. */
  lemma OtherUsersUnaffected(s: Store, op: Op, other: nat, password: nat, t: Jwt, pause: nat)
    requires RowsOk(s) && RevokesFor(op) && other != op.user
    ensures Apply(Exec(s, op), Login(other, password, pause)).Ok? <==> Apply(s, Login(other, password, pause)).Ok?
    ensures t.user == other ==> (Apply(Exec(s, op), Refresh(t, pause)).Ok? <==> Apply(s, Refresh(t, pause)).Ok?)
  {
    OtherLoginUnaffected(s, op, other, password, pause);
    if t.user == other {
      OtherRefreshUnaffected(s, op, t, pause);
    }
  }

  /** Stored and not revoked. */
  predicate Held(s: Store, t: Jwt) {
    t in s.rows && !s.rows[t].revoked
  }

  /** The call does not present the token and does not revoke all tokens of its user. */
  predicate SparesToken(s: Store, op: Op, t: Jwt) {
    !((op.Refresh? || op.Logout?) && op.token == t) && !RevokesAll(s, op, t.user)
  }

  ghost predicate SparesThroughout(s: Store, ops: seq<Op>, t: Jwt)
    decreases |ops|
  {
    ops != [] ==> SparesToken(s, ops[0], t) && SparesThroughout(Exec(s, ops[0]), ops[1..], t)
  }

  /** Only housekeeping, after the token's time, removes it. */
  lemma SparedIsHeld(s: Store, op: Op, t: Jwt)
    requires RowsOk(s) && Held(s, t) && SparesToken(s, op, t)
    ensures Held(Exec(s, op), t) || t.iat + s.ttl < Exec(s, op).clock
  {
  }

  lemma {:induction false} HeldUntilItExpires(s: Store, ops: seq<Op>, t: Jwt)
    requires RowsOk(s) && Held(s, t) && SparesThroughout(s, ops, t)
    requires After(s, ops).clock < t.iat + s.ttl
    ensures Held(After(s, ops), t)
    decreases |ops|
  {
    if ops != [] {
      var next := Exec(s, ops[0]);
      StepKeepsRows(s, ops[0]);
      SparedIsHeld(s, ops[0], t);
      RowsOkAfter(next, ops[1..]);
      HeldUntilItExpires(next, ops[1..], t);
    }
  }

  /**
   * Over any run in which nobody presents the token or revokes all tokens of its user, it stays
   * redeemable exactly until its time is up: no other call and no housekeeping ends it earlier.
   */
  lemma {:induction false} OthersKeepTheirTokens(s: Store, ops: seq<Op>, t: Jwt)
    requires RowsOk(s) && Redeemable(s, t) && SparesThroughout(s, ops, t)
    ensures
      var now := After(s, ops).clock;
      Redeemable(After(s, ops), t) <==> now <= t.exp && now < t.iat + s.ttl
  {
    RowsOkAfter(s, ops);
    if After(s, ops).clock < t.iat + s.ttl {
      HeldUntilItExpires(s, ops, t);
    }
  }

  /** After tokens were issued to a user, none of the user's rows is past its expiry. */
  lemma IssueCleansUp(s: Store, user: nat, pause: nat, t: Jwt)
    requires RowsOk(s) && Issue(s, user, pause).Ok? && t in Issue(s, user, pause).value.rows
    ensures
      var next, issued := Issue(s, user, pause).value, NextToken(s, user, pause);
      && (t.user == user ==> next.clock <= next.rows[t].expires)
      && (t == issued ==> next.rows[t] == Row(user, next.clock + s.ttl, false))
      && (t != issued ==> t in s.rows && s.rows[t] == next.rows[t])
  {
  }

  /** Housekeeping takes nothing else: rows of others stay, and so do the user's rows that are not past expiry. */
  lemma IssueKeepsTheRest(s: Store, user: nat, pause: nat, t: Jwt)
    requires Issue(s, user, pause).Ok? && t in s.rows
    requires s.rows[t].user != user || s.clock + pause <= s.rows[t].expires
    ensures
      var next := Issue(s, user, pause).value;
      && t in next.rows && next.rows[t] == s.rows[t]
      && next.(rows := s.rows, clock := s.clock) == s && next.clock == s.clock + pause
  {
    assert t != NextToken(s, user, pause);
  }

  // ------------------------------------------------------------------
  // How many tokens a user can hold
  // ------------------------------------------------------------------

  function Unrevoked(s: Store, user: nat): set<Jwt> {
    set t | t in s.rows && s.rows[t].user == user && !s.rows[t].revoked
  }

  predicate LogsIn(s: Store, op: Op, user: nat) {
    op.Login? && op.user == user && Apply(s, op).Ok?
  }

  /** Successful logins of a user since the last time all of the user's tokens were revoked. */
  function LoginsSinceRevoke(s: Store, ops: seq<Op>, user: nat, soFar: nat): nat
    decreases |ops|
  {
    if ops == [] then soFar
    else LoginsSinceRevoke(Exec(s, ops[0]), ops[1..], user,
           if RevokesAll(s, ops[0], user) then 0
           else if LogsIn(s, ops[0], user) then soFar + 1
           else soFar)
  }

  lemma SubsetSize<T>(a: set<T>, b: set<T>)
    requires a <= b
    ensures |a| <= |b|
  {
    assert a + (b - a) == b;
  }

  lemma LoginAddsOne(s: Store, op: Op, user: nat)
    requires RowsOk(s) && op.Login? && Apply(s, op).Ok?
    ensures |Unrevoked(Exec(s, op), user)| <= |Unrevoked(s, user)| + if op.user == user then 1 else 0
  {
    var added := if op.user == user then {NextToken(s, user, op.pause)} else {};
    SubsetSize(Unrevoked(Exec(s, op), user), Unrevoked(s, user) + added);
  }

  lemma RefreshAddsNone(s: Store, op: Op, user: nat)
    requires RowsOk(s) && op.Refresh? && Apply(s, op).Ok?
    ensures |Unrevoked(Exec(s, op), user)| <= |Unrevoked(s, user)|
  {
    var now, t := Unrevoked(Exec(s, op), user), op.token;
    if t.user == user {
      assert t in Unrevoked(s, user);
      SubsetSize(now, Unrevoked(s, user) - {t} + {NextToken(s, user, op.pause)});
    } else {
      SubsetSize(now, Unrevoked(s, user));
    }
  }

  lemma StepCount(s: Store, op: Op, user: nat)
    requires RowsOk(s)
    ensures |Unrevoked(Exec(s, op), user)| <=
            if RevokesAll(s, op, user) then 0
            else if LogsIn(s, op, user) then |Unrevoked(s, user)| + 1
            else |Unrevoked(s, user)|
  {
    if RevokesAll(s, op, user) {
      assert Unrevoked(Exec(s, op), user) == {};
    } else if op.Login? && Apply(s, op).Ok? {
      LoginAddsOne(s, op, user);
    } else if op.Refresh? && Apply(s, op).Ok? {
      RefreshAddsNone(s, op, user);
    } else {
      SubsetSize(Unrevoked(Exec(s, op), user), Unrevoked(s, user));
    }
  }

  /** A user's unrevoked tokens never outnumber the logins since the last revoke-all. */
  lemma {:induction false} UnrevokedWithinLogins(s: Store, ops: seq<Op>, user: nat, soFar: nat)
    requires RowsOk(s) && |Unrevoked(s, user)| <= soFar
    ensures |Unrevoked(After(s, ops), user)| <= LoginsSinceRevoke(s, ops, user, soFar)
    decreases |ops|
  {
    if ops != [] {
      StepKeepsRows(s, ops[0]);
      StepCount(s, ops[0], user);
      UnrevokedWithinLogins(Exec(s, ops[0]), ops[1..], user,
        if RevokesAll(s, ops[0], user) then 0 else if LogsIn(s, ops[0], user) then soFar + 1 else soFar);
    }
  }

  // ------------------------------------------------------------------
  // The service
  // ------------------------------------------------------------------

  class TokenService {
    var rows: map<Jwt, Row>
    var active: set<nat>
    var passwords: map<nat, nat>
    var resets: map<nat, Reset>
    var clock: nat
    const ttl: nat
    const resetTtl: nat

    function Contents(): Store
      reads this
    {
      Store(rows, active, passwords, resets, clock, ttl, resetTtl)
    }

    constructor (ttl: nat, resetTtl: nat)
      ensures Contents() == Fresh(ttl, resetTtl)
    {
      this.ttl, this.resetTtl := ttl, resetTtl;
      rows, active, passwords, resets, clock := map[], {}, map[], map[], 0;
    }

    /** Insert, then clean up the expired rows of the user. */
    method IssueTokens(user: nat, pause: nat) returns (r: Result<Jwt>)
      modifies `rows, `clock
      ensures
        var spec := Issue(old(Contents()), user, pause);
        && (spec.Ok? ==> r == Ok(NextToken(old(Contents()), user, pause)) && Contents() == spec.value)
        && (spec.Err? ==> r == Err(spec.error) && Contents() == old(Contents()))
    {
      var exp := clock + ttl;
      var now := clock + pause;
      var token := Jwt(user, now, exp);
      if token in rows {
        return Err(Crash);
      }
      clock := now;
      rows := rows[token := Row(user, clock + ttl, false)];
      rows := WithoutExpired(rows, user, clock);
      return Ok(token);
    }

    /** Strict rotation: revoke first, then issue; every error after the revocation rolls it back. */
    method RefreshToken(token: Jwt, pause: nat) returns (r: Result<Jwt>)
      modifies `rows, `clock
      ensures
        var spec := DoRefresh(old(Contents()), token, pause);
        && (spec.Ok? ==>
              && r == Ok(NextToken(old(Contents()), old(rows)[token].user, pause))
              && Contents() == spec.value)
        && (spec.Err? ==> r == Err(spec.error) && Contents() == old(Contents()))
    {
      if token.exp < clock {
        return Err(Invalid);
      }
      if token !in rows || rows[token].revoked || !(clock < rows[token].expires) {
        return Err(Invalid);
      }
      var saved := rows;
      rows := rows[token := rows[token].(revoked := true)];
      if rows[token].user !in active {
        rows := saved;
        return Err(Invalid);
      }
      r := IssueTokens(rows[token].user, pause);
      if r.Err? {
        rows := saved;
      }
    }

    /** Revokes the presented token if it is stored; never an error. */
    method LogoutToken(token: Jwt)
      modifies `rows
      ensures Ok(Contents()) == Apply(old(Contents()), Logout(token))
    {
      if token in rows && !rows[token].revoked {
        rows := rows[token := rows[token].(revoked := true)];
      }
      assert token in old(rows) && old(rows)[token].revoked ==> old(rows)[token := old(rows)[token]] == old(rows);
    }

    /** The UPDATE of all unrevoked rows of a user. */
    method RevokeAllForUser(user: nat)
      modifies `rows
      ensures rows == Revoked(old(rows), user)
      ensures Ok(Contents()) == Apply(old(Contents()), LogoutAll(user))
    {
      rows := map t | t in rows ::
        if rows[t].user == user && !rows[t].revoked then rows[t].(revoked := true) else rows[t];
      assert rows == Revoked(old(rows), user);
    }

    method ForgotPassword(user: nat, token: nat)
      modifies `resets
      ensures Contents() == DoForgot(old(Contents()), user, token)
    {
      if user in passwords && user in active {
        resets := resets[user := Reset(token, clock + resetTtl)];
      }
    }

    method ResetPassword(user: nat, token: nat, newPassword: nat) returns (r: Result<()>)
      modifies `rows, `passwords, `resets
      ensures
        var spec := DoReset(old(Contents()), user, token, newPassword);
        && (spec.Ok? ==> r.Ok? && Contents() == spec.value)
        && (spec.Err? ==> r == Err(spec.error) && Contents() == old(Contents()))
    {
      if user !in resets || resets[user].token != token {
        return Err(Invalid);
      }
      if clock > resets[user].expires {
        return Err(Invalid);
      }
      passwords := passwords[user := newPassword];
      resets := resets - {user};
      RevokeAllForUser(user);
      return Ok(());
    }

    method ChangePassword(user: nat, current: nat, newPassword: nat) returns (r: Result<()>)
      modifies `rows, `passwords
      ensures
        var spec := DoChange(old(Contents()), user, current, newPassword);
        && (spec.Ok? ==> r.Ok? && Contents() == spec.value)
        && (spec.Err? ==> r == Err(spec.error) && Contents() == old(Contents()))
    {
      if user !in passwords || passwords[user] != current {
        return Err(Invalid);
      }
      if current == newPassword {
        return Err(Invalid);
      }
      passwords := passwords[user := newPassword];
      RevokeAllForUser(user);
      return Ok(());
    }

    method Register(user: nat, password: nat) returns (r: Result<()>)
      modifies `passwords, `active
      ensures Contents() == Exec(old(Contents()), Op.Register(user, password))
    {
      if user in passwords {
        return Err(Invalid);
      }
      passwords := passwords[user := password];
      active := active + {user};
      return Ok(());
    }

    method LogIn(user: nat, password: nat, pause: nat) returns (r: Result<Jwt>)
      modifies `rows, `clock
      ensures Contents() == Exec(old(Contents()), Login(user, password, pause))
      ensures r.Ok? <==> Apply(old(Contents()), Login(user, password, pause)).Ok?
    {
      if user !in passwords || passwords[user] != password {
        return Err(Invalid);
      }
      if user !in active {
        return Err(Invalid);
      }
      r := IssueTokens(user, pause);
    }

    /** One request in one transaction. */
    method Serve(op: Op)
      modifies this
      ensures Contents() == Exec(old(Contents()), op)
    {
      match op {
        case Register(user, password) => var r := Register(user, password);
        case Login(user, password, pause) => var r := LogIn(user, password, pause);
        case Refresh(token, pause) => var r := RefreshToken(token, pause);
        case Logout(token) => LogoutToken(token);
        case LogoutAll(user) => RevokeAllForUser(user);
        case ForgotPassword(user, token) => ForgotPassword(user, token);
        case ResetPassword(user, token, password) => var r := ResetPassword(user, token, password);
        case ChangePassword(user, current, password) => var r := ChangePassword(user, current, password);
        case SetActive(user, isActive) => active := if isActive then active + {user} else active - {user};
        case Tick(seconds) => clock := clock + seconds;
      }
    }

    /** Requests one after the other: the rows end up as the state machine says. */
    method ServeAll(ops: seq<Op>)
      modifies this
      ensures Contents() == After(old(Contents()), ops)
    {
      for i := 0 to |ops|
        invariant After(old(Contents()), ops) == After(Contents(), ops[i..])
      {
        assert ops[i..][0] == ops[i] && ops[i..][1..] == ops[i + 1..];
        Serve(ops[i]);
      }
      assert ops[|ops|..] == [];
    }
  }
}
