/** Temporal properties of sessions, reset tokens and roles over every sequence of requests and clock ticks. */
module AuthRuns {
  import opened Wrappers
  import opened AuthModel

  /** One request, or the passing of time. Tokens named `issued` come from the random source; a request whose
      token clashes with the unique index fails and changes nothing. */
  datatype Op =
    | Signup(id: string, email: string, password: string, issued: string)
    | Login(email: string, password: string, issued: string)
    | Visit(token: string)
    | Logout(token: string)
    | ForgotPassword(email: string, issued: string)
    | ResetPassword(reset: string, password: string)
    | ChangePassword(token: string, current: string, password: string, issued: string)
    | Suspend(id: string)
    | Activate(id: string)
    | ChangeRole(id: string, role: Role)
    | Tick(seconds: nat)

  function Apply(settings: Settings, s: State, op: Op): State {
    match op
    case Signup(id, email, password, issued) =>
      if id in s.users || email in s.emails || issued in s.sessions then s
      else
        Issued(s.(users := s.users[id := User(email, Hash(password), Member, Active, None)],
                  emails := s.emails[email := id]), settings, id, issued)
    case Login(email, password, issued) =>
      if issued in s.sessions then s else LoggedIn(s, settings, email, password, issued).0
    case Visit(token) => Touched(s, token)
    case Logout(token) =>
      if Resolution(s, token).Err? then s else RevokedOne(Touched(s, token), token)
    case ForgotPassword(email, issued) =>
      if issued in s.resets then s else ResetRequested(s, settings, email, issued)
    case ResetPassword(reset, password) => PasswordReset(s, reset, password).0
    case ChangePassword(token, current, password, issued) =>
      if Resolution(s, token).Err? then s else
      var id := Resolution(s, token).value;
      var changed := PasswordChanged(Touched(s, token), id, current, password);
      if !changed.1 || issued in s.sessions then s else Issued(changed.0, settings, id, issued)
    case Suspend(id) => UserSuspended(s, id).0
    case Activate(id) => UserActivated(s, id).0
    case ChangeRole(id, role) => RoleChanged(s, id, role).0
    case Tick(seconds) => s.(now := s.now + seconds)
  }

  function Run(settings: Settings, s: State, ops: seq<Op>): State {
    if ops == [] then s else Apply(settings, Run(settings, s, ops[..|ops| - 1]), ops[|ops| - 1])
  }

  /** An open session always belongs to an active user. */
  ghost predicate SessionInv(s: State) {
    forall t :: t in s.sessions ==>
      && s.sessions[t].userId in s.users
      && (s.sessions[t].revokedAt == None ==> s.users[s.sessions[t].userId].status == Active)
  }

  /** The session is closed or past its end. */
  predicate Dead(s: State, token: string) {
    token in s.sessions && (s.sessions[token].revokedAt.Some? || s.sessions[token].expiresAt <= s.now)
  }

  lemma {:induction false} ResolutionIsResolves(s: State, token: string)
    ensures token != "" ==> (Resolution(s, token).Ok? <==> Resolves(s, token))
    ensures Resolution(s, token).Ok? ==> Resolution(s, token).value == s.sessions[token].userId
  {
  }

  /** With the invariant, a session that does not resolve is dead: no other reason is left. */
  lemma {:induction false} UnresolvedIsDead(s: State, token: string)
    requires SessionInv(s) && token in s.sessions
    ensures !Resolves(s, token) <==> Dead(s, token)
  {
  }

  // ----- the parts of a request

  lemma {:induction false} TouchedKeeps(s: State, token: string)
    ensures SessionInv(s) ==> SessionInv(Touched(s, token))
    ensures Touched(s, token).sessions.Keys == s.sessions.Keys && Touched(s, token).users.Keys == s.users.Keys
    ensures forall t :: t in s.sessions ==>
              && Touched(s, token).sessions[t].userId == s.sessions[t].userId
              && Touched(s, token).sessions[t].revokedAt == s.sessions[t].revokedAt
              && Touched(s, token).sessions[t].expiresAt == s.sessions[t].expiresAt
    ensures forall id :: id in s.users ==>
              && Touched(s, token).users[id].status == s.users[id].status
              && Touched(s, token).users[id].hash == s.users[id].hash
              && Touched(s, token).users[id].role == s.users[id].role
    ensures Touched(s, token).now == s.now && Touched(s, token).resets == s.resets
  {
  }

  /** A visit changes two time stamps and nothing else. */
  lemma {:induction false} TouchedRow(s: State, visitor: string, token: string)
    requires token in s.sessions
    ensures token in Touched(s, visitor).sessions
    ensures Touched(s, visitor).sessions[token] ==
            s.sessions[token].(lastSeen := Touched(s, visitor).sessions[token].lastSeen)
    ensures Touched(s, visitor).now == s.now && Touched(s, visitor).sessions.Keys == s.sessions.Keys
  {
  }

  lemma {:induction false} TouchedUser(s: State, visitor: string, id: string)
    requires id in s.users
    ensures id in Touched(s, visitor).users
    ensures Touched(s, visitor).users[id] == s.users[id].(lastActive := Touched(s, visitor).users[id].lastActive)
  {
  }

  lemma {:induction false} IssuedKeeps(settings: Settings, s: State, id: string, token: string)
    requires SessionInv(s) && id in s.users && token !in s.sessions && s.users[id].status == Active
    ensures SessionInv(Issued(s, settings, id, token))
  {
  }

  /** Closing the sessions of a user whose row changed restores the invariant. */
  lemma {:induction false} RevokedAllKeeps(s: State, id: string, user: User)
    requires SessionInv(s) && id in s.users
    ensures SessionInv(RevokedAll(s.(users := s.users[id := user]), id))
  {
  }

  lemma {:induction false} PasswordOpsKeepInv(settings: Settings, s: State, op: Op)
    requires SessionInv(s) && (op.ResetPassword? || op.ChangePassword?)
    ensures SessionInv(Apply(settings, s, op))
  {
    match op
    case ResetPassword(reset, password) =>
      if PasswordReset(s, reset, password).1 {
        var id := s.resets[reset].userId;
        RevokedAllKeeps(s, id, s.users[id].(hash := Hash(password)));
      }
    case ChangePassword(token, current, password, issued) =>
      if Resolution(s, token).Ok? {
        var id := Resolution(s, token).value;
        var touched := Touched(s, token);
        TouchedKeeps(s, token);
        hide Touched;
        RevokedAllKeeps(touched, id, touched.users[id].(hash := Hash(password)));
        var changed := PasswordChanged(touched, id, current, password);
        if changed.1 && issued !in s.sessions {
          IssuedKeeps(settings, changed.0, id, issued);
        }
      }
  }

  lemma {:induction false} ApplyKeepsInv(settings: Settings, s: State, op: Op)
    requires SessionInv(s)
    ensures SessionInv(Apply(settings, s, op))
  {
    if op.ResetPassword? || op.ChangePassword? {
      PasswordOpsKeepInv(settings, s, op);
    } else {
      match op {
        case Signup(id, email, password, issued) =>
          if id !in s.users && email !in s.emails && issued !in s.sessions {
            IssuedKeeps(settings, s.(users := s.users[id := User(email, Hash(password), Member, Active, None)],
                                     emails := s.emails[email := id]), id, issued);
          }
        case Login(email, password, issued) =>
          if issued !in s.sessions && LoggedIn(s, settings, email, password, issued).1.Ok? {
            IssuedKeeps(settings, s, s.emails[email], issued);
          }
        case Visit(token) => TouchedKeeps(s, token);
        case Logout(token) => TouchedKeeps(s, token);
        case Suspend(id) =>
          if id in s.users {
            RevokedAllKeeps(s, id, s.users[id].(status := Suspended));
          }
        case _ =>
      }
    }
  }

  lemma {:induction false} ApplyKeepsDead(settings: Settings, s: State, op: Op, token: string)
    requires token in s.sessions
    ensures token in Apply(settings, s, op).sessions
    ensures Apply(settings, s, op).sessions[token].userId == s.sessions[token].userId
    ensures Dead(s, token) ==> Dead(Apply(settings, s, op), token)
  {
    if op.Visit? || op.Logout? || op.ChangePassword? {
      VisitsKeepDead(settings, s, op, token);
    } else {
      hide Touched, ActiveAdmins;
    }
  }

  lemma {:induction false} VisitsKeepDead(settings: Settings, s: State, op: Op, token: string)
    requires token in s.sessions && (op.Visit? || op.Logout? || op.ChangePassword?)
    ensures token in Apply(settings, s, op).sessions
    ensures Apply(settings, s, op).sessions[token].userId == s.sessions[token].userId
    ensures Dead(s, token) ==> Dead(Apply(settings, s, op), token)
  {
    TouchedRow(s, op.token, token);
    if op.ChangePassword? && Resolution(s, op.token).Ok? {
      TouchedUser(s, op.token, Resolution(s, op.token).value);
    }
    hide Touched;
  }

  lemma {:induction false} RunKeeps(settings: Settings, s: State, ops: seq<Op>, token: string)
    requires SessionInv(s) && token in s.sessions
    ensures SessionInv(Run(settings, s, ops))
    ensures token in Run(settings, s, ops).sessions
    ensures Dead(s, token) ==> Dead(Run(settings, s, ops), token)
  {
    if ops != [] {
      RunKeeps(settings, s, ops[..|ops| - 1], token);
      ApplyKeepsInv(settings, Run(settings, s, ops[..|ops| - 1]), ops[|ops| - 1]);
      ApplyKeepsDead(settings, Run(settings, s, ops[..|ops| - 1]), ops[|ops| - 1], token);
    }
  }

  /** Once an issued token fails to resolve it never resolves again: not after logout, suspension and reactivation,
      password resets and changes, or any time. */
  lemma {:induction false} DeadTokensStayDead(settings: Settings, s: State, ops: seq<Op>, token: string)
    requires SessionInv(s) && token in s.sessions && !Resolves(s, token)
    ensures !Resolves(Run(settings, s, ops), token)
    ensures Resolution(Run(settings, s, ops), token).Err?
  {
    UnresolvedIsDead(s, token);
    RunKeeps(settings, s, ops, token);
    UnresolvedIsDead(Run(settings, s, ops), token);
    ResolutionIsResolves(Run(settings, s, ops), token);
  }

  lemma {:induction false} RunAppend(settings: Settings, s: State, before: seq<Op>, after: seq<Op>)
    ensures Run(settings, s, before + after) == Run(settings, Run(settings, s, before), after)
  {
    if after == [] {
      assert before + after == before;
    } else {
      assert (before + after)[..|before + after| - 1] == before + after[..|after| - 1];
      RunAppend(settings, s, before, after[..|after| - 1]);
    }
  }

  /** The moments of a run at which a token resolves form one interval. */
  lemma {:induction false} ResolvesOnAnInterval(settings: Settings, s: State, ops: seq<Op>, token: string, i: nat,
                                                j: nat, k: nat)
    requires SessionInv(s) && token in s.sessions && i <= j <= k <= |ops|
    requires Resolves(Run(settings, s, ops[..i]), token) && Resolves(Run(settings, s, ops[..k]), token)
    ensures Resolves(Run(settings, s, ops[..j]), token)
  {
    RunKeeps(settings, s, ops[..j], token);
    assert ops[..k] == ops[..j] + ops[j..k];
    RunAppend(settings, s, ops[..j], ops[j..k]);
    if !Resolves(Run(settings, s, ops[..j]), token) {
      DeadTokensStayDead(settings, Run(settings, s, ops[..j]), ops[j..k], token);
    }
  }

  /** Issuing a session keeps the invariant exactly when it is issued to an active user; the routes see to that. */
  lemma {:induction false} IssuingIsSafeIffActive(settings: Settings, s: State, id: string, token: string)
    requires SessionInv(s) && id in s.users && token !in s.sessions
    ensures SessionInv(Issued(s, settings, id, token)) <==> s.users[id].status == Active
    ensures Resolves(Issued(s, settings, id, token), token) <==>
              s.users[id].status == Active && settings.sessionSeconds > 0
  {
    var after := Issued(s, settings, id, token);
    assert token in after.sessions;
    forall t | t in after.sessions && s.users[id].status == Active
      ensures after.sessions[t].userId in after.users
      ensures after.sessions[t].revokedAt == None ==> after.users[after.sessions[t].userId].status == Active
    {
      assert t != token ==> t in s.sessions;
    }
  }

  /** A suspension that is carried out closes every session of the user for good: reactivation opens none of them. */
  lemma {:induction false} SuspensionIsFinal(settings: Settings, s: State, id: string, ops: seq<Op>, token: string)
    requires SessionInv(s) && token in s.sessions && s.sessions[token].userId == id
    requires UserSuspended(s, id).1 == None
    ensures !Resolves(Run(settings, Apply(settings, s, Suspend(id)), ops), token)
  {
    ApplyKeepsInv(settings, s, Suspend(id));
    DeadTokensStayDead(settings, Apply(settings, s, Suspend(id)), ops, token);
  }

  /** A reset that is carried out closes every session of its user for good and can never be carried out again. */
  lemma {:induction false} ResetWorksOnce(settings: Settings, s: State, reset: string, password: string, ops: seq<Op>,
                                          again: string)
    requires SessionInv(s) && PasswordReset(s, reset, password).1
    ensures var after := Run(settings, PasswordReset(s, reset, password).0, ops);
            && !PasswordReset(after, reset, again).1
            && (forall t :: t in s.sessions && s.sessions[t].userId == s.resets[reset].userId ==> !Resolves(after, t))
  {
    var done := PasswordReset(s, reset, password).0;
    assert done == Apply(settings, s, ResetPassword(reset, password));
    ApplyKeepsInv(settings, s, ResetPassword(reset, password));
    UsedStaysUsed(settings, done, ops, reset);
    forall t | t in s.sessions && s.sessions[t].userId == s.resets[reset].userId
      ensures !Resolves(Run(settings, done, ops), t)
    {
      DeadTokensStayDead(settings, done, ops, t);
    }
  }

  lemma {:induction false} UsedStaysUsed(settings: Settings, s: State, ops: seq<Op>, reset: string)
    requires reset in s.resets && s.resets[reset].usedAt.Some?
    ensures reset in Run(settings, s, ops).resets && Run(settings, s, ops).resets[reset].usedAt.Some?
  {
    if ops != [] {
      UsedStaysUsed(settings, s, ops[..|ops| - 1], reset);
      ApplyKeepsUsed(settings, Run(settings, s, ops[..|ops| - 1]), ops[|ops| - 1], reset);
    }
  }

  lemma {:induction false} ApplyKeepsUsed(settings: Settings, s: State, op: Op, reset: string)
    requires reset in s.resets && s.resets[reset].usedAt.Some?
    ensures reset in Apply(settings, s, op).resets && Apply(settings, s, op).resets[reset].usedAt.Some?
  {
  }

  /** Changing the password leaves the user exactly one open session: the one just issued. */
  lemma {:induction false} PasswordChangeLeavesOneSession(settings: Settings, s: State, token: string, current: string,
                                                          password: string, issued: string)
    requires SessionInv(s) && Resolution(s, token).Ok? && issued !in s.sessions && settings.sessionSeconds > 0
    requires s.users[s.sessions[token].userId].hash == Hash(current)
    ensures var after := Apply(settings, s, ChangePassword(token, current, password, issued));
            && forall t :: t in after.sessions && after.sessions[t].userId == s.sessions[token].userId ==>
                 (Resolves(after, t) <==> t == issued)
  {
    var after := Apply(settings, s, ChangePassword(token, current, password, issued));
    var id := s.sessions[token].userId;
    forall t | t in after.sessions && after.sessions[t].userId == id
      ensures Resolves(after, t) <==> t == issued
    {
      if t != issued {
        assert after.sessions[t].revokedAt.Some?;
      }
    }
  }

  // ----- administrators

  ghost predicate HasAdmin(s: State) {
    exists id :: id in s.users && s.users[id].role == Admin && s.users[id].status == Active
  }

  lemma {:induction false} ApplyKeepsAdmin(settings: Settings, s: State, op: Op)
    requires HasAdmin(s)
    ensures HasAdmin(Apply(settings, s, op))
  {
    var admin :| admin in s.users && s.users[admin].role == Admin && s.users[admin].status == Active;
    if op.Suspend? || op.ChangeRole? {
      GuardsKeepAdmin(settings, s, op, admin);
    } else {
      OthersKeepAdmin(settings, s, op, admin);
    }
  }

  lemma {:induction false} OthersKeepAdmin(settings: Settings, s: State, op: Op, admin: string)
    requires admin in s.users && s.users[admin].role == Admin && s.users[admin].status == Active
    requires !op.Suspend? && !op.ChangeRole?
    ensures var after := Apply(settings, s, op);
            admin in after.users && after.users[admin].role == Admin && after.users[admin].status == Active
  {
    if op.Visit? || op.Logout? || op.ChangePassword? {
      TouchedUser(s, op.token, admin);
    }
    hide Touched, RevokedRows;
  }

  lemma {:induction false} GuardsKeepAdmin(settings: Settings, s: State, op: Op, admin: string)
    requires admin in s.users && s.users[admin].role == Admin && s.users[admin].status == Active
    requires op.Suspend? || op.ChangeRole?
    ensures HasAdmin(Apply(settings, s, op))
  {
    var after := Apply(settings, s, op);
    var others := ActiveAdmins(s, op.id);
    hide RevokedRows;
    if op.id == admin && after.users != s.users && |others| > 0 {
      var other :| other in others;
      assert other in after.users && after.users[other] == s.users[other];
    } else if op.id != admin {
      assert admin in after.users && after.users[admin] == s.users[admin];
    } else {
      assert admin in after.users && after.users[admin].role == Admin && after.users[admin].status == Active;
    }
  }

  /** There is always someone left to administer: an active administrator survives every run. */
  lemma {:induction false} AnAdminRemains(settings: Settings, s: State, ops: seq<Op>)
    requires HasAdmin(s)
    ensures HasAdmin(Run(settings, s, ops))
  {
    if ops != [] {
      AnAdminRemains(settings, s, ops[..|ops| - 1]);
      ApplyKeepsAdmin(settings, Run(settings, s, ops[..|ops| - 1]), ops[|ops| - 1]);
    }
  }
}
