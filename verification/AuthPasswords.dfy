/** Which password opens a session, for how long, and what closes it: read off the history of requests. */
module AuthPasswords {
  import opened Wrappers
  import opened AuthModel
  import opened AuthRuns

  /** The index of addresses and the users agree. */
  ghost predicate Consistent(s: State) {
    && (forall e :: e in s.emails ==> s.emails[e] in s.users && s.users[s.emails[e]].email == e)
    && (forall id :: id in s.users ==> s.users[id].email in s.emails && s.emails[s.users[id].email] == id)
  }

  /** The password last set for an address: by signing up, by a reset that took effect, or by a change that took effect,
      which asks for the one set before. */
  ghost function LastSet(settings: Settings, s: State, ops: seq<Op>, email: string): Option<string> {
    if ops == [] then
      if email in s.emails && s.emails[email] in s.users then Some(s.users[s.emails[email]].hash.password) else None
    else
      var before := LastSet(settings, s, ops[..|ops| - 1], email);
      var at := Run(settings, s, ops[..|ops| - 1]);
      match ops[|ops| - 1]
      case Signup(id, e, password, issued) =>
        if e == email && id !in at.users && e !in at.emails && issued !in at.sessions then Some(password) else before
      case ResetPassword(reset, password) =>
        if ResetIsOpen(at, reset) && at.users[at.resets[reset].userId].email == email then Some(password) else before
      case ChangePassword(token, current, password, issued) =>
        if token != "" && Resolves(at, token) && issued !in at.sessions
           && at.users[at.sessions[token].userId].email == email && before == Some(current)
        then Some(password) else before
      case _ => before
  }

  /** The token was issued to a user who is active, was not used and has not expired. */
  ghost predicate ResetIsOpen(s: State, reset: string) {
    && reset in s.resets && s.resets[reset].usedAt == None && s.now < s.resets[reset].expiresAt
    && s.resets[reset].userId in s.users && s.users[s.resets[reset].userId].status == Active
  }

  ghost predicate SameAddresses(s: State, after: State) {
    && after.emails == s.emails && after.users.Keys == s.users.Keys
    && (forall id :: id in s.users ==> after.users[id].email == s.users[id].email)
  }

  lemma {:induction false} SameAddressesKeep(s: State, after: State)
    requires Consistent(s) && SameAddresses(s, after)
    ensures Consistent(after)
  {
    assert forall id :: id in after.users <==> id in after.users.Keys;
  }

  lemma {:induction false} TouchedKeepsAddresses(s: State, token: string)
    ensures SameAddresses(s, Touched(s, token))
  {
  }

  lemma {:induction false} VisitsKeepAddresses(settings: Settings, s: State, op: Op)
    requires op.Visit? || op.Logout? || op.ChangePassword?
    ensures SameAddresses(s, Apply(settings, s, op))
  {
    TouchedKeepsAddresses(s, op.token);
    hide Touched, RevokedRows;
  }

  lemma {:induction false} OthersKeepAddresses(settings: Settings, s: State, op: Op)
    requires !op.Signup? && !op.Visit? && !op.Logout? && !op.ChangePassword?
    ensures SameAddresses(s, Apply(settings, s, op))
  {
    hide RevokedRows, ActiveAdmins;
  }

  lemma {:induction false} SignupAddsItsAddress(settings: Settings, s: State, op: Op)
    requires Consistent(s) && op.Signup?
    ensures Consistent(Apply(settings, s, op))
  {
  }

  /** Users and addresses only ever come with a signup. */
  lemma {:induction false} ApplyKeepsUsers(settings: Settings, s: State, op: Op)
    requires Consistent(s)
    ensures Consistent(Apply(settings, s, op))
    ensures !op.Signup? ==> SameAddresses(s, Apply(settings, s, op))
  {
    hide Apply, Consistent, SameAddresses;
    if op.Signup? {
      SignupAddsItsAddress(settings, s, op);
    } else {
      if op.Visit? || op.Logout? || op.ChangePassword? {
        VisitsKeepAddresses(settings, s, op);
      } else {
        OthersKeepAddresses(settings, s, op);
      }
      SameAddressesKeep(s, Apply(settings, s, op));
    }
  }

  /** Every other request leaves every password as it was. */
  lemma {:induction false} OthersKeepHashes(settings: Settings, s: State, op: Op, id: string)
    requires id in s.users && !op.ResetPassword? && !op.ChangePassword?
    ensures id in Apply(settings, s, op).users && Apply(settings, s, op).users[id].hash == s.users[id].hash
  {
    hide RevokedRows, ActiveAdmins;
  }

  lemma {:induction false} ResetSetsTheHash(settings: Settings, s: State, reset: string, password: string, id: string)
    requires id in s.users
    ensures var after := Apply(settings, s, ResetPassword(reset, password));
            && id in after.users
            && after.users[id].hash
               == if ResetIsOpen(s, reset) && s.resets[reset].userId == id then Hash(password) else s.users[id].hash
  {
    hide RevokedRows;
  }

  lemma {:induction false} ChangeSetsTheHash(settings: Settings, s: State, token: string, current: string,
                                             password: string, issued: string, id: string)
    requires id in s.users
    ensures var after := Apply(settings, s, ChangePassword(token, current, password, issued));
            && id in after.users
            && after.users[id].hash
               == if token != "" && Resolves(s, token) && issued !in s.sessions && s.sessions[token].userId == id
                     && s.users[id].hash == Hash(current)
                  then Hash(password) else s.users[id].hash
  {
    hide RevokedRows;
    ResolutionIsResolves(s, token);
  }

  lemma {:induction false} StaysConsistent(settings: Settings, s: State, ops: seq<Op>)
    requires Consistent(s)
    ensures Consistent(Run(settings, s, ops))
  {
    hide Consistent, Apply;
    if ops != [] {
      StaysConsistent(settings, s, ops[..|ops| - 1]);
      ApplyKeepsUsers(settings, Run(settings, s, ops[..|ops| - 1]), ops[|ops| - 1]);
    }
  }

  /** In every run an address is known exactly when a password was set for it, and the hash stored for it is that of the
      last one. */
  lemma {:induction false} TheLastSetIsStored(settings: Settings, s: State, ops: seq<Op>, email: string)
    requires Consistent(s)
    ensures var at := Run(settings, s, ops);
            && (email in at.emails <==> LastSet(settings, s, ops, email).Some?)
            && (email in at.emails ==>
                  && at.emails[email] in at.users
                  && at.users[at.emails[email]].hash == Hash(LastSet(settings, s, ops, email).value))
  {
    StaysConsistent(settings, s, ops);
    if ops != [] {
      var front, op := ops[..|ops| - 1], ops[|ops| - 1];
      TheLastSetIsStored(settings, s, front, email);
      StaysConsistent(settings, s, front);
      StoredAfter(settings, s, front, op, email);
      assert front + [op] == ops;
    }
  }

  lemma {:induction false} StoredAfter(settings: Settings, s: State, front: seq<Op>, op: Op, email: string)
    requires Consistent(Run(settings, s, front))
    requires var at := Run(settings, s, front);
             && (email in at.emails <==> LastSet(settings, s, front, email).Some?)
             && (email in at.emails ==>
                   && at.emails[email] in at.users
                   && at.users[at.emails[email]].hash == Hash(LastSet(settings, s, front, email).value))
    ensures var after := Apply(settings, Run(settings, s, front), op);
            var latest := LastSet(settings, s, front + [op], email);
            && (email in after.emails <==> latest.Some?)
            && (email in after.emails ==>
                  && after.emails[email] in after.users
                  && after.users[after.emails[email]].hash == Hash(latest.value))
  {
    var at := Run(settings, s, front);
    LastSetNext(settings, s, front, op, email);
    ApplyKeepsUsers(settings, at, op);
    hide Run, LastSet, RevokedRows, Touched;
    if op.Signup? {
      hide ResetIsOpen, Resolves;
    } else if email in at.emails {
      hide Apply;
      var id := at.emails[email];
      match op
      case ResetPassword(reset, password) => ResetSetsTheHash(settings, at, reset, password, id);
      case ChangePassword(token, current, password, issued) =>
        ChangeSetsTheHash(settings, at, token, current, password, issued, id);
      case _ => OthersKeepHashes(settings, at, op, id);
    } else {
      hide Apply;
    }
  }

  lemma {:induction false} LastSetNext(settings: Settings, s: State, front: seq<Op>, op: Op, email: string)
    ensures var at := Run(settings, s, front);
            var before := LastSet(settings, s, front, email);
            LastSet(settings, s, front + [op], email) == match op
              case Signup(id, e, password, issued) =>
                if e == email && id !in at.users && e !in at.emails && issued !in at.sessions then Some(password)
                else before
              case ResetPassword(reset, password) =>
                if ResetIsOpen(at, reset) && at.users[at.resets[reset].userId].email == email then Some(password)
                else before
              case ChangePassword(token, current, password, issued) =>
                if token != "" && Resolves(at, token) && issued !in at.sessions
                   && at.users[at.sessions[token].userId].email == email && before == Some(current)
                then Some(password) else before
              case _ => before
  {
    hide Apply, Resolves;
    assert (front + [op])[..|front + [op]| - 1] == front && (front + [op])[|front + [op]| - 1] == op;
  }

  /** A login adds a session exactly when its token is fresh, the password is the one last set for that address, and the
      user is active; the session is that user's. Otherwise it changes nothing. */
  lemma {:induction false} LoginIff(settings: Settings, s: State, ops: seq<Op>, email: string, password: string,
                                    issued: string)
    requires Consistent(s)
    ensures var at := Run(settings, s, ops);
            var after := Apply(settings, at, Login(email, password, issued));
            var opens :=
              && issued !in at.sessions
              && LastSet(settings, s, ops, email) == Some(password)
              && email in at.emails && at.emails[email] in at.users && at.users[at.emails[email]].status == Active;
            && (issued !in at.sessions && issued in after.sessions <==> opens)
            && (opens ==>
                  && after.sessions[issued].userId == at.emails[email]
                  && (Resolves(after, issued) <==> settings.sessionSeconds > 0))
            && (!opens ==> after == at)
  {
    TheLastSetIsStored(settings, s, ops, email);
    hide Run, LastSet;
  }

  /** A change of password opens its session exactly when the user who asks for it gives the password last set for his
      address, and the token is fresh. Otherwise it opens and closes nothing. */
  lemma {:induction false} ChangeIff(settings: Settings, s: State, ops: seq<Op>, token: string, current: string,
                                     password: string, issued: string)
    requires Consistent(s)
    ensures var at := Run(settings, s, ops);
            var after := Apply(settings, at, ChangePassword(token, current, password, issued));
            var takes :=
              && token != "" && Resolves(at, token) && issued !in at.sessions
              && LastSet(settings, s, ops, at.users[at.sessions[token].userId].email) == Some(current);
            && (issued !in at.sessions && issued in after.sessions <==> takes)
            && (takes ==> after.sessions[issued].userId == at.sessions[token].userId)
            && (!takes ==> after == at)
  {
    var at := Run(settings, s, ops);
    StaysConsistent(settings, s, ops);
    ResolutionIsResolves(at, token);
    if token != "" && Resolves(at, token) {
      var id := at.sessions[token].userId;
      TheLastSetIsStored(settings, s, ops, at.users[id].email);
      hide Run, LastSet;
      TouchedUser(at, token, id);
      TouchedRow(at, token, token);
      hide Touched;
    }
    hide Run, LastSet;
  }

  // ----- how long

  lemma {:induction false} ApplyKeepsExpiry(settings: Settings, s: State, op: Op, token: string)
    requires token in s.sessions
    ensures token in Apply(settings, s, op).sessions
    ensures Apply(settings, s, op).sessions[token].expiresAt == s.sessions[token].expiresAt
    ensures Apply(settings, s, op).now >= s.now
  {
    if op.Visit? || op.Logout? || op.ChangePassword? {
      TouchedRow(s, op.token, token);
      if op.ChangePassword? && Resolution(s, op.token).Ok? {
        TouchedUser(s, op.token, Resolution(s, op.token).value);
      }
      hide Touched;
    } else {
      hide Touched, ActiveAdmins;
    }
  }

  lemma {:induction false} ExpiryIsFixed(settings: Settings, s: State, ops: seq<Op>, token: string)
    requires token in s.sessions
    ensures token in Run(settings, s, ops).sessions
    ensures Run(settings, s, ops).sessions[token].expiresAt == s.sessions[token].expiresAt
  {
    hide Apply;
    if ops != [] {
      ExpiryIsFixed(settings, s, ops[..|ops| - 1], token);
      ApplyKeepsExpiry(settings, Run(settings, s, ops[..|ops| - 1]), ops[|ops| - 1], token);
    }
  }

  /** Whatever happens, a session resolves for less than its lifetime; left alone, for all of it. */
  lemma {:induction false} SessionsLiveTheirLifetime(settings: Settings, s: State, id: string, token: string,
                                                     ops: seq<Op>, seconds: nat)
    requires id in s.users && token !in s.sessions && s.users[id].status == Active
    ensures var issued := Issued(s, settings, id, token);
            && (Resolves(Run(settings, issued, ops), token) ==>
                  Run(settings, issued, ops).now - s.now < settings.sessionSeconds)
            && (Resolves(Apply(settings, issued, Tick(seconds)), token) <==> seconds < settings.sessionSeconds)
  {
    ExpiryIsFixed(settings, Issued(s, settings, id, token), ops, token);
    hide Run;
  }

  /** A reset token asked for by a known, active user works for its lifetime and no longer. */
  lemma {:induction false} ResetsLiveTheirLifetime(settings: Settings, s: State, email: string, reset: string,
                                                   seconds: nat, password: string)
    requires email in s.emails && s.emails[email] in s.users && s.users[s.emails[email]].status == Active
    requires reset !in s.resets
    ensures var asked := Apply(settings, s, ForgotPassword(email, reset));
            PasswordReset(Apply(settings, asked, Tick(seconds)), reset, password).1
            <==> seconds < settings.resetSeconds
  {
    hide RevokedRows;
  }

  /** A token that was logged out never resolves again. */
  lemma {:induction false} LogoutIsFinal(settings: Settings, s: State, ops: seq<Op>, token: string)
    requires SessionInv(s) && token in s.sessions && token != ""
    ensures !Resolves(Run(settings, Apply(settings, s, Logout(token)), ops), token)
  {
    ApplyKeepsInv(settings, s, Logout(token));
    LogoutCloses(settings, s, token);
    hide Apply, Run, SessionInv;
    DeadTokensStayDead(settings, Apply(settings, s, Logout(token)), ops, token);
  }

  lemma {:induction false} LogoutCloses(settings: Settings, s: State, token: string)
    requires token in s.sessions && token != ""
    ensures token in Apply(settings, s, Logout(token)).sessions
    ensures !Resolves(Apply(settings, s, Logout(token)), token)
  {
    ResolutionIsResolves(s, token);
    TouchedRow(s, token, token);
    hide Touched;
  }

  /** After a visit that resolves, the user was active within the last five minutes; within these, visits write
      nothing. */
  lemma {:induction false} VisitsAreNoted(settings: Settings, s: State, token: string)
    requires token != "" && Resolves(s, token)
    ensures var user := Apply(settings, s, Visit(token)).users[s.sessions[token].userId];
            user.lastActive.Some? && s.now - user.lastActive.value <= 300
    ensures s.users[s.sessions[token].userId].lastActive == None ==>
              Apply(settings, s, Visit(token)).users[s.sessions[token].userId].lastActive == Some(s.now)
    ensures var last := s.users[s.sessions[token].userId].lastActive;
            last.Some? && s.now - last.value <= 300 ==> Apply(settings, s, Visit(token)) == s
  {
    ResolutionIsResolves(s, token);
  }

  // ----- the last administrator

  ghost predicate OnlyActiveAdmin(s: State, id: string) {
    forall other :: other in s.users && other != id && s.users[other].role == Admin ==> s.users[other].status != Active
  }

  /** A suspension and a demotion are refused for exactly the administrator without another active one beside. */
  lemma {:induction false} TheLastAdminIsKept(s: State, id: string)
    requires id in s.users
    ensures UserSuspended(s, id).1
         == (if s.users[id].role == Admin && OnlyActiveAdmin(s, id) then Some(LastAdmin) else None)
    ensures RoleChanged(s, id, Member).1
         == (if s.users[id].role == Admin && OnlyActiveAdmin(s, id) then Some(LastAdmin) else None)
    ensures RoleChanged(s, id, Admin).1 == None
  {
    hide RevokedRows;
    var others := ActiveAdmins(s, id);
    if others != {} {
      var other :| other in others;
      assert !OnlyActiveAdmin(s, id);
    } else {
      forall other | other in s.users && other != id && s.users[other].role == Admin
        ensures s.users[other].status != Active
      {
        assert other !in others;
      }
    }
  }

  // ----- who closes a session

  /** The request is the session's own logout, or takes its user's sessions away. */
  ghost predicate ClosesIt(s: State, op: Op, token: string)
    requires token in s.sessions
  {
    var owner := s.sessions[token].userId;
    match op
    case Logout(t) => t == token
    case Suspend(id) => id == owner
    case ResetPassword(reset, _) => reset in s.resets && s.resets[reset].userId == owner
    case ChangePassword(t, _, _, _) => t in s.sessions && s.sessions[t].userId == owner
    case Tick(seconds) => s.sessions[token].expiresAt <= s.now + seconds
    case _ => false
  }

  /** A session that resolves goes on doing so through every request but these: nobody else's logout, suspension, reset
      or change of password closes it. */
  lemma {:induction false} OnlyItsOwnerCloses(settings: Settings, s: State, op: Op, token: string)
    requires Resolves(s, token) && !ClosesIt(s, op, token)
    ensures Resolves(Apply(settings, s, op), token)
  {
    if op.Visit? || op.Logout? || op.ChangePassword? {
      ResolutionIsResolves(s, op.token);
      TouchedRow(s, op.token, token);
      TouchedUser(s, op.token, s.sessions[token].userId);
      if Resolution(s, op.token).Ok? {
        TouchedUser(s, op.token, Resolution(s, op.token).value);
      }
      hide Touched;
    } else {
      hide Touched, ActiveAdmins;
    }
  }
}
