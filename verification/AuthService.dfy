/** The service functions, changing rows in place; each leaves the state its counterpart in `AuthModel` describes. */
module AuthService {
  import opened Wrappers
  import opened AuthModel

  class Service {
    const settings: Settings
    var users: map<string, User>
    var emails: map<string, string>
    var sessions: map<string, Session>
    var resets: map<string, Reset>
    var now: int

    constructor (settings: Settings, start: State)
      ensures View() == start && this.settings == settings
    {
      this.settings := settings;
      users, emails, sessions, resets, now := start.users, start.emails, start.sessions, start.resets, start.now;
    }

    function View(): State
      reads this
    {
      State(users, emails, sessions, resets, now)
    }

    method IssueSession(id: string, token: string)
      requires id in users && token !in sessions
      modifies this
      ensures View() == Issued(old(View()), settings, id, token)
    {
      sessions := sessions[token := Session(id, now + settings.sessionSeconds, None, now)];
      users := users[id := users[id].(lastActive := Some(now))];
    }

    method Authenticate(email: string, password: string, token: string) returns (r: Result<string, Refusal>)
      requires token !in sessions
      modifies this
      ensures (View(), r) == LoggedIn(old(View()), settings, email, password, token)
    {
      if email !in emails || emails[email] !in users {
        return Err(Invalid);
      }
      var id := emails[email];
      if users[id].hash != Hash(password) {
        return Err(Invalid);
      }
      if users[id].status != Active {
        return Err(NotActive);
      }
      IssueSession(id, token);
      r := Ok(token);
    }

    method ResolveSession(token: string) returns (r: Result<string, Refusal>)
      modifies this
      ensures r == Resolution(old(View()), token)
      ensures View() == Touched(old(View()), token)
    {
      if token == "" {
        return Err(Missing);
      }
      if token !in sessions || sessions[token].revokedAt.Some? {
        return Err(Invalid);
      }
      var row := sessions[token];
      if row.expiresAt <= now {
        return Err(Expired);
      }
      if row.userId !in users || users[row.userId].status != Active {
        return Err(Invalid);
      }
      var user := users[row.userId];
      if user.lastActive.None? || now - user.lastActive.value > 300 {
        users := users[row.userId := user.(lastActive := Some(now))];
        sessions := sessions[token := row.(lastSeen := now)];
      }
      r := Ok(row.userId);
    }

    method RevokeSession(token: string)
      modifies this
      ensures View() == RevokedOne(old(View()), token)
    {
      if token == "" || token !in sessions || sessions[token].revokedAt.Some? {
        return;
      }
      sessions := sessions[token := sessions[token].(revokedAt := Some(now))];
    }

    method RevokeUserSessions(id: string)
      modifies this
      ensures View() == RevokedAll(old(View()), id)
    {
      var rows := set t | t in sessions && sessions[t].userId == id && sessions[t].revokedAt.None?;
      ghost var before := sessions;
      while rows != {}
        invariant users == old(users) && emails == old(emails) && resets == old(resets) && now == old(now)
        invariant sessions.Keys == before.Keys && rows <= sessions.Keys
        invariant forall t :: t in rows ==>
                    sessions[t] == before[t] && before[t].userId == id && before[t].revokedAt.None?
        invariant forall t :: t in before && t !in rows ==> sessions[t] == RevokedRows(before, id, now)[t]
      {
        var t :| t in rows;
        sessions := sessions[t := sessions[t].(revokedAt := Some(now))];
        rows := rows - {t};
      }
      assert sessions == RevokedRows(before, id, now);
    }

    method RequestPasswordReset(email: string, token: string)
      requires token !in resets
      modifies this
      ensures View() == ResetRequested(old(View()), settings, email, token)
    {
      if email !in emails || emails[email] !in users || users[emails[email]].status != Active {
        return;
      }
      resets := resets[token := Reset(emails[email], now + settings.resetSeconds, None)];
    }

    method ResetPassword(token: string, password: string) returns (done: bool)
      modifies this
      ensures (View(), done) == PasswordReset(old(View()), token, password)
    {
      if token !in resets || resets[token].usedAt.Some? || resets[token].expiresAt <= now {
        return false;
      }
      var id := resets[token].userId;
      if id !in users || users[id].status != Active {
        return false;
      }
      users := users[id := users[id].(hash := Hash(password))];
      resets := resets[token := resets[token].(usedAt := Some(now))];
      RevokeUserSessions(id);
      done := true;
    }

    method ChangePassword(id: string, current: string, password: string) returns (done: bool)
      requires id in users
      modifies this
      ensures (View(), done) == PasswordChanged(old(View()), id, current, password)
    {
      if users[id].hash != Hash(current) {
        return false;
      }
      users := users[id := users[id].(hash := Hash(password))];
      RevokeUserSessions(id);
      done := true;
    }

    method SuspendUser(id: string) returns (refused: Option<Refusal>)
      modifies this
      ensures (View(), refused) == UserSuspended(old(View()), id)
    {
      if id !in users {
        return Some(NotFound);
      }
      if users[id].role == Admin && |ActiveAdmins(View(), id)| == 0 {
        return Some(LastAdmin);
      }
      users := users[id := users[id].(status := Suspended)];
      RevokeUserSessions(id);
      refused := None;
    }

    method ActivateUser(id: string) returns (refused: Option<Refusal>)
      modifies this
      ensures (View(), refused) == UserActivated(old(View()), id)
    {
      if id !in users {
        return Some(NotFound);
      }
      users := users[id := users[id].(status := Active)];
      refused := None;
    }

    method ChangeRole(id: string, role: Role) returns (refused: Option<Refusal>)
      modifies this
      ensures (View(), refused) == RoleChanged(old(View()), id, role)
    {
      if id !in users {
        return Some(NotFound);
      }
      if users[id].role == Admin && role == Member && |ActiveAdmins(View(), id)| == 0 {
        return Some(LastAdmin);
      }
      users := users[id := users[id].(role := role)];
      refused := None;
    }
  }
}
