/** Users, sessions and reset tokens, and what each request does to them. Times are seconds of one clock. */
module AuthModel {
  import opened Wrappers

  datatype Role = Member | Admin
  datatype UserStatus = Active | Suspended

  /** A stored password hash; two passwords never share one. */
  datatype Hash = Hash(password: string)

  datatype User = User(email: string, hash: Hash, role: Role, status: UserStatus, lastActive: Option<int>)

  datatype Session = Session(userId: string, expiresAt: int, revokedAt: Option<int>, lastSeen: int)

  datatype Reset = Reset(userId: string, expiresAt: int, usedAt: Option<int>)

  /** `emails` is the unique index on the address. Sessions and resets are keyed by their token. */
  datatype State = State(
    users: map<string, User>, emails: map<string, string>, sessions: map<string, Session>, resets: map<string, Reset>,
    now: int)

  datatype Settings = Settings(sessionSeconds: int, resetSeconds: int)

  datatype Refusal = Missing | Invalid | Expired | NotActive | NotFound | LastAdmin

  // ----- queries

  predicate Resolves(s: State, token: string) {
    && token in s.sessions
    && s.sessions[token].revokedAt == None
    && s.now < s.sessions[token].expiresAt
    && s.sessions[token].userId in s.users
    && s.users[s.sessions[token].userId].status == Active
  }

  /** The answer of `resolve_session`: the user, or why there is none. */
  function Resolution(s: State, token: string): Result<string, Refusal> {
    if token == "" then Err(Missing)
    else if token !in s.sessions || s.sessions[token].revokedAt.Some? then Err(Invalid)
    else if s.sessions[token].expiresAt <= s.now then Err(Expired)
    else if s.sessions[token].userId !in s.users || s.users[s.sessions[token].userId].status != Active then Err(Invalid)
    else Ok(s.sessions[token].userId)
  }

  function ActiveAdmins(s: State, excluded: string): set<string> {
    set id | id in s.users && s.users[id].role == Admin && s.users[id].status == Active && id != excluded
  }

  // ----- changes

  function Touched(s: State, token: string): State {
    if Resolution(s, token).Err? then s else
    var id := s.sessions[token].userId;
    var last := s.users[id].lastActive;
    if last.None? || s.now - last.value > 300 then
      s.(users := s.users[id := s.users[id].(lastActive := Some(s.now))],
         sessions := s.sessions[token := s.sessions[token].(lastSeen := s.now)])
    else s
  }

  function Issued(s: State, settings: Settings, id: string, token: string): State
    requires id in s.users
  {
    s.(users := s.users[id := s.users[id].(lastActive := Some(s.now))],
       sessions := s.sessions[token := Session(id, s.now + settings.sessionSeconds, None, s.now)])
  }

  function RevokedOne(s: State, token: string): State {
    if token == "" || token !in s.sessions || s.sessions[token].revokedAt.Some? then s
    else s.(sessions := s.sessions[token := s.sessions[token].(revokedAt := Some(s.now))])
  }

  /** Every open session of the user is closed now; the others are as they were. */
  function RevokedRows(sessions: map<string, Session>, id: string, now: int): (r: map<string, Session>)
    ensures r.Keys == sessions.Keys
  {
    map t | t in sessions ::
      if sessions[t].userId == id && sessions[t].revokedAt.None? then sessions[t].(revokedAt := Some(now))
      else sessions[t]
  }

  function RevokedAll(s: State, id: string): State {
    s.(sessions := RevokedRows(s.sessions, id, s.now))
  }

  function LoggedIn(s: State, settings: Settings, email: string, password: string, token: string)
    : (State, Result<string, Refusal>)
  {
    if email !in s.emails || s.emails[email] !in s.users then (s, Err(Invalid))
    else
      var user := s.users[s.emails[email]];
      if user.hash != Hash(password) then (s, Err(Invalid))
      else if user.status != Active then (s, Err(NotActive))
      else (Issued(s, settings, s.emails[email], token), Ok(token))
  }

  function ResetRequested(s: State, settings: Settings, email: string, token: string): State {
    if email !in s.emails || s.emails[email] !in s.users || s.users[s.emails[email]].status != Active then s
    else s.(resets := s.resets[token := Reset(s.emails[email], s.now + settings.resetSeconds, None)])
  }

  function PasswordReset(s: State, token: string, password: string): (State, bool) {
    if token !in s.resets || s.resets[token].usedAt.Some? || s.resets[token].expiresAt <= s.now then (s, false)
    else
      var id := s.resets[token].userId;
      if id !in s.users || s.users[id].status != Active then (s, false)
      else
        (RevokedAll(s.(users := s.users[id := s.users[id].(hash := Hash(password))],
                       resets := s.resets[token := s.resets[token].(usedAt := Some(s.now))]), id), true)
  }

  function PasswordChanged(s: State, id: string, current: string, password: string): (State, bool)
    requires id in s.users
  {
    if s.users[id].hash != Hash(current) then (s, false)
    else (RevokedAll(s.(users := s.users[id := s.users[id].(hash := Hash(password))]), id), true)
  }

  function UserSuspended(s: State, id: string): (State, Option<Refusal>) {
    if id !in s.users then (s, Some(NotFound))
    else if s.users[id].role == Admin && |ActiveAdmins(s, id)| == 0 then (s, Some(LastAdmin))
    else (RevokedAll(s.(users := s.users[id := s.users[id].(status := Suspended)]), id), None)
  }

  function UserActivated(s: State, id: string): (State, Option<Refusal>) {
    if id !in s.users then (s, Some(NotFound))
    else (s.(users := s.users[id := s.users[id].(status := Active)]), None)
  }

  function RoleChanged(s: State, id: string, role: Role): (State, Option<Refusal>) {
    if id !in s.users then (s, Some(NotFound))
    else if s.users[id].role == Admin && role == Member && |ActiveAdmins(s, id)| == 0 then (s, Some(LastAdmin))
    else (s.(users := s.users[id := s.users[id].(role := role)]), None)
  }
}
