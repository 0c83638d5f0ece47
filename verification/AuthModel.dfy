// auth.service.ts as a state machine: one step for each service call, on the users, tokens
// and sessions tables, the session cache, and the refresh tokens signed so far.
module AuthModel {
  import opened Options
  import opened EmailText
  import opened AuthSessions
  import opened AuthUsers

  /** Configuration, with the hashing libraries as unknown functions. */
  datatype Config = Config(
    mfaRequired: bool, refreshTtl: int, loginMaxAttempts: int, lockoutMs: int,
    compare: (string, string) -> bool, // bcrypt.compare
    hashToken: string -> string)       // sha256

  /** The claims of a refresh token. */
  datatype RefreshPayload = RefreshPayload(sub: Id, tenantId: Id, sessionId: Id, rtid: Option<Id>)

  datatype World = World(
    users: Users, tokens: Tokens, store: StoreState,
    issued: set<RefreshPayload>, // every refresh token signed so far
    now: Time)                   // time of the last call

  datatype SsoInput = SsoInput(
    tenantId: Id, provider: Provider, externalId: string, email: string,
    jitProvisioning: bool, mfaAuthenticated: Option<bool>)

  /** A service call, with the random values it draws and the verdicts of the JWT and TOTP
      libraries it receives. */
  datatype Op =
    | Invite(isHrAdmin: bool, tenantId: Id, email: string, userId: Id, hash: string, token: string)
    | RequestReset(tenantId: Id, email: string, token: string)
    | ConfirmReset(token: string, password: string, hash: string)
    | Login(tenantId: Id, email: string, password: string)
    | SetupMfa(actorId: Id, secret: string)
    | OpenSession(forUser: Id, forTenant: Id, mfa: Option<bool>, sid: Id, rtid: Id)
    | SsoLogin(input: SsoInput, newUser: Id, sid: Id, rtid: Id)
    | Refresh(payload: RefreshPayload, verified: bool, rtid: Id)
    | VerifyMfa(actorId: Id, sessionId: Option<Id>, codeValid: bool, sid: Id)
    | Revoke(sessionId: Option<Id>)

  datatype Call = Call(now: Time, op: Op)

  datatype Reason =
    | NotHrAdmin | InvalidEmail | EmailTaken | WeakPassword | InvalidToken
    | InvalidCredentials | TemporarilyLocked | NotActive | UseSso
    | LinkedElsewhere | NoLocalAccount | UserGone
    | InvalidRefreshToken | InvalidRefreshSession | SessionExpired | TokenReuse
    | MfaNotConfigured | InvalidMfaCode

  datatype Reply =
    | Denied(reason: Reason)
    | Invited(userId: Id, token: string)
    | ResetRequested(resetToken: Option<string>)
    | PasswordSet
    | LoggedIn(userId: Id)
    | MfaSecretStored
    | Granted(session: Session, refreshToken: RefreshPayload)
    | Done

  // ---------------------------------------------------------------- accounts

  const SSO_ONLY := "SSO_ONLY_UNUSABLE_PASSWORD"
  const TOKEN_TTL: int := 48 * 60 * 60 * 1000

  /** Accounts and tokens aside, nothing has happened. */
  ghost predicate SameSessions(w: World, w': World) {
    w'.store == w.store && w'.issued == w.issued && w'.now == w.now
  }

  predicate PasswordPolicy(p: string) {
    && |p| >= 12
    && (exists i :: 0 <= i < |p| && 'a' <= p[i] <= 'z')
    && (exists i :: 0 <= i < |p| && 'A' <= p[i] <= 'Z')
    && (exists i :: 0 <= i < |p| && '0' <= p[i] <= '9')
    && (exists i :: 0 <= i < |p| && !('a' <= p[i] <= 'z') && !('A' <= p[i] <= 'Z') && !('0' <= p[i] <= '9'))
  }

  function NewUser(id: Id, tenantId: Id, email: string, hash: string, status: Status): User {
    User(id, tenantId, Normalize(email), hash, status, 0, None, None, None, None)
  }

  function Issue(c: Config, w: World, userId: Id, token: string, tokenType: TokenType, now: Time): World {
    w.(tokens := w.tokens[c.hashToken(token) := Token(userId, tokenType, now + TOKEN_TTL, None)])
  }

  ghost function InviteStep(c: Config, w: World, now: Time, isHrAdmin: bool, tenantId: Id, email: string,
                            userId: Id, hash: string, token: string): (r: (World, Reply))
    ensures SameSessions(w, r.0) && !r.1.Granted?
  {
    if !isHrAdmin then (w, Denied(NotHrAdmin))
    else if !ValidEmail(Normalize(email)) then (w, Denied(InvalidEmail))
    else if IdByEmail(w.users, tenantId, Normalize(email)).Some? then (w, Denied(EmailTaken))
    else
      var user := NewUser(userId, tenantId, Normalize(email), hash, INVITED);
      (Issue(c, w.(users := w.users[userId := user]), userId, token, SET_PASSWORD, now), Invited(userId, token))
  }

  ghost function RequestResetStep(c: Config, w: World, now: Time, tenantId: Id, email: string, token: string)
    : (r: (World, Reply))
    ensures SameSessions(w, r.0) && !r.1.Granted?
  {
    if !ValidEmail(Normalize(email)) then (w, Denied(InvalidEmail))
    else match IdByEmail(w.users, tenantId, Normalize(email))
      case None => (w, ResetRequested(None))
      case Some(id) => (Issue(c, w, id, token, PASSWORD_RESET, now), ResetRequested(Some(token)))
  }

  ghost function ConfirmResetStep(c: Config, w: World, now: Time, token: string, password: string, hash: string)
    : (r: (World, Reply))
    ensures SameSessions(w, r.0) && !r.1.Granted?
  {
    if !PasswordPolicy(password) then (w, Denied(WeakPassword))
    else if !Active(w.tokens, c.hashToken(token), now) then (w, Denied(InvalidToken))
    else
      var id := w.tokens[c.hashToken(token)].userId;
      var users := if id in w.users then w.users[id := WithPassword(w.users[id], hash, ACTIVE)] else w.users;
      (w.(users := users, tokens := Consumed(w.tokens, c.hashToken(token), now)), PasswordSet)
  }

  function AfterFailedLogin(c: Config, user: User, now: Time): User {
    var count := user.failedLoginCount + 1;
    Failed(user, count, if count >= c.loginMaxAttempts then Some(now + c.lockoutMs) else None)
  }

  predicate StillLocked(user: User, now: Time) {
    user.lockedUntil.Some? && user.lockedUntil.value > now
  }

  ghost function LoginStep(c: Config, w: World, now: Time, tenantId: Id, email: string, password: string)
    : (r: (World, Reply))
    ensures SameSessions(w, r.0) && !r.1.Granted?
  {
    match IdByEmail(w.users, tenantId, Normalize(email))
    case None => (w, Denied(InvalidCredentials))
    case Some(id) =>
      var user := w.users[id];
      if StillLocked(user, now) then (w, Denied(TemporarilyLocked))
      else if user.status != ACTIVE then (w, Denied(NotActive))
      else if user.idpProvider.Some? then (w, Denied(UseSso))
      else if !c.compare(password, user.passwordHash) then
        (w.(users := w.users[id := AfterFailedLogin(c, user, now)]), Denied(InvalidCredentials))
      else if user.failedLoginCount > 0 || user.lockedUntil.Some? then
        (w.(users := w.users[id := Cleared(user)]), LoggedIn(id))
      else (w, LoggedIn(id))
  }

  ghost function SetupMfaStep(w: World, actorId: Id, secret: string): (r: (World, Reply))
    ensures SameSessions(w, r.0) && !r.1.Granted?
  {
    if actorId !in w.users then (w, Denied(UserGone))
    else (w.(users := w.users[actorId := w.users[actorId].(mfaSecret := Some(secret))]), MfaSecretStored)
  }

  // ---------------------------------------------------------------- sessions

  function TokenFor(userId: Id, tenantId: Id, s: Session): RefreshPayload {
    RefreshPayload(userId, tenantId, s.sessionId, s.refreshTokenId)
  }

  function OpenStep(c: Config, w: World, now: Time, userId: Id, tenantId: Id, mfa: Option<bool>, sid: Id, rtid: Id)
    : (World, Reply)
  {
    var s := Session(sid, userId, tenantId, now, now + c.refreshTtl,
                     if mfa.Some? then mfa.value else !c.mfaRequired, Some(rtid));
    var token := TokenFor(userId, tenantId, s);
    (w.(store := AfterCreate(w.store, s, now), issued := w.issued + {token}), Granted(s, token))
  }

  datatype Resolution = Refused(reason: Reason) | Resolved(userId: Id, tenantId: Id)

  /** Which account an identity asserted by the provider stands for; the account is linked or
      created on the way. */
  ghost function ResolveSso(users: Users, i: SsoInput, newUser: Id): (Users, Resolution) {
    if !ValidEmail(Normalize(i.email)) then (users, Refused(InvalidEmail))
    else match IdByExternalId(users, i.tenantId, i.provider, i.externalId)
      case Some(id) => (users, Resolved(id, users[id].tenantId))
      case None =>
        match IdByEmail(users, i.tenantId, Normalize(i.email))
        case Some(id) =>
          var user := users[id];
          if user.idpProvider.Some? &&
             (user.idpProvider != Some(i.provider) || user.externalId != Some(i.externalId)) then
            (users, Refused(LinkedElsewhere))
          else
            (users[id := user.(idpProvider := Some(i.provider), externalId := Some(i.externalId))],
             Resolved(id, user.tenantId))
        case None =>
          if !i.jitProvisioning then (users, Refused(NoLocalAccount))
          else (users[newUser := SsoUser(i, newUser)], Resolved(newUser, i.tenantId))
  }

  function SsoUser(i: SsoInput, id: Id): User {
    NewUser(id, i.tenantId, Normalize(i.email), SSO_ONLY, ACTIVE).(
    idpProvider := Some(i.provider), externalId := Some(i.externalId))
  }

  ghost function SsoStep(c: Config, w: World, now: Time, i: SsoInput, newUser: Id, sid: Id, rtid: Id): (World, Reply) {
    var mfa := Some(if i.mfaAuthenticated.Some? then i.mfaAuthenticated.value else true);
    var (users, resolution) := ResolveSso(w.users, i, newUser);
    match resolution
    case Refused(reason) => (w, Denied(reason))
    case Resolved(userId, tenantId) =>
      OpenStep(c, w.(users := users), now, userId, tenantId, mfa, sid, rtid)
  }

  predicate MayRefresh(users: Users, userId: Id, now: Time) {
    userId in users && users[userId].status == ACTIVE && !StillLocked(users[userId], now)
  }

  function RevokeStep(w: World, now: Time, sid: Id): World {
    w.(store := AfterRevoke(w.store, sid, now))
  }

  function RefreshStep(c: Config, w: World, now: Time, p: RefreshPayload, verified: bool, rtid: Id): (World, Reply) {
    if !verified then (w, Denied(InvalidRefreshToken))
    else
      var found := GetResult(w.store, p.sessionId, now);
      var w1 := w.(store := AfterGet(w.store, p.sessionId, now));
      if found.None? || found.value.userId != p.sub || found.value.tenantId != p.tenantId then
        (w1, Denied(InvalidRefreshSession))
      else
        var s := found.value;
        if s.expiresAt <= now then (RevokeStep(w1, now, s.sessionId), Denied(SessionExpired))
        else if s.refreshTokenId.Some? && p.rtid != s.refreshTokenId then
          (RevokeStep(w1, now, s.sessionId), Denied(TokenReuse))
        else if !MayRefresh(w.users, s.userId, now) then
          (RevokeStep(w1, now, s.sessionId), Denied(NotActive))
        else
          var rotated := s.(expiresAt := now + c.refreshTtl, refreshTokenId := Some(rtid));
          var token := TokenFor(s.userId, w.users[s.userId].tenantId, rotated);
          (w1.(store := AfterSave(w1.store, rotated, now), issued := w.issued + {token}), Granted(rotated, token))
  }

  function VerifyMfaStep(c: Config, w: World, now: Time, actorId: Id, sessionId: Option<Id>, codeValid: bool, sid: Id)
    : (World, Reply)
  {
    if actorId !in w.users || w.users[actorId].mfaSecret.None? then (w, Denied(MfaNotConfigured))
    else if !codeValid then (w, Denied(InvalidMfaCode))
    else
      var tenantId := w.users[actorId].tenantId;
      var found := if sessionId.Some? then GetResult(w.store, sessionId.value, now) else None;
      var store := if sessionId.Some? then AfterGet(w.store, sessionId.value, now) else w.store;
      var s := if found.Some? then found.value.(mfaAuthenticated := true)
               else Session(sid, actorId, tenantId, now, now + c.refreshTtl, true, None);
      var token := TokenFor(actorId, tenantId, s);
      (w.(store := if found.Some? then AfterSave(store, s, now) else AfterCreate(store, s, now),
          issued := w.issued + {token}), Granted(s, token))
  }

  // ---------------------------------------------------------------- the machine

  ghost function Step(c: Config, w0: World, call: Call): (World, Reply) {
    var now := call.now;
    var w := w0.(now := now);
    match call.op
    case Invite(isHrAdmin, tenantId, email, userId, hash, token) =>
      InviteStep(c, w, now, isHrAdmin, tenantId, email, userId, hash, token)
    case RequestReset(tenantId, email, token) => RequestResetStep(c, w, now, tenantId, email, token)
    case ConfirmReset(token, password, hash) => ConfirmResetStep(c, w, now, token, password, hash)
    case Login(tenantId, email, password) => LoginStep(c, w, now, tenantId, email, password)
    case SetupMfa(actorId, secret) => SetupMfaStep(w, actorId, secret)
    case OpenSession(userId, tenantId, mfa, sid, rtid) => OpenStep(c, w, now, userId, tenantId, mfa, sid, rtid)
    case SsoLogin(input, newUser, sid, rtid) => SsoStep(c, w, now, input, newUser, sid, rtid)
    case Refresh(payload, verified, rtid) => RefreshStep(c, w, now, payload, verified, rtid)
    case VerifyMfa(actorId, sessionId, codeValid, sid) =>
      VerifyMfaStep(c, w, now, actorId, sessionId, codeValid, sid)
    case Revoke(sessionId) => (if sessionId.Some? then RevokeStep(w, now, sessionId.value) else w, Done)
  }

  ghost predicate FreshSession(w: World, sid: Id) {
    sid !in w.store.rows
  }

  ghost predicate FreshTokenId(w: World, rtid: Id) {
    forall p :: p in w.issued ==> p.rtid != Some(rtid)
  }

  /** What the environment guarantees about a call: the clock does not run backwards, random
      ids are new, and the JWT library verifies only tokens that were signed. */
  ghost predicate Legal(c: Config, w: World, call: Call) {
    && w.now <= call.now
    && (match call.op
        case Invite(_, _, _, userId, _, token) => userId !in w.users && c.hashToken(token) !in w.tokens
        case RequestReset(_, _, token) => c.hashToken(token) !in w.tokens
        case OpenSession(_, _, _, sid, rtid) => FreshSession(w, sid) && FreshTokenId(w, rtid)
        case SsoLogin(_, newUser, sid, rtid) =>
          newUser !in w.users && FreshSession(w, sid) && FreshTokenId(w, rtid)
        case Refresh(payload, verified, rtid) => (verified ==> payload in w.issued) && FreshTokenId(w, rtid)
        case VerifyMfa(_, _, _, sid) => FreshSession(w, sid)
        case _ => true)
  }
}
