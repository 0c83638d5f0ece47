// auth.service.ts: the service itself, over its three stores. Every method is proved equal
// to its step of AuthModel.
module AuthServices {
  import opened Options
  import opened EmailText
  import opened AuthSessions
  import opened AuthUsers
  import opened AuthModel

  /** Stored addresses are normalized, so the database index and the lookups use one key. */
  ghost predicate EmailsNormalized(users: Users) {
    forall id :: id in users ==> users[id].email == Normalize(users[id].email)
  }

  lemma NewUserAdmitted(users: Users, u: User)
    requires u.id !in users && u.email == Normalize(u.email)
    requires IdByEmail(users, u.tenantId, u.email).None?
    requires u.idpProvider.Some? && u.externalId.Some? ==>
               IdByExternalId(users, u.tenantId, u.idpProvider.value, u.externalId.value).None?
    ensures IndexesAdmit(users, u)
  {
    NormalizeStable(u.email);
    forall i | i in users && i != u.id
      ensures !SameEmail(users[i], u) && !SameIdentity(users[i], u)
    {
      assert !HasEmail(users, u.tenantId, Normalize(u.email), i);
      if u.idpProvider.Some? && u.externalId.Some? {
        assert !HasExternalId(users, u.tenantId, u.idpProvider.value, u.externalId.value, i);
      }
    }
  }

  lemma LinkAdmitted(users: Users, id: Id, idp: Provider, externalId: string)
    requires KeysUnique(users) && id in users
    requires IdByExternalId(users, users[id].tenantId, idp, externalId).None?
    ensures IndexesAdmit(users, users[id].(idpProvider := Some(idp), externalId := Some(externalId)))
  {
    var linked := users[id].(idpProvider := Some(idp), externalId := Some(externalId));
    forall i | i in users && i != id
      ensures !SameEmail(users[i], linked) && !SameIdentity(users[i], linked)
    {
      assert !HasExternalId(users, users[id].tenantId, idp, externalId, i);
      assert !SameEmail(users[i], users[id]);
    }
  }

  class AuthService {
    const config: Config
    const users: UsersRepository
    const tokens: AuthTokenRepository
    const sessions: AuthSessionStore
    ghost var issued: set<RefreshPayload>
    ghost var clock: Time

    ghost function View(): World
      reads this, users, tokens, sessions
    {
      World(users.rows, tokens.rows, sessions.View(), issued, clock)
    }

    ghost predicate Valid()
      reads this, users
    {
      KeysUnique(users.rows)
    }

    constructor (config: Config)
      ensures Valid() && fresh(users) && fresh(tokens) && fresh(sessions) && this.config == config
      ensures View() == World(map[], map[], StoreState(map[], map[]), {}, 0)
    {
      this.config := config;
      users := new UsersRepository();
      tokens := new AuthTokenRepository();
      sessions := new AuthSessionStore();
      issued, clock := {}, 0;
    }

    method Invite(isHrAdmin: bool, tenantId: Id, email: string, now: Time, userId: Id, hash: string, token: string)
      returns (r: Reply)
      requires Valid() && userId !in users.rows && config.hashToken(token) !in tokens.rows
      modifies this, users, tokens
      ensures Valid()
      ensures (View(), r) ==
              Step(config, old(View()), Call(now, Op.Invite(isHrAdmin, tenantId, email, userId, hash, token)))
    {
      clock := now;
      if !isHrAdmin {
        return Denied(NotHrAdmin);
      }
      var address := Normalize(email);
      if !ValidEmail(address) {
        return Denied(InvalidEmail);
      }
      NormalizeStable(email);
      var existing := users.FindByEmail(tenantId, address);
      if existing.Some? {
        return Denied(EmailTaken);
      }
      var user := NewUser(userId, tenantId, address, hash, INVITED);
      NewUserAdmitted(users.rows, user);
      var write := users.Create(user);
      var ok := tokens.Create(config.hashToken(token), Token(userId, SET_PASSWORD, now + TOKEN_TTL, None));
      return Invited(userId, token);
    }

    method RequestPasswordReset(tenantId: Id, email: string, now: Time, token: string) returns (r: Reply)
      requires Valid() && config.hashToken(token) !in tokens.rows
      modifies this, tokens
      ensures Valid()
      ensures (View(), r) == Step(config, old(View()), Call(now, RequestReset(tenantId, email, token)))
    {
      clock := now;
      var address := Normalize(email);
      if !ValidEmail(address) {
        return Denied(InvalidEmail);
      }
      var user := users.FindByEmail(tenantId, address);
      if user.None? {
        return ResetRequested(None);
      }
      var ok := tokens.Create(config.hashToken(token), Token(user.value.id, PASSWORD_RESET, now + TOKEN_TTL, None));
      return ResetRequested(Some(token));
    }

    method ConfirmPasswordReset(token: string, password: string, now: Time, hash: string) returns (r: Reply)
      requires Valid()
      modifies this, users, tokens
      ensures Valid()
      ensures (View(), r) == Step(config, old(View()), Call(now, ConfirmReset(token, password, hash)))
    {
      clock := now;
      if !PasswordPolicy(password) {
        return Denied(WeakPassword);
      }
      var record := tokens.FindActiveByHash(config.hashToken(token), PASSWORD_RESET, now);
      if record.None? {
        record := tokens.FindActiveByHash(config.hashToken(token), SET_PASSWORD, now);
      }
      if record.None? {
        return Denied(InvalidToken);
      }
      users.UpdatePassword(record.value.userId, hash, ACTIVE);
      tokens.Consume(config.hashToken(token), now);
      return PasswordSet;
    }

    method ValidateCredentials(email: string, password: string, tenantId: Id, now: Time) returns (r: Reply)
      requires Valid()
      modifies this, users
      ensures Valid()
      ensures (View(), r) == Step(config, old(View()), Call(now, Login(tenantId, email, password)))
    {
      clock := now;
      var found := users.FindByEmail(tenantId, Normalize(email));
      if found.None? {
        return Denied(InvalidCredentials);
      }
      var user := found.value;
      if user.lockedUntil.Some? && user.lockedUntil.value > now {
        return Denied(TemporarilyLocked);
      }
      if user.status != ACTIVE {
        return Denied(NotActive);
      }
      if user.idpProvider.Some? {
        return Denied(UseSso);
      }
      if !config.compare(password, user.passwordHash) {
        RecordFailedLogin(user, now);
        return Denied(InvalidCredentials);
      }
      if user.failedLoginCount > 0 || user.lockedUntil.Some? {
        users.ResetFailedLoginState(user.id);
      }
      return LoggedIn(user.id);
    }

    method RecordFailedLogin(user: User, now: Time)
      requires Valid() && user.id in users.rows && users.rows[user.id] == user
      modifies users
      ensures Valid()
      ensures users.rows == old(users.rows)[user.id := AfterFailedLogin(config, user, now)]
    {
      var count := user.failedLoginCount + 1;
      var lockedUntil := if count >= config.loginMaxAttempts then Some(now + config.lockoutMs) else None;
      users.RecordFailedLogin(user.id, count, lockedUntil);
    }

    method SetupMfa(actorId: Id, secret: string, now: Time) returns (r: Reply)
      requires Valid()
      modifies this, users
      ensures Valid()
      ensures (View(), r) == Step(config, old(View()), Call(now, Op.SetupMfa(actorId, secret)))
    {
      clock := now;
      var user := users.FindById(actorId);
      if user.None? {
        return Denied(UserGone);
      }
      users.UpdateMfaSecret(user.value.id, secret);
      return MfaSecretStored;
    }

    method CreateSession(userId: Id, tenantId: Id, mfa: Option<bool>, now: Time, sid: Id, rtid: Id) returns (r: Reply)
      requires Valid()
      modifies this, sessions
      ensures Valid()
      ensures (View(), r) == OpenStep(config, old(View()).(now := now), now, userId, tenantId, mfa, sid, rtid)
    {
      clock := now;
      var stepped := match mfa case Some(m) => m case None => !config.mfaRequired;
      var session := Session(sid, userId, tenantId, now, now + config.refreshTtl, stepped, Some(rtid));
      sessions.Create(session, now);
      var token := GenerateRefreshToken(userId, tenantId, session);
      return Granted(session, token);
    }

    method GenerateRefreshToken(userId: Id, tenantId: Id, session: Session) returns (token: RefreshPayload)
      modifies this`issued
      ensures token == TokenFor(userId, tenantId, session)
      ensures issued == old(issued) + {token}
    {
      token := RefreshPayload(userId, tenantId, session.sessionId, session.refreshTokenId);
      issued := issued + {token};
    }

    method CreateSessionForSsoUser(i: SsoInput, now: Time, newUser: Id, sid: Id, rtid: Id) returns (r: Reply)
      requires Valid() && newUser !in users.rows
      modifies this, users, sessions
      ensures Valid()
      ensures (View(), r) == Step(config, old(View()), Call(now, SsoLogin(i, newUser, sid, rtid)))
    {
      clock := now;
      var user := ResolveSsoUser(i, newUser);
      match user
      case Refused(reason) => r := Denied(reason);
      case Resolved(userId, tenantId) =>
        var mfa := Some(match i.mfaAuthenticated case Some(m) => m case None => true);
        r := CreateSession(userId, tenantId, mfa, now, sid, rtid);
    }

    /** The part of createSessionForSsoUser before the session is opened. */
    method ResolveSsoUser(i: SsoInput, newUser: Id) returns (r: Resolution)
      requires Valid() && newUser !in users.rows
      modifies users
      ensures Valid()
      ensures (users.rows, r) == ResolveSso(old(users.rows), i, newUser)
    {
      var email := Normalize(i.email);
      if !ValidEmail(email) {
        return Refused(InvalidEmail);
      }
      NormalizeStable(i.email);
      var existing := users.FindByExternalId(i.tenantId, i.provider, i.externalId);
      if existing.Some? {
        return Resolved(existing.value.id, existing.value.tenantId);
      }
      var byEmail := users.FindByEmail(i.tenantId, email);
      if byEmail.Some? {
        var user := byEmail.value;
        if user.idpProvider.Some? && (user.idpProvider != Some(i.provider) || user.externalId != Some(i.externalId)) {
          return Refused(LinkedElsewhere);
        }
        LinkAdmitted(users.rows, user.id, i.provider, i.externalId);
        var linked := users.LinkIdentityProvider(user.id, i.provider, i.externalId);
        return Resolved(linked.user.id, linked.user.tenantId);
      }
      if !i.jitProvisioning {
        return Refused(NoLocalAccount);
      }
      NewUserAdmitted(users.rows, SsoUser(i, newUser));
      var created := users.Create(SsoUser(i, newUser));
      return Resolved(created.user.id, created.user.tenantId);
    }

    method RefreshSession(p: RefreshPayload, verified: bool, now: Time, rtid: Id) returns (r: Reply)
      requires Valid()
      modifies this, sessions
      ensures Valid()
      ensures (View(), r) == Step(config, old(View()), Call(now, Refresh(p, verified, rtid)))
    {
      clock := now;
      if !verified {
        return Denied(InvalidRefreshToken);
      }
      var found := sessions.Get(p.sessionId, now);
      if found.None? || found.value.userId != p.sub || found.value.tenantId != p.tenantId {
        return Denied(InvalidRefreshSession);
      }
      var session := found.value;
      if session.expiresAt <= now {
        sessions.Revoke(session.sessionId, now);
        return Denied(SessionExpired);
      }
      if session.refreshTokenId.Some? && p.rtid != session.refreshTokenId {
        sessions.Revoke(session.sessionId, now);
        return Denied(TokenReuse);
      }
      var user := users.FindById(session.userId);
      if user.None? || user.value.status != ACTIVE ||
         (user.value.lockedUntil.Some? && user.value.lockedUntil.value > now)
      {
        sessions.Revoke(session.sessionId, now);
        return Denied(NotActive);
      }
      var rotated := session.(expiresAt := now + config.refreshTtl, refreshTokenId := Some(rtid));
      sessions.Save(rotated, now);
      var token := GenerateRefreshToken(user.value.id, user.value.tenantId, rotated);
      return Granted(rotated, token);
    }

    method RevokeSession(sessionId: Option<Id>, now: Time) returns (r: Reply)
      requires Valid()
      modifies this, sessions
      ensures Valid()
      ensures (View(), r) == Step(config, old(View()), Call(now, Op.Revoke(sessionId)))
    {
      clock := now;
      if sessionId.Some? {
        sessions.Revoke(sessionId.value, now);
      }
      return Done;
    }

    method VerifyMfa(actorId: Id, sessionId: Option<Id>, codeValid: bool, now: Time, sid: Id) returns (r: Reply)
      requires Valid()
      modifies this, sessions
      ensures Valid()
      ensures (View(), r) == Step(config, old(View()), Call(now, Op.VerifyMfa(actorId, sessionId, codeValid, sid)))
    {
      clock := now;
      var stored := users.FindById(actorId);
      if stored.None? || stored.value.mfaSecret.None? {
        return Denied(MfaNotConfigured);
      }
      if !codeValid {
        return Denied(InvalidMfaCode);
      }
      var existing := None;
      if sessionId.Some? {
        existing := sessions.Get(sessionId.value, now);
      }
      var session;
      if existing.Some? {
        session := existing.value.(mfaAuthenticated := true);
        sessions.Save(session, now);
      } else {
        session := Session(sid, stored.value.id, stored.value.tenantId, now, now + config.refreshTtl, true, None);
        sessions.Create(session, now);
      }
      var token := GenerateRefreshToken(stored.value.id, stored.value.tenantId, session);
      return Granted(session, token);
    }
  }
}
