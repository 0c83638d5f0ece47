// What auth.service.ts decides about accounts, in terms of the tables alone: who is invited,
// signed in or given a new password, what that writes, and where accounts, passwords and
// secrets come from.
module AuthAccountDecisions {
  import opened Options
  import opened EmailText
  import opened AuthSessions
  import opened AuthUsers
  import opened AuthModel
  import opened AuthServices
  import opened AuthRuns
  import opened AuthAccountRuns

  /** The account of a tenant with this address. */
  ghost predicate Addressed(users: Users, tenantId: Id, email: string, id: Id) {
    id in users && users[id].tenantId == tenantId && users[id].email == Normalize(email)
  }

  /** The account linked to the identity that the provider asserts. */
  ghost predicate Identified(users: Users, x: SsoInput, id: Id) {
    && id in users && users[id].tenantId == x.tenantId
    && users[id].idpProvider == Some(x.provider) && users[id].externalId == Some(x.externalId)
  }

  ghost predicate Known(users: Users, tenantId: Id, email: string) {
    exists id :: Addressed(users, tenantId, email, id)
  }

  lemma AddressedIff(c: Config, users: Users, tenantId: Id, email: string, id: Id)
    requires AccountInv(c, users)
    ensures IdByEmail(users, tenantId, Normalize(email)) == Some(id) <==> Addressed(users, tenantId, email, id)
  {
    NormalizeStable(email);
    if id in users {
      NormalizeStable(users[id].email);
      if Addressed(users, tenantId, email, id) {
        EmailIdUnique(users, tenantId, Normalize(email), id);
      }
    }
  }

  lemma KnownIff(c: Config, users: Users, tenantId: Id, email: string)
    requires AccountInv(c, users)
    ensures Known(users, tenantId, email) <==> IdByEmail(users, tenantId, Normalize(email)).Some?
    ensures forall id :: Addressed(users, tenantId, email, id) <==>
                         IdByEmail(users, tenantId, Normalize(email)) == Some(id)
  {
    hide AccountInv;
    forall id
      ensures Addressed(users, tenantId, email, id) <==> IdByEmail(users, tenantId, Normalize(email)) == Some(id)
    {
      AddressedIff(c, users, tenantId, email, id);
    }
  }

  /** Twelve characters, with a small letter, a capital, a digit and something else. */
  predicate Strong(p: string) {
    && |p| >= 12
    && (exists x :: x in p && 'a' <= x <= 'z') && (exists x :: x in p && 'A' <= x <= 'Z')
    && (exists x :: x in p && '0' <= x <= '9')
    && (exists x :: x in p && !('a' <= x <= 'z' || 'A' <= x <= 'Z' || '0' <= x <= '9'))
  }

  lemma StrongIff(p: string)
    ensures PasswordPolicy(p) <==> Strong(p)
  {
    assert forall i :: 0 <= i < |p| ==> p[i] in p;
    if PasswordPolicy(p) {
      var i :| 0 <= i < |p| && 'a' <= p[i] <= 'z';
      var j :| 0 <= j < |p| && 'A' <= p[j] <= 'Z';
      var k :| 0 <= k < |p| && '0' <= p[k] <= '9';
      var n :|
        0 <= n < |p| && !('a' <= p[n] <= 'z') && !('A' <= p[n] <= 'Z') && !('0' <= p[n] <= '9');
      assert p[i] in p && p[j] in p && p[k] in p && p[n] in p;
    }
  }

  // ---------------------------------------------------------------- password logins

  /** A password login succeeds exactly for the account of the address, if that is ACTIVE and
      not linked to a provider and the password is right; and each refusal has its cause. */
  lemma LoginGrantedIff(c: Config, run: Run, i: nat, id: Id)
    requires IsRun(c, run) && AccountInv(c, run.worlds[0].users) && i < |run.calls| && run.calls[i].op.Login?
    ensures var users, now, r := run.worlds[i].users, run.calls[i].now, run.replies[i];
            var Login(tenantId, email, password) := run.calls[i].op;
            && (r == LoggedIn(id) <==>
                  && Addressed(users, tenantId, email, id) && users[id].status == ACTIVE
                  && users[id].idpProvider == None && c.compare(password, users[id].passwordHash))
            && (r.LoggedIn? || r.Denied?)
            && (Addressed(users, tenantId, email, id) ==>
                  && (r == Denied(TemporarilyLocked) <==>
                        users[id].lockedUntil != None && now < users[id].lockedUntil.value)
                  && (r == Denied(UseSso) <==> users[id].status == ACTIVE && users[id].idpProvider != None)
                  && (r == Denied(InvalidCredentials) <==>
                        && users[id].status == ACTIVE && users[id].idpProvider == None
                        && !c.compare(password, users[id].passwordHash)))
            && (!Known(users, tenantId, email) ==> r == Denied(InvalidCredentials))
  {
    AccountsAlwaysOk(c, run, i);
    var users, op := run.worlds[i].users, run.calls[i].op;
    KnownIff(c, users, op.tenantId, op.email);
    assert StepAt(c, run, i);
    if id in users {
      AccountFacts(c, users, id);
    }
  }

  // ---------------------------------------------------------------- invitations and resets

  /** Only an administrator's invitation, for a well-formed address without an account, creates
      one, and with it a token for 48 hours. */
  lemma InviteDecision(c: Config, run: Run, i: nat)
    requires IsRun(c, run) && AccountInv(c, run.worlds[0].users) && i < |run.calls| && run.calls[i].op.Invite?
    ensures var v, v', now := run.worlds[i], run.worlds[i + 1], run.calls[i].now;
            var Invite(isHrAdmin, tenantId, email, userId, hash, token) := run.calls[i].op;
            if isHrAdmin && ValidEmail(Normalize(email)) && !Known(v.users, tenantId, email) then
              && run.replies[i] == Invited(userId, token)
              && v'.users == v.users[userId := User(userId, tenantId, Normalize(email), hash, INVITED,
                                                    0, None, None, None, None)]
              && v'.tokens == v.tokens[c.hashToken(token) := Token(userId, SET_PASSWORD, now + 172800000, None)]
            else run.replies[i].Denied? && v'.users == v.users && v'.tokens == v.tokens
  {
    AccountsAlwaysOk(c, run, i);
    KnownIff(c, run.worlds[i].users, run.calls[i].op.tenantId, run.calls[i].op.email);
    NormalizeStable(run.calls[i].op.email);
    assert StepAt(c, run, i);
    hide AccountInv, ValidEmail, Addressed, Known, IdByEmail;
  }

  /** A reset request for an unknown address is answered like any other, but writes nothing. */
  lemma ResetRequestDecision(c: Config, run: Run, i: nat)
    requires IsRun(c, run) && AccountInv(c, run.worlds[0].users) && i < |run.calls| && run.calls[i].op.RequestReset?
    ensures var v, RequestReset(tenantId, email, token) := run.worlds[i], run.calls[i].op;
            && run.worlds[i + 1].users == v.users
            && run.replies[i] ==
               (if !ValidEmail(Normalize(email)) then Denied(InvalidEmail)
                else ResetRequested(if Known(v.users, tenantId, email) then Some(token) else None))
            && (run.replies[i] != ResetRequested(Some(token)) ==> run.worlds[i + 1].tokens == v.tokens)
  {
    AccountsAlwaysOk(c, run, i);
    KnownIff(c, run.worlds[i].users, run.calls[i].op.tenantId, run.calls[i].op.email);
    assert StepAt(c, run, i);
    hide AccountInv, ValidEmail, Addressed, Known, IdByEmail;
  }

  /** Otherwise it stores a token of that account for 48 hours. */
  lemma ResetRequestStores(c: Config, run: Run, i: nat, id: Id)
    requires IsRun(c, run) && AccountInv(c, run.worlds[0].users) && i < |run.calls| && run.calls[i].op.RequestReset?
    requires ValidEmail(Normalize(run.calls[i].op.email))
    requires Addressed(run.worlds[i].users, run.calls[i].op.tenantId, run.calls[i].op.email, id)
    ensures run.worlds[i + 1].tokens ==
            run.worlds[i].tokens[c.hashToken(run.calls[i].op.token) :=
                                 Token(id, PASSWORD_RESET, run.calls[i].now + 172800000, None)]
  {
    hide AccountInv, ValidEmail, Normalize, Addressed, IdByEmail;
    AccountsAlwaysOk(c, run, i);
    var v, op := run.worlds[i], run.calls[i].op;
    AddressedIff(c, v.users, op.tenantId, op.email, id);
    RequestResetStores(c, v.(now := run.calls[i].now), run.calls[i].now, op.tenantId, op.email, op.token, id);
    hide RequestResetStep;
    assert StepAt(c, run, i);
  }

  lemma RequestResetStores(c: Config, w: World, now: Time, tenantId: Id, email: string, token: string, id: Id)
    requires ValidEmail(Normalize(email)) && IdByEmail(w.users, tenantId, Normalize(email)) == Some(id)
    ensures RequestResetStep(c, w, now, tenantId, email, token).0.tokens ==
            w.tokens[c.hashToken(token) := Token(id, PASSWORD_RESET, now + 172800000, None)]
  {
    hide ValidEmail, IdByEmail;
  }

  /** A password is set exactly if it is strong and the token of either kind is stored, not
      consumed and not expired; that consumes the token. */
  lemma ConfirmDecision(c: Config, run: Run, i: nat)
    requires IsRun(c, run) && i < |run.calls| && run.calls[i].op.ConfirmReset?
    ensures var v, v', now := run.worlds[i], run.worlds[i + 1], run.calls[i].now;
            var ConfirmReset(token, password, hash) := run.calls[i].op;
            var h := c.hashToken(token);
            && (run.replies[i] == PasswordSet <==>
                  Strong(password) && h in v.tokens && v.tokens[h].consumedAt == None && now < v.tokens[h].expiresAt)
            && (run.replies[i] != PasswordSet ==>
                  run.replies[i].Denied? && v'.tokens == v.tokens && v'.users == v.users)
            && (run.replies[i] == PasswordSet ==>
                  v'.tokens == v.tokens[h := v.tokens[h].(consumedAt := Some(now))])
  {
    StrongIff(run.calls[i].op.password);
    hide PasswordPolicy;
    assert StepAt(c, run, i);
  }

  // ---------------------------------------------------------------- single sign-on

  lemma IdentifiedIff(c: Config, users: Users, x: SsoInput)
    requires AccountInv(c, users)
    ensures forall id :: Identified(users, x, id) <==>
                         IdByExternalId(users, x.tenantId, x.provider, x.externalId) == Some(id)
  {
    forall id
      ensures Identified(users, x, id) <==> IdByExternalId(users, x.tenantId, x.provider, x.externalId) == Some(id)
    {
      if Identified(users, x, id) {
        ExternalIdUnique(users, x.tenantId, x.provider, x.externalId, id);
      }
    }
  }

  /** How an identity resolves: to the account that has it; else the account of the address is
      linked to it, unless linked already; else, if the tenant provisions accounts, a new one
      is created. */
  ghost predicate SignsIn(users: Users, x: SsoInput, newUser: Id, users': Users, id: Id) {
    if exists k :: Identified(users, x, k) then Identified(users, x, id) && users' == users
    else if Known(users, x.tenantId, x.email) then
      && Addressed(users, x.tenantId, x.email, id) && users[id].idpProvider == None
      && users' == users[id := users[id].(idpProvider := Some(x.provider), externalId := Some(x.externalId))]
    else
      && x.jitProvisioning && id == newUser
      && users' == users[newUser := User(newUser, x.tenantId, Normalize(x.email), "SSO_ONLY_UNUSABLE_PASSWORD", ACTIVE,
                                         0, None, Some(x.provider), Some(x.externalId), None)]
  }

  /** An SSO login is granted exactly if its address is well formed and an account has the
      identity, or one without any identity has the address, or neither account exists and the
      tenant provisions accounts. Only in the last case an account is created. */
  lemma SsoGrantedIff(c: Config, run: Run, i: nat)
    requires IsRun(c, run) && AccountInv(c, run.worlds[0].users) && i < |run.calls| && run.calls[i].op.SsoLogin?
    ensures var users, r, x := run.worlds[i].users, run.replies[i], run.calls[i].op.input;
            && (r.Granted? <==>
                  && ValidEmail(Normalize(x.email))
                  && (|| (exists id :: Identified(users, x, id))
                      || (exists id :: Addressed(users, x.tenantId, x.email, id) && users[id].idpProvider == None)
                      || ((forall id :: !Identified(users, x, id) && !Addressed(users, x.tenantId, x.email, id)) &&
                          x.jitProvisioning)))
            && (r.Granted? ==>
                  && SignsIn(users, x, run.calls[i].op.newUser, run.worlds[i + 1].users, r.session.userId)
                  && r.session.tenantId == x.tenantId)
            && (!r.Granted? ==> r.Denied? && run.worlds[i + 1].users == users)
  {
    AccountsAlwaysOk(c, run, i);
    assert StepAt(c, run, i);
    SsoResolution(c, run.worlds[i].users, run.calls[i].op.input, run.calls[i].op.newUser);
    SsoReply(c, run.worlds[i], run.calls[i]);
  }

  lemma SsoReply(c: Config, w: World, call: Call)
    requires call.op.SsoLogin?
    ensures var (users', resolution) := ResolveSso(w.users, call.op.input, call.op.newUser);
            var (w', r) := Step(c, w, call);
            && w'.users == (if resolution.Resolved? then users' else w.users)
            && (r.Granted? <==> resolution.Resolved?) && (r.Denied? <==> resolution.Refused?)
            && (r.Granted? ==> r.session.userId == resolution.userId && r.session.tenantId == resolution.tenantId)
  {
  }

  ghost predicate Resolvable(users: Users, x: SsoInput) {
    && ValidEmail(Normalize(x.email))
    && (|| (exists id :: Identified(users, x, id))
        || (exists id :: Addressed(users, x.tenantId, x.email, id) && users[id].idpProvider == None)
        || ((forall id :: !Identified(users, x, id) && !Addressed(users, x.tenantId, x.email, id)) &&
            x.jitProvisioning))
  }

  ghost predicate ResolvesRightly(users: Users, x: SsoInput, newUser: Id) {
    var (users', resolution) := ResolveSso(users, x, newUser);
    && (resolution.Resolved? <==> Resolvable(users, x))
    && (resolution.Resolved? ==>
          SignsIn(users, x, newUser, users', resolution.userId) && resolution.tenantId == x.tenantId)
  }

  lemma SsoResolution(c: Config, users: Users, x: SsoInput, newUser: Id)
    requires AccountInv(c, users)
    ensures ResolvesRightly(users, x, newUser)
  {
    KnownIff(c, users, x.tenantId, x.email);
    IdentifiedIff(c, users, x);
    var known := IdByExternalId(users, x.tenantId, x.provider, x.externalId);
    var found := IdByEmail(users, x.tenantId, Normalize(x.email));
    hide AccountInv, ValidEmail, ResolvesRightly, IdByEmail, IdByExternalId;
    if known.Some? {
      FoundByIdentity(users, x, newUser, known.value);
    } else if found.Some? {
      PairedAt(c, users, found.value);
      FoundByAddress(users, x, newUser, found.value);
    } else {
      FoundNowhere(users, x, newUser);
    }
  }

  lemma FoundByIdentity(users: Users, x: SsoInput, newUser: Id, id: Id)
    requires IdByExternalId(users, x.tenantId, x.provider, x.externalId) == Some(id) && Identified(users, x, id)
    ensures ResolvesRightly(users, x, newUser)
  {
    hide ValidEmail, IdByEmail, IdByExternalId, Known;
  }

  lemma FoundByAddress(users: Users, x: SsoInput, newUser: Id, id: Id)
    requires IdByExternalId(users, x.tenantId, x.provider, x.externalId) == None
    requires forall k :: !Identified(users, x, k)
    requires IdByEmail(users, x.tenantId, Normalize(x.email)) == Some(id)
    requires forall k :: Addressed(users, x.tenantId, x.email, k) <==> k == id
    requires users[id].idpProvider.Some? <==> users[id].externalId.Some?
    ensures ResolvesRightly(users, x, newUser)
  {
    hide ValidEmail, IdByEmail, IdByExternalId;
    assert Addressed(users, x.tenantId, x.email, id) && !Identified(users, x, id);
  }

  lemma FoundNowhere(users: Users, x: SsoInput, newUser: Id)
    requires IdByExternalId(users, x.tenantId, x.provider, x.externalId) == None
    requires forall k :: !Identified(users, x, k)
    requires IdByEmail(users, x.tenantId, Normalize(x.email)) == None
    requires forall k :: !Addressed(users, x.tenantId, x.email, k)
    ensures ResolvesRightly(users, x, newUser)
  {
    hide ValidEmail, IdByEmail, IdByExternalId;
    NormalizeStable(x.email);
  }

  lemma PairedAt(c: Config, users: Users, id: Id)
    requires AccountInv(c, users) && id in users
    ensures users[id].idpProvider.Some? <==> users[id].externalId.Some?
  {
  }

  // ---------------------------------------------------------------- one account over a run

  /** The account whose password the call has set. */
  ghost predicate SetsPassword(c: Config, run: Run, i: nat, id: Id)
    requires WellShaped(run) && i < |run.calls|
  {
    && run.calls[i].op.ConfirmReset? && run.replies[i] == PasswordSet
    && var h := c.hashToken(run.calls[i].op.token);
       h in run.worlds[i].tokens && run.worlds[i].tokens[h].userId == id
  }

  /** What a call does to the password, the MFA secret and the identity of an account: the first
      changes with a reset, the second with `setupMfa`, the third with an SSO login. */
  lemma CredentialsStep(c: Config, run: Run, i: nat, id: Id)
    requires IsRun(c, run) && AccountInv(c, run.worlds[0].users) && i < |run.calls| && id in run.worlds[i].users
    ensures id in run.worlds[i + 1].users
    ensures var a, b, op, r := run.worlds[i].users[id], run.worlds[i + 1].users[id], run.calls[i].op, run.replies[i];
            && b.passwordHash == (if SetsPassword(c, run, i, id) then op.hash else a.passwordHash)
            && b.mfaSecret == (if op.SetupMfa? && op.actorId == id then Some(op.secret) else a.mfaSecret)
            && (if op.SsoLogin? && r.Granted? && r.session.userId == id
                then b.idpProvider == Some(op.input.provider) && b.externalId == Some(op.input.externalId)
                else b.idpProvider == a.idpProvider && b.externalId == a.externalId)
  {
    hide IsRun, AccountInv, Step, SignsIn;
    AccountsAlwaysOk(c, run, i);
    match run.calls[i].op
    case Invite(_, _, _, _, _, _) => InviteLeaves(c, run, i, id);
    case RequestReset(_, _, _) => ResetRequestDecision(c, run, i);
    case ConfirmReset(_, _, _) => ConfirmWrites(c, run, i, id);
    case Login(_, _, _) => LoginWrites(c, run, i, id);
    case SetupMfa(_, _) => SetupMfaWrites(c, run, i);
    case SsoLogin(_, _, _, _) => SsoWritesTo(c, run, i, id);
    case _ => SessionCallLeaves(c, run, i);
  }

  lemma InviteLeaves(c: Config, run: Run, i: nat, id: Id)
    requires IsRun(c, run) && AccountInv(c, run.worlds[0].users) && i < |run.calls| && run.calls[i].op.Invite?
    requires id in run.worlds[i].users
    ensures id in run.worlds[i + 1].users && run.worlds[i + 1].users[id] == run.worlds[i].users[id]
  {
    InviteDecision(c, run, i);
    assert StepAt(c, run, i);
  }

  lemma ConfirmWrites(c: Config, run: Run, i: nat, id: Id)
    requires IsRun(c, run) && i < |run.calls| && run.calls[i].op.ConfirmReset? && id in run.worlds[i].users
    ensures id in run.worlds[i + 1].users
    ensures run.worlds[i + 1].users[id] ==
            if SetsPassword(c, run, i, id)
            then run.worlds[i].users[id].(passwordHash := run.calls[i].op.hash, status := ACTIVE,
                                          failedLoginCount := 0, lockedUntil := None)
            else run.worlds[i].users[id]
  {
    ConfirmDecision(c, run, i);
    assert StepAt(c, run, i);
  }

  /** A password login writes nothing but the counter, the lock and the status of its account. */
  lemma LoginWrites(c: Config, run: Run, i: nat, id: Id)
    requires IsRun(c, run) && i < |run.calls| && run.calls[i].op.Login? && id in run.worlds[i].users
    ensures id in run.worlds[i + 1].users
    ensures var a, b := run.worlds[i].users[id], run.worlds[i + 1].users[id];
            b.(failedLoginCount := a.failedLoginCount, lockedUntil := a.lockedUntil, status := a.status) == a
  {
    assert StepAt(c, run, i);
    LoginLeaves(c, run.worlds[i].(now := run.calls[i].now), run.calls[i]);
    hide LoginStep;
  }

  lemma LoginLeaves(c: Config, w: World, call: Call)
    requires call.op.Login?
    ensures var users' := LoginStep(c, w, call.now, call.op.tenantId, call.op.email, call.op.password).0.users;
            && users'.Keys == w.users.Keys
            && forall id :: id in w.users ==>
                 var a, b := w.users[id], users'[id];
                 b.(failedLoginCount := a.failedLoginCount, lockedUntil := a.lockedUntil, status := a.status) == a
  {
    hide IdByEmail, StillLocked;
  }

  lemma SetupMfaWrites(c: Config, run: Run, i: nat)
    requires IsRun(c, run) && i < |run.calls| && run.calls[i].op.SetupMfa?
    ensures var users, SetupMfa(actorId, secret) := run.worlds[i].users, run.calls[i].op;
            if actorId in users then
              run.replies[i] == MfaSecretStored &&
              run.worlds[i + 1].users == users[actorId := users[actorId].(mfaSecret := Some(secret))]
            else run.replies[i] == Denied(UserGone) && run.worlds[i + 1].users == users
  {
    assert StepAt(c, run, i);
  }

  lemma SsoWritesTo(c: Config, run: Run, i: nat, id: Id)
    requires IsRun(c, run) && AccountInv(c, run.worlds[0].users) && i < |run.calls| && run.calls[i].op.SsoLogin?
    requires id in run.worlds[i].users
    ensures var a, x, r := run.worlds[i].users[id], run.calls[i].op.input, run.replies[i];
            && id in run.worlds[i + 1].users
            && run.worlds[i + 1].users[id] ==
               if r.Granted? && r.session.userId == id
               then a.(idpProvider := Some(x.provider), externalId := Some(x.externalId)) else a
  {
    SsoGrantedIff(c, run, i);
    assert StepAt(c, run, i);
  }

  lemma SessionCallLeaves(c: Config, run: Run, i: nat)
    requires IsRun(c, run) && i < |run.calls| && !AccountOp(run.calls[i].op) && !run.calls[i].op.SsoLogin?
    ensures run.worlds[i + 1].users == run.worlds[i].users && run.worlds[i + 1].tokens == run.worlds[i].tokens
    ensures run.replies[i] != PasswordSet
  {
    hide Step;
    assert StepAt(c, run, i);
    SessionStepsLeaveUsers(c, run.worlds[i], run.calls[i]);
  }

  /** Over any run a password hash that has changed is the one that the last reset of the
      account has set. */
  lemma {:induction false} PasswordHasCause(c: Config, run: Run, i: nat, j: nat, id: Id) returns (k: nat)
    requires IsRun(c, run) && AccountInv(c, run.worlds[0].users) && i <= j <= |run.calls|
    requires id in run.worlds[i].users && id in run.worlds[j].users
    requires run.worlds[j].users[id].passwordHash != run.worlds[i].users[id].passwordHash
    ensures i <= k < j && SetsPassword(c, run, k, id)
    ensures run.worlds[j].users[id].passwordHash == run.calls[k].op.hash
    ensures forall n :: k < n < j ==> !SetsPassword(c, run, n, id)
    decreases j
  {
    hide AccountInv, SetsPassword;
    assert i < j;
    IdentityWriteOnce(c, run, i, j - 1, id);
    CredentialsStep(c, run, j - 1, id);
    if SetsPassword(c, run, j - 1, id) {
      k := j - 1;
    } else {
      k := PasswordHasCause(c, run, i, j - 1, id);
    }
  }

  /** Over any run an MFA secret that has changed is the one that some `setupMfa` of the account
      itself has stored. */
  lemma {:induction false} SecretHasCause(c: Config, run: Run, i: nat, j: nat, id: Id) returns (k: nat)
    requires IsRun(c, run) && AccountInv(c, run.worlds[0].users) && i <= j <= |run.calls|
    requires id in run.worlds[i].users && id in run.worlds[j].users
    requires run.worlds[j].users[id].mfaSecret != run.worlds[i].users[id].mfaSecret
    ensures i <= k < j && run.calls[k].op.SetupMfa? && run.calls[k].op.actorId == id
    ensures run.worlds[j].users[id].mfaSecret == Some(run.calls[k].op.secret)
    decreases j
  {
    hide AccountInv, SetsPassword;
    assert i < j;
    IdentityWriteOnce(c, run, i, j - 1, id);
    CredentialsStep(c, run, j - 1, id);
    if run.calls[j - 1].op.SetupMfa? && run.calls[j - 1].op.actorId == id {
      k := j - 1;
    } else {
      k := SecretHasCause(c, run, i, j - 1, id);
    }
  }

  /** The call that creates an account: an invitation by an administrator, or an SSO login of a
      tenant that provisions accounts. */
  ghost predicate Creates(run: Run, k: nat, id: Id)
    requires WellShaped(run) && k < |run.calls|
  {
    match run.calls[k].op
    case Invite(isHrAdmin, tenantId, email, userId, _, token) =>
      && isHrAdmin && userId == id && run.replies[k] == Invited(id, token)
      && !Known(run.worlds[k].users, tenantId, email)
    case SsoLogin(x, newUser, _, _) =>
      && x.jitProvisioning && newUser == id && run.replies[k].Granted?
      && !Known(run.worlds[k].users, x.tenantId, x.email)
    case _ => false
  }

  lemma CreatesStep(c: Config, run: Run, i: nat, id: Id)
    requires IsRun(c, run) && AccountInv(c, run.worlds[0].users) && i < |run.calls|
    requires id in run.worlds[i + 1].users && id !in run.worlds[i].users
    ensures Creates(run, i, id)
  {
    hide IsRun, AccountInv, Step;
    match run.calls[i].op
    case Invite(_, _, _, _, _, _) => InviteDecision(c, run, i);
    case RequestReset(_, _, _) => ResetRequestDecision(c, run, i);
    case SsoLogin(_, _, _, _) => SsoGrantedIff(c, run, i);
    case SetupMfa(_, _) => SetupMfaWrites(c, run, i);
    case ConfirmReset(_, _, _) => OldAccountsOnly(c, run, i, id);
    case Login(_, _, _) => OldAccountsOnly(c, run, i, id);
    case _ => SessionCallLeaves(c, run, i);
  }

  lemma OldAccountsOnly(c: Config, run: Run, i: nat, id: Id)
    requires IsRun(c, run) && i < |run.calls| && (run.calls[i].op.ConfirmReset? || run.calls[i].op.Login?)
    ensures id in run.worlds[i + 1].users ==> id in run.worlds[i].users
  {
    assert StepAt(c, run, i);
    if run.calls[i].op.Login? {
      LoginLeaves(c, run.worlds[i].(now := run.calls[i].now), run.calls[i]);
      hide LoginStep;
    } else {
      hide PasswordPolicy;
    }
  }

  /** Every account that was not there at first was created so. */
  lemma {:induction false} AccountHasOrigin(c: Config, run: Run, j: nat, id: Id) returns (k: nat)
    requires IsRun(c, run) && AccountInv(c, run.worlds[0].users) && j <= |run.calls|
    requires id in run.worlds[j].users && id !in run.worlds[0].users
    ensures k < j && Creates(run, k, id)
    decreases j
  {
    hide AccountInv, Creates;
    if id in run.worlds[j - 1].users {
      k := AccountHasOrigin(c, run, j - 1, id);
    } else {
      k := j - 1;
      CreatesStep(c, run, k, id);
    }
  }

  // ---------------------------------------------------------------- one token over a run

  /** The call hands out a token for account `id`. */
  ghost predicate HandsOut(run: Run, i: nat, token: string, id: Id)
    requires WellShaped(run) && i < |run.calls|
  {
    match run.calls[i].op
    case Invite(_, _, _, userId, _, t) => t == token && run.replies[i] == Invited(id, token)
    case RequestReset(tenantId, email, t) =>
      && t == token && run.replies[i] == ResetRequested(Some(token))
      && Addressed(run.worlds[i].users, tenantId, email, id)
    case _ => false
  }

  ghost predicate Uses(c: Config, run: Run, k: nat, h: string)
    requires WellShaped(run) && k < |run.calls|
  {
    run.calls[k].op.ConfirmReset? && c.hashToken(run.calls[k].op.token) == h && run.replies[k] == PasswordSet
  }

  lemma HandedOutIsStored(c: Config, run: Run, i: nat, token: string, id: Id)
    requires IsRun(c, run) && AccountInv(c, run.worlds[0].users) && i < |run.calls| && HandsOut(run, i, token, id)
    ensures var tokens, h := run.worlds[i + 1].tokens, c.hashToken(token);
            && h in tokens && tokens[h].userId == id && tokens[h].consumedAt == None
            && tokens[h].expiresAt == run.calls[i].now + 172800000
  {
    hide IsRun, AccountInv, Step;
    if run.calls[i].op.Invite? {
      InviteDecision(c, run, i);
    } else {
      ResetRequestDecision(c, run, i);
      ResetRequestStores(c, run, i, id);
    }
  }

  /** A stored token only changes by being used. */
  lemma TokenStep(c: Config, run: Run, i: nat, h: string)
    requires IsRun(c, run) && AccountInv(c, run.worlds[0].users) && i < |run.calls| && h in run.worlds[i].tokens
    ensures h in run.worlds[i + 1].tokens
    ensures run.worlds[i + 1].tokens[h] ==
            if Uses(c, run, i, h) then run.worlds[i].tokens[h].(consumedAt := Some(run.calls[i].now))
            else run.worlds[i].tokens[h]
  {
    hide AccountInv;
    assert StepAt(c, run, i);
    hide IsRun, Step;
    match run.calls[i].op
    case Invite(_, _, _, _, _, _) => InviteDecision(c, run, i);
    case RequestReset(_, _, _) => ResetRequestTokens(c, run, i, h);
    case ConfirmReset(_, _, _) => ConfirmDecision(c, run, i);
    case SsoLogin(_, _, _, _) => OtherTokens(c, run, i);
    case Login(_, _, _) => OtherTokens(c, run, i);
    case SetupMfa(_, _) => OtherTokens(c, run, i);
    case _ => SessionCallLeaves(c, run, i);
  }

  lemma ResetRequestTokens(c: Config, run: Run, i: nat, h: string)
    requires IsRun(c, run) && i < |run.calls| && run.calls[i].op.RequestReset? && h in run.worlds[i].tokens
    ensures h in run.worlds[i + 1].tokens && run.worlds[i + 1].tokens[h] == run.worlds[i].tokens[h]
  {
    assert StepAt(c, run, i);
  }

  lemma OtherTokens(c: Config, run: Run, i: nat)
    requires IsRun(c, run) && i < |run.calls|
    requires run.calls[i].op.SsoLogin? || run.calls[i].op.Login? || run.calls[i].op.SetupMfa?
    ensures run.worlds[i + 1].tokens == run.worlds[i].tokens
  {
    assert StepAt(c, run, i);
    if run.calls[i].op.SsoLogin? {
      hide Step;
      SsoUsers(c, run.worlds[i], run.calls[i]);
    } else {
      AccountTokens(c, run.worlds[i].(now := run.calls[i].now), run.calls[i]);
      hide LoginStep, SetupMfaStep;
    }
  }

  ghost predicate UnusedBetween(c: Config, run: Run, i: nat, j: nat, h: string)
    requires WellShaped(run) && j <= |run.calls|
  {
    forall k :: i <= k < j ==> !Uses(c, run, k, h)
  }

  lemma {:induction false} TokenStays(c: Config, run: Run, i: nat, j: nat, h: string)
    requires IsRun(c, run) && AccountInv(c, run.worlds[0].users) && i <= j <= |run.calls| && h in run.worlds[i].tokens
    ensures h in run.worlds[j].tokens
    ensures var a, b := run.worlds[i].tokens[h], run.worlds[j].tokens[h];
            && b.(consumedAt := a.consumedAt) == a
            && (a.consumedAt == None ==> (b.consumedAt == None <==> UnusedBetween(c, run, i, j, h)))
    decreases j
  {
    hide AccountInv, Uses;
    if i < j {
      TokenStays(c, run, i, j - 1, h);
      TokenStep(c, run, j - 1, h);
    }
  }

  /** The token that an invitation or a reset request hands out sets the password of its account
      at a later call exactly if the password is strong, 48 hours have not passed, and the
      token has not set one before. */
  lemma TokenUsableIff(c: Config, run: Run, i: nat, j: nat, token: string, id: Id)
    requires IsRun(c, run) && AccountInv(c, run.worlds[0].users) && i < j < |run.calls|
    requires HandsOut(run, i, token, id) && run.calls[j].op.ConfirmReset? && run.calls[j].op.token == token
    ensures run.replies[j] == PasswordSet <==>
              && Strong(run.calls[j].op.password) && run.calls[j].now < run.calls[i].now + 172800000
              && UnusedBetween(c, run, i + 1, j, c.hashToken(token))
    ensures run.replies[j] == PasswordSet ==> SetsPassword(c, run, j, id)
  {
    hide AccountInv, HandsOut, UnusedBetween, Strong;
    HandedOutIsStored(c, run, i, token, id);
    TokenStays(c, run, i + 1, j, c.hashToken(token));
    ConfirmDecision(c, run, j);
  }
}
