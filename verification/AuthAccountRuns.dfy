// Accounts over whole runs of auth.service.ts: unique and write-once SSO identities, the
// lockout counter, and one-time reset tokens.
module AuthAccountRuns {
  import opened Options
  import opened EmailText
  import opened AuthSessions
  import opened AuthUsers
  import opened AuthModel
  import opened AuthServices
  import opened AuthRuns

  // ---------------------------------------------------------------- the account invariant

  /** A provider and an external id come together. */
  ghost predicate IdentityPaired(users: Users) {
    forall id :: id in users ==> (users[id].idpProvider.Some? <==> users[id].externalId.Some?)
  }

  predicate LockoutOk(c: Config, u: User) {
    && (u.status == ACTIVE ==> 0 <= u.failedLoginCount < c.loginMaxAttempts && u.lockedUntil.None?)
    && (u.status == LOCKED ==> u.failedLoginCount == c.loginMaxAttempts && u.lockedUntil.Some?)
  }

  ghost predicate AccountInv(c: Config, users: Users) {
    && c.loginMaxAttempts >= 1 // app.config.ts reads it within 1..20
    && KeysUnique(users) && EmailsNormalized(users) && IdentityPaired(users)
    && forall id :: id in users ==> LockoutOk(c, users[id])
  }

  lemma EmptyIsOk(c: Config)
    requires c.loginMaxAttempts >= 1
    ensures AccountInv(c, EMPTY.users)
  {
  }

  /** What one step may do to an account: a linked identity is never rewritten. */
  predicate UserEvolves(a: User, b: User) {
    && b.id == a.id && b.tenantId == a.tenantId && b.email == a.email
    && (a.idpProvider.Some? ==> b.idpProvider == a.idpProvider && b.externalId == a.externalId)
  }

  ghost predicate UsersEvolve(users: Users, users': Users) {
    forall id :: id in users ==> id in users' && UserEvolves(users[id], users'[id])
  }

  lemma ReplaceKeeps(c: Config, users: Users, id: Id, u: User)
    requires AccountInv(c, users) && id in users
    requires u.id == id && u.tenantId == users[id].tenantId && u.email == users[id].email
    requires u.idpProvider == users[id].idpProvider && u.externalId == users[id].externalId
    requires LockoutOk(c, u)
    ensures AccountInv(c, users[id := u]) && UsersEvolve(users, users[id := u])
  {
    UpdateKeepsKeysUnique(users, u);
  }

  lemma CreateKeeps(c: Config, users: Users, u: User)
    requires AccountInv(c, users) && u.id !in users && u.email == Normalize(u.email)
    requires IdByEmail(users, u.tenantId, u.email).None?
    requires u.idpProvider.Some? <==> u.externalId.Some?
    requires u.idpProvider.Some? ==>
               IdByExternalId(users, u.tenantId, u.idpProvider.value, u.externalId.value).None?
    requires LockoutOk(c, u)
    ensures AccountInv(c, users[u.id := u]) && UsersEvolve(users, users[u.id := u])
  {
    NewUserAdmitted(users, u);
    StoreKeepsKeysUnique(users, u);
  }

  lemma InviteKeeps(c: Config, w: World, now: Time, isHrAdmin: bool, tenantId: Id, email: string,
                    userId: Id, hash: string, token: string)
    requires AccountInv(c, w.users) && userId !in w.users
    ensures var w' := InviteStep(c, w, now, isHrAdmin, tenantId, email, userId, hash, token).0;
            AccountInv(c, w'.users) && UsersEvolve(w.users, w'.users)
  {
    NormalizeStable(email);
    if IdByEmail(w.users, tenantId, Normalize(email)).None? {
      CreateKeeps(c, w.users, NewUser(userId, tenantId, Normalize(email), hash, INVITED));
    }
  }

  lemma ConfirmKeeps(c: Config, w: World, now: Time, token: string, password: string, hash: string)
    requires AccountInv(c, w.users)
    ensures var w' := ConfirmResetStep(c, w, now, token, password, hash).0;
            AccountInv(c, w'.users) && UsersEvolve(w.users, w'.users)
  {
    if Active(w.tokens, c.hashToken(token), now) {
      var id := w.tokens[c.hashToken(token)].userId;
      if id in w.users {
        ReplaceKeeps(c, w.users, id, WithPassword(w.users[id], hash, ACTIVE));
      }
    }
  }

  lemma AccountFacts(c: Config, users: Users, id: Id)
    requires AccountInv(c, users) && id in users
    ensures users[id].id == id && LockoutOk(c, users[id]) && c.loginMaxAttempts >= 1
  {
  }

  lemma LimitPositive(c: Config, users: Users)
    requires AccountInv(c, users)
    ensures c.loginMaxAttempts >= 1
  {
  }

  lemma LoginKeeps(c: Config, w: World, now: Time, tenantId: Id, email: string, password: string)
    requires AccountInv(c, w.users)
    ensures var w' := LoginStep(c, w, now, tenantId, email, password).0;
            AccountInv(c, w'.users) && UsersEvolve(w.users, w'.users)
  {
    hide AccountInv, UsersEvolve;
    SameKeeps(c, w.users);
    var found := IdByEmail(w.users, tenantId, Normalize(email));
    if found.Some? && w.users[found.value].status == ACTIVE {
      AccountFacts(c, w.users, found.value);
      ReplaceKeeps(c, w.users, found.value, AfterFailedLogin(c, w.users[found.value], now));
      ReplaceKeeps(c, w.users, found.value, Cleared(w.users[found.value]));
    }
  }

  lemma ResolveKeeps(c: Config, users: Users, i: SsoInput, newUser: Id)
    requires AccountInv(c, users) && newUser !in users
    ensures var (users', r) := ResolveSso(users, i, newUser);
            AccountInv(c, users') && UsersEvolve(users, users') &&
            (r.Resolved? ==> HasExternalId(users', i.tenantId, i.provider, i.externalId, r.userId))
  {
    hide AccountInv, UsersEvolve;
    SameKeeps(c, users);
    NormalizeStable(i.email);
    if IdByExternalId(users, i.tenantId, i.provider, i.externalId).None? {
      var found := IdByEmail(users, i.tenantId, Normalize(i.email));
      if found.Some? {
        if !(users[found.value].idpProvider.Some? &&
             (users[found.value].idpProvider != Some(i.provider) ||
              users[found.value].externalId != Some(i.externalId)))
        {
          LinkKeeps(c, users, i, found.value);
        }
      } else {
        LimitPositive(c, users);
        CreateKeeps(c, users, SsoUser(i, newUser));
      }
    }
  }

  /** An account found by e-mail but not by its external id is linked only if it had no
      identity before. */
  lemma LinkKeeps(c: Config, users: Users, i: SsoInput, id: Id)
    requires AccountInv(c, users) && id in users && users[id].tenantId == i.tenantId
    requires IdByExternalId(users, i.tenantId, i.provider, i.externalId).None?
    requires !(users[id].idpProvider.Some? &&
               (users[id].idpProvider != Some(i.provider) || users[id].externalId != Some(i.externalId)))
    ensures var users' := users[id := users[id].(idpProvider := Some(i.provider), externalId := Some(i.externalId))];
            AccountInv(c, users') && UsersEvolve(users, users') &&
            HasExternalId(users', i.tenantId, i.provider, i.externalId, id)
  {
    assert !HasExternalId(users, i.tenantId, i.provider, i.externalId, id);
    LinkAdmitted(users, id, i.provider, i.externalId);
    StoreKeepsKeysUnique(users, users[id].(idpProvider := Some(i.provider), externalId := Some(i.externalId)));
  }

  lemma SessionStepsLeaveUsers(c: Config, w: World, call: Call)
    requires !AccountOp(call.op) && !call.op.SsoLogin?
    ensures Step(c, w, call).0.users == w.users && Step(c, w, call).0.tokens == w.tokens
    ensures !Step(c, w, call).1.LoggedIn? && !Step(c, w, call).1.PasswordSet?
  {
  }

  lemma SsoUsers(c: Config, w: World, call: Call)
    requires call.op.SsoLogin?
    ensures var (users', r) := ResolveSso(w.users, call.op.input, call.op.newUser);
            var (w', reply) := Step(c, w, call);
            && w'.users == users' && w'.tokens == w.tokens && !reply.LoggedIn? && !reply.PasswordSet?
            && (r.Refused? ==> users' == w.users)
            && (reply.Granted? <==> r.Resolved?) && (reply.Granted? ==> reply.session.userId == r.userId)
  {
  }

  lemma StepKeepsAccounts(c: Config, w: World, call: Call)
    requires AccountInv(c, w.users) && Legal(c, w, call)
    ensures AccountInv(c, Step(c, w, call).0.users) && UsersEvolve(w.users, Step(c, w, call).0.users)
  {
    hide InviteStep, ConfirmResetStep, LoginStep, OpenStep, SsoStep, RefreshStep, VerifyMfaStep;
    hide AccountInv, UsersEvolve;
    var v := w.(now := call.now);
    match call.op
    case Invite(isHrAdmin, tenantId, email, userId, hash, token) =>
      InviteKeeps(c, v, call.now, isHrAdmin, tenantId, email, userId, hash, token);
    case RequestReset(tenantId, email, token) => SameKeeps(c, w.users);
    case ConfirmReset(token, password, hash) => ConfirmKeeps(c, v, call.now, token, password, hash);
    case Login(tenantId, email, password) => LoginKeeps(c, v, call.now, tenantId, email, password);
    case SetupMfa(actorId, secret) => SetupMfaKeeps(c, v, actorId, secret);
    case SsoLogin(i, newUser, sid, rtid) =>
      SsoUsers(c, w, call);
      ResolveKeeps(c, w.users, i, newUser);
    case _ =>
      SessionStepsLeaveUsers(c, w, call);
      SameKeeps(c, w.users);
  }

  lemma SameKeeps(c: Config, users: Users)
    requires AccountInv(c, users)
    ensures UsersEvolve(users, users)
  {
  }

  lemma SetupMfaKeeps(c: Config, w: World, actorId: Id, secret: string)
    requires AccountInv(c, w.users)
    ensures AccountInv(c, SetupMfaStep(w, actorId, secret).0.users)
    ensures UsersEvolve(w.users, SetupMfaStep(w, actorId, secret).0.users)
  {
    if actorId in w.users {
      ReplaceKeeps(c, w.users, actorId, w.users[actorId].(mfaSecret := Some(secret)));
    }
  }

  lemma {:induction false} AccountsAlwaysOk(c: Config, run: Run, i: nat)
    requires IsRun(c, run) && AccountInv(c, run.worlds[0].users) && i <= |run.calls|
    ensures AccountInv(c, run.worlds[i].users)
  {
    if i > 0 {
      AccountsAlwaysOk(c, run, i - 1);
      AccountStepOfRun(c, run, i - 1);
    }
  }

  /** Started on empty tables, every run keeps both invariants, so that all theorems about runs
      hold of it. */
  lemma EveryRunFromEmpty(c: Config, run: Run, i: nat)
    requires IsRun(c, run) && run.worlds[0] == EMPTY && c.loginMaxAttempts >= 1 && i <= |run.calls|
    ensures SessionInv(run.worlds[i]) && AccountInv(c, run.worlds[i].users)
  {
    EmptyIsCoherent();
    EmptyIsOk(c);
    CacheAlwaysCoherent(c, run, i);
    AccountsAlwaysOk(c, run, i);
  }

  lemma AccountStepOfRun(c: Config, run: Run, i: nat)
    requires IsRun(c, run) && i < |run.calls| && AccountInv(c, run.worlds[i].users)
    ensures AccountInv(c, run.worlds[i + 1].users) && UsersEvolve(run.worlds[i].users, run.worlds[i + 1].users)
  {
    assert StepAt(c, run, i);
    StepKeepsAccounts(c, run.worlds[i], run.calls[i]);
  }

  // ---------------------------------------------------------------- SSO identities

  /** In every reachable state two accounts of a tenant have different normalized addresses
      and different external identities. */
  lemma IdentitiesUnique(c: Config, run: Run, i: nat, a: Id, b: Id)
    requires IsRun(c, run) && AccountInv(c, run.worlds[0].users) && i <= |run.calls|
    requires var users := run.worlds[i].users;
             a in users && b in users && a != b && users[a].tenantId == users[b].tenantId
    ensures var users := run.worlds[i].users;
            && Normalize(users[a].email) != Normalize(users[b].email)
            && (users[a].idpProvider.Some? ==>
                  (users[a].idpProvider, users[a].externalId) != (users[b].idpProvider, users[b].externalId))
  {
    AccountsAlwaysOk(c, run, i);
    var users := run.worlds[i].users;
    NormalizeStable(users[a].email);
    NormalizeStable(users[b].email);
    assert !SameEmail(users[a], users[b]) && !SameIdentity(users[a], users[b]);
  }

  lemma {:induction false} IdentityWriteOnce(c: Config, run: Run, i: nat, j: nat, id: Id)
    requires IsRun(c, run) && AccountInv(c, run.worlds[0].users) && i <= j <= |run.calls|
    requires id in run.worlds[i].users
    ensures id in run.worlds[j].users
    ensures UserEvolves(run.worlds[i].users[id], run.worlds[j].users[id])
    decreases j
  {
    hide AccountInv, Step;
    if i < j {
      IdentityWriteOnce(c, run, i, j - 1, id);
      AccountsAlwaysOk(c, run, j - 1);
      AccountStepOfRun(c, run, j - 1);
    }
  }

  lemma SsoOutcome(c: Config, w: World, call: Call)
    requires AccountInv(c, w.users) && Legal(c, w, call) && call.op.SsoLogin?
    ensures var (w', r) := Step(c, w, call); var i := call.op.input;
            r.Granted? ==> HasExternalId(w'.users, i.tenantId, i.provider, i.externalId, r.session.userId)
    ensures var i := call.op.input;
            Step(c, w, call).1.Granted? ==>
              forall id :: HasExternalId(w.users, i.tenantId, i.provider, i.externalId, id) ==>
                Step(c, w, call).1.session.userId == id
  {
    hide Step;
    var i := call.op.input;
    SsoUsers(c, w, call);
    ResolveKeeps(c, w.users, i, call.op.newUser);
    forall id | HasExternalId(w.users, i.tenantId, i.provider, i.externalId, id) && Step(c, w, call).1.Granted?
      ensures Step(c, w, call).1.session.userId == id
    {
      var found := IdByExternalId(w.users, i.tenantId, i.provider, i.externalId);
      assert SameIdentity(w.users[found.value], w.users[id]);
    }
  }

  /** Equal SSO identities always sign in to the same account. */
  lemma SameIdentitySameAccount(c: Config, run: Run, i: nat, j: nat)
    requires IsRun(c, run) && AccountInv(c, run.worlds[0].users) && i < j < |run.calls|
    requires run.calls[i].op.SsoLogin? && run.calls[j].op.SsoLogin?
    requires var a, b := run.calls[i].op.input, run.calls[j].op.input;
             a.tenantId == b.tenantId && a.provider == b.provider && a.externalId == b.externalId
    requires run.replies[i].Granted? && run.replies[j].Granted?
    ensures run.replies[i].session.userId == run.replies[j].session.userId
  {
    SsoOutcomeOfRun(c, run, i);
    var id := run.replies[i].session.userId;
    IdentityWriteOnce(c, run, i + 1, j, id);
    var input := run.calls[i].op.input;
    assert HasExternalId(run.worlds[j].users, input.tenantId, input.provider, input.externalId, id);
    SsoOutcomeOfRun(c, run, j);
  }

  lemma SsoOutcomeOfRun(c: Config, run: Run, i: nat)
    requires IsRun(c, run) && AccountInv(c, run.worlds[0].users) && i < |run.calls| && run.calls[i].op.SsoLogin?
    requires run.replies[i].Granted?
    ensures var x := run.calls[i].op.input;
            && HasExternalId(run.worlds[i + 1].users, x.tenantId, x.provider, x.externalId,
                             run.replies[i].session.userId)
            && forall id :: HasExternalId(run.worlds[i].users, x.tenantId, x.provider, x.externalId, id) ==>
                 run.replies[i].session.userId == id
  {
    AccountsAlwaysOk(c, run, i);
    assert StepAt(c, run, i);
    SsoOutcome(c, run.worlds[i], run.calls[i]);
  }

  // ---------------------------------------------------------------- password logins

  /** The account whose password a call compares, if it gets that far. */
  ghost function Attempted(w: World, call: Call): Option<Id> {
    if !call.op.Login? then None
    else match IdByEmail(w.users, call.op.tenantId, Normalize(call.op.email))
      case None => None
      case Some(id) =>
        var u := w.users[id];
        if u.status == ACTIVE && u.idpProvider.None? && (u.lockedUntil.Some? ==> u.lockedUntil.value <= call.now)
        then Some(id) else None
  }

  ghost predicate RightPassword(c: Config, w: World, call: Call) {
    Attempted(w, call).Some? && c.compare(call.op.password, w.users[Attempted(w, call).value].passwordHash)
  }

  /** The account whose password a call replaces. */
  ghost function PasswordSetFor(c: Config, w: World, call: Call): Option<Id> {
    if call.op.ConfirmReset? && PasswordPolicy(call.op.password) &&
       Active(w.tokens, c.hashToken(call.op.token), call.now)
    then Some(w.tokens[c.hashToken(call.op.token)].userId)
    else None
  }

  /** A login succeeds exactly on the right password of an account it may try. */
  lemma LoginReply(c: Config, w: World, call: Call, id: Id)
    ensures Step(c, w, call).1 == LoggedIn(id) <==> Attempted(w, call) == Some(id) && RightPassword(c, w, call)
  {
    hide PasswordPolicy, NewUser, WithPassword, Active, Consumed, AfterFailedLogin, Cleared;
    if call.op.SsoLogin? {
      SsoUsers(c, w, call);
    } else if !AccountOp(call.op) {
      SessionStepsLeaveUsers(c, w, call);
    }
  }

  /** Once linked to an identity provider, an account never accepts a password again. */
  lemma PasswordRefusedForeverAfterLink(c: Config, run: Run, i: nat, j: nat, id: Id)
    requires IsRun(c, run) && AccountInv(c, run.worlds[0].users) && i <= j < |run.calls|
    requires id in run.worlds[i].users && run.worlds[i].users[id].idpProvider.Some?
    ensures run.replies[j] != LoggedIn(id)
  {
    IdentityWriteOnce(c, run, i, j, id);
    assert StepAt(c, run, j);
    LoginReply(c, run.worlds[j], run.calls[j], id);
  }

  function FailuresOf(users: Users, id: Id): int {
    if id in users then users[id].failedLoginCount else 0
  }

  /** The failure counter after a call. */
  ghost function NextFailures(c: Config, w: World, call: Call, id: Id): int {
    if Attempted(w, call) == Some(id) then (if RightPassword(c, w, call) then 0 else FailuresOf(w.users, id) + 1)
    else if PasswordSetFor(c, w, call) == Some(id) then 0
    else FailuresOf(w.users, id)
  }

  /** The status of an account after a call. */
  ghost function NextStatus(c: Config, w: World, call: Call, id: Id): Status
    requires id in w.users
  {
    if PasswordSetFor(c, w, call) == Some(id) then ACTIVE
    else if Attempted(w, call) == Some(id) && !RightPassword(c, w, call) &&
            w.users[id].failedLoginCount + 1 == c.loginMaxAttempts then LOCKED
    else w.users[id].status
  }

  ghost predicate CountersFollow(c: Config, w: World, call: Call, users': Users, id: Id) {
    && FailuresOf(users', id) == NextFailures(c, w, call, id)
    && (id in w.users ==>
          && id in users' && users'[id].status == NextStatus(c, w, call, id)
          && (users'[id].status == LOCKED && w.users[id].status != LOCKED ==>
                users'[id].lockedUntil == Some(call.now + c.lockoutMs)))
  }

  lemma LoginCounter(c: Config, w: World, call: Call, id: Id)
    requires AccountInv(c, w.users) && call.op.Login?
    ensures CountersFollow(c, w, call,
                           LoginStep(c, w, call.now, call.op.tenantId, call.op.email, call.op.password).0.users, id)
  {
    hide AccountInv, PasswordPolicy, Active, KeysUnique;
    var found := IdByEmail(w.users, call.op.tenantId, Normalize(call.op.email));
    if found.Some? {
      AccountFacts(c, w.users, found.value);
    }
  }

  lemma ConfirmCounter(c: Config, w: World, call: Call, id: Id)
    requires call.op.ConfirmReset?
    ensures CountersFollow(c, w, call,
                           ConfirmResetStep(c, w, call.now, call.op.token, call.op.password, call.op.hash).0.users, id)
  {
  }

  lemma SsoCounter(c: Config, w: World, call: Call, id: Id)
    requires call.op.SsoLogin? && call.op.newUser !in w.users
    ensures CountersFollow(c, w, call, ResolveSso(w.users, call.op.input, call.op.newUser).0, id)
  {
  }

  lemma InviteCounter(c: Config, w: World, call: Call, id: Id)
    requires call.op.Invite? && call.op.userId !in w.users
    ensures CountersFollow(c, w, call, InviteStep(c, w, call.now, call.op.isHrAdmin, call.op.tenantId, call.op.email,
                                                  call.op.userId, call.op.hash, call.op.token).0.users, id)
  {
  }

  /** One step of the failure counter and of the status of every account. */
  lemma CounterStep(c: Config, w: World, call: Call, id: Id)
    requires AccountInv(c, w.users) && Legal(c, w, call)
    ensures CountersFollow(c, w, call, Step(c, w, call).0.users, id)
  {
    hide AccountInv, CountersFollow, InviteStep, ConfirmResetStep, LoginStep, SetupMfaStep, RequestResetStep,
      OpenStep, SsoStep, RefreshStep, VerifyMfaStep, Attempted, PasswordSetFor;
    var v := w.(now := call.now);
    match call.op
    case Invite(_, _, _, _, _, _) =>
      InviteCounter(c, v, call, id);
      SameTables(c, w, v, call, id);
    case ConfirmReset(_, _, _) =>
      ConfirmCounter(c, v, call, id);
      SameTables(c, w, v, call, id);
    case Login(_, _, _) =>
      LoginCounter(c, v, call, id);
      SameTables(c, w, v, call, id);
    case SsoLogin(_, _, _, _) =>
      SsoUsers(c, w, call);
      SsoCounter(c, w, call, id);
    case _ => OtherCounter(c, w, call, id);
  }

  lemma SameTables(c: Config, w: World, v: World, call: Call, id: Id)
    requires w.users == v.users && w.tokens == v.tokens
    ensures forall users' :: CountersFollow(c, w, call, users', id) == CountersFollow(c, v, call, users', id)
  {
  }

  lemma OtherCounter(c: Config, w: World, call: Call, id: Id)
    requires !call.op.Invite? && !call.op.ConfirmReset? && !call.op.Login? && !call.op.SsoLogin?
    ensures CountersFollow(c, w, call, Step(c, w, call).0.users, id)
  {
    if !AccountOp(call.op) {
      hide Step;
      SessionStepsLeaveUsers(c, w, call);
    }
  }

  /** Wrong passwords in a row: compared and found wrong, since the last right password or
      password reset. */
  ghost function Streak(c: Config, run: Run, i: nat, id: Id): int
    requires WellShaped(run) && i <= |run.calls|
  {
    if i == 0 then FailuresOf(run.worlds[0].users, id)
    else
      var v, call := run.worlds[i - 1], run.calls[i - 1];
      if Attempted(v, call) == Some(id) then
        (if RightPassword(c, v, call) then 0 else Streak(c, run, i - 1, id) + 1)
      else if PasswordSetFor(c, v, call) == Some(id) then 0
      else Streak(c, run, i - 1, id)
  }

  /** The stored counter is the streak of wrong passwords, and an active account is always
      below the limit. */
  lemma {:induction false} CounterIsStreak(c: Config, run: Run, i: nat, id: Id)
    requires IsRun(c, run) && AccountInv(c, run.worlds[0].users) && i <= |run.calls|
    ensures FailuresOf(run.worlds[i].users, id) == Streak(c, run, i, id)
    ensures var users := run.worlds[i].users;
            id in users && users[id].status == ACTIVE ==> Streak(c, run, i, id) < c.loginMaxAttempts
  {
    hide AccountInv, Attempted, PasswordSetFor, RightPassword;
    AccountsAlwaysOk(c, run, i);
    if id in run.worlds[i].users {
      AccountFacts(c, run.worlds[i].users, id);
    }
    if i > 0 {
      CounterIsStreak(c, run, i - 1, id);
      CounterOfRun(c, run, i - 1, id);
    }
  }

  lemma CounterOfRun(c: Config, run: Run, i: nat, id: Id)
    requires IsRun(c, run) && AccountInv(c, run.worlds[0].users) && i < |run.calls|
    ensures CountersFollow(c, run.worlds[i], run.calls[i], run.worlds[i + 1].users, id)
    ensures run.replies[i] == LoggedIn(id) ==> Attempted(run.worlds[i], run.calls[i]) == Some(id)
  {
    AccountsAlwaysOk(c, run, i);
    assert StepAt(c, run, i);
    CounterStep(c, run.worlds[i], run.calls[i], id);
    LoginReply(c, run.worlds[i], run.calls[i], id);
  }

  /** An active account becomes locked exactly when its streak of wrong passwords reaches the
      limit. */
  lemma LocksExactlyAtLimit(c: Config, run: Run, i: nat, id: Id)
    requires IsRun(c, run) && AccountInv(c, run.worlds[0].users) && i < |run.calls|
    requires id in run.worlds[i].users && run.worlds[i].users[id].status == ACTIVE
    ensures id in run.worlds[i + 1].users
    ensures run.worlds[i + 1].users[id].status == LOCKED <==>
              Streak(c, run, i + 1, id) == c.loginMaxAttempts
    ensures run.worlds[i + 1].users[id].status == LOCKED ==>
              run.worlds[i + 1].users[id].lockedUntil == Some(run.calls[i].now + c.lockoutMs)
  {
    CounterIsStreak(c, run, i, id);
    CounterIsStreak(c, run, i + 1, id);
    AccountsAlwaysOk(c, run, i);
    AccountFacts(c, run.worlds[i].users, id);
    CounterOfRun(c, run, i, id);
  }

  ghost predicate NoResetBetween(c: Config, run: Run, i: nat, j: nat, id: Id)
    requires WellShaped(run) && j <= |run.calls|
  {
    forall k :: i <= k < j ==> PasswordSetFor(c, run.worlds[k], run.calls[k]) != Some(id)
  }

  /** A locked account stays locked, with the same count and accepting no password, however
      much time passes, until its password is reset. */
  lemma {:induction false} LockedUntilReset(c: Config, run: Run, i: nat, j: nat, id: Id)
    requires IsRun(c, run) && AccountInv(c, run.worlds[0].users) && i <= j <= |run.calls|
    requires id in run.worlds[i].users && run.worlds[i].users[id].status == LOCKED
    requires NoResetBetween(c, run, i, j, id)
    ensures id in run.worlds[j].users && run.worlds[j].users[id].status == LOCKED
    ensures run.worlds[j].users[id].failedLoginCount == c.loginMaxAttempts
    ensures j < |run.calls| ==> run.replies[j] != LoggedIn(id)
    decreases j
  {
    hide AccountInv, Attempted, PasswordSetFor;
    if i < j {
      LockedUntilReset(c, run, i, j - 1, id);
      CounterOfRun(c, run, j - 1, id);
      LockedNotAttempted(c, run.worlds[j - 1], run.calls[j - 1], id);
    }
    AccountsAlwaysOk(c, run, j);
    AccountFacts(c, run.worlds[j].users, id);
    if j < |run.calls| {
      CounterOfRun(c, run, j, id);
      LockedNotAttempted(c, run.worlds[j], run.calls[j], id);
    }
  }

  lemma LockedNotAttempted(c: Config, w: World, call: Call, id: Id)
    requires id in w.users && w.users[id].status == LOCKED
    ensures Attempted(w, call) != Some(id)
  {
  }

  /** The reset that ends it: active again, with no failures. */
  lemma ResetUnlocks(c: Config, w: World, call: Call, id: Id)
    requires AccountInv(c, w.users) && Legal(c, w, call) && id in w.users
    requires PasswordSetFor(c, w, call) == Some(id)
    ensures var w' := Step(c, w, call).0;
            Step(c, w, call).1 == PasswordSet && w'.users[id].status == ACTIVE &&
            w'.users[id].failedLoginCount == 0 && w'.users[id].passwordHash == call.op.hash
  {
  }

  // ---------------------------------------------------------------- one-time tokens

  ghost predicate Spent(w: World, hash: string) {
    hash in w.tokens && w.tokens[hash].consumedAt.Some?
  }

  lemma SpentStep(c: Config, w: World, call: Call, hash: string)
    requires Legal(c, w, call)
    ensures Spent(w, hash) ==> Spent(Step(c, w, call).0, hash)
    ensures Step(c, w, call).1 == PasswordSet ==>
              call.op.ConfirmReset? && !Spent(w, c.hashToken(call.op.token)) &&
              Spent(Step(c, w, call).0, c.hashToken(call.op.token))
  {
    hide InviteStep, LoginStep, SetupMfaStep, OpenStep, SsoStep, RefreshStep, VerifyMfaStep;
    match call.op
    case Invite(_, _, _, _, _, _) => InviteTokens(c, w.(now := call.now), call);
    case Login(_, _, _) => AccountTokens(c, w.(now := call.now), call);
    case SetupMfa(_, _) => AccountTokens(c, w.(now := call.now), call);
    case ConfirmReset(_, _, _) =>
    case RequestReset(_, _, _) =>
    case SsoLogin(_, _, _, _) => SsoUsers(c, w, call);
    case _ => SessionStepsLeaveUsers(c, w, call);
  }

  lemma InviteTokens(c: Config, w: World, call: Call)
    requires call.op.Invite? && c.hashToken(call.op.token) !in w.tokens
    ensures var (w', r) := InviteStep(c, w, call.now, call.op.isHrAdmin, call.op.tenantId, call.op.email,
                                      call.op.userId, call.op.hash, call.op.token);
            r != PasswordSet && forall hash :: Spent(w, hash) ==> Spent(w', hash)
  {
  }

  lemma AccountTokens(c: Config, w: World, call: Call)
    ensures call.op.Login? ==>
              var (w', r) := LoginStep(c, w, call.now, call.op.tenantId, call.op.email, call.op.password);
              r != PasswordSet && w'.tokens == w.tokens
    ensures call.op.SetupMfa? ==>
              var (w', r) := SetupMfaStep(w, call.op.actorId, call.op.secret);
              r != PasswordSet && w'.tokens == w.tokens
  {
  }

  lemma {:induction false} SpentStays(c: Config, run: Run, i: nat, j: nat, hash: string)
    requires IsRun(c, run) && i <= j <= |run.calls| && Spent(run.worlds[i], hash)
    ensures Spent(run.worlds[j], hash)
    decreases j
  {
    if i < j {
      SpentStays(c, run, i, j - 1, hash);
      SpentOfRun(c, run, j - 1, hash);
    }
  }

  lemma SpentOfRun(c: Config, run: Run, i: nat, hash: string)
    requires IsRun(c, run) && i < |run.calls|
    ensures Spent(run.worlds[i], hash) ==> Spent(run.worlds[i + 1], hash)
    ensures run.replies[i] == PasswordSet ==>
              run.calls[i].op.ConfirmReset? && !Spent(run.worlds[i], c.hashToken(run.calls[i].op.token)) &&
              Spent(run.worlds[i + 1], c.hashToken(run.calls[i].op.token))
  {
    assert StepAt(c, run, i);
    SpentStep(c, run.worlds[i], run.calls[i], hash);
  }

  /** A reset or set-password token changes a password at most once. */
  lemma ResetTokenSingleUse(c: Config, run: Run, i: nat, j: nat)
    requires IsRun(c, run) && i < j < |run.calls|
    requires run.calls[i].op.ConfirmReset? && run.calls[j].op.ConfirmReset?
    requires c.hashToken(run.calls[i].op.token) == c.hashToken(run.calls[j].op.token)
    ensures !(run.replies[i] == PasswordSet && run.replies[j] == PasswordSet)
  {
    var hash := c.hashToken(run.calls[i].op.token);
    SpentOfRun(c, run, i, hash);
    if run.replies[i] == PasswordSet {
      SpentStays(c, run, i + 1, j, hash);
      SpentOfRun(c, run, j, hash);
    }
  }
}
