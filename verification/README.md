# HRM Nexus: verified models

A Dafny model of the parts of HRM Nexus that keep state: sessions, accounts and sign-in
protocols, the integration send loop, the login rate limiter, the mockup refresh, the
encryption migrations, the in-memory transactional store, the metrics endpoint and the
attrition scorer. `dafny verify dfyconfig.toml` checks everything.

## What is modelled

- **Sessions and accounts** (`AuthSessionStore`, `UsersRepository`, `AuthModel`, `AuthService`,
  `AuthSessionRuns`, `AuthAccountRuns`, `AuthSessionDecisions`, `AuthAccountDecisions`,
  `EmailText`, `SsoRoles`). The repositories, the session store and the service are classes over
  their tables and the cache. `AuthModel.Step` says what one service call does to the whole
  world; each service method is proved equal to its step.
  The two `Runs` files are about all sequences of calls that start from any consistent world,
  such as the empty one; the two `Decisions` files say, in terms of the tables alone, what each
  call grants and writes at any point of such a sequence, and where sessions, second factors,
  accounts and passwords come from.
- **Sessions under concurrency** (`SessionInterleaving`, `RefreshInterleaving`,
  `UninterruptedCalls`). The statements and cache commands of the session store as separate steps
  of any number of interleaved calls; and the same for the service calls that go through it, with
  the refresh tokens they sign. Run without interruption they are the atomic calls above.
- **OIDC sign-in** (`SsoTransactions`, `SsoOidc`, `SsoOidcProgress`). `start` and `callback` as
  interleaved steps, together with SAML sign-ins, which share the transaction table, and with
  providers that are changed or deleted at any moment. `state` is the parameter of section 10.12
  of RFC 6749, the verifier that of section 4 of RFC 7636.
- **Integrations** (`IntegrationHealth`, `LatencyMetrics`, `IntegrationSend`). The health books,
  the percentiles over the call history, and the retry loop against arbitrary adapters.
- **Login rate limiter** (`LoginRateLimit`, `SetSizes`), **mockup refresh** (`MockupPreview`),
  **encryption migrations** (`PiiEnvelope`, `PayloadRows`, `EncryptPersonalData`,
  `EncryptBankFields`), **in-memory transactional store** (`FakeTransactionalDb`), **metrics**
  (`PrometheusLabels`, `RequestHistogram`), **attrition score** (`AttritionRisk`).

## What is assumed

- A service call is atomic, except in `SessionInterleaving`, `RefreshInterleaving` and `SsoOidc`,
  where each statement and each cache command is a step. PostgreSQL executes one statement
  atomically and keeps the unique indexes and foreign keys that the migrations declare.
  PostgreSQL and Redis are reachable.
- The clock is a parameter and does not run backwards. Random ids, tokens and OIDC states are
  parameters and new; `AuthModel.Legal` and `SsoOidc.Enabled` say so.
- bcrypt, SHA-256, TOTP, JWT, AES-GCM, base64url and the OIDC library are unknown functions or
  verdicts. The JWT library verifies only refresh tokens that this service signed. For AES-GCM
  and base64url exactly `PiiEnvelope.Sound` is assumed.
- `loginMaxAttempts` is at least 1, as `apps/hr-api/src/config/app.config.ts` reads it.
- E-mail text is ASCII. Milliseconds, counters and sums are unbounded integers or reals.
- A directory scan observes the directory at one moment. Code between two awaits runs without
  interruption.

## Findings

- `save` writes the cache even when its update matches no row (`auth-session.store.ts:77-91`).
  With interleaved calls a revoked session can therefore be readable from the cache
  (`CoherenceNeedsAtomicCalls`), exactly if some call still has a cache write of it ahead
  (`ReappearsIff`) or saves it anew (`SaveBringsBack`); the table never forgets a revocation.
- Single use of refresh tokens holds for whole calls only. Interleaved, a token is accepted twice
  in three ways, each with a run that shows it. Two `refreshSession` calls of one session are both
  accepted (`auth.service.ts:310-334`) before either has saved (343): `SingleUseIff`,
  `OverlapReached`. A `get` that has read the row before a refresh fills the cache after it
  (`auth-session.store.ts:57-73`) and puts the old id back: `FillRestoresToken`, `FillReached`. A
  `verifyMfa` that has found the session before a refresh saves it after (`auth.service.ts:377-390`):
  `StepUpRestoresToken`, `StepUpReached`. Without any of the three no token is
  (`ApartIsSingleUse`).
- A LOCKED account is not unlocked by time: line 223 of `auth.service.ts` refuses it after
  `lockedUntil` has passed (`LockedUntilReset`).
- The limiter admits up to 2N - 1 requests of a key in 60 seconds, and this is exact. The key joins
  ip and address by a colon, so that two IPv6 clients can share a bucket (`Ipv6CanShareBucket`).
- While an incident is active the status shows it, but outbound health shows HEALTHY after each
  success (`integration-health.service.ts:125-126`, `OutboundUnderIncident`).
- A thrown error that already carries the `recorded` mark is not counted by the send loop, so
  the health counters can grow by less than the number of attempts (`CountersGrowByAttemptsIff`).
  The adapter interface allows such an error; no adapter of the repository throws one, because
  only the orchestrator sets the mark and no adapter sends through it.
- A scan or write that throws while a request is queued forgets that request until someone asks
  again (`QueuedImpliesInFlight`, `RequestForgotten`).
- The current source is assigned before the module is written (`mockupPreviewPlugin.ts:113-116`).
  After a write that throws, scans of the same listing see no change and never repair the module
  (`ModuleIsSourceIff`, `ModuleNeverWritten`).
- The comment in `fake-transactional-db.ts:17-20` says that autocommit writes land regardless of
  an open transaction. A commit that follows replaces the whole store by the transaction's
  view, so rows written meanwhile are lost, in tables it writes as well (`AutocommitSurvivesIff`,
  `AutocommitWriteLost`).
- The first encryption migration encrypts an empty string into an envelope that its own `down`
  rejects (`EncryptPersonalData.DownAfterUp`); the second one skips empty strings.
- The second migration turns an entry of `rows` that is no object into an object
  (`OnlyBankFieldsChange`).
- A pay position of zero or less scores 0.35, less than a small positive one (`CompMonotoneIff`,
  `CompScoreMonotoneIff`).

## Model

| member | source | states |
|---|---|---|
| AuthSessions.AuthSessionStore.Create | apps/hr-api/src/auth/auth-session.store.ts:29-51 | upserts the row, un-revoking a row that has the same id, and then caches the session |
| AuthSessions.AuthSessionStore.Get | apps/hr-api/src/auth/auth-session.store.ts:53-75 | answers from a readable cache entry, else from an unrevoked, unexpired row, which it caches; no row changes |
| AuthSessions.AuthSessionStore.Save | apps/hr-api/src/auth/auth-session.store.ts:77-91 | writes three columns of an unrevoked row only, yet writes the cache in any case |
| AuthSessions.AuthSessionStore.Revoke | apps/hr-api/src/auth/auth-session.store.ts:93-100 | stamps the row and removes its cache entry |
| AuthSessions.CacheTtl | apps/hr-api/src/auth/auth-session.store.ts:135 | a cache entry lives for the whole seconds left, so never beyond the expiry, except that it lives at least one second |
| AuthSessions.GetAgreesWithTable | apps/hr-api/src/auth/auth-session.store.ts:53-75 | with a coherent cache, a `get` gives what the table alone gives unless a readable entry outlives the expiry of its row (the one-second floor), and exactly then not |
| AuthSessions.SaveKeepsCoherent | apps/hr-api/src/auth/auth-session.store.ts:77-91 | `save` leaves the cache coherent exactly when the row exists, is not revoked, and owner, tenant and creation time are handed back as they were |
| AuthSessions.CreateKeepsCoherent | apps/hr-api/src/auth/auth-session.store.ts:29-51 | creating under a new id keeps every readable cache entry equal to its unrevoked row |
| AuthSessions.RevokeKeepsCoherent | apps/hr-api/src/auth/auth-session.store.ts:93-100 | revoking leaves no readable cache entry of a revoked row |
| AuthSessions.GetAfterCreate | apps/hr-api/src/auth/auth-session.store.ts:29-75 | a created session reads back as it was until it expires, from the cache or from the table |
| AuthSessions.GetAfterSave | apps/hr-api/src/auth/auth-session.store.ts:53-91 | a saved one reads back exactly while its cache entry lives, or, beyond that, if its row was not revoked and belongs to it |
| AuthSessions.GetAfterRevoke | apps/hr-api/src/auth/auth-session.store.ts:53-100 | a revoked one never reads back |
| AuthSessions.CreateRevives | apps/hr-api/src/auth/auth-session.store.ts:29-51 | creating under an id that exists revives its row, a revoked one too, under its old owner, tenant and creation time |
| SessionInterleaving.RevocationFinalInEverySchedule | apps/hr-api/src/auth/auth-session.store.ts:77-100 | for any number of `create`, `get`, `save` and `revoke` calls interleaved statement by statement: a revocation is never undone and no other column of the revoked row changes |
| SessionInterleaving.TableReadAfterRevocation | apps/hr-api/src/auth/auth-session.store.ts:57-62 | in any such schedule a `get` that reads the table after the revocation returns nothing |
| SessionInterleaving.GoneForGood | apps/hr-api/src/auth/auth-session.store.ts:29-100 | once a row is revoked, its entry deleted and no running call has a cache write of it ahead, no schedule that begins no `save` of it brings the entry back or makes any `get` return the session |
| SessionInterleaving.ReappearsIff | apps/hr-api/src/auth/auth-session.store.ts:53-100 | a revoked session without an entry can become readable again exactly if some running call still has a cache write of it ahead |
| SessionInterleaving.SaveBringsBack | apps/hr-api/src/auth/auth-session.store.ts:77-91 | a `save` of such a session, begun afterwards, always makes it readable again and leaves the table as it is |
| SessionInterleaving.StepKeepsCoherentIff | apps/hr-api/src/auth/auth-session.store.ts:29-100 | characterizes the single statements and cache commands that keep a coherent cache coherent, both ways |
| SessionInterleaving.CoherenceNeedsAtomicCalls | apps/hr-api/src/auth/auth-session.store.ts:77-91 | a schedule of one `save` and one `revoke` after which a readable cache entry describes a revoked row: coherence cannot be claimed below whole calls |
| SessionInterleaving.UninterruptedIsAtomic | apps/hr-api/src/auth/auth-session.store.ts:29-100 | uninterrupted, the statements of each call make up the atomic call: the same store and the same answer |
| AuthUsers.EmailIdUnique | apps/hr-api/src/auth/users.repository.ts:46-55 | an address of a tenant, however it is cased or padded, finds at most one account |
| AuthUsers.ExternalIdUnique | apps/hr-api/src/auth/users.repository.ts:66-75 | a provider and external id find at most one account of a tenant |
| AuthUsers.UsersRepository.FindByEmail | apps/hr-api/src/auth/users.repository.ts:46-55 | finds the account that the unique index on tenant and lower-cased address determines, if there is one |
| AuthUsers.UsersRepository.FindByExternalId | apps/hr-api/src/auth/users.repository.ts:66-75 | finds the account that the unique index on tenant, provider and external id determines, if there is one |
| AuthUsers.UsersRepository.Create | apps/hr-api/src/auth/users.repository.ts:77-100 | stores the account exactly when its id and both unique indexes admit it; the keys stay unique |
| AuthUsers.UsersRepository.LinkIdentityProvider | apps/hr-api/src/auth/users.repository.ts:112-124 | links the account exactly when the identity index admits it; nothing else changes |
| AuthUsers.UsersRepository.RecordFailedLogin | apps/hr-api/src/auth/users.repository.ts:142-154 | sets the counter, and the lock together with status LOCKED or neither; no other account changes |
| AuthUsers.UsersRepository.ResetFailedLoginState | apps/hr-api/src/auth/users.repository.ts:134-140 | counter 0, no lock, status ACTIVE, on one account only |
| AuthUsers.UsersRepository.UpdatePassword | apps/hr-api/src/auth/users.repository.ts:156-168 | new hash and status, counter and lock cleared, on one account only |
| AuthUsers.AuthTokenRepository.FindActiveByHash | apps/hr-api/src/auth/auth-token.repository.ts:60-70 | finds a token of the asked type exactly while it is neither consumed nor expired |
| AuthUsers.AuthTokenRepository.Consume | apps/hr-api/src/auth/auth-token.repository.ts:72-78 | consumes one token and touches no other |
| AuthServices.AuthService.Invite | apps/hr-api/src/auth/auth.service.ts:157-186 | refines the `Invite` step: reply and all four stores |
| AuthServices.AuthService.RequestPasswordReset | apps/hr-api/src/auth/auth.service.ts:188-201 | refines the `RequestReset` step |
| AuthServices.AuthService.ConfirmPasswordReset | apps/hr-api/src/auth/auth.service.ts:203-213 | refines the `ConfirmReset` step: either token type opens it |
| AuthServices.AuthService.ValidateCredentials | apps/hr-api/src/auth/auth.service.ts:215-241 | refines the `Login` step with its order of refusals |
| AuthServices.AuthService.RecordFailedLogin | apps/hr-api/src/auth/auth.service.ts:476-483 | counts one failure more and locks from the limit on |
| AuthServices.AuthService.CreateSessionForSsoUser | apps/hr-api/src/auth/auth.service.ts:243-282 | refines the `SsoLogin` step: found by identity, linked by address, or created |
| AuthServices.AuthService.CreateSession | apps/hr-api/src/auth/auth.service.ts:284-306 | opens a session under fresh ids and signs its first refresh token |
| AuthServices.AuthService.RefreshSession | apps/hr-api/src/auth/auth.service.ts:308-350 | refines the `Refresh` step, with the three refusals that revoke |
| AuthServices.AuthService.RevokeSession | apps/hr-api/src/auth/auth.service.ts:352-354 | refines the `Revoke` step |
| AuthServices.AuthService.SetupMfa | apps/hr-api/src/auth/auth.service.ts:356-364 | refines the `SetupMfa` step |
| AuthServices.AuthService.VerifyMfa | apps/hr-api/src/auth/auth.service.ts:366-400 | refines the `VerifyMfa` step: steps the existing session up or opens one that has no refresh-token id |
| AuthRuns.AccountStepsLeaveSessions | apps/hr-api/src/auth/auth.service.ts:157-241 | invitations, password logins, resets and MFA set-up touch no session, no cache entry and no signed token |
| AuthRuns.RunsContinue | apps/hr-api/src/auth/auth.service.ts:284-400 | in every run any legal call can come next: the theorems about runs are about all call sequences |
| AuthRuns.CacheAlwaysCoherent | apps/hr-api/src/auth/auth-session.store.ts:29-100 | in every reachable state each readable cache entry is the projection of its unrevoked row, and each stored refresh-token id belongs to a signed token |
| AuthRuns.EmptyIsCoherent | apps/hr-api/src/auth/auth-session.store.ts:29-100 | the empty tables satisfy the session invariant, so that the run theorems apply from the start |
| AuthRuns.CachedReadsAreTableReads | apps/hr-api/src/auth/auth-session.store.ts:53-75 | at any point of any run, reading an unexpired row through the cache gives what the table alone would |
| AuthRuns.SessionColumnsImmutable | apps/hr-api/src/auth/auth.service.ts:284-400 | over any run, owner, tenant and creation time of a session never change, a second factor once given stays, and so does a revocation |
| AuthRuns.RevocationIsFinal | apps/hr-api/src/auth/auth.service.ts:284-400 | after a revocation no call of any kind ever returns that session again |
| AuthRuns.RefreshDecision | apps/hr-api/src/auth/auth.service.ts:308-350 | acceptance is decided by the tables alone, whatever is cached; an accepted token rotates its one row; a token of a living session and the right owner that is refused revokes it |
| AuthRuns.RefreshOfRun | apps/hr-api/src/auth/auth.service.ts:308-350 | the same at every refresh of every run |
| AuthRuns.AcceptedIsSuperseded | apps/hr-api/src/auth/auth.service.ts:337-343 | an accepted (session id, refresh-token id) pair is superseded at once, also one without an id as `verifyMfa` issues it |
| AuthRuns.RefreshTokenSingleUse | apps/hr-api/src/auth/auth.service.ts:308-350 | over any run each (session id, refresh-token id) pair is accepted at most once (section 5.2.2.3 of RFC 6819) |
| AuthRuns.RefusedIsDead | apps/hr-api/src/auth/auth.service.ts:311-334 | a verified token of the right owner that is refused leaves its session revoked or expired |
| AuthRuns.DeadStays | apps/hr-api/src/auth/auth.service.ts:308-350 | a session once revoked or expired stays so over the rest of any run |
| AuthRuns.ReuseEndsSession | apps/hr-api/src/auth/auth.service.ts:319-324 | presenting an accepted token again ends its session: neither it nor any later token of the session is accepted |
| AuthRuns.GrantedTokenUsableIff | apps/hr-api/src/auth/auth.service.ts:284-400 | a refresh token that any call has just handed out is accepted next exactly if its session has not expired, it names the owner and tenant of the session, and the owner is active and not locked |
| AuthSessionDecisions.RefreshGrantedIff | apps/hr-api/src/auth/auth.service.ts:308-334 | at every point of every run a refresh is granted exactly if the token is verified, its row exists, is not revoked, not expired, of the same user and tenant and of no other id, and the user exists, is ACTIVE and not locked |
| AuthSessionDecisions.RefreshWrites | apps/hr-api/src/auth/auth.service.ts:311-349 | a granted refresh moves the expiry and id of one row and signs a token of these; a refused one revokes exactly a found session of its owner, and any other leaves the rows alone |
| AuthSessionDecisions.NoRefreshWhileLocked | apps/hr-api/src/auth/auth.service.ts:327-333 | from the moment an account is LOCKED until its reset none of its refresh tokens is accepted, however much time passes, and presenting one ends its session |
| AuthSessionDecisions.StepUpGrantedIff | apps/hr-api/src/auth/auth.service.ts:366-374 | a step-up is granted exactly if the actor exists, has a secret and the code is valid |
| AuthSessionDecisions.StepUpWrites | apps/hr-api/src/auth/auth.service.ts:376-399 | it sets the second factor of the presented session if that was found, else opens a session of the actor without a refresh-token id; a refused one writes nothing |
| AuthSessionDecisions.OpenWrites | apps/hr-api/src/auth/auth.service.ts:284-305 | the session opened has its second factor exactly if the caller says so, or says nothing and the policy asks for none |
| AuthSessionDecisions.SsoWrites | apps/hr-api/src/auth/auth.service.ts:243-281 | the same for the session that an SSO login opens, where saying nothing means yes |
| AuthSessionDecisions.SecondFactorHasCause | apps/hr-api/src/auth/auth.service.ts:284-400 | over any run a session becomes stepped up only by a granted step-up with a valid code that names it, or is opened so by one of the three calls |
| AuthSessionDecisions.RevokedByCallIsFinal | apps/hr-api/src/auth/auth.service.ts:352-354 | after a `revokeSession` of an existing session no call of any kind ever returns it |
| RefreshInterleaving.AlwaysKnown | apps/hr-api/src/auth/auth.service.ts:308-400 | with every statement and cache command of `createSession`, `refreshSession`, `verifyMfa` and `revokeSession` a step of its own: stored, cached, held, signed and accepted ids are always known ones |
| RefreshInterleaving.OnlyFillsAndStepUps | apps/hr-api/src/auth/auth.service.ts:284-400 | no refresh of a session runs before its creation has ended: the other calls that can write the session across a refresh are cache fills and step-ups |
| RefreshInterleaving.ApartIsSingleUse | apps/hr-api/src/auth/auth.service.ts:308-400 | while no refresh of a session runs across another one, a cache fill or a step-up of it, all places of the session agree on its id and none is accepted twice |
| RefreshInterleaving.SingleUseIff | apps/hr-api/src/auth/auth.service.ts:310-343 | as long as no cache fill or step-up of a session runs across a refresh of it: some id of it is accepted twice exactly if two of its refreshes were between acceptance and the end of their save at the same time |
| RefreshInterleaving.FillRestoresToken | apps/hr-api/src/auth/auth-session.store.ts:57-73 | a `get` that read the row before a refresh and fills the cache after it puts the refreshed id back, and its token is accepted again, from any state |
| RefreshInterleaving.StepUpRestoresToken | apps/hr-api/src/auth/auth.service.ts:377-390 | a step-up that runs across a refresh puts the refreshed id back, and its token is accepted again, from any state |
| RefreshInterleaving.OverlapReached | apps/hr-api/src/auth/auth.service.ts:310-343 | a run from the empty tables with two overlapping refreshes, no fill or step-up across them, and one token accepted twice |
| RefreshInterleaving.FillReached | apps/hr-api/src/auth/auth-session.store.ts:57-73 | a run from the empty tables in which a token is accepted twice by a late cache fill, without overlapping saves and without any step-up |
| RefreshInterleaving.StepUpReached | apps/hr-api/src/auth/auth.service.ts:377-390 | a run from the empty tables in which a token is accepted twice by a late step-up, without overlapping refreshes and without any cache fill |
| UninterruptedCalls.RefreshAloneIsAtomic | apps/hr-api/src/auth/auth.service.ts:308-350 | a refresh that nobody interrupts, taken statement by statement, is the atomic refresh: the same store and signed tokens, and an acceptance exactly if it is granted |
| UninterruptedCalls.StepUpAloneIsAtomic | apps/hr-api/src/auth/auth.service.ts:366-400 | so is a step-up of a session that is found |
| UninterruptedCalls.OpenAloneIsAtomic | apps/hr-api/src/auth/auth.service.ts:284-306 | and the opening of a session |
| AuthAccountRuns.AccountsAlwaysOk | apps/hr-api/src/auth/auth.service.ts:157-282 | the keys, the normalization of addresses, the pairing of provider and external id and the lockout state hold in every reachable state |
| AuthAccountRuns.EveryRunFromEmpty | apps/hr-api/src/auth/auth.service.ts:157-400 | every run that starts on empty tables satisfies both invariants throughout |
| AuthAccountRuns.IdentitiesUnique | apps/hr-api/src/auth/auth.service.ts:243-282 | in every reachable state (tenant, normalized e-mail) and (tenant, provider, external id) are unique |
| AuthAccountRuns.IdentityWriteOnce | apps/hr-api/src/auth/auth.service.ts:251-262 | over any run a linked account never changes its provider or external id, and no account its tenant or address |
| AuthAccountRuns.SameIdentitySameAccount | apps/hr-api/src/auth/auth.service.ts:246-249 | any two SSO logins with the same tenant, provider and external id get sessions of the same account |
| AuthAccountRuns.LoginReply | apps/hr-api/src/auth/auth.service.ts:215-241 | a password login succeeds for an account exactly when it gets as far as the comparison and the password is right |
| AuthAccountRuns.PasswordRefusedForeverAfterLink | apps/hr-api/src/auth/auth.service.ts:226-228 | once an account is linked no later password login of any run succeeds for it |
| AuthAccountRuns.CounterStep | apps/hr-api/src/auth/auth.service.ts:215-241 | after any call of any kind the failure counter and the status of every account are what the compared passwords and resets make them |
| AuthAccountRuns.CounterIsStreak | apps/hr-api/src/auth/auth.service.ts:476-483 | over any run the stored counter is the number of wrong passwords since the last right one or reset, and below the limit while the account is ACTIVE |
| AuthAccountRuns.LocksExactlyAtLimit | apps/hr-api/src/auth/auth.service.ts:476-483 | an ACTIVE account becomes LOCKED exactly when its streak of wrong passwords reaches the limit, and the lock then runs for the configured time from that attempt |
| AuthAccountRuns.LockedUntilReset | apps/hr-api/src/auth/auth.service.ts:220-225 | a LOCKED account stays LOCKED with the same count and accepts no password, however much time passes, until its password is reset |
| AuthAccountRuns.ResetUnlocks | apps/hr-api/src/auth/auth.service.ts:203-213 | the reset makes it ACTIVE with no failures and the new password |
| AuthAccountRuns.ResetTokenSingleUse | apps/hr-api/src/auth/auth.service.ts:205-211 | over any run a reset or set-password token changes a password at most once |
| AuthAccountDecisions.LoginGrantedIff | apps/hr-api/src/auth/auth.service.ts:215-241 | at every point of every run a password login succeeds exactly for the account of the address, if it is ACTIVE, not linked and the password right; each refusal with its exact cause |
| AuthAccountDecisions.InviteDecision | apps/hr-api/src/auth/auth.service.ts:157-186 | an account and a 48-hour token are created exactly if an administrator invites a well-formed address that has no account; otherwise nothing is written |
| AuthAccountDecisions.ResetRequestDecision | apps/hr-api/src/auth/auth.service.ts:188-201 | a request for a well-formed address is never refused; a token goes out exactly if the address has an account |
| AuthAccountDecisions.ResetRequestStores | apps/hr-api/src/auth/auth.service.ts:188-201 | that token is stored for this account and for 48 hours |
| AuthAccountDecisions.ConfirmDecision | apps/hr-api/src/auth/auth.service.ts:203-213 | a password is set exactly if it is strong and the token is stored, not consumed and not expired; that consumes it, and a refusal writes nothing |
| AuthAccountDecisions.StrongIff | apps/hr-api/src/auth/auth.service.ts:576-586 | strong: twelve characters, with a small letter, a capital, a digit and something else |
| AuthAccountDecisions.SsoGrantedIff | apps/hr-api/src/auth/auth.service.ts:243-282 | an SSO login is granted exactly if the address is well formed and an account has the identity, or one without identity has the address, or neither exists and the tenant provisions accounts; only in the last case an account is created, and a refusal writes nothing |
| AuthAccountDecisions.CredentialsStep | apps/hr-api/src/auth/users.repository.ts:77-168 | of every account a call changes the password hash only by a reset, the MFA secret only by `setupMfa` of its owner, the identity only by an SSO login as it |
| AuthAccountDecisions.PasswordHasCause | apps/hr-api/src/auth/auth.service.ts:203-213 | over any run a changed password hash is the one the last reset of that account has set |
| AuthAccountDecisions.SecretHasCause | apps/hr-api/src/auth/auth.service.ts:356-364 | over any run a changed MFA secret is one that `setupMfa` has stored for that account |
| AuthAccountDecisions.AccountHasOrigin | apps/hr-api/src/auth/auth.service.ts:157-282 | over any run a new account was created by the invitation of an administrator or by an SSO login of a tenant that provisions accounts, for an address without account |
| AuthAccountDecisions.TokenUsableIff | apps/hr-api/src/auth/auth.service.ts:203-213 | over any run a token handed out sets the password of its account exactly if the password is strong, 48 hours have not passed, and it has not set one before |
| SsoRoles.RolesFromSsoGroups | apps/hr-api/src/auth/auth.service.ts:592-598 | the loops collect the default and mapped roles in first-occurrence order |
| SsoRoles.GrantedIff | apps/hr-api/src/auth/auth.service.ts:592-598 | a role is granted exactly when it is a default or a group of the user maps to it, and granted once |
| SsoTransactions.SsoAuthTransactionRepository.Create | apps/hr-api/src/auth/sso-auth-transaction.repository.ts:36-58 | stores a transaction as not consumed, unless its state is taken |
| SsoTransactions.SsoAuthTransactionRepository.ConsumeByState | apps/hr-api/src/auth/sso-auth-transaction.repository.ts:60-71 | one atomic step: hands out and marks a pending transaction of the tenant, or changes nothing |
| SsoTransactions.SsoAuthTransactionRepository.FindByState | apps/hr-api/src/auth/sso-auth-transaction.repository.ts:73-83 | finds exactly what could be consumed now |
| SsoTransactions.ConsumedOnce | apps/hr-api/src/auth/sso-auth-transaction.repository.ts:60-71 | a state handed out once is not handed out again, to no tenant and at no time |
| SsoOidc.InvAlways | apps/hr-api/src/auth/sso-oidc.service.ts:59-126 | the protocol invariant over every interleaving of sign-ins, callbacks, SAML sign-ins and provider changes |
| SsoOidc.ConsumeSucceedsIff | apps/hr-api/src/auth/sso-oidc.service.ts:96-99 | a callback gets hold of a transaction exactly when a `start` of its tenant stored that state, the row is still there and in time, and nobody consumed it before |
| SsoOidc.AtMostOneExchange | apps/hr-api/src/auth/sso-oidc.service.ts:93-111 | in every interleaving at most one callback reaches the code exchange for a state, and no callback reaches it twice |
| SsoOidc.ExchangeStep | apps/hr-api/src/auth/sso-oidc.service.ts:100-111 | each exchange happens in a step in which its provider is the enabled one of the tenant and its callback holds the transaction |
| SsoOidc.HoldingStep | apps/hr-api/src/auth/sso-oidc.service.ts:96-99 | each held transaction was pending when its callback, and no other, consumed it |
| SsoOidc.StartedStep | apps/hr-api/src/auth/sso-oidc.service.ts:59-80 | each recorded start was made by a `start` call that had looked the provider up for that tenant |
| SsoOidc.ExchangeHasItsPast | apps/hr-api/src/auth/sso-oidc.service.ts:59-111 | every exchange has a start, a consumption before the expiry and a provider check behind it, in this order, for one tenant and one provider, and uses that start's nonce, PKCE verifier and redirect URI |
| SsoOidcProgress.StartDecision | apps/hr-api/src/auth/sso-oidc.service.ts:59-64 | `start` goes on exactly if the tenant's OIDC provider is there, enabled and configured |
| SsoOidcProgress.StartInsertDecision | apps/hr-api/src/auth/sso-oidc.service.ts:66-82 | it stores the whole transaction for ten minutes and redirects, exactly unless its provider is gone |
| SsoOidcProgress.CallbackDecision | apps/hr-api/src/auth/sso-oidc.service.ts:100-111 | a callback that holds a transaction exchanges the code exactly if the tenant's OIDC provider is there, enabled and the one of the transaction; otherwise it is rejected |
| SsoOidcProgress.ConsumeDecision | apps/hr-api/src/auth/sso-oidc.service.ts:96-99 | a callback that does not get hold of a transaction is rejected |
| SsoOidcProgress.CallbackReachesExchangeIff | apps/hr-api/src/auth/sso-oidc.service.ts:93-111 | over both database accesses and whatever happens between them, exactly which callbacks reach the exchange, and with which values |
| SsoOidcProgress.SamlTakesTransaction | apps/hr-api/src/auth/sso-auth-transaction.repository.ts:60-71 | once a SAML sign-in has consumed a transaction, every OIDC callback with its state is rejected |
| SsoOidcProgress.SignInReachesExchange | apps/hr-api/src/auth/sso-oidc.service.ts:59-111 | every undisturbed sign-in reaches the exchange with what its own `start` drew: nobody else takes its transaction or deletes its provider, the callback comes within ten minutes, and the provider is still the enabled one |
| LoginRateLimit.LoginRateLimitGuard.Purge | apps/hr-api/src/auth/login-rate-limit.guard.ts:24-26 | removes exactly the expired buckets |
| LoginRateLimit.LoginRateLimitGuard.CanActivate | apps/hr-api/src/auth/login-rate-limit.guard.ts:17-41 | decides and counts like the specified limiter, and leaves only unexpired buckets behind |
| LoginRateLimit.PurgeIsInvisible | apps/hr-api/src/auth/login-rate-limit.guard.ts:24-33 | for every request sequence with a monotone clock the guard decides like a limiter that never purges |
| LoginRateLimit.DecisionsDependOnOwnTimes | apps/hr-api/src/auth/login-rate-limit.guard.ts:17-41 | the decisions for a key are those of a limiter that sees this key's request times only |
| LoginRateLimit.AdmittedIffEarlyInWindow | apps/hr-api/src/auth/login-rate-limit.guard.ts:27-40 | a request is admitted exactly when it is among the first N of its window, N = max(1, loginMaxAttempts) |
| LoginRateLimit.WindowAdmitsMin | apps/hr-api/src/auth/login-rate-limit.guard.ts:27-40 | of the k requests of a window exactly min(k, N) are admitted |
| LoginRateLimit.SlidingBound | apps/hr-api/src/auth/login-rate-limit.guard.ts:27-40 | at most 2N - 1 requests of a key are admitted in any half-open 60 s |
| LoginRateLimit.SlidingBoundReached | apps/hr-api/src/auth/login-rate-limit.guard.ts:27-40 | for every N a request sequence that reaches 2N - 1 |
| LoginRateLimit.GuardSlidingBound | apps/hr-api/src/auth/login-rate-limit.guard.ts:17-41 | the bound for the guard with its shared, purged map and any other keys in between |
| LoginRateLimit.SharesBucketIff | apps/hr-api/src/auth/login-rate-limit.guard.ts:19-21 | two requests share a bucket exactly if ip and address agree, letter case of the address aside, for equal ips and for ips without colon |
| LoginRateLimit.Ipv6CanShareBucket | apps/hr-api/src/auth/login-rate-limit.guard.ts:19-21 | two different IPv6 clients that share one |
| MockupPreview.MockupPreviewPlugin.BeginRefresh | artifacts/mockup-sandbox/mockupPreviewPlugin.ts:101-110 | `refresh` up to its first await: starts a scan or leaves a mark |
| MockupPreview.MockupPreviewPlugin.FinishRefresh | artifacts/mockup-sandbox/mockupPreviewPlugin.ts:111-129 | `refresh` from its scan to the next await: rewrites the module if it changed and starts the queued follow-up, or throws at the write with the source assigned already |
| MockupPreview.MockupPreviewPlugin.FailRefresh | artifacts/mockup-sandbox/mockupPreviewPlugin.ts:119-121 | a scan that throws clears the in-flight flag only |
| MockupPreview.AlwaysSingleFlight | artifacts/mockup-sandbox/mockupPreviewPlugin.ts:98-130 | in every interleaving at most one scan is in flight, throwing scans and writes included, and `refresh` answers whether the module was rewritten during the call |
| MockupPreview.QueuedImpliesInFlight | artifacts/mockup-sandbox/mockupPreviewPlugin.ts:101-121 | "queued implies in flight" is kept by every step but a scan or write that throws while a request is queued |
| MockupPreview.RequestForgotten | artifacts/mockup-sandbox/mockupPreviewPlugin.ts:101-127 | a run in which a scan throws behind a queued request: it stays marked, nothing is in flight and nothing was generated |
| MockupPreview.AlwaysQueuedInFlight | artifacts/mockup-sandbox/mockupPreviewPlugin.ts:98-130 | as long as nothing throws, a queued request always has a scan in flight |
| MockupPreview.NoLostUpdate | artifacts/mockup-sandbox/mockupPreviewPlugin.ts:98-130 | whenever nothing is in flight, nothing is queued and the current source was generated from the directory as it was at a moment after the last request, if nothing has thrown since; the module on disk is that text exactly unless an earlier throwing write has left another |
| MockupPreview.ModuleIsSourceIff | artifacts/mockup-sandbox/mockupPreviewPlugin.ts:111-118 | in every run the module on disk is the current source exactly if no write has thrown since the last one that succeeded, or the one that threw had left the whole text |
| MockupPreview.ModuleNeverWritten | artifacts/mockup-sandbox/mockupPreviewPlugin.ts:111-121 | a run whose first write throws and whose later request is served without failure, and still no module is ever written |
| MockupPreview.ScansAreCoalesced | artifacts/mockup-sandbox/mockupPreviewPlugin.ts:123-127 | each scan that ends brings the plugin one step nearer to rest, and two are the most that can be outstanding |
| MockupPreview.RewrittenIffListingChanged | artifacts/mockup-sandbox/mockupPreviewPlugin.ts:73-118 | the generated text determines the listing, so a scan rewrites the module exactly when the listing has changed since it was generated |
| MockupPreview.EntryImportsFile | artifacts/mockup-sandbox/mockupPreviewPlugin.ts:67-79 | a listed file `src/x` is keyed `./x` and imported from `../x`, whatever characters its name has |
| IntegrationHealth.IntegrationHealthService.HasConfiguredCredentials | apps/hr-api/src/integrations/integration-health.service.ts:171-173 | configured exactly when there is an environment and all have credentials |
| IntegrationHealth.IntegrationHealthService.Register | apps/hr-api/src/integrations/integration-health.service.ts:39-58 | starts books for a new adapter and resets none of a known one |
| IntegrationHealth.IntegrationHealthService.Check | apps/hr-api/src/integrations/integration-health.service.ts:70-116 | a probe changes state and times, never a counter or the history |
| IntegrationHealth.IntegrationHealthService.RecordSuccess | apps/hr-api/src/integrations/integration-health.service.ts:119-129 | refines the success step of the books |
| IntegrationHealth.IntegrationHealthService.RecordFailure | apps/hr-api/src/integrations/integration-health.service.ts:132-151 | refines the failure step of the books, with the state chosen from credentials, incident and failures |
| IntegrationHealth.IntegrationHealthService.MarkCredentialsConfigured | apps/hr-api/src/integrations/integration-health.service.ts:154-168 | configures every environment and lifts the missing-credentials state |
| IntegrationHealth.IntegrationHealthService.RecordIncident | apps/hr-api/src/integrations/integration-health.service.ts:176-192 | records the incident; an active one shows in the state |
| IntegrationHealth.IntegrationHealthService.PushRecord | apps/hr-api/src/integrations/integration-health.service.ts:266-273 | appends to the history and drops the oldest record beyond 1000 |
| IntegrationHealth.BooksBalance | apps/hr-api/src/integrations/integration-health.service.ts:39-192 | over any run, with probes, incidents, re-registration and other adapters in between: history = the last 1000 calls, totals = calls by outcome, consecutive failures = trailing failures, outbound counters = status counters |
| IntegrationHealth.RegisteredAdapterBooks | apps/hr-api/src/integrations/integration-health.service.ts:119-151 | for an adapter registered once the totals add up to its n calls and the history holds min(n, 1000) of them |
| IntegrationHealth.StatusesStay | apps/hr-api/src/integrations/integration-health.service.ts:39-192 | no call forgets an adapter |
| IntegrationHealth.RunReports | apps/hr-api/src/integrations/integration-health.service.ts:119-151 | recorded calls keep the reported state in step with the calls |
| IntegrationHealth.StateFollowsCalls | apps/hr-api/src/integrations/integration-health.service.ts:119-151 | with credentials and without incident: UNHEALTHY from five trailing failures on, DEGRADED from two to four, else HEALTHY, or UNKNOWN before the first success; the time stamps are those of the last call by outcome; outbound health shows the same state, counts and times |
| IntegrationHealth.ProbeDecides | apps/hr-api/src/integrations/integration-health.service.ts:70-116 | for each state exactly when a probe reports it, in the status and in outbound health |
| IntegrationHealth.IncidentShowsUntilOver | apps/hr-api/src/integrations/integration-health.service.ts:176-192 | an incident shows at once, and once over it stops showing with the next success |
| IntegrationHealth.IncidentStaysShown | apps/hr-api/src/integrations/integration-health.service.ts:70-151 | while an incident is active no sequence of calls and probes hides it in the status |
| IntegrationHealth.OutboundUnderIncident | apps/hr-api/src/integrations/integration-health.service.ts:119-151 | outbound health depends on the last call all the same: HEALTHY after a success, UNHEALTHY after a failure or probe |
| IntegrationHealth.MissingCredentialsStayShown | apps/hr-api/src/integrations/integration-health.service.ts:39-151 | an adapter registered without credentials shows that over any failures and probes |
| IntegrationHealth.MarkDecides | apps/hr-api/src/integrations/integration-health.service.ts:154-168 | marking configures every environment and ends exactly the state that said credentials were missing |
| IntegrationHealth.RegisteredAgain | apps/hr-api/src/integrations/integration-health.service.ts:39-58 | registering a known adapter replaces its readiness and nothing else |
| LatencyMetrics.PercentileIsTheSplit | apps/hr-api/src/integrations/integration-health.service.ts:240-242 | a percentile is one of the latencies, at an index in range, and the only number with at most q percent of them below it and more than q percent at most it |
| LatencyMetrics.SortedSorts | apps/hr-api/src/integrations/integration-health.service.ts:240 | the sorted copy ascends and has the same members and length |
| LatencyMetrics.SortedCounts | apps/hr-api/src/integrations/integration-health.service.ts:240 | the sorted copy has as many latencies below every bound as the original |
| LatencyMetrics.AverageBetween | apps/hr-api/src/integrations/integration-health.service.ts:236-238 | the average lies between any bounds of the latencies |
| LatencyMetrics.MetricsSound | apps/hr-api/src/integrations/integration-health.service.ts:229-254 | for any history with a success: calls add up by outcome, p95 and p99 occur among the latencies with p95 <= p99 and more than 95 and 99 percent at most them, the average lies between the extremes |
| IntegrationSend.IntegrationOrchestrator.RegisterAdapter | apps/hr-api/src/integrations/integration-orchestrator.service.ts:55-63 | idempotent: a known name changes nothing, not even the health books; every registered adapter has a health status |
| IntegrationSend.IntegrationOrchestrator.Record | apps/hr-api/src/integrations/integration-orchestrator.service.ts:121-150 | what one attempt writes into the health books; an error marked as recorded writes nothing |
| IntegrationSend.IntegrationOrchestrator.Send | apps/hr-api/src/integrations/integration-orchestrator.service.ts:113-173 | for every adapter behaviour: an attempt is followed by another exactly if it is below the maximum and failed retryably; one dead letter, with the error of the last attempt, exactly if that failed retryably, which is at the maximum; the result, the total sleep, the health calls made and the counters |
| IntegrationSend.IntegrationOrchestrator.SendWithRetries | apps/hr-api/src/integrations/integration-orchestrator.service.ts:122-173 | the loop stops at the first attempt that is no retryable failure or at the last one, and leaves one dead letter exactly after a retryable failure; the throw behind it is unreachable |
| IntegrationSend.LastAttempt | apps/hr-api/src/integrations/integration-orchestrator.service.ts:122-173 | every attempt before the last one failed retryably, and if the last one did too it was the maximum |
| IntegrationSend.SendAccounting | apps/hr-api/src/integrations/integration-orchestrator.service.ts:113-173 | 1 <= k <= max(1, maxAttempts) attempts, ending in success after k - 1 failures, in a non-retryable k-th failure, or in exhaustion at the maximum; the counters grow by the attempts not recorded elsewhere |
| IntegrationSend.CountersGrowByAttemptsIff | apps/hr-api/src/integrations/integration-orchestrator.service.ts:146-150 | the health counters grow by exactly k if and only if no attempt threw an error already marked as recorded |
| IntegrationSend.SendIsRun | apps/hr-api/src/integrations/integration-orchestrator.service.ts:121-150 | the attempts of a send are a run of the health service, so that all its books cover them |
| IntegrationSend.DelayStaysCapped | apps/hr-api/src/integrations/integration-orchestrator.service.ts:175-180 | from the first attempt on whose uncapped delay reaches the cap every delay is the cap |
| IntegrationSend.DelaysMonotone | apps/hr-api/src/integrations/integration-orchestrator.service.ts:175-180 | the delays of a policy never decrease |
| IntegrationSend.TotalBackoffBounds | apps/hr-api/src/integrations/integration-orchestrator.service.ts:166-180 | a send of k attempts sleeps at most (k - 1) maxDelayMs, and at most initialDelayMs (2^(k-1) - 1) or initialDelayMs k(k-1)/2 by policy |
| IntegrationSend.UncappedBackoff | apps/hr-api/src/integrations/integration-orchestrator.service.ts:166-180 | while the last delay is below the cap the sleep is exactly that sum |
| PiiEnvelope.SplitAtDot | infra/migrations/20260712000002000_encrypt_banking_tax_compensation_payloads.js:50 | a part without dots is split off whole |
| PiiEnvelope.EnvelopeLayout | infra/migrations/20260712000002000_encrypt_banking_tax_compensation_payloads.js:41-47 | marker, version, vector, tag and ciphertext in this order |
| PiiEnvelope.DecryptAfterEncrypt | infra/migrations/20260712000002000_encrypt_banking_tax_compensation_payloads.js:41-58 | decrypting an envelope gives the text back, except that the envelope of the empty text is refused |
| PayloadRows.PayloadTable.TransformRows | infra/migrations/20260712000002000_encrypt_banking_tax_compensation_payloads.js:81-97 | rewrites exactly the payloads of the rows before the cut-off or the first throw, from the values the query returned |
| PayloadRows.RunAgain | infra/migrations/20260712000002000_encrypt_banking_tax_compensation_payloads.js:81-97 | a cut-off run followed by a full one sends every selected payload through the second transform and those of the prefix through both; no other row changes |
| EncryptPersonalData.Fusion | infra/migrations/20260712000002000_encrypt_banking_tax_compensation_payloads.js:70-79 | two deep transforms in a row are one with the composed leaf transform, failures included |
| EncryptPersonalData.DefinedOnLeaves | infra/migrations/20260712000002000_encrypt_banking_tax_compensation_payloads.js:70-79 | a deep transform throws exactly when some string leaf does |
| EncryptPersonalData.ShapeKept | infra/migrations/20260712000002000_encrypt_banking_tax_compensation_payloads.js:70-79 | shape and non-string leaves are untouched by any leaf transform |
| EncryptPersonalData.UpMarks | infra/migrations/20260712000002000_encrypt_banking_tax_compensation_payloads.js:60-63 | after `up` every string leaf is marked as encrypted |
| EncryptPersonalData.UpTwice | infra/migrations/20260712000002000_encrypt_banking_tax_compensation_payloads.js:60-63 | a second `up` with other random vectors changes nothing |
| EncryptPersonalData.DownAfterUp | infra/migrations/20260712000002000_encrypt_banking_tax_compensation_payloads.js:60-79 | down(up(t)) = down(t), results and failures alike, exactly when t has no empty string leaf or holds a marked leaf that `down` rejects anyway |
| EncryptPersonalData.StoppedAndRerun | infra/migrations/20260712000002000_encrypt_banking_tax_compensation_payloads.js:81-109 | `up` cut off after any prefix and run again: every selected payload fully encrypted, of its old shape and with its old decrypted contents unless it holds an empty string; other rows as before |
| EncryptBankFields.TransformRow | infra/migrations/20260718000001000_encrypt_payroll_payment_batch_bank_fields.js:90-96 | the loop transforms the four named fields of the spread row and throws exactly when one of them does |
| EncryptBankFields.PayloadFusion | infra/migrations/20260718000001000_encrypt_payroll_payment_batch_bank_fields.js:86-98 | two payload transforms in a row are one with the composed field transform |
| EncryptBankFields.DownAfterUp | infra/migrations/20260718000001000_encrypt_payroll_payment_batch_bank_fields.js:76-98 | down(up(t)) = down(t) for every payload, empty strings included |
| EncryptBankFields.UpTwice | infra/migrations/20260718000001000_encrypt_payroll_payment_batch_bank_fields.js:76-79 | a second `up` with other random vectors changes nothing |
| EncryptBankFields.OnlyBankFieldsChange | infra/migrations/20260718000001000_encrypt_payroll_payment_batch_bank_fields.js:86-98 | nothing but the four fields changes, exactly when every entry of `rows` is an object |
| EncryptBankFields.ArrayBecomesObject | infra/migrations/20260718000001000_encrypt_payroll_payment_batch_bank_fields.js:90-96 | an array among the rows becomes an object with its items, untransformed, under their indices |
| EncryptBankFields.BankFieldsSealed | infra/migrations/20260718000001000_encrypt_payroll_payment_batch_bank_fields.js:76-98 | after `up` every string in the four fields is marked or empty |
| EncryptBankFields.StoppedAndRerun | infra/migrations/20260718000001000_encrypt_payroll_payment_batch_bank_fields.js:100-120 | `up` cut off after any prefix and run again leaves every payload as one uninterrupted `up` would, with its old decrypted contents |
| FakeTransactionalDb.Table.Set | apps/hr-api/src/test-support/fake-transactional-db.ts:87 | `Map.set` on row objects: replaces in place or appends |
| FakeTransactionalDb.Table.UpdateFirstMatch | apps/hr-api/src/test-support/fake-transactional-db.ts:114-124 | a new, merged row object takes the place of the first match; the row objects, which clones share, are left as they are |
| FakeTransactionalDb.Table.SelectMatching | apps/hr-api/src/test-support/fake-transactional-db.ts:58 | the matching rows in insertion order |
| FakeTransactionalDb.Table.SelectFirst | apps/hr-api/src/test-support/fake-transactional-db.ts:57 | the first matching row, if any |
| FakeTransactionalDb.Store.Execute | apps/hr-api/src/test-support/fake-transactional-db.ts:44-131 | a query changes the one table it names, creating it if need be, modifies no row object, and replies from the state before it; `execute` of an update does nothing, that of an insert replies nothing |
| FakeTransactionalDb.Store.Clone | apps/hr-api/src/test-support/fake-transactional-db.ts:35-41 | the clone has the same contents in table objects of its own that refer to the same row objects |
| FakeTransactionalDb.Store.ReplaceBy | apps/hr-api/src/test-support/fake-transactional-db.ts:151-154 | the committed store takes over the staged contents |
| FakeTransactionalDb.FakeTransactionalStore.Transaction | apps/hr-api/src/test-support/fake-transactional-db.ts:145-157 | whatever runs on the autocommit connection meanwhile: the callback sees its snapshot and its own writes; rejected, only the autocommit queries have happened; resolved, only its own |
| FakeTransactionalDb.AllOrNothing | apps/hr-api/src/test-support/fake-transactional-db.ts:145-157 | without interleaved autocommit queries a rejected transaction changes nothing and a resolved one has exactly its own effect |
| FakeTransactionalDb.RowUnderKey | apps/hr-api/src/test-support/fake-transactional-db.ts:44-131 | over any queries a table holds under a key what was last stored there, else what it held before |
| FakeTransactionalDb.AutocommitSurvivesIff | apps/hr-api/src/test-support/fake-transactional-db.ts:145-157 | whatever both sides query: on rejection all autocommit queries stay; on resolution a row they last stored is there exactly if the transaction last stored the same row under that key, or stored none there and its snapshot held that row |
| FakeTransactionalDb.AutocommitWriteLost | apps/hr-api/src/test-support/fake-transactional-db.ts:150-154 | transaction and autocommit connection insert different rows into one table: the autocommit row, committed at once, is gone after the commit |
| FakeTransactionalDb.PutIsUpsert | apps/hr-api/src/test-support/fake-transactional-db.ts:70-88 | an insert inserts or replaces by id, affects no other key and keeps keys unique |
| FakeTransactionalDb.KeysStayUnique | apps/hr-api/src/test-support/fake-transactional-db.ts:44-131 | every table keeps one row per key over any queries |
| FakeTransactionalDb.MatchingIff | apps/hr-api/src/test-support/fake-transactional-db.ts:57-58 | a query finds exactly the stored rows that match |
| FakeTransactionalDb.SelectReplies | apps/hr-api/src/test-support/fake-transactional-db.ts:45-60 | `execute` replies exactly the stored rows with the values asked for, `executeTakeFirst` the first of these |
| FakeTransactionalDb.WritesReply | apps/hr-api/src/test-support/fake-transactional-db.ts:63-127 | an insert is found under its `id`; `executeTakeFirst` replies the row as stored, `execute` and an update that fits no row reply nothing |
| FakeTransactionalDb.ReadsOwnInsert | apps/hr-api/src/test-support/fake-transactional-db.ts:57-96 | an inserted row is found by every later query it matches |
| FakeTransactionalDb.UpdateTouchesOne | apps/hr-api/src/test-support/fake-transactional-db.ts:114-124 | an update changes at most one row, the first that matches, and only the columns it sets |
| PrometheusLabels.ThreePassesAreOne | apps/hr-api/src/observability/observability-metrics.service.ts:220-222 | the three sequential replacements equal one simultaneous per-character escape |
| PrometheusLabels.ReadsBackIff | apps/hr-api/src/observability/observability-metrics.service.ts:192-222 | a reader recovers the label and what follows its quote, and no other text reads as that label |
| PrometheusLabels.EscapeInjective | apps/hr-api/src/observability/observability-metrics.service.ts:220-222 | different labels stay different |
| PrometheusLabels.OutputIsOneToken | apps/hr-api/src/observability/observability-metrics.service.ts:220-222 | no raw newline and no unescaped quote in the output |
| RequestHistogram.ObservabilityMetricsService.RecordHttpRequest | apps/hr-api/src/observability/observability-metrics.service.ts:51-79 | one observation: count, sum, and every bucket whose bound it meets |
| RequestHistogram.ObservabilityMetricsService.RenderBuckets | apps/hr-api/src/observability/observability-metrics.service.ts:139-143 | the rendered values are the running maximum of the stored buckets |
| RequestHistogram.BucketsCount | apps/hr-api/src/observability/observability-metrics.service.ts:51-79 | over any run the stored count, sum and buckets of a key are those of its own requests |
| RequestHistogram.HistogramIsTrue | apps/hr-api/src/observability/observability-metrics.service.ts:138-147 | what is rendered is true: bucket i counts the requests within its bound, never falls along the bounds or exceeds the count, and the running maximum changes nothing |
| AttritionRisk.ScoreBounds | packages/hr-intelligence/src/index.ts:49-66 | the score lies in [0.017, 0.942] for every input |
| AttritionRisk.BoundsReached | packages/hr-intelligence/src/index.ts:49-66 | inputs that reach both ends |
| AttritionRisk.WeightsSaturateIff | packages/hr-intelligence/src/index.ts:103-132 | for each weight the inputs at which it is zero and at which it is full, both ways |
| AttritionRisk.BandIff | packages/hr-intelligence/src/index.ts:134-143 | the sums of weights at which the bands begin, rounding included |
| AttritionRisk.ScoreMonotone | packages/hr-intelligence/src/index.ts:103-152 | less tenure, a worse trend, a longer wait for promotion, more absence or more manager changes never lower score or band |
| AttritionRisk.CompMonotoneIff | packages/hr-intelligence/src/index.ts:113-116 | a higher pay position never weighs more, exactly unless it rises from zero or below to strictly between 0 and 0.8775 |
| AttritionRisk.CompScoreMonotone | packages/hr-intelligence/src/index.ts:113-143 | outside that case a higher pay position never raises score or band |
| AttritionRisk.CompScoreMonotoneIff | packages/hr-intelligence/src/index.ts:113-143 | for all other features a higher pay position never raises the score: exactly outside that case |
| AttritionRisk.CompScoreNotMonotone | packages/hr-intelligence/src/index.ts:113-116 | an input of that case whose score rises |
| AttritionRisk.FactorsExplainScore | packages/hr-intelligence/src/index.ts:58-66 | six times the score is within 0.003 of the sum of the returned weights, and exactly the factors with weight are returned |

## Left out

- Controllers, decorators, dependency injection, logging, e-mail notification, mail templates and wall-clock formatting.
- JWT access tokens and `verifyToken`, `authProviders`, `durationMs` and `bcryptCost`: single-branch functions of the configuration. The refresh lifetime is a number of milliseconds here.
- First and last names, roles and permissions of stored users: carried along, never decided on by the modelled calls. `permissionsForRoles` needs a role table that is not part of this model.
- Redis that fails or is switched off: `readCache`, `writeCache` and `deleteCache` then do nothing, which is the table-only reading that `GetAgreesWithTable` compares with.
- SAML assertion validation, OIDC discovery, the configuration cache, `mapClaims` and the account resolution behind the exchange: library behaviour, or `AuthService.CreateSessionForSsoUser` again.
- The persisted dead letters: the insert is best effort and never read back by the send loop. `receive`, readiness blockers and provider readiness snapshots are read-only.
- IntegrationHealth.IntegrationHealthService.MarkCredentialsConfigured: does not model that two adapters may share one readiness object; here each name has its own.
- EncryptPersonalData.DeepTransform: does not model an own property named `__proto__`, which the assignment in the source does not create; jsonb numbers beyond double precision are not modelled either.
- EncryptPersonalData.Fusion: says that a transform throws, not which of several bad leaves throws first.
- PayloadRows.PayloadTable.TransformRows: the row updates are those of a run outside a transaction; inside one, a cut-off run leaves no trace.
- SsoRoles.RolesFromSsoGroups: does not model a group whose name is a property of every JavaScript object, for which the mapping lookup finds an inherited function.
- RefreshInterleaving.SingleUseIff: the checks of a refresh, its user lookup included, are made with the end of its `get`. Not every fill or step-up across a refresh restores an id; the condition does not tell harmless ones apart.
- MockupPreview.ModuleIsSourceIff: what a throwing write leaves on disk is arbitrary; writes by others than the plugin are not modelled.
- FakeTransactionalDb.Store.Execute: column values are strings, and the callers of `executeTakeFirst` are taken not to write to the row object they receive.
- FakeTransactionalDb.FakeTransactionalStore.Transaction: the executor of a transaction is not used after it has ended, and transactions that overlap each other are not modelled.
- LatencyMetrics.PercentileIsTheSplit: exact arithmetic for the rank, not the floating-point product.
- AttritionRisk.ScoreBounds: real arithmetic; non-finite inputs, which `clamp` maps to 0, and floating-point rounding are not modelled. The texts of the factors and the attendance and payroll anomaly score are left out.
- RequestHistogram.HistogramIsTrue: per metric key. Labels that contain `|` can share a key, and the duration lines drop the status code, so two keys can render the same labels; both are outside this model, as are the counters of outbox, inbox and scheduler.
- MockupPreview.NoLostUpdate: file names without control characters, matching patterns, and the watcher and request hooks that call `refresh` are taken as arbitrary requests and listings.
- LoginRateLimit.GuardSlidingBound: one process; the map is not shared between processes in the source either.
