// Sessions and refresh tokens over whole runs of auth.service.ts: single use, finality of
// revocation, immutable columns, and a cache that always agrees with its table.
module AuthRuns {
  import opened Options
  import opened AuthSessions
  import opened AuthUsers
  import opened AuthModel

  // ---------------------------------------------------------------- runs

  /** A run: the calls made, the worlds between them, and the replies. */
  datatype Run = Run(worlds: seq<World>, calls: seq<Call>, replies: seq<Reply>)

  predicate WellShaped(run: Run) {
    |run.worlds| == |run.calls| + 1 && |run.replies| == |run.calls|
  }

  ghost predicate StepAt(c: Config, run: Run, i: nat)
    requires WellShaped(run) && i < |run.calls|
  {
    && Legal(c, run.worlds[i], run.calls[i])
    && (run.worlds[i + 1], run.replies[i]) == Step(c, run.worlds[i], run.calls[i])
  }

  ghost predicate IsRun(c: Config, run: Run) {
    WellShaped(run) && forall i :: 0 <= i < |run.calls| ==> StepAt(c, run, i)
  }

  /** Any run can be continued by any legal call. */
  lemma RunsContinue(c: Config, run: Run, call: Call)
    requires IsRun(c, run) && Legal(c, run.worlds[|run.calls|], call)
    ensures exists w, r :: IsRun(c, Run(run.worlds + [w], run.calls + [call], run.replies + [r]))
  {
    hide Step, Legal;
    var (w, r) := Step(c, run.worlds[|run.calls|], call);
    var longer := Run(run.worlds + [w], run.calls + [call], run.replies + [r]);
    forall i | 0 <= i < |longer.calls|
      ensures StepAt(c, longer, i)
    {
      if i < |run.calls| {
        assert StepAt(c, run, i);
      }
    }
  }

  // ---------------------------------------------------------------- the session invariant

  /** Every refresh-token id stored in a row is the id of a signed token. */
  ghost predicate IdsIssued(w: World) {
    forall id :: id in w.store.rows && w.store.rows[id].refreshTokenId.Some? ==>
      IsIssued(w.issued, w.store.rows[id].refreshTokenId)
  }

  ghost predicate IsIssued(issued: set<RefreshPayload>, rtid: Option<Id>) {
    exists p :: p in issued && p.rtid == rtid
  }

  ghost predicate SessionInv(w: World) {
    Coherent(w.store, w.now) && IdsIssued(w)
  }

  /** The empty tables and cache, from which every theorem about runs may start. */
  const EMPTY := World(map[], map[], StoreState(map[], map[]), {}, 0)

  lemma EmptyIsCoherent()
    ensures SessionInv(EMPTY)
  {
  }

  /** What one step may do to a row that exists. */
  ghost predicate RowEvolves(issued: set<RefreshPayload>, now: Time, a: SessionRow, b: SessionRow) {
    && b.tenantId == a.tenantId && b.userId == a.userId && b.createdAt == a.createdAt
    && (a.mfaAuthenticated ==> b.mfaAuthenticated)
    && (a.revokedAt.Some? ==> b.revokedAt.Some?)
    && (a.revokedAt.Some? || a.expiresAt <= now ==>
          b.expiresAt == a.expiresAt && b.refreshTokenId == a.refreshTokenId)
    && (b.refreshTokenId == a.refreshTokenId || (b.refreshTokenId.Some? && !IsIssued(issued, b.refreshTokenId)))
  }

  ghost predicate Evolves(w: World, w': World) {
    && w.issued <= w'.issued && w.now <= w'.now
    && forall id :: id in w.store.rows ==>
         id in w'.store.rows && RowEvolves(w.issued, w'.now, w.store.rows[id], w'.store.rows[id])
  }

  lemma OpenKeeps(c: Config, w: World, now: Time, userId: Id, tenantId: Id, mfa: Option<bool>, sid: Id, rtid: Id)
    requires SessionInv(w) && w.now == now && FreshSession(w, sid)
    ensures var w' := OpenStep(c, w, now, userId, tenantId, mfa, sid, rtid).0;
            SessionInv(w') && Evolves(w, w') && w'.now == now
  {
    var (w', r) := OpenStep(c, w, now, userId, tenantId, mfa, sid, rtid);
    CreateKeepsCoherent(w.store, r.session, now);
    IssuingKeepsIds(w, w', r.refreshToken, sid);
  }

  /** A step that writes only row `sid`, with a refresh-token id it keeps, clears or signs. */
  lemma IssuingKeepsIds(w: World, w': World, token: RefreshPayload, sid: Id)
    requires IdsIssued(w) && w'.issued == w.issued + {token}
    requires forall id :: id in w'.store.rows && id != sid ==>
               id in w.store.rows && w'.store.rows[id] == w.store.rows[id]
    requires sid in w'.store.rows ==>
               w'.store.rows[sid].refreshTokenId == token.rtid ||
               (sid in w.store.rows && w'.store.rows[sid].refreshTokenId == w.store.rows[sid].refreshTokenId)
    ensures IdsIssued(w')
  {
    forall id | id in w'.store.rows && w'.store.rows[id].refreshTokenId.Some?
      ensures IsIssued(w'.issued, w'.store.rows[id].refreshTokenId)
    {
      if id == sid && w'.store.rows[sid].refreshTokenId == token.rtid {
        assert token in w'.issued;
      } else {
        assert IsIssued(w.issued, w.store.rows[id].refreshTokenId);
      }
    }
  }

  lemma RevokeKeeps(w: World, now: Time, sid: Id)
    requires SessionInv(w) && w.now == now
    ensures SessionInv(RevokeStep(w, now, sid)) && Evolves(w, RevokeStep(w, now, sid))
    ensures sid in w.store.rows ==> RevokeStep(w, now, sid).store.rows[sid].revokedAt.Some?
  {
    RevokeKeepsCoherent(w.store, sid, now);
    var w' := RevokeStep(w, now, sid);
    forall id | id in w'.store.rows && w'.store.rows[id].refreshTokenId.Some?
      ensures IsIssued(w'.issued, w'.store.rows[id].refreshTokenId)
    {
      assert w'.store.rows[id].refreshTokenId == w.store.rows[id].refreshTokenId;
    }
  }

  lemma ReadKeeps(w: World, now: Time, sid: Id)
    requires SessionInv(w) && w.now == now
    ensures SessionInv(w.(store := AfterGet(w.store, sid, now)))
  {
    GetKeepsCoherent(w.store, sid, now);
    var w' := w.(store := AfterGet(w.store, sid, now));
    forall id | id in w'.store.rows && w'.store.rows[id].refreshTokenId.Some?
      ensures IsIssued(w'.issued, w'.store.rows[id].refreshTokenId)
    {
      assert IsIssued(w.issued, w.store.rows[id].refreshTokenId);
    }
  }

  /** Saving back what was read, with `mfaAuthenticated` set. */
  lemma VerifyMfaKeeps(c: Config, w: World, now: Time, actorId: Id, sessionId: Option<Id>, codeValid: bool, sid: Id)
    requires SessionInv(w) && w.now == now && FreshSession(w, sid)
    ensures var w' := VerifyMfaStep(c, w, now, actorId, sessionId, codeValid, sid).0;
            SessionInv(w') && Evolves(w, w') && w'.now == now
  {
    var (w', r) := VerifyMfaStep(c, w, now, actorId, sessionId, codeValid, sid);
    if r.Granted? {
      var st := w.store;
      if sessionId.Some? {
        ReadKeeps(w, now, sessionId.value);
        GetDescribesRow(w.store, sessionId.value, now);
        st := AfterGet(w.store, sessionId.value, now);
      }
      if sessionId.Some? && GetResult(w.store, sessionId.value, now).Some? {
        SaveKeepsCoherent(st, r.session, now);
        IssuingKeepsIds(w, w', r.refreshToken, sessionId.value);
      } else {
        CreateKeepsCoherent(st, r.session, now);
        IssuingKeepsIds(w, w', r.refreshToken, sid);
      }
    }
  }

  // ---------------------------------------------------------------- refreshSession

  /** When the table alone says a refresh token is to be accepted. */
  ghost predicate TableAccepts(w: World, p: RefreshPayload, now: Time) {
    && Presentable(w, p, now)
    && (w.store.rows[p.sessionId].refreshTokenId.Some? ==> w.store.rows[p.sessionId].refreshTokenId == p.rtid)
    && p.sub in w.users && w.users[p.sub].status == ACTIVE
    && (w.users[p.sub].lockedUntil.Some? ==> w.users[p.sub].lockedUntil.value <= now)
  }

  /** The session is alive and the token names its owner. */
  ghost predicate Presentable(w: World, p: RefreshPayload, now: Time) {
    && p.sessionId in w.store.rows
    && w.store.rows[p.sessionId].revokedAt.None? && now < w.store.rows[p.sessionId].expiresAt
    && w.store.rows[p.sessionId].userId == p.sub && w.store.rows[p.sessionId].tenantId == p.tenantId
  }

  /** The one row an accepted token changes. */
  function RotatedRow(c: Config, row: SessionRow, now: Time, rtid: Id): SessionRow {
    row.(expiresAt := now + c.refreshTtl, refreshTokenId := Some(rtid))
  }

  /** Acceptance is decided by the tables alone, whatever the cache holds; an accepted token
      rotates its row and nothing else, and a presentable token that is refused revokes. */
  lemma RefreshDecision(c: Config, w: World, now: Time, p: RefreshPayload, verified: bool, rtid: Id)
    requires SessionInv(w) && w.now == now && FreshTokenId(w, rtid)
    ensures var (w', r) := RefreshStep(c, w, now, p, verified, rtid);
            && (r.Granted? <==> verified && TableAccepts(w, p, now))
            && (r.Granted? ==>
                  && w'.store.rows == w.store.rows[p.sessionId := RotatedRow(c, w.store.rows[p.sessionId], now, rtid)]
                  && r.session == Projection(p.sessionId, w'.store.rows[p.sessionId])
                  && r.refreshToken.sessionId == p.sessionId && r.refreshToken.rtid == Some(rtid))
            && (!r.Granted? && verified && Presentable(w, p, now) ==>
                  w'.store.rows == RevokedRows(w.store.rows, p.sessionId, now))
            && w'.users == w.users && w'.tokens == w.tokens && w'.now == now
  {
    hide IdsIssued;
    if verified {
      GetDescribesRow(w.store, p.sessionId, now);
      GetAgreesWithTable(w.store, p.sessionId, now);
      GetKeepsCoherent(w.store, p.sessionId, now);
    }
  }

  lemma RefreshKeeps(c: Config, w: World, now: Time, p: RefreshPayload, verified: bool, rtid: Id)
    requires SessionInv(w) && w.now == now && FreshTokenId(w, rtid)
    ensures var w' := RefreshStep(c, w, now, p, verified, rtid).0;
            SessionInv(w') && Evolves(w, w') && w'.now == now
  {
    if verified {
      var (w', r) := RefreshStep(c, w, now, p, verified, rtid);
      var w1 := w.(store := AfterGet(w.store, p.sessionId, now));
      ReadKeeps(w, now, p.sessionId);
      GetDescribesRow(w.store, p.sessionId, now);
      GetKeepsCoherent(w.store, p.sessionId, now);
      RevokeKeeps(w1, now, p.sessionId);
      if r.Granted? {
        SaveKeepsCoherent(w1.store, r.session, now);
        IssuingKeepsIds(w, w', r.refreshToken, p.sessionId);
      }
    }
  }

  // ---------------------------------------------------------------- every step

  predicate AccountOp(op: Op) {
    op.Invite? || op.RequestReset? || op.ConfirmReset? || op.Login? || op.SetupMfa?
  }

  lemma AccountStepsLeaveSessions(c: Config, w: World, call: Call)
    requires AccountOp(call.op)
    ensures var w' := Step(c, w, call).0;
            w'.store == w.store && w'.issued == w.issued && w'.now == call.now
  {
    hide InviteStep, RequestResetStep, ConfirmResetStep, LoginStep, SetupMfaStep;
  }

  lemma StepKeepsSessions(c: Config, w: World, call: Call)
    requires SessionInv(w) && Legal(c, w, call)
    ensures var w' := Step(c, w, call).0; SessionInv(w') && Evolves(w, w') && w'.now == call.now
  {
    var v := w.(now := call.now);
    CoherentLater(w.store, w.now, v.now);
    assert IdsIssued(v);
    if AccountOp(call.op) {
      AccountStepsLeaveSessions(c, w, call);
      AccountStepKeepsSessions(v, Step(c, w, call).0);
    } else {
      SessionStepKeepsSessions(c, v, call);
    }
  }

  lemma AccountStepKeepsSessions(w: World, w': World)
    requires SessionInv(w) && w'.store == w.store && w'.issued == w.issued && w'.now == w.now
    ensures SessionInv(w') && Evolves(w, w')
  {
  }

  lemma SsoKeeps(c: Config, w: World, now: Time, i: SsoInput, newUser: Id, sid: Id, rtid: Id)
    requires SessionInv(w) && w.now == now && FreshSession(w, sid)
    ensures var w' := SsoStep(c, w, now, i, newUser, sid, rtid).0;
            SessionInv(w') && Evolves(w, w') && w'.now == now
  {
    hide ResolveSso, OpenStep;
    var mfa := Some(if i.mfaAuthenticated.Some? then i.mfaAuthenticated.value else true);
    var (users, resolution) := ResolveSso(w.users, i, newUser);
    if resolution.Resolved? {
      var v := w.(users := users);
      assert IdsIssued(v);
      OpenKeeps(c, v, now, resolution.userId, resolution.tenantId, mfa, sid, rtid);
    }
  }

  lemma SessionStepKeepsSessions(c: Config, w: World, call: Call)
    requires SessionInv(w) && Legal(c, w, call) && w.now == call.now && !AccountOp(call.op)
    ensures var w' := Step(c, w, call).0; SessionInv(w') && Evolves(w, w') && w'.now == call.now
  {
    hide OpenStep, SsoStep, RefreshStep, VerifyMfaStep, SessionInv, Evolves;
    match call.op
    case OpenSession(userId, tenantId, mfa, sid, rtid) => OpenKeeps(c, w, w.now, userId, tenantId, mfa, sid, rtid);
    case SsoLogin(i, newUser, sid, rtid) => SsoKeeps(c, w, w.now, i, newUser, sid, rtid);
    case Refresh(p, verified, rtid) => RefreshKeeps(c, w, w.now, p, verified, rtid);
    case VerifyMfa(actorId, sessionId, codeValid, sid) =>
      VerifyMfaKeeps(c, w, w.now, actorId, sessionId, codeValid, sid);
    case Revoke(sessionId) =>
      if sessionId.Some? {
        RevokeKeeps(w, w.now, sessionId.value);
      } else {
        AccountStepKeepsSessions(w, w);
      }
  }

  /** In every reachable state the cache agrees with the table. */
  lemma {:induction false} CacheAlwaysCoherent(c: Config, run: Run, i: nat)
    requires IsRun(c, run) && SessionInv(run.worlds[0]) && i <= |run.calls|
    ensures SessionInv(run.worlds[i])
  {
    if i > 0 {
      CacheAlwaysCoherent(c, run, i - 1);
      assert StepAt(c, run, i - 1);
      StepKeepsSessions(c, run.worlds[i - 1], run.calls[i - 1]);
    }
  }

  /** So at any point of any run, reading an unexpired row through the cache gives exactly what
      the table alone would give. */
  lemma CachedReadsAreTableReads(c: Config, run: Run, i: nat, id: Id, now: Time)
    requires IsRun(c, run) && SessionInv(run.worlds[0]) && i <= |run.calls|
    requires run.worlds[i].now <= now
    requires id in run.worlds[i].store.rows && now < run.worlds[i].store.rows[id].expiresAt
    ensures GetResult(run.worlds[i].store, id, now) == TableGet(run.worlds[i].store.rows, id, now)
  {
    CacheAlwaysCoherent(c, run, i);
    CoherentLater(run.worlds[i].store, run.worlds[i].now, now);
    GetAgreesWithTable(run.worlds[i].store, id, now);
  }

  // ---------------------------------------------------------------- over whole runs

  lemma StepOfRun(c: Config, run: Run, i: nat)
    requires IsRun(c, run) && SessionInv(run.worlds[0]) && i < |run.calls|
    ensures SessionInv(run.worlds[i]) && Evolves(run.worlds[i], run.worlds[i + 1])
    ensures run.worlds[i + 1].now == run.calls[i].now
  {
    CacheAlwaysCoherent(c, run, i);
    assert StepAt(c, run, i);
    StepKeepsSessions(c, run.worlds[i], run.calls[i]);
  }

  /** Owner, tenant and creation time of a session never change, and a second factor once
      given stays. */
  lemma {:induction false} SessionColumnsImmutable(c: Config, run: Run, i: nat, j: nat, id: Id)
    requires IsRun(c, run) && SessionInv(run.worlds[0]) && i <= j <= |run.calls|
    requires id in run.worlds[i].store.rows
    ensures id in run.worlds[j].store.rows
    ensures var a, b := run.worlds[i].store.rows[id], run.worlds[j].store.rows[id];
            && b.userId == a.userId && b.tenantId == a.tenantId && b.createdAt == a.createdAt
            && (a.mfaAuthenticated ==> b.mfaAuthenticated)
            && (a.revokedAt.Some? ==> b.revokedAt.Some?)
    decreases j
  {
    if i < j {
      SessionColumnsImmutable(c, run, i, j - 1, id);
      StepOfRun(c, run, j - 1);
    }
  }

  /** No call hands out a session that was revoked before it. */
  lemma GrantedSessionNotRevoked(c: Config, w: World, call: Call, id: Id)
    requires SessionInv(w) && Legal(c, w, call)
    requires id in w.store.rows && w.store.rows[id].revokedAt.Some?
    ensures var r := Step(c, w, call).1; r.Granted? ==> r.session.sessionId != id
  {
    hide IdsIssued, InviteStep, RequestResetStep, ConfirmResetStep, LoginStep, SetupMfaStep;
    CoherentLater(w.store, w.now, call.now);
    match call.op
    case Refresh(p, verified, rtid) => GetDescribesRow(w.store, p.sessionId, call.now);
    case VerifyMfa(actorId, sessionId, codeValid, sid) =>
      if sessionId.Some? {
        GetDescribesRow(w.store, sessionId.value, call.now);
      }
    case _ =>
  }

  /** Revocation is final: after it no call of any kind returns that session again. */
  lemma RevocationIsFinal(c: Config, run: Run, i: nat, j: nat, id: Id)
    requires IsRun(c, run) && SessionInv(run.worlds[0]) && i <= j < |run.calls|
    requires id in run.worlds[i].store.rows && run.worlds[i].store.rows[id].revokedAt.Some?
    ensures id in run.worlds[j].store.rows && run.worlds[j].store.rows[id].revokedAt.Some?
    ensures run.replies[j].Granted? ==> run.replies[j].session.sessionId != id
  {
    SessionColumnsImmutable(c, run, i, j, id);
    CacheAlwaysCoherent(c, run, j);
    assert StepAt(c, run, j);
    GrantedSessionNotRevoked(c, run.worlds[j], run.calls[j], id);
  }

  /** The pair (sid, r) was rotated away: the row holds another id, and `r` can never be
      drawn again. */
  ghost predicate Superseded(w: World, sid: Id, r: Option<Id>) {
    && sid in w.store.rows && w.store.rows[sid].refreshTokenId.Some?
    && w.store.rows[sid].refreshTokenId != r
    && (r.Some? ==> IsIssued(w.issued, r))
  }

  lemma AcceptedIsSuperseded(c: Config, run: Run, i: nat)
    requires IsRun(c, run) && SessionInv(run.worlds[0]) && i < |run.calls| && run.calls[i].op.Refresh?
    requires run.replies[i].Granted?
    ensures Superseded(run.worlds[i + 1], run.calls[i].op.payload.sessionId, run.calls[i].op.payload.rtid)
  {
    var v := run.worlds[i];
    var Refresh(p, verified, rtid) := run.calls[i].op;
    StepOfRun(c, run, i);
    RefreshOfRun(c, run, i);
    assert p in v.issued && p.rtid != Some(rtid);
    assert IsIssued(run.worlds[i + 1].issued, p.rtid);
  }

  lemma SupersededStep(a: World, b: World, sid: Id, r: Option<Id>)
    requires Evolves(a, b) && Superseded(a, sid, r)
    ensures Superseded(b, sid, r)
  {
    assert RowEvolves(a.issued, b.now, a.store.rows[sid], b.store.rows[sid]);
    if r.Some? {
      var p :| p in a.issued && p.rtid == r;
      assert p in b.issued;
    }
  }

  lemma {:induction false} SupersededStays(c: Config, run: Run, i: nat, j: nat, sid: Id, r: Option<Id>)
    requires IsRun(c, run) && SessionInv(run.worlds[0]) && i <= j <= |run.calls|
    requires Superseded(run.worlds[i], sid, r)
    ensures Superseded(run.worlds[j], sid, r)
    decreases j
  {
    if i < j {
      SupersededStays(c, run, i, j - 1, sid, r);
      StepOfRun(c, run, j - 1);
      SupersededStep(run.worlds[j - 1], run.worlds[j], sid, r);
    }
  }

  /** `RefreshDecision` at a point of a run. */
  lemma RefreshOfRun(c: Config, run: Run, i: nat)
    requires IsRun(c, run) && SessionInv(run.worlds[0]) && i < |run.calls| && run.calls[i].op.Refresh?
    ensures var v, v', now := run.worlds[i], run.worlds[i + 1], run.calls[i].now;
            var Refresh(p, verified, rtid) := run.calls[i].op;
            && (run.replies[i].Granted? <==> verified && TableAccepts(v, p, now))
            && (run.replies[i].Granted? ==>
                  v'.store.rows == v.store.rows[p.sessionId := RotatedRow(c, v.store.rows[p.sessionId], now, rtid)])
            && (!run.replies[i].Granted? && verified && Presentable(v, p, now) ==>
                  v'.store.rows == RevokedRows(v.store.rows, p.sessionId, now))
            && (verified ==> p in v.issued) && FreshTokenId(v, rtid) && v.now <= now
  {
    var v := run.worlds[i];
    StepOfRun(c, run, i);
    CoherentLater(v.store, v.now, run.calls[i].now);
    assert StepAt(c, run, i);
    RefreshDecision(c, v.(now := run.calls[i].now), run.calls[i].now,
                    run.calls[i].op.payload, run.calls[i].op.verified, run.calls[i].op.rtid);
  }

  /** Single use: over any run, a (session id, refresh-token id) pair is accepted at most once. */
  lemma RefreshTokenSingleUse(c: Config, run: Run, i: nat, j: nat)
    requires IsRun(c, run) && SessionInv(run.worlds[0]) && i < j < |run.calls|
    requires run.calls[i].op.Refresh? && run.calls[j].op.Refresh?
    requires run.calls[i].op.payload.sessionId == run.calls[j].op.payload.sessionId
    requires run.calls[i].op.payload.rtid == run.calls[j].op.payload.rtid
    ensures !(run.replies[i].Granted? && run.replies[j].Granted?)
  {
    if run.replies[i].Granted? {
      AcceptedIsSuperseded(c, run, i);
      SupersededStays(c, run, i + 1, j, run.calls[i].op.payload.sessionId, run.calls[i].op.payload.rtid);
      RefreshOfRun(c, run, j);
    }
  }

  /** A session that is revoked or past its expiry. */
  ghost predicate Dead(w: World, sid: Id) {
    sid in w.store.rows && (w.store.rows[sid].revokedAt.Some? || w.store.rows[sid].expiresAt <= w.now)
  }

  lemma DeadStep(a: World, b: World, sid: Id)
    requires Evolves(a, b) && Dead(a, sid)
    ensures Dead(b, sid)
  {
    assert RowEvolves(a.issued, b.now, a.store.rows[sid], b.store.rows[sid]);
  }

  lemma {:induction false} DeadStays(c: Config, run: Run, i: nat, j: nat, sid: Id)
    requires IsRun(c, run) && SessionInv(run.worlds[0]) && i <= j <= |run.calls| && Dead(run.worlds[i], sid)
    ensures Dead(run.worlds[j], sid)
    decreases j
  {
    if i < j {
      DeadStays(c, run, i, j - 1, sid);
      StepOfRun(c, run, j - 1);
      DeadStep(run.worlds[j - 1], run.worlds[j], sid);
    }
  }

  /** Nothing is accepted for a dead session. */
  lemma DeadRefuses(c: Config, run: Run, k: nat)
    requires IsRun(c, run) && SessionInv(run.worlds[0]) && k < |run.calls| && run.calls[k].op.Refresh?
    requires Dead(run.worlds[k], run.calls[k].op.payload.sessionId)
    ensures !run.replies[k].Granted?
  {
    RefreshOfRun(c, run, k);
  }

  /** A verified token of the right owner that is refused leaves its session dead. */
  lemma RefusedIsDead(c: Config, run: Run, j: nat)
    requires IsRun(c, run) && SessionInv(run.worlds[0]) && j < |run.calls| && run.calls[j].op.Refresh?
    requires run.calls[j].op.verified && !run.replies[j].Granted?
    requires var v, p := run.worlds[j], run.calls[j].op.payload;
             && p.sessionId in v.store.rows && v.store.rows[p.sessionId].userId == p.sub
             && v.store.rows[p.sessionId].tenantId == p.tenantId
    ensures Dead(run.worlds[j + 1], run.calls[j].op.payload.sessionId)
  {
    var p := run.calls[j].op.payload;
    RefreshOfRun(c, run, j);
    StepOfRun(c, run, j);
    var a, b := run.worlds[j], run.worlds[j + 1];
    assert RowEvolves(a.issued, b.now, a.store.rows[p.sessionId], b.store.rows[p.sessionId]);
  }

  /** Reuse detection: once a token has been accepted, presenting the same token again ends
      its session; no token of that session is accepted from then on. */
  lemma ReuseEndsSession(c: Config, run: Run, i: nat, j: nat, k: nat)
    requires IsRun(c, run) && SessionInv(run.worlds[0]) && i < j < k < |run.calls|
    requires run.calls[i].op.Refresh? && run.replies[i].Granted?
    requires run.calls[j].op.Refresh? && run.calls[j].op.verified && run.calls[j].op.payload == run.calls[i].op.payload
    requires run.calls[k].op.Refresh? && run.calls[k].op.payload.sessionId == run.calls[i].op.payload.sessionId
    ensures !run.replies[j].Granted? && !run.replies[k].Granted?
  {
    var p := run.calls[i].op.payload;
    RefreshTokenSingleUse(c, run, i, j);
    RefreshOfRun(c, run, i);
    SessionColumnsImmutable(c, run, i, j, p.sessionId);
    RefusedIsDead(c, run, j);
    DeadStays(c, run, j + 1, k, p.sessionId);
    DeadRefuses(c, run, k);
  }

  // ---------------------------------------------------------------- granted tokens work

  /** A granted session is cached as it was returned, so its row is the same. */
  lemma GrantedIsCached(c: Config, w: World, call: Call)
    requires Legal(c, w, call)
    ensures var (w', r) := Step(c, w, call);
            r.Granted? ==> Live(w'.store.cache, r.session.sessionId, call.now) &&
                           w'.store.cache[r.session.sessionId].session == r.session &&
                           r.refreshToken.sessionId == r.session.sessionId &&
                           r.refreshToken.rtid == r.session.refreshTokenId
  {
    hide InviteStep, RequestResetStep, ConfirmResetStep, LoginStep, SetupMfaStep;
  }

  /** The refresh token that any call hands out is accepted by the very next call exactly if
      its session has not expired, it names the session's owner and tenant, and the owner may
      sign in. (The second condition can fail for a token of `verifyMfa`, which names the actor.) */
  lemma GrantedTokenUsableIff(c: Config, run: Run, i: nat)
    requires IsRun(c, run) && SessionInv(run.worlds[0]) && i + 1 < |run.calls|
    requires run.replies[i].Granted? && run.calls[i + 1].op.Refresh?
    requires run.calls[i + 1].op.payload == run.replies[i].refreshToken && run.calls[i + 1].op.verified
    ensures var s, p, now := run.replies[i].session, run.replies[i].refreshToken, run.calls[i + 1].now;
            var users := run.worlds[i + 1].users;
            run.replies[i + 1].Granted? <==>
              now < s.expiresAt && p.sub == s.userId && p.tenantId == s.tenantId &&
              p.sub in users && users[p.sub].status == ACTIVE &&
              (users[p.sub].lockedUntil.Some? ==> users[p.sub].lockedUntil.value <= now)
  {
    assert StepAt(c, run, i);
    GrantedIsCached(c, run.worlds[i], run.calls[i]);
    StepOfRun(c, run, i);
    CacheAlwaysCoherent(c, run, i + 1);
    GetDescribesRow(run.worlds[i + 1].store, run.replies[i].session.sessionId, run.calls[i].now);
    RefreshOfRun(c, run, i + 1);
  }
}
