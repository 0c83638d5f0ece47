// What auth.service.ts decides about sessions, in terms of the tables alone: which refreshes,
// step-ups and sign-ins are granted, what they write, and where a session and its second
// factor come from.
module AuthSessionDecisions {
  import opened Options
  import opened EmailText
  import opened AuthSessions
  import opened AuthUsers
  import opened AuthModel
  import opened AuthRuns
  import opened AuthAccountRuns

  /** `get` finds the session: its row is not revoked, and it has not expired, or is still cached. */
  ghost predicate Found(st: StoreState, id: Id, now: Time) {
    && id in st.rows && st.rows[id].revokedAt == None
    && (now < st.rows[id].expiresAt || Live(st.cache, id, now))
  }

  lemma FoundIff(st: StoreState, id: Id, now: Time)
    requires Coherent(st, now)
    ensures GetResult(st, id, now).Some? <==> Found(st, id, now)
    ensures Found(st, id, now) ==>
              GetResult(st, id, now) ==
              Some(Session(id, st.rows[id].userId, st.rows[id].tenantId, st.rows[id].createdAt, st.rows[id].expiresAt,
                           st.rows[id].mfaAuthenticated, st.rows[id].refreshTokenId))
    ensures AfterGet(st, id, now).rows == st.rows
  {
    GetDescribesRow(st, id, now);
  }

  lemma CoherentAt(c: Config, run: Run, i: nat)
    requires IsRun(c, run) && SessionInv(run.worlds[0]) && i < |run.calls|
    ensures Coherent(run.worlds[i].store, run.calls[i].now) && StepAt(c, run, i)
  {
    CacheAlwaysCoherent(c, run, i);
    assert StepAt(c, run, i);
    CoherentLater(run.worlds[i].store, run.worlds[i].now, run.calls[i].now);
  }

  // ---------------------------------------------------------------- refresh

  /** A refresh is granted exactly if its token is verified, its session is alive, belongs to the
      token's user and tenant and has no other refresh-token id, and that user exists, is ACTIVE
      and not locked. */
  lemma RefreshGrantedIff(c: Config, run: Run, i: nat)
    requires IsRun(c, run) && SessionInv(run.worlds[0]) && i < |run.calls| && run.calls[i].op.Refresh?
    ensures var v, p, now := run.worlds[i], run.calls[i].op.payload, run.calls[i].now;
            run.replies[i].Granted? <==>
              && run.calls[i].op.verified
              && p.sessionId in v.store.rows
              && var row := v.store.rows[p.sessionId];
                 && row.revokedAt == None && now < row.expiresAt
                 && row.userId == p.sub && row.tenantId == p.tenantId
                 && (row.refreshTokenId == None || row.refreshTokenId == p.rtid)
                 && p.sub in v.users && v.users[p.sub].status == ACTIVE
                 && (v.users[p.sub].lockedUntil == None || v.users[p.sub].lockedUntil.value <= now)
  {
    RefreshOfRun(c, run, i);
  }

  /** What it writes: a granted one moves expiry and id of its row; a refused one that found the
      session of its owner revokes it; any other leaves the rows as they are. */
  lemma RefreshWrites(c: Config, run: Run, i: nat)
    requires IsRun(c, run) && SessionInv(run.worlds[0]) && i < |run.calls| && run.calls[i].op.Refresh?
    ensures var v, rows, now, r := run.worlds[i], run.worlds[i].store.rows, run.calls[i].now, run.replies[i];
            var Refresh(p, verified, rtid) := run.calls[i].op;
            if r.Granted? then
              && p.sessionId in rows && p.sub in v.users
              && var row := rows[p.sessionId];
                 && run.worlds[i + 1].store.rows ==
                    rows[p.sessionId := row.(expiresAt := now + c.refreshTtl, refreshTokenId := Some(rtid))]
                 && r.session == Session(p.sessionId, p.sub, p.tenantId, row.createdAt, now + c.refreshTtl,
                                         row.mfaAuthenticated, Some(rtid))
                 && r.refreshToken == RefreshPayload(p.sub, v.users[p.sub].tenantId, p.sessionId, Some(rtid))
            else if verified && Found(v.store, p.sessionId, now) &&
                    rows[p.sessionId].userId == p.sub && rows[p.sessionId].tenantId == p.tenantId then
              run.worlds[i + 1].store.rows == rows[p.sessionId := rows[p.sessionId].(revokedAt := Some(now))]
            else run.worlds[i + 1].store.rows == rows
  {
    var p := run.calls[i].op.payload;
    CoherentAt(c, run, i);
    FoundIff(run.worlds[i].store, p.sessionId, run.calls[i].now);
  }

  /** From the moment an account is locked until its password is reset, none of its refresh
      tokens is accepted, however much time passes; presenting one of an own session ends that
      session. */
  lemma NoRefreshWhileLocked(c: Config, run: Run, i: nat, j: nat, id: Id)
    requires IsRun(c, run) && SessionInv(run.worlds[0]) && AccountInv(c, run.worlds[0].users)
    requires i <= j < |run.calls| && id in run.worlds[i].users && run.worlds[i].users[id].status == LOCKED
    requires NoResetBetween(c, run, i, j, id)
    requires run.calls[j].op.Refresh? && run.calls[j].op.payload.sub == id
    ensures !run.replies[j].Granted?
    ensures var v, p := run.worlds[j], run.calls[j].op.payload;
            run.calls[j].op.verified && p.sessionId in v.store.rows &&
            v.store.rows[p.sessionId].userId == id && v.store.rows[p.sessionId].tenantId == p.tenantId ==>
              Dead(run.worlds[j + 1], p.sessionId)
  {
    LockedUntilReset(c, run, i, j, id);
    RefreshGrantedIff(c, run, j);
    var v, p := run.worlds[j], run.calls[j].op.payload;
    if run.calls[j].op.verified && p.sessionId in v.store.rows &&
       v.store.rows[p.sessionId].userId == id && v.store.rows[p.sessionId].tenantId == p.tenantId
    {
      RefusedIsDead(c, run, j);
    }
  }

  // ---------------------------------------------------------------- second factor

  /** A step-up is granted exactly if the actor exists, has set a secret up, and the code is
      valid. */
  lemma StepUpGrantedIff(c: Config, run: Run, i: nat)
    requires IsRun(c, run) && i < |run.calls| && run.calls[i].op.VerifyMfa?
    ensures var users, actorId := run.worlds[i].users, run.calls[i].op.actorId;
            run.replies[i].Granted? <==>
              actorId in users && users[actorId].mfaSecret != None && run.calls[i].op.codeValid
  {
    assert StepAt(c, run, i);
  }

  /** What it writes: the second factor of the presented session if that was found, else a new
      session of the actor; a refused one writes nothing. */
  lemma StepUpWrites(c: Config, run: Run, i: nat)
    requires IsRun(c, run) && SessionInv(run.worlds[0]) && i < |run.calls| && run.calls[i].op.VerifyMfa?
    ensures var v, rows, now, r := run.worlds[i], run.worlds[i].store.rows, run.calls[i].now, run.replies[i];
            var VerifyMfa(actorId, presented, _, sid) := run.calls[i].op;
            if !r.Granted? then run.worlds[i + 1].store.rows == rows
            else
              && actorId in v.users
              && r.refreshToken == RefreshPayload(actorId, v.users[actorId].tenantId, r.session.sessionId,
                                                  r.session.refreshTokenId)
              && if presented.Some? && Found(v.store, presented.value, now) then
                   var id, row := presented.value, rows[presented.value];
                   && r.session == Session(id, row.userId, row.tenantId, row.createdAt, row.expiresAt, true,
                                           row.refreshTokenId)
                   && run.worlds[i + 1].store.rows == rows[id := row.(mfaAuthenticated := true)]
                 else
                   && r.session == Session(sid, actorId, v.users[actorId].tenantId, now, now + c.refreshTtl, true, None)
                   && run.worlds[i + 1].store.rows ==
                      rows[sid := SessionRow(v.users[actorId].tenantId, actorId, true, None, now + c.refreshTtl,
                                             None, now)]
  {
    var presented := run.calls[i].op.sessionId;
    CoherentAt(c, run, i);
    if presented.Some? {
      FoundIff(run.worlds[i].store, presented.value, run.calls[i].now);
    }
  }

  // ---------------------------------------------------------------- where sessions come from

  /** A session that a call opens has its second factor from the start exactly if the caller
      says so, or says nothing and the policy asks for none; after an SSO login also if nothing
      is said. */
  lemma OpenWrites(c: Config, run: Run, i: nat)
    requires IsRun(c, run) && i < |run.calls| && run.calls[i].op.OpenSession?
    ensures var rows, now, r := run.worlds[i].store.rows, run.calls[i].now, run.replies[i];
            var OpenSession(userId, tenantId, mfa, sid, rtid) := run.calls[i].op;
            var stepped := mfa == Some(true) || (mfa == None && !c.mfaRequired);
            && r == Granted(Session(sid, userId, tenantId, now, now + c.refreshTtl, stepped, Some(rtid)),
                            RefreshPayload(userId, tenantId, sid, Some(rtid)))
            && run.worlds[i + 1].store.rows ==
               rows[sid := SessionRow(tenantId, userId, stepped, Some(rtid), now + c.refreshTtl, None, now)]
  {
    assert StepAt(c, run, i);
  }

  lemma SsoWrites(c: Config, run: Run, i: nat)
    requires IsRun(c, run) && i < |run.calls| && run.calls[i].op.SsoLogin?
    ensures var rows, now, r := run.worlds[i].store.rows, run.calls[i].now, run.replies[i];
            var SsoLogin(x, _, sid, rtid) := run.calls[i].op;
            if !r.Granted? then run.worlds[i + 1].store == run.worlds[i].store
            else
              var s, stepped := r.session, x.mfaAuthenticated != Some(false);
              && s == Session(sid, s.userId, s.tenantId, now, now + c.refreshTtl, stepped, Some(rtid))
              && r.refreshToken == RefreshPayload(s.userId, s.tenantId, sid, Some(rtid))
              && run.worlds[i + 1].store.rows ==
                 rows[sid := SessionRow(s.tenantId, s.userId, stepped, Some(rtid), now + c.refreshTtl, None, now)]
  {
    hide ResolveSso;
    assert StepAt(c, run, i);
  }

  /** The call gives the session its second factor: it opens it with one, or is a granted
      step-up that names it or opens it. */
  ghost predicate GivesSecondFactor(c: Config, call: Call, r: Reply, id: Id) {
    && r.Granted? && r.session.sessionId == id
    && match call.op
       case OpenSession(_, _, mfa, sid, _) => sid == id && (mfa == Some(true) || (mfa == None && !c.mfaRequired))
       case SsoLogin(x, _, sid, _) => sid == id && x.mfaAuthenticated != Some(false)
       case VerifyMfa(_, presented, codeValid, sid) => codeValid && (presented == Some(id) || sid == id)
       case _ => false
  }

  ghost predicate SteppedUp(w: World, id: Id) {
    id in w.store.rows && w.store.rows[id].mfaAuthenticated
  }

  lemma RevokeWrites(c: Config, run: Run, i: nat)
    requires IsRun(c, run) && i < |run.calls| && run.calls[i].op.Revoke?
    ensures var rows, id := run.worlds[i].store.rows, run.calls[i].op.sessionId;
            run.worlds[i + 1].store.rows ==
            if id.Some? && id.value in rows
            then rows[id.value := rows[id.value].(revokedAt := Some(run.calls[i].now))] else rows
  {
    assert StepAt(c, run, i);
  }

  lemma SecondFactorStep(c: Config, run: Run, i: nat, id: Id)
    requires IsRun(c, run) && SessionInv(run.worlds[0]) && i < |run.calls|
    requires SteppedUp(run.worlds[i + 1], id) && !SteppedUp(run.worlds[i], id)
    ensures GivesSecondFactor(c, run.calls[i], run.replies[i], id)
    ensures run.calls[i].op.VerifyMfa? && id in run.worlds[i].store.rows ==> run.calls[i].op.sessionId == Some(id)
  {
    hide IsRun, SessionInv;
    match run.calls[i].op
    case OpenSession(_, _, _, _, _) => OpenWrites(c, run, i);
    case SsoLogin(_, _, _, _) => SsoWrites(c, run, i);
    case Refresh(_, _, _) => RefreshWrites(c, run, i);
    case VerifyMfa(_, _, _, _) =>
      StepUpGrantedIff(c, run, i);
      StepUpWrites(c, run, i);
      SessionsNew(c, run, i);
    case Revoke(_) => RevokeWrites(c, run, i);
    case _ => AccountCallWrites(c, run, i);
  }

  lemma SessionsNew(c: Config, run: Run, i: nat)
    requires IsRun(c, run) && i < |run.calls| && run.calls[i].op.VerifyMfa?
    ensures run.calls[i].op.sid !in run.worlds[i].store.rows
  {
    assert StepAt(c, run, i);
  }

  lemma AccountCallWrites(c: Config, run: Run, i: nat)
    requires IsRun(c, run) && i < |run.calls| && AccountOp(run.calls[i].op)
    ensures run.worlds[i + 1].store == run.worlds[i].store
  {
    assert StepAt(c, run, i);
    AccountStepsLeaveSessions(c, run.worlds[i], run.calls[i]);
  }

  /** Whenever a session counts as stepped up, some call of the run gave it its second factor:
      in a run on which it was opened without one, a granted step-up with a valid code that
      named it. */
  lemma {:induction false} SecondFactorHasCause(c: Config, run: Run, i: nat, j: nat, id: Id) returns (k: nat)
    requires IsRun(c, run) && SessionInv(run.worlds[0]) && i <= j <= |run.calls|
    requires SteppedUp(run.worlds[j], id) && !SteppedUp(run.worlds[i], id)
    ensures i <= k < j && GivesSecondFactor(c, run.calls[k], run.replies[k], id)
    ensures id in run.worlds[i].store.rows ==>
              run.calls[k].op.VerifyMfa? && run.calls[k].op.sessionId == Some(id) && run.calls[k].op.codeValid
    decreases j
  {
    hide SteppedUp, GivesSecondFactor, SessionInv;
    assert i < j;
    if SteppedUp(run.worlds[j - 1], id) {
      k := SecondFactorHasCause(c, run, i, j - 1, id);
    } else {
      k := j - 1;
      SecondFactorStep(c, run, k, id);
      if id in run.worlds[i].store.rows {
        SessionColumnsImmutable(c, run, i, k, id);
        OldSessionStepsUp(c, run, k, id);
      }
    }
  }

  /** A new session does not take the id of an old one. */
  lemma OldSessionStepsUp(c: Config, run: Run, k: nat, id: Id)
    requires IsRun(c, run) && k < |run.calls| && id in run.worlds[k].store.rows
    requires GivesSecondFactor(c, run.calls[k], run.replies[k], id)
    ensures run.calls[k].op.VerifyMfa? && run.calls[k].op.sessionId == Some(id) && run.calls[k].op.codeValid
  {
    hide Step;
    assert StepAt(c, run, k);
  }

  /** Signing out is final: after a `revoke` of an existing session no call ever returns it. */
  lemma RevokedByCallIsFinal(c: Config, run: Run, i: nat, j: nat, id: Id)
    requires IsRun(c, run) && SessionInv(run.worlds[0]) && i < j < |run.calls|
    requires run.calls[i].op == Revoke(Some(id)) && id in run.worlds[i].store.rows
    ensures run.replies[j].Granted? ==> run.replies[j].session.sessionId != id
  {
    RevokeWrites(c, run, i);
    RevocationIsFinal(c, run, i + 1, j, id);
  }
}
