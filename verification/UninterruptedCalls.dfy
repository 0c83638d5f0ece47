// Run without interruption, the calls of RefreshInterleaving are the atomic calls of AuthModel.
module UninterruptedCalls {
  import opened Options
  import opened AuthSessions
  import opened AuthUsers
  import opened AuthModel
  import opened RefreshInterleaving

  /** The next statement of call `c`; a refresh draws `rtid` and the expiry `expiresAt`. */
  function Next(s: System, c: nat, now: Time, rtid: Id, expiresAt: Time): System {
    if c !in s.calls then s
    else match s.calls[c]
      case Looking(_, _) => Apply(s, ReadsTable(c, now))
      case Refreshing(_, _) => if rtid in s.drawn then s else Apply(s, Rotates(c, rtid, expiresAt))
      case SteppingUp(_, _, _) => Apply(s, StepsUp(c))
      case Revoking(_) => Apply(s, RevokesRow(c, now))
      case Dropping(_) => Apply(s, DropsEntry(c))
      case _ => Apply(s, WritesCache(c, now))
  }

  /** Its next `n` statements. */
  function Alone(s: System, c: nat, now: Time, rtid: Id, expiresAt: Time, n: nat): System
    decreases n
  {
    if n == 0 then s else Alone(Next(s, c, now, rtid, expiresAt), c, now, rtid, expiresAt, n - 1)
  }

  /** A call that has ended stays ended. */
  lemma {:induction false} EndedStays(s: System, c: nat, now: Time, rtid: Id, expiresAt: Time, n: nat)
    requires c !in s.calls
    ensures Alone(s, c, now, rtid, expiresAt, n) == s
  {
    if n > 0 {
      EndedStays(s, c, now, rtid, expiresAt, n - 1);
    }
  }

  lemma AloneSteps(s: System, c: nat, now: Time, rtid: Id, expiresAt: Time, n: nat)
    ensures n > 0 ==> Alone(s, c, now, rtid, expiresAt, n) ==
                      Alone(Next(s, c, now, rtid, expiresAt), c, now, rtid, expiresAt, n - 1)
    ensures n == 0 ==> Alone(s, c, now, rtid, expiresAt, n) == s
  {
  }

  /** The state in which a `get` leaves the store, and call `c` as it goes on from there. */
  function AfterLooking(s: System, c: nat, id: Id, u: Purpose, now: Time): System {
    var t := s.(store := AfterGet(s.store, id, now));
    match GetResult(s.store, id, now)
    case None => t.(calls := t.calls - {c})
    case Some(session) => Proceed(t, c, session, u)
  }

  /** A `get` takes at most two statements after the cache read, whatever it is for. */
  lemma GetAlone(s: System, c: nat, id: Id, u: Purpose, now: Time, rtid: Id, expiresAt: Time)
    requires Known(s) && Enabled(s, LooksUp(c, id, u, now))
    ensures var s1, end := Apply(s, LooksUp(c, id, u, now)), AfterLooking(s, c, id, u, now);
            if Live(s.store.cache, id, now) then s1 == end
            else if TableGet(s.store.rows, id, now).None? then Next(s1, c, now, rtid, expiresAt) == end
            else Next(Next(s1, c, now, rtid, expiresAt), c, now, rtid, expiresAt) == end
  {
    hide Known, CacheWith;
    var s1 := Apply(s, LooksUp(c, id, u, now));
    if !Live(s.store.cache, id, now) {
      assert s1.calls - {c} == s.calls == s.calls - {c};
      if TableGet(s.store.rows, id, now).Some? {
        var session := TableGet(s.store.rows, id, now).value;
        var s2 := Next(s1, c, now, rtid, expiresAt);
        assert s2.calls == s.calls[c := Filling(session, u)];
        SameProceed(Cached(s, session, now), s.calls[c := Filling(session, u)], c, session, u);
      }
    }
  }

  lemma SameProceed(
      s: System, calls: map<nat, RefreshInterleaving.Call>, c: nat, session: Session, u: Purpose)
    requires calls - {c} == s.calls - {c}
    ensures Proceed(s.(calls := calls), c, session, u) == Proceed(s, c, session, u)
  {
    if c in Proceed(s, c, session, u).calls {
      var h := Proceed(s, c, session, u).calls[c];
      assert calls[c := h] == (calls - {c})[c := h] && s.calls[c := h] == (s.calls - {c})[c := h];
    }
  }

  lemma RotatingAlone(s: System, c: nat, session: Session, tenantId: Id, now: Time, rtid: Id, expiresAt: Time, n: nat)
    requires c in s.calls && s.calls[c] == Refreshing(session, tenantId) && rtid !in s.drawn && n >= 2
    ensures var end := Alone(s, c, now, rtid, expiresAt, n);
            var rotated := session.(expiresAt := expiresAt, refreshTokenId := Some(rtid));
            && end.calls == s.calls - {c} && end.accepted == s.accepted
            && end.store == AfterSave(s.store, rotated, now)
            && end.issued == s.issued + {TokenFor(session.userId, tenantId, rotated)}
  {
    hide CacheWith, Updated;
    var s1 := Next(s, c, now, rtid, expiresAt);
    var s2 := Next(s1, c, now, rtid, expiresAt);
    AloneSteps(s, c, now, rtid, expiresAt, n);
    AloneSteps(s1, c, now, rtid, expiresAt, n - 1);
    assert s2.calls == s.calls - {c};
    EndedStays(s2, c, now, rtid, expiresAt, n - 2);
  }

  lemma RevokingAlone(s: System, c: nat, id: Id, now: Time, rtid: Id, expiresAt: Time, n: nat)
    requires c in s.calls && s.calls[c] == Revoking(id) && n >= 2
    ensures var end := Alone(s, c, now, rtid, expiresAt, n);
            && end.calls == s.calls - {c} && end.accepted == s.accepted && end.issued == s.issued
            && end.store == AfterRevoke(s.store, id, now)
  {
    hide RevokedRows;
    var s1 := Next(s, c, now, rtid, expiresAt);
    var s2 := Next(s1, c, now, rtid, expiresAt);
    AloneSteps(s, c, now, rtid, expiresAt, n);
    AloneSteps(s1, c, now, rtid, expiresAt, n - 1);
    assert s2.calls == s.calls - {c};
    EndedStays(s2, c, now, rtid, expiresAt, n - 2);
  }

  lemma SteppingUpAlone(s: System, c: nat, session: Session, actorId: Id, tenantId: Id, now: Time, n: nat)
    requires c in s.calls && s.calls[c] == SteppingUp(session, actorId, tenantId) && n >= 2
    ensures var end := Alone(s, c, now, "", 0, n);
            var stepped := session.(mfaAuthenticated := true);
            && end.calls == s.calls - {c} && end.accepted == s.accepted
            && end.store == AfterSave(s.store, stepped, now)
            && end.issued == s.issued + {TokenFor(actorId, tenantId, stepped)}
  {
    hide CacheWith, Updated;
    var s1 := Next(s, c, now, "", 0);
    var s2 := Next(s1, c, now, "", 0);
    AloneSteps(s, c, now, "", 0, n);
    AloneSteps(s1, c, now, "", 0, n - 1);
    assert s2.calls == s.calls - {c};
    EndedStays(s2, c, now, "", 0, n - 2);
  }

  /** The first two statements behind the cache read, if there are as many, make up the `get`. */
  lemma GetThenRest(s: System, c: nat, id: Id, u: Purpose, now: Time, rtid: Id, expiresAt: Time)
      returns (n: nat)
    requires Known(s) && Enabled(s, LooksUp(c, id, u, now))
    ensures n >= 2
    ensures Alone(Apply(s, LooksUp(c, id, u, now)), c, now, rtid, expiresAt, 4) ==
            Alone(AfterLooking(s, c, id, u, now), c, now, rtid, expiresAt, n)
  {
    hide Known, Next, AfterLooking, Apply;
    GetAlone(s, c, id, u, now, rtid, expiresAt);
    var s1 := Apply(s, LooksUp(c, id, u, now));
    AloneSteps(s1, c, now, rtid, expiresAt, 4);
    AloneSteps(Next(s1, c, now, rtid, expiresAt), c, now, rtid, expiresAt, 3);
    n := if Live(s.store.cache, id, now) then 4 else if TableGet(s.store.rows, id, now).None? then 3 else 2;
  }

  /** A refresh that no other call interrupts is the atomic refresh: the same store, the same
      signed tokens, and an acceptance exactly if it is granted. */
  lemma RefreshAloneIsAtomic(
      config: Config, w: World, s: System, c: nat, p: RefreshPayload, rtid: Id,
      active: bool, tenantId: Id, now: Time)
    requires Known(s) && c !in s.calls && p in s.issued && rtid !in s.drawn
    requires w.store == s.store && w.issued == s.issued
    requires active <==> && p.sub in w.users && w.users[p.sub].status == ACTIVE
                         && (w.users[p.sub].lockedUntil.Some? ==> w.users[p.sub].lockedUntil.value <= now)
    requires active ==> tenantId == w.users[p.sub].tenantId
    ensures var (w', r) := RefreshStep(config, w, now, p, true, rtid);
            var begun := LooksUp(c, p.sessionId, ToRefresh(p, active, tenantId, now), now);
            && Enabled(s, begun)
            && var end := Alone(Apply(s, begun), c, now, rtid, now + config.refreshTtl, 4);
               && end.calls == s.calls && end.store == w'.store && end.issued == w'.issued
               && end.accepted == s.accepted + if r.Granted? then [Acceptance(p.sessionId, p.rtid)] else []
  {
    hide Alone, Known, Apply, Next, AfterSave, AfterRevoke, AfterLooking, RefreshStep;
    var u, expiresAt := ToRefresh(p, active, tenantId, now), now + config.refreshTtl;
    var n := GetThenRest(s, c, p.sessionId, u, now, rtid, expiresAt);
    GetDecides(config, w, s, c, p, rtid, active, tenantId, now);
    var t := AfterLooking(s, c, p.sessionId, u, now);
    if c !in t.calls {
      EndedStays(t, c, now, rtid, expiresAt, n);
    } else if t.calls[c].Refreshing? {
      RotatingAlone(t, c, t.calls[c].session, tenantId, now, rtid, expiresAt, n);
    } else {
      RevokingAlone(t, c, p.sessionId, now, rtid, expiresAt, n);
    }
  }

  /** How the refresh goes on from its `get`, and what the atomic refresh then comes to. */
  lemma GetDecides(
      config: Config, w: World, s: System, c: nat, p: RefreshPayload, rtid: Id,
      active: bool, tenantId: Id, now: Time)
    requires Known(s) && c !in s.calls && w.store == s.store && w.issued == s.issued
    requires active <==> && p.sub in w.users && w.users[p.sub].status == ACTIVE
                         && (w.users[p.sub].lockedUntil.Some? ==> w.users[p.sub].lockedUntil.value <= now)
    requires active ==> tenantId == w.users[p.sub].tenantId
    ensures var (w', r) := RefreshStep(config, w, now, p, true, rtid);
            var t := AfterLooking(s, c, p.sessionId, ToRefresh(p, active, tenantId, now), now);
            && t.calls - {c} == s.calls && t.issued == s.issued && t.drawn == s.drawn
            && t.accepted == s.accepted + (if r.Granted? then [Acceptance(p.sessionId, p.rtid)] else [])
            && if r.Granted? then
                 && c in t.calls && t.calls[c].Refreshing? && t.calls[c].tenantId == tenantId
                 && var held := t.calls[c].session;
                    var rotated := held.(expiresAt := now + config.refreshTtl, refreshTokenId := Some(rtid));
                    && w'.store == AfterSave(t.store, rotated, now)
                    && w'.issued == s.issued + {TokenFor(held.userId, tenantId, rotated)}
               else
                 && w'.issued == s.issued
                 && if c in t.calls
                    then t.calls[c] == Revoking(p.sessionId) && w'.store == AfterRevoke(t.store, p.sessionId, now)
                    else t.calls == s.calls && w'.store == t.store
  {
    hide Known, AfterSave, AfterRevoke, AfterGet, GetResult;
    FoundUnder(s, p.sessionId, now);
    assert s.calls - {c} == s.calls;
    assert s.calls[c := Revoking(p.sessionId)] - {c} == s.calls;
    if GetResult(s.store, p.sessionId, now).Some? {
      assert s.calls[c := Refreshing(GetResult(s.store, p.sessionId, now).value, tenantId)] - {c} == s.calls;
    }
  }

  lemma FoundUnder(s: System, id: Id, now: Time)
    requires Known(s)
    ensures GetResult(s.store, id, now).Some? ==> GetResult(s.store, id, now).value.sessionId == id
  {
  }

  /** So is a step-up of a session that is found. */
  lemma StepUpAloneIsAtomic(
      config: Config, w: World, s: System, c: nat, p: RefreshPayload, sid: Id, now: Time)
    requires Known(s) && c !in s.calls && p in s.issued
    requires w.store == s.store && w.issued == s.issued
    requires p.sub in w.users && w.users[p.sub].mfaSecret.Some? && w.users[p.sub].tenantId == p.tenantId
    requires GetResult(s.store, p.sessionId, now).Some?
    ensures var (w', r) := VerifyMfaStep(config, w, now, p.sub, Some(p.sessionId), true, sid);
            var begun := LooksUp(c, p.sessionId, ToStepUp(p), now);
            && Enabled(s, begun)
            && var end := Alone(Apply(s, begun), c, now, "", 0, 4);
               && end.calls == s.calls && end.store == w'.store && end.issued == w'.issued
               && end.accepted == s.accepted
  {
    hide Alone, Known, CacheWith, Updated, AfterGet, Apply, Next;
    var n := GetThenRest(s, c, p.sessionId, ToStepUp(p), now, "", 0);
    var session := GetResult(s.store, p.sessionId, now).value;
    var t := AfterLooking(s, c, p.sessionId, ToStepUp(p), now);
    SteppingUpAlone(t, c, session, p.sub, p.tenantId, now, n);
    assert s.calls[c := SteppingUp(session, p.sub, p.tenantId)] - {c} == s.calls;
  }

  /** And opening a session. */
  lemma OpenAloneIsAtomic(
      config: Config, w: World, s: System, c: nat, userId: Id, tenantId: Id, mfa: Option<bool>,
      sid: Id, rtid: Id, now: Time)
    requires c !in s.calls && sid !in s.store.rows && rtid !in s.drawn
    requires w.store == s.store && w.issued == s.issued
    ensures var (w', r) := OpenStep(config, w, now, userId, tenantId, mfa, sid, rtid);
            && r.Granted? && Enabled(s, Inserts(c, r.session))
            && var end := Next(Apply(s, Inserts(c, r.session)), c, now, "", 0);
               && end.calls == s.calls && end.store == w'.store && end.issued == w'.issued
               && end.accepted == s.accepted
  {
    hide CacheWith, Inserted;
    var session := OpenStep(config, w, now, userId, tenantId, mfa, sid, rtid).1.session;
    assert s.calls[c := Creating(session)] - {c} == s.calls;
  }
}
