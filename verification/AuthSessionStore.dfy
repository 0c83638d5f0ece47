// auth-session.store.ts: sessions kept in the `auth_sessions` table with a Redis copy.
module AuthSessions {
  import opened Options

  type Id = string
  type Time = int // milliseconds

  /** A session as the service handles it. */
  datatype Session = Session(
    sessionId: Id, userId: Id, tenantId: Id, createdAt: Time, expiresAt: Time,
    mfaAuthenticated: bool, refreshTokenId: Option<Id>)

  /** A row of `auth_sessions`; `updated_at` is never read and is left out. */
  datatype SessionRow = SessionRow(
    tenantId: Id, userId: Id, mfaAuthenticated: bool, refreshTokenId: Option<Id>,
    expiresAt: Time, revokedAt: Option<Time>, createdAt: Time)

  /** A cached session, readable until `deadline`. */
  datatype CacheEntry = CacheEntry(session: Session, deadline: Time)

  datatype StoreState = StoreState(rows: map<Id, SessionRow>, cache: map<Id, CacheEntry>)

  // ---------------------------------------------------------------- what each call does

  function Projection(id: Id, row: SessionRow): Session {
    Session(id, row.userId, row.tenantId, row.createdAt, row.expiresAt, row.mfaAuthenticated, row.refreshTokenId)
  }

  /** The TTL of a cache write: whole seconds left, but never less than one. */
  function CacheTtl(expiresAt: Time, now: Time): (ttl: int)
    ensures 1000 <= ttl
    ensures ttl == 1000 || now + ttl <= expiresAt
    ensures expiresAt < now + ttl + 1000
  {
    var seconds := (expiresAt - now) / 1000;
    1000 * (if seconds < 1 then 1 else seconds)
  }

  function CacheWith(cache: map<Id, CacheEntry>, s: Session, now: Time): map<Id, CacheEntry> {
    cache[s.sessionId := CacheEntry(s, now + CacheTtl(s.expiresAt, now))]
  }

  predicate Live(cache: map<Id, CacheEntry>, id: Id, now: Time) {
    id in cache && now < cache[id].deadline
  }

  function Inserted(rows: map<Id, SessionRow>, s: Session): map<Id, SessionRow> {
    if s.sessionId in rows
    then rows[s.sessionId := rows[s.sessionId].(
                mfaAuthenticated := s.mfaAuthenticated, refreshTokenId := s.refreshTokenId,
                expiresAt := s.expiresAt, revokedAt := None)]
    else rows[s.sessionId := SessionRow(s.tenantId, s.userId, s.mfaAuthenticated, s.refreshTokenId,
                                        s.expiresAt, None, s.createdAt)]
  }

  /** The guarded update of `save`: it matches no revoked row. */
  function Updated(rows: map<Id, SessionRow>, s: Session): map<Id, SessionRow> {
    if s.sessionId in rows && rows[s.sessionId].revokedAt.None?
    then rows[s.sessionId := rows[s.sessionId].(
                mfaAuthenticated := s.mfaAuthenticated, refreshTokenId := s.refreshTokenId,
                expiresAt := s.expiresAt)]
    else rows
  }

  function RevokedRows(rows: map<Id, SessionRow>, id: Id, now: Time): map<Id, SessionRow> {
    if id in rows then rows[id := rows[id].(revokedAt := Some(now))] else rows
  }

  /** What a `get` without a cache returns. */
  function TableGet(rows: map<Id, SessionRow>, id: Id, now: Time): Option<Session> {
    if id !in rows || rows[id].revokedAt.Some? || rows[id].expiresAt <= now then None
    else Some(Projection(id, rows[id]))
  }

  function GetResult(st: StoreState, id: Id, now: Time): Option<Session> {
    if Live(st.cache, id, now) then Some(st.cache[id].session) else TableGet(st.rows, id, now)
  }

  function AfterCreate(st: StoreState, s: Session, now: Time): StoreState {
    StoreState(Inserted(st.rows, s), CacheWith(st.cache, s, now))
  }

  function AfterGet(st: StoreState, id: Id, now: Time): StoreState {
    if Live(st.cache, id, now) then st
    else match TableGet(st.rows, id, now)
      case None => st
      case Some(s) => st.(cache := CacheWith(st.cache, s, now))
  }

  function AfterSave(st: StoreState, s: Session, now: Time): StoreState {
    StoreState(Updated(st.rows, s), CacheWith(st.cache, s, now))
  }

  function AfterRevoke(st: StoreState, id: Id, now: Time): StoreState {
    StoreState(RevokedRows(st.rows, id, now), st.cache - {id})
  }

  // ---------------------------------------------------------------- the store

  class AuthSessionStore {
    var rows: map<Id, SessionRow>
    var cache: map<Id, CacheEntry>

    ghost function View(): StoreState
      reads this
    {
      StoreState(rows, cache)
    }

    constructor ()
      ensures View() == StoreState(map[], map[])
    {
      rows, cache := map[], map[];
    }

    method Create(s: Session, now: Time)
      modifies this
      ensures View() == AfterCreate(old(View()), s, now)
    {
      if s.sessionId in rows {
        rows := rows[s.sessionId := rows[s.sessionId].(
          mfaAuthenticated := s.mfaAuthenticated, refreshTokenId := s.refreshTokenId,
          expiresAt := s.expiresAt, revokedAt := None)];
      } else {
        rows := rows[s.sessionId := SessionRow(s.tenantId, s.userId, s.mfaAuthenticated, s.refreshTokenId,
                                               s.expiresAt, None, s.createdAt)];
      }
      WriteCache(s, now);
    }

    method Get(id: Id, now: Time) returns (found: Option<Session>)
      modifies this
      ensures found == GetResult(old(View()), id, now)
      ensures View() == AfterGet(old(View()), id, now)
    {
      found := ReadCache(id, now);
      if found.Some? {
        return;
      }
      if id !in rows || rows[id].revokedAt.Some? || rows[id].expiresAt <= now {
        return None;
      }
      var row := rows[id];
      var s := Session(id, row.userId, row.tenantId, row.createdAt, row.expiresAt,
                       row.mfaAuthenticated, row.refreshTokenId);
      WriteCache(s, now);
      return Some(s);
    }

    method Save(s: Session, now: Time)
      modifies this
      ensures View() == AfterSave(old(View()), s, now)
    {
      if s.sessionId in rows && rows[s.sessionId].revokedAt.None? {
        rows := rows[s.sessionId := rows[s.sessionId].(
          mfaAuthenticated := s.mfaAuthenticated, refreshTokenId := s.refreshTokenId,
          expiresAt := s.expiresAt)];
      }
      WriteCache(s, now);
    }

    method Revoke(id: Id, now: Time)
      modifies this
      ensures View() == AfterRevoke(old(View()), id, now)
    {
      if id in rows {
        rows := rows[id := rows[id].(revokedAt := Some(now))];
      }
      DeleteCache(id);
    }

    method ReadCache(id: Id, now: Time) returns (found: Option<Session>)
      ensures found == if Live(cache, id, now) then Some(cache[id].session) else None
    {
      if id in cache && now < cache[id].deadline {
        return Some(cache[id].session);
      }
      return None;
    }

    method WriteCache(s: Session, now: Time)
      modifies this`cache
      ensures cache == CacheWith(old(cache), s, now)
    {
      cache := cache[s.sessionId := CacheEntry(s, now + CacheTtl(s.expiresAt, now))];
    }

    method DeleteCache(id: Id)
      modifies this`cache
      ensures cache == old(cache) - {id}
    {
      cache := cache - {id};
    }
  }

  // ---------------------------------------------------------------- cache coherence

  /** Every readable cache entry is the projection of an unrevoked row. */
  ghost predicate Coherent(st: StoreState, now: Time) {
    forall id :: Live(st.cache, id, now) ==>
      id in st.rows && st.rows[id].revokedAt.None? && st.cache[id].session == Projection(id, st.rows[id])
  }

  /** With a coherent cache a `get` differs from a table-only `get` exactly when a readable
      entry outlives the expiry of its row (the one-second floor of the TTL allows that). */
  lemma GetAgreesWithTable(st: StoreState, id: Id, now: Time)
    requires Coherent(st, now)
    ensures GetResult(st, id, now) == TableGet(st.rows, id, now)
            <==> !(Live(st.cache, id, now) && st.rows[id].expiresAt <= now)
    ensures id in st.rows && now < st.rows[id].expiresAt ==>
              GetResult(st, id, now) == TableGet(st.rows, id, now)
  {
    if Live(st.cache, id, now) {
      assert st.cache[id].session == Projection(id, st.rows[id]);
    }
  }

  /** The answer of a `get` always describes an unrevoked row. */
  lemma GetDescribesRow(st: StoreState, id: Id, now: Time)
    requires Coherent(st, now)
    ensures GetResult(st, id, now).Some? ==>
              id in st.rows && st.rows[id].revokedAt.None? &&
              GetResult(st, id, now).value == Projection(id, st.rows[id])
  {
  }

  lemma CoherentLater(st: StoreState, now: Time, later: Time)
    requires Coherent(st, now) && now <= later
    ensures Coherent(st, later)
  {
    forall id | Live(st.cache, id, later)
      ensures id in st.rows && st.rows[id].revokedAt.None? && st.cache[id].session == Projection(id, st.rows[id])
    {
      assert Live(st.cache, id, now);
    }
  }

  /** Reading never spoils coherence, nor does creating under a new id. */
  lemma GetKeepsCoherent(st: StoreState, id: Id, now: Time)
    requires Coherent(st, now)
    ensures Coherent(AfterGet(st, id, now), now)
    ensures AfterGet(st, id, now).rows == st.rows
    ensures GetResult(st, id, now).None? ==> AfterGet(st, id, now) == st
  {
  }

  lemma CreateKeepsCoherent(st: StoreState, s: Session, now: Time)
    requires Coherent(st, now) && s.sessionId !in st.rows
    ensures Coherent(AfterCreate(st, s, now), now)
  {
  }

  lemma RevokeKeepsCoherent(st: StoreState, id: Id, now: Time)
    requires Coherent(st, now)
    ensures Coherent(AfterRevoke(st, id, now), now)
  {
  }

  /** A `save` keeps coherence exactly when it is given an unrevoked row and leaves the
      columns alone that it does not write. */
  lemma SaveKeepsCoherent(st: StoreState, s: Session, now: Time)
    requires Coherent(st, now)
    ensures Coherent(AfterSave(st, s, now), now) <==>
              (&& s.sessionId in st.rows && st.rows[s.sessionId].revokedAt.None?
               && s.userId == st.rows[s.sessionId].userId && s.tenantId == st.rows[s.sessionId].tenantId
               && s.createdAt == st.rows[s.sessionId].createdAt)
  {
    var st' := AfterSave(st, s, now);
    assert Live(st'.cache, s.sessionId, now);
    forall id | id != s.sessionId
      ensures Live(st'.cache, id, now) == Live(st.cache, id, now)
    {
    }
  }

  // ---------------------------------------------------------------- reading back

  /** A created session is found as it was until it expires, from the cache or the table. */
  lemma GetAfterCreate(st: StoreState, s: Session, now: Time, later: Time)
    requires s.sessionId !in st.rows && now <= later < s.expiresAt
    ensures GetResult(AfterCreate(st, s, now), s.sessionId, later) == Some(s)
  {
  }

  /** Creating under an id that exists revives its row, a revoked one too, under its old owner,
      tenant and creation time. */
  lemma CreateRevives(st: StoreState, s: Session, now: Time, later: Time)
    requires s.sessionId in st.rows && later < s.expiresAt
    ensures var row := st.rows[s.sessionId];
            TableGet(AfterCreate(st, s, now).rows, s.sessionId, later) ==
            Some(s.(userId := row.userId, tenantId := row.tenantId, createdAt := row.createdAt))
  {
  }

  /** So is a saved one, exactly if its row is not revoked and its owner, tenant and creation
      time are the row's; or, whatever the row, for as long as the cache lives. */
  lemma GetAfterSave(st: StoreState, s: Session, now: Time, later: Time)
    requires now <= later < s.expiresAt
    ensures GetResult(AfterSave(st, s, now), s.sessionId, later) == Some(s)
            <==> Live(AfterSave(st, s, now).cache, s.sessionId, later) ||
                 (&& s.sessionId in st.rows && st.rows[s.sessionId].revokedAt.None?
                  && s.userId == st.rows[s.sessionId].userId && s.tenantId == st.rows[s.sessionId].tenantId
                  && s.createdAt == st.rows[s.sessionId].createdAt)
  {
  }

  /** A revoked session is not found, at any time. */
  lemma GetAfterRevoke(st: StoreState, id: Id, now: Time, later: Time)
    ensures GetResult(AfterRevoke(st, id, now), id, later) == None
  {
  }
}
