// refreshSession, verifyMfa and the session store calls under concurrency, every statement and
// cache command a step of its own: when a refresh token can be accepted twice.
module RefreshInterleaving {
  import opened Options
  import opened AuthSessions
  import opened AuthModel

  /** What a `get` is for. The checks of a refresh follow the `get` without touching sessions, so
      they are made with it: the user is in `tenantId`, may sign in or not, and is looked up at
      `checkedAt`. A step-up is asked for by the owner of the access token signed beside
      `payload`. */
  datatype Purpose =
    | ToGet
    | ToRefresh(payload: RefreshPayload, active: bool, tenantId: Id, checkedAt: Time)
    | ToStepUp(payload: RefreshPayload)

  /** A running call and what it does next. */
  datatype Call =
    | Creating(session: Session)                    // has inserted the row, writes the cache
    | Looking(id: Id, purpose: Purpose)             // has missed the cache, reads the table
    | Filling(session: Session, purpose: Purpose)   // has read the row, writes the cache
    | Refreshing(session: Session, tenantId: Id)    // has accepted the token, updates the row
    | Rotating(session: Session, tenantId: Id, was: Option<Id>) // has updated the row, writes the cache
    | SteppingUp(session: Session, actorId: Id, tenantId: Id)   // updates the row
    | SteppedUp(session: Session, actorId: Id, tenantId: Id)    // has updated the row, writes the cache
    | Revoking(id: Id)                              // updates the row
    | Dropping(id: Id)                              // has revoked the row, deletes the cache entry

  /** One acceptance: the session, and the refresh-token id that was presented. */
  datatype Acceptance = Acceptance(sessionId: Id, rtid: Option<Id>)

  datatype System = System(
    store: StoreState, calls: map<nat, Call>,
    issued: set<RefreshPayload>, drawn: set<Id>, // history: tokens signed, refresh-token ids drawn
    accepted: seq<Acceptance>)                   // history

  datatype Action =
    | Inserts(c: nat, session: Session)                   // createSession, or verifyMfa without a session
    | LooksUp(c: nat, id: Id, purpose: Purpose, now: Time) // `get` reads the cache
    | ReadsTable(c: nat, now: Time)
    | WritesCache(c: nat, now: Time)
    | Rotates(c: nat, rtid: Id, expiresAt: Time)          // the guarded update of a refresh
    | StepsUp(c: nat)                                     // that of verifyMfa
    | BeginsRevoke(c: nat, id: Id)
    | RevokesRow(c: nat, now: Time)
    | DropsEntry(c: nat)

  /** Calls are numbered as they come, session ids and refresh-token ids are new when drawn, and
      only signed tokens are verified. */
  predicate Enabled(s: System, a: Action) {
    match a
    case Inserts(c, session) =>
      c !in s.calls && session.sessionId !in s.store.rows &&
      (session.refreshTokenId.Some? ==> session.refreshTokenId.value !in s.drawn)
    case LooksUp(c, id, purpose, _) =>
      c !in s.calls && (!purpose.ToGet? ==> purpose.payload in s.issued && purpose.payload.sessionId == id)
    case ReadsTable(c, _) => c in s.calls && s.calls[c].Looking?
    case WritesCache(c, _) =>
      c in s.calls &&
      (s.calls[c].Creating? || s.calls[c].Filling? || s.calls[c].Rotating? || s.calls[c].SteppedUp?)
    case Rotates(c, rtid, _) => c in s.calls && s.calls[c].Refreshing? && rtid !in s.drawn
    case StepsUp(c) => c in s.calls && s.calls[c].SteppingUp?
    case BeginsRevoke(c, _) => c !in s.calls
    case RevokesRow(c, _) => c in s.calls && s.calls[c].Revoking?
    case DropsEntry(c) => c in s.calls && s.calls[c].Dropping?
  }

  function Drawn(rtid: Option<Id>): set<Id> {
    if rtid.Some? then {rtid.value} else {}
  }

  predicate Owns(p: RefreshPayload, session: Session) {
    session.userId == p.sub && session.tenantId == p.tenantId
  }

  predicate Accepts(session: Session, u: Purpose) {
    && u.ToRefresh? && Owns(u.payload, session) && u.checkedAt < session.expiresAt && u.active
    && (session.refreshTokenId.Some? ==> u.payload.rtid == session.refreshTokenId)
  }

  /** A call whose `get` has found its session. */
  function Proceed(s: System, c: nat, session: Session, u: Purpose): System {
    match u
    case ToGet => s.(calls := s.calls - {c})
    case ToStepUp(p) => s.(calls := s.calls[c := SteppingUp(session, p.sub, p.tenantId)])
    case ToRefresh(p, _, tenantId, _) =>
      if Accepts(session, u) then
        s.(calls := s.calls[c := Refreshing(session, tenantId)],
           accepted := s.accepted + [Acceptance(session.sessionId, p.rtid)])
      else if Owns(p, session) then s.(calls := s.calls[c := Revoking(session.sessionId)])
      else s.(calls := s.calls - {c})
  }

  function Cached(s: System, session: Session, now: Time): System {
    s.(store := s.store.(cache := CacheWith(s.store.cache, session, now)))
  }

  /** The token that a call signs with its last step. */
  function Signs(h: Call): set<RefreshPayload> {
    match h
    case Creating(session) => {TokenFor(session.userId, session.tenantId, session)}
    case Rotating(session, tenantId, _) => {TokenFor(session.userId, tenantId, session)}
    case SteppedUp(session, actorId, tenantId) => {TokenFor(actorId, tenantId, session)}
    case _ => {}
  }

  function Apply(s: System, a: Action): System
    requires Enabled(s, a)
  {
    match a
    case Inserts(c, session) =>
      s.(store := s.store.(rows := Inserted(s.store.rows, session)), calls := s.calls[c := Creating(session)],
         drawn := s.drawn + Drawn(session.refreshTokenId))
    case LooksUp(c, id, u, now) =>
      if Live(s.store.cache, id, now) then Proceed(s, c, s.store.cache[id].session, u)
      else s.(calls := s.calls[c := Looking(id, u)])
    case ReadsTable(c, now) =>
      (match TableGet(s.store.rows, s.calls[c].id, now)
       case None => s.(calls := s.calls - {c})
       case Some(session) => s.(calls := s.calls[c := Filling(session, s.calls[c].purpose)]))
    case WritesCache(c, now) =>
      var h := s.calls[c];
      if h.Filling? then Proceed(Cached(s, h.session, now), c, h.session, h.purpose)
      else Cached(s, h.session, now).(calls := s.calls - {c}, issued := s.issued + Signs(h))
    case Rotates(c, rtid, expiresAt) =>
      var h := s.calls[c];
      var rotated := h.session.(expiresAt := expiresAt, refreshTokenId := Some(rtid));
      s.(store := s.store.(rows := Updated(s.store.rows, rotated)), drawn := s.drawn + {rtid},
         calls := s.calls[c := Rotating(rotated, h.tenantId, h.session.refreshTokenId)])
    case StepsUp(c) =>
      var h := s.calls[c];
      var stepped := h.session.(mfaAuthenticated := true);
      s.(store := s.store.(rows := Updated(s.store.rows, stepped)),
         calls := s.calls[c := SteppedUp(stepped, h.actorId, h.tenantId)])
    case BeginsRevoke(c, id) => s.(calls := s.calls[c := Revoking(id)])
    case RevokesRow(c, now) =>
      s.(store := s.store.(rows := RevokedRows(s.store.rows, s.calls[c].id, now)),
         calls := s.calls[c := Dropping(s.calls[c].id)])
    case DropsEntry(c) =>
      s.(store := s.store.(cache := s.store.cache - {s.calls[c].id}), calls := s.calls - {c})
  }

  // ---------------------------------------------------------------- runs

  const INITIAL := System(StoreState(map[], map[]), map[], {}, {}, [])

  datatype Run = Run(systems: seq<System>, actions: seq<Action>)

  predicate WellShaped(run: Run) {
    |run.systems| == |run.actions| + 1 && run.systems[0] == INITIAL
  }

  predicate StepAt(run: Run, i: nat)
    requires WellShaped(run) && i < |run.actions|
  {
    Enabled(run.systems[i], run.actions[i]) && run.systems[i + 1] == Apply(run.systems[i], run.actions[i])
  }

  ghost predicate IsRun(run: Run) {
    WellShaped(run) && forall i :: 0 <= i < |run.actions| ==> StepAt(run, i)
  }

  // ---------------------------------------------------------------- overlaps

  /** The call has a write of the session ahead. */
  predicate Holds(s: System, c: nat, id: Id) {
    c in s.calls && !s.calls[c].Looking? && !s.calls[c].Revoking? && !s.calls[c].Dropping? &&
    s.calls[c].session.sessionId == id
  }

  /** It is a refresh between the acceptance of its token and the end of its save. */
  predicate HoldsRefresh(s: System, c: nat, id: Id) {
    Holds(s, c, id) && (s.calls[c].Refreshing? || s.calls[c].Rotating?)
  }

  ghost predicate RefreshesOverlap(s: System, id: Id) {
    exists c, d :: c != d && HoldsRefresh(s, c, id) && HoldsRefresh(s, d, id)
  }

  /** A refresh runs while the end of a `get`, of a step-up or of a creation of the session is
      under way. */
  ghost predicate OthersHold(s: System, id: Id) {
    exists c, d :: HoldsRefresh(s, c, id) && Holds(s, d, id) && !HoldsRefresh(s, d, id)
  }

  /** The call is a `get` that has read the row and will fill the cache, or a step-up that has
      found the session and will save it. */
  predicate FillsOrStepsUp(s: System, c: nat, id: Id) {
    Holds(s, c, id) && (s.calls[c].Filling? || s.calls[c].SteppingUp? || s.calls[c].SteppedUp?)
  }

  /** A refresh runs across a cache fill or a step-up of the session. */
  ghost predicate OthersOverlap(s: System, id: Id) {
    exists c, d :: HoldsRefresh(s, c, id) && FillsOrStepsUp(s, d, id)
  }

  /** Some (session id, refresh-token id) pair of the session was accepted twice. */
  predicate AcceptedTwice(s: System, id: Id) {
    exists i, j :: 0 <= i < j < |s.accepted| && s.accepted[i] == s.accepted[j] && s.accepted[i].sessionId == id
  }

  // ---------------------------------------------------------------- what is known of ids

  /** The session and its refresh-token id have been seen before. */
  predicate Seen(rows: map<Id, SessionRow>, drawn: set<Id>, id: Id, rtid: Option<Id>) {
    id in rows && (rtid.Some? ==> rtid.value in drawn)
  }

  ghost predicate KnownStore(st: StoreState, drawn: set<Id>) {
    && (forall k :: k in st.rows ==> Seen(st.rows, drawn, k, st.rows[k].refreshTokenId))
    && (forall k :: k in st.cache ==>
          st.cache[k].session.sessionId == k && Seen(st.rows, drawn, k, st.cache[k].session.refreshTokenId))
  }

  /** Sessions are cached under their own id, and nothing names an unknown id. */
  ghost predicate Known(s: System) {
    && KnownStore(s.store, s.drawn)
    && (forall c, k :: Holds(s, c, k) ==> Seen(s.store.rows, s.drawn, k, s.calls[c].session.refreshTokenId))
    && (forall p :: p in s.issued ==> Seen(s.store.rows, s.drawn, p.sessionId, p.rtid))
    && (forall a :: a in s.accepted ==> Seen(s.store.rows, s.drawn, a.sessionId, a.rtid))
  }

  /** Whatever was seen before remains so. */
  predicate Grows(s: System, s': System) {
    s.store.rows.Keys <= s'.store.rows.Keys && s.drawn <= s'.drawn
  }

  lemma KnownLater(s: System, s': System)
    requires Known(s) && Grows(s, s') && KnownStore(s'.store, s'.drawn)
    requires forall c, k :: Holds(s', c, k) ==>
               (Holds(s, c, k) && s'.calls[c] == s.calls[c]) ||
               Seen(s'.store.rows, s'.drawn, k, s'.calls[c].session.refreshTokenId)
    requires forall p :: p in s'.issued ==> p in s.issued || Seen(s'.store.rows, s'.drawn, p.sessionId, p.rtid)
    requires forall a :: a in s'.accepted ==> a in s.accepted || Seen(s'.store.rows, s'.drawn, a.sessionId, a.rtid)
    ensures Known(s')
  {
  }

  lemma CacheKnown(st: StoreState, drawn: set<Id>, session: Session, now: Time)
    requires KnownStore(st, drawn) && Seen(st.rows, drawn, session.sessionId, session.refreshTokenId)
    ensures KnownStore(st.(cache := CacheWith(st.cache, session, now)), drawn)
  {
  }

  lemma UpdateKnown(st: StoreState, drawn: set<Id>, drawn': set<Id>, session: Session)
    requires KnownStore(st, drawn) && drawn <= drawn'
    requires Seen(st.rows, drawn', session.sessionId, session.refreshTokenId)
    ensures KnownStore(st.(rows := Updated(st.rows, session)), drawn')
    ensures Updated(st.rows, session).Keys == st.rows.Keys
  {
  }

  lemma InsertKnown(st: StoreState, drawn: set<Id>, session: Session)
    requires KnownStore(st, drawn) && session.sessionId !in st.rows
    ensures KnownStore(st.(rows := Inserted(st.rows, session)), drawn + Drawn(session.refreshTokenId))
    ensures Inserted(st.rows, session).Keys == st.rows.Keys + {session.sessionId}
  {
  }

  lemma KnownProceed(s: System, c: nat, session: Session, u: Purpose)
    requires Known(s) && Seen(s.store.rows, s.drawn, session.sessionId, session.refreshTokenId)
    requires !u.ToGet? ==> u.payload in s.issued && u.payload.sessionId == session.sessionId
    ensures Known(Proceed(s, c, session, u))
  {
    KnownLater(s, Proceed(s, c, session, u));
  }

  /** A call asks for a refresh or step-up of the session that its token names. */
  predicate AsksWith(issued: set<RefreshPayload>, h: Call) {
    (h.Looking? || h.Filling?) && !h.purpose.ToGet? ==>
      h.purpose.payload in issued &&
      h.purpose.payload.sessionId == if h.Looking? then h.id else h.session.sessionId
  }

  ghost predicate Asked(s: System) {
    forall c :: c in s.calls ==> AsksWith(s.issued, s.calls[c])
  }

  ghost predicate Named(s: System, id: Id) {
    exists p :: p in s.issued && p.sessionId == id
  }

  predicate Saves(h: Call) {
    h.Refreshing? || h.Rotating? || h.SteppingUp? || h.SteppedUp?
  }

  /** A session has no token before its creation has ended, and nobody refreshes it or steps it
      up before it has one. */
  ghost predicate CreatedFirst(s: System) {
    && (forall c :: c in s.calls && s.calls[c].Creating? ==> !Named(s, s.calls[c].session.sessionId))
    && (forall c :: c in s.calls && Saves(s.calls[c]) ==> Named(s, s.calls[c].session.sessionId))
    && (forall c, d :: c in s.calls && d in s.calls && s.calls[c].Creating? && s.calls[d].Creating? && c != d ==>
          s.calls[c].session.sessionId != s.calls[d].session.sessionId)
  }

  lemma AskedStep(s: System, a: Action)
    requires Asked(s) && Enabled(s, a)
    ensures Asked(Apply(s, a))
  {
    var s' := Apply(s, a);
    OneCallMoves(s, a);
    MoverAsks(s, a);
    forall c | c in s'.calls ensures AsksWith(s'.issued, s'.calls[c]) {
      hide Apply, Enabled;
      if c != a.c {
        assert AsksWith(s.issued, s.calls[c]);
      }
    }
  }

  lemma MoverAsks(s: System, a: Action)
    requires Asked(s) && Enabled(s, a)
    ensures var s' := Apply(s, a);
            s.issued <= s'.issued && (a.c in s'.calls ==> AsksWith(s'.issued, s'.calls[a.c]))
  {
    hide CacheWith, Inserted, Updated, RevokedRows, Live, Accepts;
    assert a.c in s.calls ==> AsksWith(s.issued, s.calls[a.c]);
  }

  lemma KnownStep(s: System, a: Action)
    requires Known(s) && Asked(s) && Enabled(s, a)
    ensures Known(Apply(s, a))
  {
    hide KnownStore, CacheWith, Inserted, Updated, RevokedRows;
    var s' := Apply(s, a);
    match a
    case Inserts(c, session) =>
      InsertKnown(s.store, s.drawn, session);
      KnownLater(s, s');
    case LooksUp(c, id, u, now) =>
      if Live(s.store.cache, id, now) {
        EntryKnown(s.store, s.drawn, id);
        KnownProceed(s, c, s.store.cache[id].session, u);
      } else {
        KnownLater(s, s');
      }
    case ReadsTable(c, now) =>
      RowKnown(s.store, s.drawn, s.calls[c].id, now);
      KnownLater(s, s');
    case WritesCache(c, now) => KnownWrite(s, a);
    case Rotates(c, rtid, expiresAt) =>
      var rotated := s.calls[c].session.(expiresAt := expiresAt, refreshTokenId := Some(rtid));
      assert Holds(s, c, rotated.sessionId);
      UpdateKnown(s.store, s.drawn, s.drawn + {rtid}, rotated);
      KnownLater(s, s');
    case StepsUp(c) =>
      assert Holds(s, c, s.calls[c].session.sessionId);
      UpdateKnown(s.store, s.drawn, s.drawn, s.calls[c].session.(mfaAuthenticated := true));
      KnownLater(s, s');
    case BeginsRevoke(_, _) => KnownLater(s, s');
    case RevokesRow(c, now) =>
      RevokeKnown(s.store, s.drawn, s.calls[c].id, now);
      KnownLater(s, s');
    case DropsEntry(c) =>
      DropKnown(s.store, s.drawn, s.calls[c].id);
      KnownLater(s, s');
  }

  lemma KnownWrite(s: System, a: Action)
    requires Known(s) && Asked(s) && Enabled(s, a) && a.WritesCache?
    ensures Known(Apply(s, a))
  {
    hide KnownStore, CacheWith;
    var h := s.calls[a.c];
    assert Holds(s, a.c, h.session.sessionId);
    CacheKnown(s.store, s.drawn, h.session, a.now);
    KnownLater(s, Cached(s, h.session, a.now));
    if h.Filling? {
      KnownProceed(Cached(s, h.session, a.now), a.c, h.session, h.purpose);
    } else {
      KnownLater(s, Apply(s, a));
    }
  }

  lemma EntryKnown(st: StoreState, drawn: set<Id>, id: Id)
    requires KnownStore(st, drawn) && id in st.cache
    ensures st.cache[id].session.sessionId == id && Seen(st.rows, drawn, id, st.cache[id].session.refreshTokenId)
  {
  }

  lemma RowKnown(st: StoreState, drawn: set<Id>, id: Id, now: Time)
    requires KnownStore(st, drawn)
    ensures var found := TableGet(st.rows, id, now);
            found.Some? ==>
              found.value.sessionId == id && Seen(st.rows, drawn, id, found.value.refreshTokenId)
  {
  }

  lemma RevokeKnown(st: StoreState, drawn: set<Id>, id: Id, now: Time)
    requires KnownStore(st, drawn)
    ensures KnownStore(st.(rows := RevokedRows(st.rows, id, now)), drawn)
    ensures RevokedRows(st.rows, id, now).Keys == st.rows.Keys
  {
  }

  lemma DropKnown(st: StoreState, drawn: set<Id>, id: Id)
    requires KnownStore(st, drawn)
    ensures KnownStore(st.(cache := st.cache - {id}), drawn)
  {
  }

  // ---------------------------------------------------------------- where the id of a session stands

  predicate RowId(s: System, id: Id, rtid: Option<Id>) {
    id in s.store.rows && s.store.rows[id].revokedAt.None? && s.store.rows[id].refreshTokenId == rtid
  }

  predicate EntryId(s: System, id: Id, rtid: Option<Id>) {
    id in s.store.cache && s.store.cache[id].session.refreshTokenId == rtid
  }

  predicate HoldsId(s: System, c: nat, id: Id, rtid: Option<Id>) {
    Holds(s, c, id) && s.calls[c].session.refreshTokenId == rtid
  }

  /** `rtid` stands where a `get` or a running call may take the session from. */
  ghost predicate InPlace(s: System, id: Id, rtid: Option<Id>) {
    RowId(s, id, rtid) || EntryId(s, id, rtid) || exists c :: HoldsId(s, c, id, rtid)
  }

  ghost predicate RefreshHeld(s: System, id: Id) {
    exists c :: HoldsRefresh(s, c, id)
  }

  /** No token of the session has an id, if this one is none. */
  ghost predicate Unsigned(s: System, id: Id, rtid: Option<Id>) {
    rtid.None? ==> forall p :: p in s.issued && p.sessionId == id ==> p.rtid.None?
  }

  /** Without a running refresh: all places agree, and nothing accepted stands anywhere. */
  ghost predicate Resting(s: System, id: Id) {
    && (forall r, q :: InPlace(s, id, r) && InPlace(s, id, q) ==> r == q)
    && (forall r :: InPlace(s, id, r) ==> Unsigned(s, id, r))
    && (forall a :: a in s.accepted && a.sessionId == id ==> !InPlace(s, id, a.rtid) && !InPlace(s, id, None))
  }

  /** Refresh `c` has accepted the id that stands everywhere. */
  ghost predicate Accepting(s: System, id: Id, c: nat)
    requires HoldsRefresh(s, c, id)
  {
    var rtid := s.calls[c].session.refreshTokenId;
    && (forall r :: InPlace(s, id, r) ==> r == rtid)
    && Acceptance(id, rtid) in s.accepted && Unsigned(s, id, rtid)
  }

  /** Refresh `c` has put a new id into the row, while the cache may have the accepted one. */
  ghost predicate Rotated(s: System, id: Id, c: nat)
    requires HoldsRefresh(s, c, id) && s.calls[c].Rotating?
  {
    var rtid, was := s.calls[c].session.refreshTokenId, s.calls[c].was;
    && (forall r :: RowId(s, id, r) ==> r == rtid) && (forall r :: EntryId(s, id, r) ==> r == was)
    && Acceptance(id, was) in s.accepted && Unsigned(s, id, was)
    && rtid.Some? && forall a :: a in s.accepted && a.sessionId == id ==> a.rtid != rtid
  }

  ghost predicate Agree(s: System, id: Id) {
    && (!RefreshHeld(s, id) ==> Resting(s, id))
    && (forall c :: HoldsRefresh(s, c, id) ==> if s.calls[c].Rotating? then Rotated(s, id, c) else Accepting(s, id, c))
  }

  /** Nothing but refreshes holds the session. */
  ghost predicate OnlyRefreshes(s: System, id: Id) {
    forall c :: Holds(s, c, id) ==> HoldsRefresh(s, c, id)
  }

  /** Nothing new stands anywhere, and otherwise nothing has happened to the session. */
  ghost predicate Quiet(s: System, s': System, id: Id) {
    && (forall r :: InPlace(s', id, r) ==> InPlace(s, id, r))
    && (forall p :: p in s'.issued && p.sessionId == id ==> p in s.issued || InPlace(s, id, p.rtid))
    && (forall a: Acceptance :: a.sessionId == id ==> (a in s'.accepted <==> a in s.accepted))
    && (forall c :: HoldsRefresh(s, c, id) <==> HoldsRefresh(s', c, id))
    && (forall c :: HoldsRefresh(s, c, id) ==> s'.calls[c] == s.calls[c])
    && (OnlyRefreshes(s, id) ==> QuietStore(s, s', id))
  }

  ghost predicate QuietStore(s: System, s': System, id: Id) {
    && (forall r :: RowId(s', id, r) ==> RowId(s, id, r))
    && (forall r :: EntryId(s', id, r) ==> EntryId(s, id, r))
    && (forall p :: p in s'.issued && p.sessionId == id ==> p in s.issued)
  }

  lemma QuietKeeps(s: System, s': System, id: Id)
    requires Agree(s, id) && Quiet(s, s', id) && !OthersHold(s, id)
    ensures Agree(s', id)
  {
    hide InPlace, RowId, EntryId, HoldsRefresh, Holds;
    if RefreshHeld(s, id) {
      assert OnlyRefreshes(s, id);
    }
  }

  // ---------------------------------------------------------------- quiet steps

  /** The step accepts a token. */
  predicate AcceptsNow(s: System, a: Action)
    requires Enabled(s, a)
  {
    match a
    case LooksUp(_, id, u, now) => Live(s.store.cache, id, now) && Accepts(s.store.cache[id].session, u)
    case WritesCache(c, _) => s.calls[c].Filling? && Accepts(s.calls[c].session, s.calls[c].purpose)
    case _ => false
  }

  /** The session of a step. */
  function SessionOf(s: System, a: Action): Id
    requires Enabled(s, a)
  {
    match a
    case Inserts(_, session) => session.sessionId
    case LooksUp(_, id, _, _) => id
    case ReadsTable(c, _) => s.calls[c].id
    case WritesCache(c, _) => s.calls[c].session.sessionId
    case Rotates(c, _, _) => s.calls[c].session.sessionId
    case StepsUp(c) => s.calls[c].session.sessionId
    case BeginsRevoke(_, id) => id
    case RevokesRow(c, _) => s.calls[c].id
    case DropsEntry(c) => s.calls[c].id
  }

  /** The steps after which the session is not simply as before. */
  predicate Concerns(s: System, a: Action, id: Id)
    requires Enabled(s, a)
  {
    SessionOf(s, a) == id &&
    (a.Inserts? || a.Rotates? || AcceptsNow(s, a) || (a.WritesCache? && s.calls[a.c].Rotating?))
  }

  ghost predicate OnlyMoves(s: System, s': System, c: nat) {
    forall d :: d != c ==> (d in s'.calls <==> d in s.calls) && (d in s.calls ==> s'.calls[d] == s.calls[d])
  }

  /** Only call `c` has moved, and what stands where was standing somewhere. */
  lemma MovedIsQuiet(s: System, s': System, id: Id, c: nat)
    requires OnlyMoves(s, s', c)
    requires forall r :: RowId(s', id, r) || EntryId(s', id, r) || HoldsId(s', c, id, r) ==> InPlace(s, id, r)
    requires !HoldsRefresh(s, c, id) && !HoldsRefresh(s', c, id)
    requires forall p :: p in s'.issued && p.sessionId == id ==> p in s.issued || InPlace(s, id, p.rtid)
    requires s'.accepted == s.accepted ||
             forall a: Acceptance :: a.sessionId == id ==> (a in s'.accepted <==> a in s.accepted)
    requires OnlyRefreshes(s, id) ==> QuietStore(s, s', id)
    ensures Quiet(s, s', id)
  {
    forall r | InPlace(s', id, r) ensures InPlace(s, id, r) {
      if !RowId(s', id, r) && !EntryId(s', id, r) {
        var d :| HoldsId(s', d, id, r);
        assert d != c ==> HoldsId(s, d, id, r);
      }
    }
    forall d ensures HoldsRefresh(s, d, id) <==> HoldsRefresh(s', d, id) {
      assert d != c ==> (Holds(s, d, id) <==> Holds(s', d, id));
    }
  }

  lemma OtherStoreSame(s: System, a: Action, id: Id)
    requires Enabled(s, a) && SessionOf(s, a) != id
    ensures forall r :: RowId(Apply(s, a), id, r) == RowId(s, id, r) && EntryId(Apply(s, a), id, r) == EntryId(s, id, r)
    ensures forall p :: p in Apply(s, a).issued && p.sessionId == id ==> p in s.issued
  {
    hide TableGet, Live, Accepts;
  }

  lemma OneCallMoves(s: System, a: Action)
    requires Enabled(s, a)
    ensures OnlyMoves(s, Apply(s, a), a.c)
  {
    hide TableGet, Live, Accepts, CacheWith, Inserted, Updated, RevokedRows;
  }

  /** The moving call keeps to its session. */
  lemma CallKeepsSession(s: System, a: Action, id: Id)
    requires Known(s) && Enabled(s, a) && SessionOf(s, a) != id
    ensures !Holds(s, a.c, id) && !Holds(Apply(s, a), a.c, id)
    ensures forall e: Acceptance :: e.sessionId == id ==> (e in Apply(s, a).accepted <==> e in s.accepted)
  {
    hide Accepts, CacheWith, Inserted, Updated, RevokedRows;
    if a.LooksUp? && a.id in s.store.cache {
      EntryKnown(s.store, s.drawn, a.id);
    }
  }

  /** A step about another session. */
  lemma OtherSessionIsQuiet(s: System, a: Action, id: Id)
    requires Known(s) && Enabled(s, a) && SessionOf(s, a) != id
    ensures Quiet(s, Apply(s, a), id)
  {
    hide Known, Apply, Enabled, Quiet;
    OtherStoreSame(s, a, id);
    CallKeepsSession(s, a, id);
    OneCallMoves(s, a);
    MovedIsQuiet(s, Apply(s, a), id, a.c);
  }

  /** The steps of a session that neither accept nor save a refresh nor create it. */
  lemma OwnSessionIsQuiet(s: System, a: Action, id: Id)
    requires Known(s) && Enabled(s, a) && SessionOf(s, a) == id && !Concerns(s, a, id)
    ensures Quiet(s, Apply(s, a), id)
  {
    hide Quiet, OnlyRefreshes, QuietStore;
    OneCallMoves(s, a);
    match a
    case LooksUp(_, _, _, _) => ReadingIsQuiet(s, a, id);
    case ReadsTable(_, _) => ReadingIsQuiet(s, a, id);
    case WritesCache(_, _) => WritingIsQuiet(s, a, id);
    case StepsUp(_) => WritingIsQuiet(s, a, id);
    case _ => RevokingIsQuiet(s, a, id);
  }

  lemma ReadingIsQuiet(s: System, a: Action, id: Id)
    requires Known(s) && Enabled(s, a) && SessionOf(s, a) == id && !Concerns(s, a, id) && (a.LooksUp? || a.ReadsTable?)
    requires OnlyMoves(s, Apply(s, a), a.c)
    ensures Quiet(s, Apply(s, a), id)
  {
    hide Quiet, Accepts;
    var s' := Apply(s, a);
    if a.LooksUp? && a.id in s.store.cache {
      EntryKnown(s.store, s.drawn, a.id);
      assert EntryId(s, id, s.store.cache[id].session.refreshTokenId);
    }
    if a.ReadsTable? && id in s.store.rows {
      RowKnown(s.store, s.drawn, id, a.now);
    }
    assert s'.store == s.store && s'.issued == s.issued && s'.accepted == s.accepted;
    MovedIsQuiet(s, s', id, a.c);
  }

  lemma WritingIsQuiet(s: System, a: Action, id: Id)
    requires Known(s) && Enabled(s, a) && SessionOf(s, a) == id && !Concerns(s, a, id) && (a.WritesCache? || a.StepsUp?)
    requires OnlyMoves(s, Apply(s, a), a.c)
    ensures Quiet(s, Apply(s, a), id)
  {
    hide Quiet, Accepts;
    assert HoldsId(s, a.c, id, s.calls[a.c].session.refreshTokenId);
    assert Holds(s, a.c, id) && !HoldsRefresh(s, a.c, id);
    MovedIsQuiet(s, Apply(s, a), id, a.c);
  }

  lemma RevokingIsQuiet(s: System, a: Action, id: Id)
    requires Enabled(s, a) && (a.BeginsRevoke? || a.RevokesRow? || a.DropsEntry?)
    requires OnlyMoves(s, Apply(s, a), a.c)
    ensures Quiet(s, Apply(s, a), id)
  {
    hide Quiet;
    MovedIsQuiet(s, Apply(s, a), id, a.c);
  }

  // ---------------------------------------------------------------- the steps that concern a session

  lemma InsertsKeeps(s: System, a: Action, id: Id)
    requires Known(s) && Enabled(s, a) && a.Inserts? && a.session.sessionId == id
    ensures Agree(Apply(s, a), id)
  {
    var s' := Apply(s, a);
    forall c | Holds(s', c, id) ensures c == a.c {
      assert c != a.c ==> Holds(s, c, id);
    }
    forall r | InPlace(s', id, r) ensures r == a.session.refreshTokenId {
      assert !EntryId(s', id, r);
    }
    assert forall c :: !HoldsRefresh(s', c, id);
  }

  lemma Alone(s: System, id: Id, c: nat)
    requires HoldsRefresh(s, c, id) && !RefreshesOverlap(s, id) && !OthersHold(s, id)
    ensures forall d :: Holds(s, d, id) ==> d == c
  {
    forall d | Holds(s, d, id) ensures d == c {
      assert HoldsRefresh(s, d, id);
    }
  }

  /** The row takes the new id; the accepted one may stay in the cache until the refresh has
      written that too. */
  lemma RotatesKeeps(s: System, a: Action, id: Id)
    requires Known(s) && Agree(s, id) && Enabled(s, a) && a.Rotates? && s.calls[a.c].session.sessionId == id
    requires !RefreshesOverlap(s, id)
    ensures Agree(Apply(s, a), id)
  {
    var s' := Apply(s, a);
    assert HoldsRefresh(s, a.c, id) && HoldsRefresh(s', a.c, id);
    assert Accepting(s, id, a.c);
    assert forall c :: HoldsRefresh(s', c, id) ==> c == a.c by {
      forall c | HoldsRefresh(s', c, id) ensures c == a.c {
        assert c != a.c ==> HoldsRefresh(s, c, id);
      }
    }
    forall r | EntryId(s', id, r) ensures r == s'.calls[a.c].was {
      assert EntryId(s, id, r) && InPlace(s, id, r);
    }
    assert forall r :: RowId(s', id, r) ==> r == Some(a.rtid);
    assert Rotated(s', id, a.c);
  }

  /** The end of a refresh that no other call holding the session overlaps: its new id stands
      everywhere. */
  lemma RefreshEnds(s: System, a: Action, id: Id)
    requires Known(s) && Agree(s, id) && Enabled(s, a) && a.WritesCache? && s.calls[a.c].Rotating?
    requires s.calls[a.c].session.sessionId == id && !RefreshesOverlap(s, id) && !OthersHold(s, id)
    ensures Agree(Apply(s, a), id)
  {
    var s', rtid := Apply(s, a), s.calls[a.c].session.refreshTokenId;
    assert HoldsRefresh(s, a.c, id);
    assert Rotated(s, id, a.c);
    Alone(s, id, a.c);
    assert forall c :: Holds(s', c, id) ==> Holds(s, c, id) && c != a.c;
    assert forall c :: !HoldsRefresh(s', c, id);
    forall r | InPlace(s', id, r) ensures r == rtid {
      if RowId(s', id, r) {
        assert RowId(s, id, r);
      }
    }
  }

  // ---------------------------------------------------------------- acceptances

  /** The session and the purpose of the `get` that ends with this step. */
  function Found(s: System, a: Action): (Session, Purpose)
    requires Enabled(s, a) && AcceptsNow(s, a)
  {
    if a.LooksUp? then (s.store.cache[a.id].session, a.purpose) else (s.calls[a.c].session, s.calls[a.c].purpose)
  }

  lemma AcceptFacts(s: System, a: Action, id: Id)
    requires Known(s) && Asked(s) && Enabled(s, a) && AcceptsNow(s, a) && SessionOf(s, a) == id
    ensures var s', (session, u) := Apply(s, a), Found(s, a);
            && (a.LooksUp? || a.WritesCache?)
            && u.ToRefresh? && session.sessionId == id && u.payload in s.issued && u.payload.sessionId == id
            && (session.refreshTokenId.Some? ==> u.payload.rtid == session.refreshTokenId)
            && s'.calls == s.calls[a.c := Refreshing(session, u.tenantId)] && s'.issued == s.issued
            && s'.accepted == s.accepted + [Acceptance(id, u.payload.rtid)]
            && (if a.LooksUp? then EntryId(s, id, session.refreshTokenId)
                else HoldsId(s, a.c, id, session.refreshTokenId))
    ensures forall r :: RowId(Apply(s, a), id, r) || EntryId(Apply(s, a), id, r) ==> InPlace(s, id, r)
  {
    if a.LooksUp? {
      EntryKnown(s.store, s.drawn, id);
    } else {
      assert HoldsId(s, a.c, id, s.calls[a.c].session.refreshTokenId);
    }
  }

  /** The presented id is the one that stands everywhere. */
  lemma PresentedIsFound(s: System, a: Action, id: Id)
    requires Known(s) && Asked(s) && Enabled(s, a) && AcceptsNow(s, a) && SessionOf(s, a) == id
    requires Unsigned(s, id, Found(s, a).0.refreshTokenId)
    ensures Found(s, a).1.ToRefresh? && Found(s, a).1.payload.rtid == Found(s, a).0.refreshTokenId
  {
    hide Known, Asked, Apply;
    AcceptFacts(s, a, id);
  }

  lemma AcceptKeeps(s: System, a: Action, id: Id)
    requires Known(s) && Asked(s) && Agree(s, id) && Enabled(s, a) && AcceptsNow(s, a) && SessionOf(s, a) == id
    requires !RefreshHeld(s, id)
    ensures Agree(Apply(s, a), id)
    ensures AcceptedTwice(Apply(s, a), id) ==> AcceptedTwice(s, id)
  {
    hide Known, Asked, Apply, Enabled, AcceptsNow, Found;
    AcceptFacts(s, a, id);
    var s', r := Apply(s, a), Found(s, a).0.refreshTokenId;
    assert InPlace(s, id, r);
    PresentedIsFound(s, a, id);
    forall c | Holds(s', c, id) ensures c == a.c || (Holds(s, c, id) && s'.calls[c] == s.calls[c]) {
    }
    forall c | HoldsRefresh(s', c, id) ensures c == a.c {
      assert c != a.c ==> HoldsRefresh(s, c, id);
    }
    forall q | InPlace(s', id, q) ensures q == r {
      if !RowId(s', id, q) && !EntryId(s', id, q) {
        var c :| HoldsId(s', c, id, q);
        assert c != a.c ==> HoldsId(s, c, id, q);
      }
      assert q == r || InPlace(s, id, q);
    }
    assert HoldsRefresh(s', a.c, id);
    assert Acceptance(id, r) !in s.accepted;
  }

  /** A second acceptance before the first refresh has ended is one of the same id. */
  lemma OverlapAcceptsTwice(s: System, a: Action, id: Id)
    requires Known(s) && Asked(s) && Agree(s, id) && Enabled(s, a) && AcceptsNow(s, a) && SessionOf(s, a) == id
    requires RefreshHeld(s, id) && !OthersHold(s, id)
    ensures AcceptedTwice(Apply(s, a), id)
  {
    hide Known, Asked, Apply, Enabled, AcceptsNow, Found;
    AcceptFacts(s, a, id);
    var s', r := Apply(s, a), Found(s, a).0.refreshTokenId;
    var c :| HoldsRefresh(s, c, id);
    if a.WritesCache? {
      FillHolds(s, a, id);
    }
    assert InPlace(s, id, r);
    if s.calls[c].Rotating? {
      assert Rotated(s, id, c);
    } else {
      assert Accepting(s, id, c);
    }
    PresentedIsFound(s, a, id);
    var n := |s.accepted|;
    var i :| 0 <= i < n && s.accepted[i] == Acceptance(id, r);
    assert s'.accepted[i] == s'.accepted[n];
  }

  lemma FillHolds(s: System, a: Action, id: Id)
    requires Enabled(s, a) && AcceptsNow(s, a) && SessionOf(s, a) == id && a.WritesCache?
    ensures Holds(s, a.c, id) && !HoldsRefresh(s, a.c, id)
  {
  }

  lemma OverlapBegins(s: System, a: Action, id: Id)
    requires Known(s) && Enabled(s, a) && !RefreshesOverlap(s, id) && RefreshesOverlap(Apply(s, a), id)
    ensures AcceptsNow(s, a) && SessionOf(s, a) == id && RefreshHeld(s, id)
  {
    hide Apply, Known, Enabled, SessionOf, AcceptsNow;
    var s' := Apply(s, a);
    OneCallMoves(s, a);
    var c, d :| c != d && HoldsRefresh(s', c, id) && HoldsRefresh(s', d, id);
    assert c != a.c ==> HoldsRefresh(s, c, id);
    assert d != a.c ==> HoldsRefresh(s, d, id);
    BeginsOnlyByAccepting(s, a, id);
  }

  lemma BeginsOnlyByAccepting(s: System, a: Action, id: Id)
    requires Known(s) && Enabled(s, a) && HoldsRefresh(Apply(s, a), a.c, id) && !HoldsRefresh(s, a.c, id)
    ensures AcceptsNow(s, a) && SessionOf(s, a) == id
  {
    hide Accepts;
    if a.LooksUp? && a.id in s.store.cache {
      EntryKnown(s.store, s.drawn, a.id);
    }
  }

  lemma TwiceStep(s: System, a: Action, id: Id)
    requires Known(s) && Enabled(s, a)
    ensures AcceptedTwice(s, id) ==> AcceptedTwice(Apply(s, a), id)
    ensures AcceptedTwice(Apply(s, a), id) && !(AcceptsNow(s, a) && SessionOf(s, a) == id) ==> AcceptedTwice(s, id)
  {
    hide Accepts, CacheWith, Inserted, Updated, RevokedRows;
    var s' := Apply(s, a);
    if a.LooksUp? && a.id in s.store.cache {
      EntryKnown(s.store, s.drawn, a.id);
    }
    assert forall i :: 0 <= i < |s.accepted| ==> s'.accepted[i] == s.accepted[i];
  }

  // ---------------------------------------------------------------- over whole runs

  lemma StepKeeps(s: System, a: Action, id: Id)
    requires Known(s) && Asked(s) && Agree(s, id) && Enabled(s, a) && !RefreshesOverlap(s, id) && !OthersHold(s, id)
    requires !RefreshesOverlap(Apply(s, a), id) && !AcceptedTwice(s, id)
    ensures Agree(Apply(s, a), id) && !AcceptedTwice(Apply(s, a), id)
  {
    hide Apply, Known, Asked, Agree, RefreshesOverlap, OthersHold, AcceptedTwice, RefreshHeld, Enabled;
    TwiceStep(s, a, id);
    if SessionOf(s, a) != id {
      OtherSessionIsQuiet(s, a, id);
      QuietKeeps(s, Apply(s, a), id);
    } else if !Concerns(s, a, id) {
      OwnSessionIsQuiet(s, a, id);
      QuietKeeps(s, Apply(s, a), id);
    } else if a.Inserts? {
      InsertsKeeps(s, a, id);
    } else if a.Rotates? {
      RotatesKeeps(s, a, id);
    } else if AcceptsNow(s, a) {
      HeldWouldOverlap(s, a, id);
      AcceptKeeps(s, a, id);
    } else {
      RefreshEnds(s, a, id);
    }
  }

  lemma HeldWouldOverlap(s: System, a: Action, id: Id)
    requires Known(s) && Asked(s) && Enabled(s, a) && AcceptsNow(s, a) && SessionOf(s, a) == id
    ensures RefreshHeld(s, id) ==> RefreshesOverlap(Apply(s, a), id)
  {
    if RefreshHeld(s, id) {
      AcceptFacts(s, a, id);
      var c :| HoldsRefresh(s, c, id);
      assert HoldsRefresh(Apply(s, a), c, id) && HoldsRefresh(Apply(s, a), a.c, id);
    }
  }

  lemma {:induction false} AlwaysKnown(run: Run, i: nat)
    requires IsRun(run) && i <= |run.actions|
    ensures Known(run.systems[i]) && Asked(run.systems[i])
  {
    hide Known, Asked, Apply, Enabled;
    if i > 0 {
      AlwaysKnown(run, i - 1);
      assert StepAt(run, i - 1);
      KnownStep(run.systems[i - 1], run.actions[i - 1]);
      AskedStep(run.systems[i - 1], run.actions[i - 1]);
    } else {
      NothingYet("");
    }
  }

  lemma NothingYet(id: Id)
    ensures Known(INITIAL) && Asked(INITIAL) && CreatedFirst(INITIAL) && Agree(INITIAL, id)
    ensures !AcceptedTwice(INITIAL, id) && !RefreshesOverlap(INITIAL, id)
  {
  }

  ghost predicate NeverOverlaps(run: Run, i: nat, id: Id)
    requires i < |run.systems|
  {
    forall j :: 0 <= j <= i ==> !RefreshesOverlap(run.systems[j], id)
  }

  ghost predicate OthersApart(run: Run, i: nat, id: Id)
    requires i < |run.systems|
  {
    forall j :: 0 <= j <= i ==> !OthersOverlap(run.systems[j], id)
  }

  lemma CreatedFirstStep(s: System, a: Action)
    requires Known(s) && Asked(s) && CreatedFirst(s) && Enabled(s, a)
    ensures CreatedFirst(Apply(s, a))
  {
    hide Known, Proceed, Inserted, Updated, RevokedRows;
    match a
    case Inserts(_, _) => InsertsCreatesFirst(s, a);
    case LooksUp(c, id, u, now) =>
      if Live(s.store.cache, id, now) {
        assert s.store.cache[id].session.sessionId == id by { LookedUpIsNamed(s, id); }
        ProceedsNamed(s, c, s.store.cache[id].session, u);
      }
    case WritesCache(c, now) =>
      if s.calls[c].Filling? {
        ProceedsNamed(Cached(s, s.calls[c].session, now), c, s.calls[c].session, s.calls[c].purpose);
      } else {
        EndsNamed(s, a);
      }
    case _ =>
  }

  lemma LookedUpIsNamed(s: System, id: Id)
    requires Known(s) && id in s.store.cache
    ensures s.store.cache[id].session.sessionId == id
  {
  }

  lemma ProceedsNamed(s: System, c: nat, session: Session, u: Purpose)
    requires CreatedFirst(s)
    requires !u.ToGet? ==> u.payload in s.issued && u.payload.sessionId == session.sessionId
    ensures CreatedFirst(Proceed(s, c, session, u))
  {
    var s' := Proceed(s, c, session, u);
    assert s'.issued == s.issued;
    assert !u.ToGet? ==> Named(s', session.sessionId);
    assert forall k :: Named(s, k) <==> Named(s', k);
  }

  lemma EndsNamed(s: System, a: Action)
    requires CreatedFirst(s) && Enabled(s, a) && a.WritesCache? && !s.calls[a.c].Filling?
    ensures CreatedFirst(Apply(s, a))
  {
    var h, s' := s.calls[a.c], Apply(s, a);
    assert forall p :: p in s'.issued ==> p in s.issued || p.sessionId == h.session.sessionId;
    assert forall k :: Named(s, k) ==> Named(s', k);
    assert forall k :: Named(s', k) ==> Named(s, k) || k == h.session.sessionId;
  }

  lemma InsertsCreatesFirst(s: System, a: Action)
    requires Known(s) && CreatedFirst(s) && Enabled(s, a) && a.Inserts?
    ensures CreatedFirst(Apply(s, a))
  {
    hide KnownStore, Inserted;
    forall c | c in s.calls && s.calls[c].Creating? ensures s.calls[c].session.sessionId != a.session.sessionId {
      assert Holds(s, c, s.calls[c].session.sessionId);
    }
  }

  lemma {:induction false} AlwaysCreatedFirst(run: Run, i: nat)
    requires IsRun(run) && i <= |run.actions|
    ensures CreatedFirst(run.systems[i])
  {
    hide Known, Asked, CreatedFirst, Apply, Enabled;
    if i > 0 {
      AlwaysCreatedFirst(run, i - 1);
      AlwaysKnown(run, i - 1);
      assert StepAt(run, i - 1);
      CreatedFirstStep(run.systems[i - 1], run.actions[i - 1]);
    } else {
      NothingYet("");
    }
  }

  /** A session is not refreshed before its creation has ended, so only the cache fills and
      step-ups of a session can run across its refreshes. */
  lemma OnlyFillsAndStepUps(run: Run, i: nat, id: Id)
    requires IsRun(run) && i <= |run.actions|
    ensures OthersHold(run.systems[i], id) <==> OthersOverlap(run.systems[i], id)
  {
    AlwaysCreatedFirst(run, i);
    var s := run.systems[i];
    if c, d :| HoldsRefresh(s, c, id) && Holds(s, d, id) && !HoldsRefresh(s, d, id) {
      assert Saves(s.calls[c]) && Named(s, id);
      assert FillsOrStepsUp(s, d, id);
    }
    if c, d :| HoldsRefresh(s, c, id) && FillsOrStepsUp(s, d, id) {
      assert Holds(s, d, id) && !HoldsRefresh(s, d, id);
    }
  }

  /** As long as no refresh of a session runs across another one, or across a cache fill or a
      step-up of that session, none of its refresh-token ids is accepted twice. */
  lemma {:induction false} ApartIsSingleUse(run: Run, i: nat, id: Id)
    requires IsRun(run) && i <= |run.actions| && NeverOverlaps(run, i, id) && OthersApart(run, i, id)
    ensures Agree(run.systems[i], id) && !AcceptedTwice(run.systems[i], id)
  {
    hide Known, Asked, Agree, Apply, Enabled, AcceptedTwice, RefreshesOverlap, OthersHold, OthersOverlap;
    if i > 0 {
      OnlyFillsAndStepUps(run, i - 1, id);
      ApartIsSingleUse(run, i - 1, id);
      AlwaysKnown(run, i - 1);
      assert StepAt(run, i - 1);
      StepKeeps(run.systems[i - 1], run.actions[i - 1], id);
    } else {
      NothingYet(id);
    }
  }

  lemma {:induction false} OverlapIsTwice(run: Run, i: nat, id: Id)
    requires IsRun(run) && i <= |run.actions| && !NeverOverlaps(run, i, id) && OthersApart(run, i, id)
    ensures AcceptedTwice(run.systems[i], id)
  {
    hide Known, Asked, Agree, Apply, Enabled, AcceptedTwice, RefreshesOverlap, OthersHold, OthersOverlap;
    hide RefreshHeld;
    if i == 0 {
      NothingYet(id);
      assert false;
    }
    OnlyFillsAndStepUps(run, i - 1, id);
    AlwaysKnown(run, i - 1);
    assert StepAt(run, i - 1);
    var s, a := run.systems[i - 1], run.actions[i - 1];
    if NeverOverlaps(run, i - 1, id) {
      ApartIsSingleUse(run, i - 1, id);
      OverlapBegins(s, a, id);
      OverlapAcceptsTwice(s, a, id);
    } else {
      OverlapIsTwice(run, i - 1, id);
      TwiceStep(s, a, id);
    }
  }

  /** As long as no refresh of a session runs across a cache fill or a step-up of that session,
      some of its refresh-token ids is accepted twice exactly if two of its refreshes were
      between acceptance and the end of their save at the same time. */
  lemma SingleUseIff(run: Run, i: nat, id: Id)
    requires IsRun(run) && i <= |run.actions| && OthersApart(run, i, id)
    ensures AcceptedTwice(run.systems[i], id) <==> !NeverOverlaps(run, i, id)
  {
    hide AcceptedTwice, NeverOverlaps, OthersApart;
    if NeverOverlaps(run, i, id) {
      ApartIsSingleUse(run, i, id);
    } else {
      OverlapIsTwice(run, i, id);
    }
  }

  // ---------------------------------------------------------------- late writes

  /** The refresh that the owner of this session asks for with its token. */
  function RefreshOf(session: Session, checkedAt: Time): Purpose {
    ToRefresh(TokenFor(session.userId, session.tenantId, session), true, session.tenantId, checkedAt)
  }

  /** The id that call `d` holds has been accepted, and its token was signed. */
  predicate HoldsAccepted(s: System, d: nat) {
    && d in s.calls && (s.calls[d].Filling? || s.calls[d].SteppingUp?)
    && var session := s.calls[d].session;
       && Acceptance(session.sessionId, session.refreshTokenId) in s.accepted
       && TokenFor(session.userId, session.tenantId, session) in s.issued
  }

  /** A `get`, whatever it is for, that read the row before a refresh and fills the cache after it
      puts the refreshed id back: the token of that refresh is accepted again. */
  lemma FillRestoresToken(s: System, d: nat, e: nat, checkedAt: Time, now: Time)
    requires HoldsAccepted(s, d) && s.calls[d].Filling?
    requires e !in s.calls && checkedAt < s.calls[d].session.expiresAt
    ensures Enabled(s, WritesCache(d, now))
    ensures var session, s1 := s.calls[d].session, Apply(s, WritesCache(d, now));
            && Enabled(s1, LooksUp(e, session.sessionId, RefreshOf(session, checkedAt), now))
            && AcceptedTwice(
                 Apply(s1, LooksUp(e, session.sessionId, RefreshOf(session, checkedAt), now)), session.sessionId)
  {
    var session, s1 := s.calls[d].session, Apply(s, WritesCache(d, now));
    var s2 := Apply(s1, LooksUp(e, session.sessionId, RefreshOf(session, checkedAt), now));
    assert s2.accepted == s1.accepted + [Acceptance(session.sessionId, session.refreshTokenId)];
    var i :| 0 <= i < |s.accepted| && s.accepted[i] == Acceptance(session.sessionId, session.refreshTokenId);
    assert s2.accepted[i] == s2.accepted[|s1.accepted|];
  }

  /** So does a step-up that read the session before a refresh and saves it after. */
  lemma StepUpRestoresToken(s: System, d: nat, e: nat, checkedAt: Time, now: Time)
    requires HoldsAccepted(s, d) && s.calls[d].SteppingUp?
    requires e !in s.calls && checkedAt < s.calls[d].session.expiresAt
    ensures Enabled(s, StepsUp(d)) && Enabled(Apply(s, StepsUp(d)), WritesCache(d, now))
    ensures var session, s1 := s.calls[d].session, Apply(Apply(s, StepsUp(d)), WritesCache(d, now));
            && Enabled(s1, LooksUp(e, session.sessionId, RefreshOf(session, checkedAt), now))
            && AcceptedTwice(
                 Apply(s1, LooksUp(e, session.sessionId, RefreshOf(session, checkedAt), now)), session.sessionId)
  {
    var session, s1 := s.calls[d].session, Apply(Apply(s, StepsUp(d)), WritesCache(d, now));
    var s2 := Apply(s1, LooksUp(e, session.sessionId, RefreshOf(session, checkedAt), now));
    assert s2.accepted == s.accepted + [Acceptance(session.sessionId, session.refreshTokenId)];
    var i :| 0 <= i < |s.accepted| && s.accepted[i] == Acceptance(session.sessionId, session.refreshTokenId);
    assert s2.accepted[i] == s2.accepted[|s.accepted|];
  }

  // ---------------------------------------------------------------- witness runs

  const FIRST := Session("s", "u", "t", 0, 10500, true, Some("A"))
  const SECOND := Session("s", "u", "t", 0, 99999, true, Some("B"))

  /** One session, with `row` in the table and `entry`, if any, in the cache. */
  function Single(
      row: Session, entry: Option<CacheEntry>, calls: map<nat, Call>, rotated: bool, accepted: nat): System {
    System(
      StoreState(map["s" := SessionRow("t", "u", true, row.refreshTokenId, row.expiresAt, None, 0)],
                 if entry.Some? then map["s" := entry.value] else map[]),
      calls,
      {TokenFor("u", "t", FIRST)} + (if rotated then {TokenFor("u", "t", SECOND)} else {}),
      {"A"} + (if row == SECOND || rotated then {"B"} else {}),
      seq(accepted, _ => Acceptance("s", Some("A"))))
  }

  /** The session opens and is cached until 10000, half a second before it expires. */
  function Opened(): (systems: seq<System>)
    ensures |systems| == 2
  {
    [INITIAL,
     System(StoreState(map["s" := SessionRow("t", "u", true, Some("A"), 10500, None, 0)], map[]),
            map[0 := Creating(FIRST)], {}, {"A"}, [])]
  }

  function Opening(): (actions: seq<Action>)
    ensures |actions| == 2
  {
    [Inserts(0, FIRST), WritesCache(0, 0)]
  }

  const OPEN := Single(FIRST, Some(CacheEntry(FIRST, 10000)), map[], false, 0)

  lemma OpeningSteps()
    ensures Enabled(INITIAL, Opening()[0]) && Apply(INITIAL, Opening()[0]) == Opened()[1]
    ensures Enabled(Opened()[1], Opening()[1]) && Apply(Opened()[1], Opening()[1]) == OPEN
  {
    assert Apply(INITIAL, Opening()[0]).store == Opened()[1].store;
    assert CacheTtl(10500, 0) == 10000;
    assert Apply(Opened()[1], Opening()[1]).store == OPEN.store;
    assert Apply(Opened()[1], Opening()[1]).calls == map[];
  }

  /** The step from `s` to `s'`. */
  predicate Steps(s: System, a: Action, s': System) {
    Enabled(s, a) && Apply(s, a) == s'
  }

  /** A run that opens the session and goes on with these steps. */
  function Continued(systems: seq<System>, actions: seq<Action>): Run {
    Run(Opened() + [OPEN] + systems, Opening() + actions)
  }

  function Before(systems: seq<System>, i: nat): System
    requires i <= |systems|
  {
    if i == 0 then OPEN else systems[i - 1]
  }

  lemma ContinuedIsRun(systems: seq<System>, actions: seq<Action>)
    requires |systems| == |actions|
    requires forall i :: 0 <= i < |actions| ==> Steps(Before(systems, i), actions[i], systems[i])
    ensures var run := Continued(systems, actions);
            && IsRun(run) && |run.actions| == |actions| + 2
            && run.systems[0] == INITIAL && run.systems[1] == Opened()[1] && run.systems[2] == OPEN
            && forall i :: 3 <= i < |run.systems| ==> run.systems[i] == systems[i - 3]
  {
    hide Enabled, Apply;
    OpeningSteps();
    var run := Continued(systems, actions);
    forall i | 0 <= i < |run.actions| ensures StepAt(run, i) {
      if i >= 2 {
        var k := i - 2;
        assert Steps(Before(systems, k), actions[k], systems[k]);
        assert run.systems[i] == Before(systems, k) && run.systems[i + 1] == systems[k] && run.actions[i] == actions[k];
      }
    }
  }

  /** Two refreshes that both look the session up before either saves. */
  lemma OverlapReached()
    ensures exists run: Run :: IsRun(run) && |run.actions| == 4 && OthersApart(run, 4, "s") &&
                               !NeverOverlaps(run, 4, "s") && AcceptedTwice(run.systems[4], "s")
  {
    var u := RefreshOf(FIRST, 2);
    var one := map[1 := Refreshing(FIRST, "t")];
    var entry := Some(CacheEntry(FIRST, 10000));
    var s3 := Single(FIRST, entry, one, false, 1);
    var s4 := Single(FIRST, entry, one[2 := Refreshing(FIRST, "t")], false, 2);
    var actions := [LooksUp(1, "s", u, 1), LooksUp(2, "s", u, 2)];
    assert Steps(OPEN, actions[0], s3) && Steps(s3, actions[1], s4);
    ContinuedIsRun([s3, s4], actions);
    var run := Continued([s3, s4], actions);
    assert run.systems[4] == s4 && run.systems[3] == s3;
    assert HoldsRefresh(s4, 1, "s") && HoldsRefresh(s4, 2, "s");
    assert s4.accepted[0] == s4.accepted[1];
    forall j | 0 <= j <= 4 ensures !OthersOverlap(run.systems[j], "s") {
    }
  }

  /** The `get` of a refresh reads the row, another refresh runs as a whole, the `get` fills the
      cache, and the token is accepted again: no two refreshes are between acceptance and the end
      of their save at once, and no step-up runs. */
  function FillSystems(): (systems: seq<System>)
    ensures |systems| == 8
  {
    var u := RefreshOf(FIRST, 10000);
    var g := map[1 := Filling(FIRST, u)];
    var first, second := Some(CacheEntry(FIRST, 10000)), Some(CacheEntry(SECOND, 99000));
    [Single(FIRST, first, map[1 := Looking("s", u)], false, 0),
     Single(FIRST, first, g, false, 0),
     Single(FIRST, first, g[2 := Looking("s", u)], false, 0),
     Single(FIRST, first, g[2 := Filling(FIRST, u)], false, 0),
     Single(FIRST, Some(CacheEntry(FIRST, 11000)), g[2 := Refreshing(FIRST, "t")], false, 1),
     Single(SECOND, Some(CacheEntry(FIRST, 11000)), g[2 := Rotating(SECOND, "t", Some("A"))], false, 1),
     Single(SECOND, second, g, true, 1),
     Single(SECOND, Some(CacheEntry(FIRST, 11000)), map[1 := Refreshing(FIRST, "t")], true, 2)]
  }

  function FillActions(): (actions: seq<Action>)
    ensures |actions| == 8
  {
    var u := RefreshOf(FIRST, 10000);
    [LooksUp(1, "s", u, 10000), ReadsTable(1, 10000), LooksUp(2, "s", u, 10000), ReadsTable(2, 10000),
     WritesCache(2, 10000), Rotates(2, "B", 99999), WritesCache(2, 10000), WritesCache(1, 10000)]
  }

  lemma FillLooks(i: nat)
    requires i < 4
    ensures Steps(Before(FillSystems(), i), FillActions()[i], FillSystems()[i])
  {
  }

  lemma FillAccepts()
    ensures Steps(FillSystems()[3], FillActions()[4], FillSystems()[4])
  {
    assert CacheTtl(10500, 10000) == 1000;
  }

  lemma FillRotates()
    ensures Steps(FillSystems()[4], FillActions()[5], FillSystems()[5])
  {
  }

  lemma FillSaves()
    ensures Steps(FillSystems()[5], FillActions()[6], FillSystems()[6])
  {
    assert CacheTtl(99999, 10000) == 89000;
  }

  lemma FillEnds()
    ensures Steps(FillSystems()[6], FillActions()[7], FillSystems()[7])
  {
    assert CacheTtl(10500, 10000) == 1000;
  }

  ghost predicate NoStepUp(s: System) {
    forall c :: c in s.calls ==> !s.calls[c].SteppingUp? && !s.calls[c].SteppedUp?
  }

  ghost predicate NoFill(s: System) {
    forall c :: c in s.calls ==> !s.calls[c].Filling?
  }

  lemma FillHasNoStepUp(i: nat)
    requires i < 8
    ensures NoStepUp(FillSystems()[i])
  {
  }

  lemma FillIsAlone(i: nat)
    requires i < 8
    ensures !RefreshesOverlap(FillSystems()[i], "s")
  {
  }

  lemma OpeningIsQuiet()
    ensures !RefreshesOverlap(INITIAL, "s") && NoStepUp(INITIAL) && NoFill(INITIAL)
    ensures !RefreshesOverlap(Opened()[1], "s") && NoStepUp(Opened()[1]) && NoFill(Opened()[1])
    ensures !RefreshesOverlap(OPEN, "s") && NoStepUp(OPEN) && NoFill(OPEN)
  {
  }

  lemma FillReached()
    ensures exists run: Run :: IsRun(run) && |run.actions| == 10 && NeverOverlaps(run, 10, "s") &&
                               (forall j :: 0 <= j <= 10 ==> NoStepUp(run.systems[j])) &&
                               AcceptedTwice(run.systems[10], "s")
  {
    hide Enabled, Apply, RefreshesOverlap, NoStepUp, FillSystems, FillActions, Steps, Opened, Opening, Continued;
    var systems, actions := FillSystems(), FillActions();
    forall i | 0 <= i < 8 ensures Steps(Before(systems, i), actions[i], systems[i]) {
      if i < 4 {
        FillLooks(i);
      } else if i < 7 {
        FillAccepts();
        FillRotates();
        FillSaves();
      } else {
        FillEnds();
      }
    }
    ContinuedIsRun(systems, actions);
    var run := Continued(systems, actions);
    OpeningIsQuiet();
    forall j | 0 <= j <= 10 ensures !RefreshesOverlap(run.systems[j], "s") && NoStepUp(run.systems[j]) {
      if j >= 3 {
        FillIsAlone(j - 3);
        FillHasNoStepUp(j - 3);
      }
    }
    assert AcceptedTwice(run.systems[10], "s") by { FillAcceptsTwice(); }
  }

  lemma FillAcceptsTwice()
    ensures AcceptedTwice(FillSystems()[7], "s")
  {
    var s := FillSystems()[7];
    assert s.accepted[0] == s.accepted[1];
  }

  /** A step-up looks the session up, a whole refresh runs, the step-up saves, and the token is
      accepted again: no two refreshes overlap, and no `get` fills the cache. */
  function StepUpSystems(): (systems: seq<System>)
    ensures |systems| == 7
  {
    var g := map[1 := SteppingUp(FIRST, "u", "t")];
    var first, second := Some(CacheEntry(FIRST, 10000)), Some(CacheEntry(SECOND, 99003));
    [Single(FIRST, first, g, false, 0),
     Single(FIRST, first, g[2 := Refreshing(FIRST, "t")], false, 1),
     Single(SECOND, first, g[2 := Rotating(SECOND, "t", Some("A"))], false, 1),
     Single(SECOND, second, g, true, 1),
     Single(FIRST, second, map[1 := SteppedUp(FIRST, "u", "t")], true, 1),
     Single(FIRST, Some(CacheEntry(FIRST, 10003)), map[], true, 1),
     Single(FIRST, Some(CacheEntry(FIRST, 10003)), map[3 := Refreshing(FIRST, "t")], true, 2)]
  }

  function StepUpActions(): (actions: seq<Action>)
    ensures |actions| == 7
  {
    var u := RefreshOf(FIRST, 2);
    [LooksUp(1, "s", ToStepUp(u.payload), 1), LooksUp(2, "s", u, 2), Rotates(2, "B", 99999), WritesCache(2, 3),
     StepsUp(1), WritesCache(1, 3), LooksUp(3, "s", u, 4)]
  }

  lemma StepUpLooks(i: nat)
    requires i < 2
    ensures Steps(Before(StepUpSystems(), i), StepUpActions()[i], StepUpSystems()[i])
  {
  }

  lemma StepUpRotates()
    ensures Steps(StepUpSystems()[1], StepUpActions()[2], StepUpSystems()[2])
  {
  }

  lemma StepUpSaves()
    ensures Steps(StepUpSystems()[2], StepUpActions()[3], StepUpSystems()[3])
  {
    assert CacheTtl(99999, 3) == 99000;
  }

  lemma StepUpEnds(i: nat)
    requires 4 <= i < 7
    ensures Steps(Before(StepUpSystems(), i), StepUpActions()[i], StepUpSystems()[i])
  {
    assert CacheTtl(10500, 3) == 10000;
  }

  lemma StepUpIsAlone(i: nat)
    requires i < 7
    ensures !RefreshesOverlap(StepUpSystems()[i], "s") && NoFill(StepUpSystems()[i])
  {
  }

  lemma StepUpReached()
    ensures exists run: Run :: IsRun(run) && |run.actions| == 9 && NeverOverlaps(run, 9, "s") &&
                               (forall j :: 0 <= j <= 9 ==> NoFill(run.systems[j])) &&
                               AcceptedTwice(run.systems[9], "s")
  {
    hide Enabled, Apply, RefreshesOverlap, NoFill, StepUpSystems, StepUpActions, Steps, Opened, Opening, Continued;
    var systems, actions := StepUpSystems(), StepUpActions();
    forall i | 0 <= i < 7 ensures Steps(Before(systems, i), actions[i], systems[i]) {
      if i < 2 {
        StepUpLooks(i);
      } else if i < 4 {
        StepUpRotates();
        StepUpSaves();
      } else {
        StepUpEnds(i);
      }
    }
    ContinuedIsRun(systems, actions);
    var run := Continued(systems, actions);
    OpeningIsQuiet();
    forall j | 0 <= j <= 9 ensures !RefreshesOverlap(run.systems[j], "s") && NoFill(run.systems[j]) {
      if j >= 3 {
        StepUpIsAlone(j - 3);
      }
    }
    assert AcceptedTwice(run.systems[9], "s") by { StepUpAcceptsTwice(); }
  }

  lemma StepUpAcceptsTwice()
    ensures AcceptedTwice(StepUpSystems()[6], "s")
  {
    var s := StepUpSystems()[6];
    assert s.accepted[0] == s.accepted[1];
  }
}
