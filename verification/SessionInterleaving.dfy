// auth-session.store.ts under concurrency: every database statement and every cache command
// of `create`, `get`, `save` and `revoke` is a step of its own, and any number of calls
// interleave.
module SessionInterleaving {
  import opened Options
  import opened AuthSessions

  /** What a running call does next. */
  datatype Pc =
    | CreateInsert(s: Session)
    | CreateCache(s: Session)
    | GetReadCache(id: Id)
    | GetReadTable(id: Id)
    | GetWriteCache(s: Session)
    | SaveUpdate(s: Session)
    | SaveCache(s: Session)
    | RevokeUpdate(id: Id)
    | RevokeCache(id: Id)
    | Returned(answer: Option<Session>)

  datatype System = System(store: StoreState, calls: map<nat, Pc>, ids: set<Id>)

  datatype Event =
    | Begin(call: nat, pc: Pc)
    | Advance(call: nat, now: Time)

  /** The next program point of a call and the store it leaves. */
  function StepCall(st: StoreState, pc: Pc, now: Time): (StoreState, Pc) {
    match pc
    case CreateInsert(s) => (st.(rows := Inserted(st.rows, s)), CreateCache(s))
    case CreateCache(s) => (st.(cache := CacheWith(st.cache, s, now)), Returned(None))
    case GetReadCache(id) =>
      if Live(st.cache, id, now) then (st, Returned(Some(st.cache[id].session))) else (st, GetReadTable(id))
    case GetReadTable(id) =>
      (match TableGet(st.rows, id, now)
       case None => (st, Returned(None))
       case Some(s) => (st, GetWriteCache(s)))
    case GetWriteCache(s) => (st.(cache := CacheWith(st.cache, s, now)), Returned(Some(s)))
    case SaveUpdate(s) => (st.(rows := Updated(st.rows, s)), SaveCache(s))
    case SaveCache(s) => (st.(cache := CacheWith(st.cache, s, now)), Returned(None))
    case RevokeUpdate(id) => (st.(rows := RevokedRows(st.rows, id, now)), RevokeCache(id))
    case RevokeCache(id) => (st.(cache := st.cache - {id}), Returned(None))
    case Returned(_) => (st, pc)
  }

  /** Uninterrupted, a call is the atomic call of the session store. */
  lemma UninterruptedIsAtomic(st: StoreState, s: Session, id: Id, now: Time)
    ensures ThreeSteps(st, CreateInsert(s), now) == (AfterCreate(st, s, now), Returned(None))
    ensures ThreeSteps(st, GetReadCache(id), now) == (AfterGet(st, id, now), Returned(GetResult(st, id, now)))
    ensures ThreeSteps(st, SaveUpdate(s), now) == (AfterSave(st, s, now), Returned(None))
    ensures ThreeSteps(st, RevokeUpdate(id), now) == (AfterRevoke(st, id, now), Returned(None))
  {
    hide CacheWith, Inserted, Updated, RevokedRows;
  }

  /** The longest call has three steps; one that has returned stays where it is. */
  function ThreeSteps(st: StoreState, pc: Pc, now: Time): (StoreState, Pc) {
    var (st1, pc1) := StepCall(st, pc, now);
    var (st2, pc2) := StepCall(st1, pc1, now);
    StepCall(st2, pc2, now)
  }

  /** A call enters at its first statement; `create` draws an id nobody used before. */
  predicate Enabled(sys: System, e: Event) {
    match e
    case Begin(call, pc) =>
      call !in sys.calls &&
      (match pc
       case CreateInsert(s) => s.sessionId !in sys.ids
       case GetReadCache(_) => true
       case SaveUpdate(_) => true
       case RevokeUpdate(_) => true
       case _ => false)
    case Advance(call, _) => call in sys.calls
  }

  function Next(sys: System, e: Event): System
    requires Enabled(sys, e)
  {
    match e
    case Begin(call, pc) =>
      sys.(calls := sys.calls[call := pc],
           ids := if pc.CreateInsert? then sys.ids + {pc.s.sessionId} else sys.ids)
    case Advance(call, now) =>
      var (st, pc) := StepCall(sys.store, sys.calls[call], now);
      sys.(store := st, calls := sys.calls[call := pc])
  }

  predicate Possible(sys: System, schedule: seq<Event>)
    decreases |schedule|
  {
    schedule == [] || (Enabled(sys, schedule[0]) && Possible(Next(sys, schedule[0]), schedule[1..]))
  }

  function Run(sys: System, schedule: seq<Event>): System
    requires Possible(sys, schedule)
    decreases |schedule|
  {
    if schedule == [] then sys else Run(Next(sys, schedule[0]), schedule[1..])
  }

  /** Ids drawn by `create` are unique: no pending insert names an existing row or the id of
      another pending insert. */
  ghost predicate IdsDistinct(sys: System) {
    && sys.store.rows.Keys <= sys.ids
    && (forall c :: c in sys.calls && sys.calls[c].CreateInsert? ==>
          sys.calls[c].s.sessionId in sys.ids && sys.calls[c].s.sessionId !in sys.store.rows)
    && (forall c, d :: c in sys.calls && d in sys.calls && c != d &&
                       sys.calls[c].CreateInsert? && sys.calls[d].CreateInsert? ==>
          sys.calls[c].s.sessionId != sys.calls[d].s.sessionId)
  }

  lemma NextKeepsIdsDistinct(sys: System, e: Event)
    requires IdsDistinct(sys) && Enabled(sys, e)
    ensures IdsDistinct(Next(sys, e))
  {
    hide CacheWith, TableGet, Live;
  }

  /** A revoked row is frozen but for the time stamp of a repeated revocation. */
  predicate StaysRevoked(before: SessionRow, after: SessionRow) {
    before.revokedAt.Some? ==> after.revokedAt.Some? && after.(revokedAt := before.revokedAt) == before
  }

  lemma NextKeepsRevoked(sys: System, e: Event, id: Id)
    requires IdsDistinct(sys) && Enabled(sys, e) && id in sys.store.rows
    ensures id in Next(sys, e).store.rows
    ensures StaysRevoked(sys.store.rows[id], Next(sys, e).store.rows[id])
  {
  }

  /** Under every interleaving of any number of calls a revocation is never undone and the
      revoked row keeps all its other columns. */
  lemma {:induction false} RevocationFinalInEverySchedule(sys: System, schedule: seq<Event>, id: Id)
    requires IdsDistinct(sys) && Possible(sys, schedule) && id in sys.store.rows
    ensures id in Run(sys, schedule).store.rows
    ensures StaysRevoked(sys.store.rows[id], Run(sys, schedule).store.rows[id])
    decreases |schedule|
  {
    if schedule != [] {
      NextKeepsIdsDistinct(sys, schedule[0]);
      NextKeepsRevoked(sys, schedule[0], id);
      RevocationFinalInEverySchedule(Next(sys, schedule[0]), schedule[1..], id);
    }
  }

  /** A `get` that reaches the table after the revocation, anywhere in a schedule, finds nothing. */
  lemma TableReadAfterRevocation(sys: System, schedule: seq<Event>, call: nat, id: Id, now: Time)
    requires IdsDistinct(sys) && Possible(sys, schedule)
    requires id in sys.store.rows && sys.store.rows[id].revokedAt.Some?
    requires call in Run(sys, schedule).calls && Run(sys, schedule).calls[call] == GetReadTable(id)
    ensures Next(Run(sys, schedule), Advance(call, now)).calls[call] == Returned(None)
  {
    RevocationFinalInEverySchedule(sys, schedule, id);
  }

  lemma RunCons(sys: System, e: Event, rest: seq<Event>)
    requires Enabled(sys, e) && Possible(Next(sys, e), rest)
    ensures Possible(sys, [e] + rest) && Run(sys, [e] + rest) == Run(Next(sys, e), rest)
  {
    assert ([e] + rest)[1..] == rest;
  }

  lemma RunNothing(sys: System)
    ensures Possible(sys, []) && Run(sys, []) == sys
  {
  }

  lemma RunThree(sys: System, e0: Event, e1: Event, e2: Event, rest: seq<Event>)
    requires Enabled(sys, e0)
    requires Enabled(Next(sys, e0), e1)
    requires Enabled(Next(Next(sys, e0), e1), e2)
    requires Possible(Next(Next(Next(sys, e0), e1), e2), rest)
    ensures Possible(sys, [e0] + ([e1] + ([e2] + rest)))
    ensures Run(sys, [e0] + ([e1] + ([e2] + rest))) == Run(Next(Next(Next(sys, e0), e1), e2), rest)
  {
    RunCons(Next(Next(sys, e0), e1), e2, rest);
    RunCons(Next(sys, e0), e1, [e2] + rest);
    RunCons(sys, e0, [e1] + ([e2] + rest));
  }

  // ---------------------------------------------------------------- after a revocation

  /** The call still has a cache write of `id` ahead. */
  predicate WritesCacheOf(pc: Pc, id: Id) {
    match pc
    case CreateInsert(s) => s.sessionId == id
    case CreateCache(s) => s.sessionId == id
    case GetWriteCache(s) => s.sessionId == id
    case SaveUpdate(s) => s.sessionId == id
    case SaveCache(s) => s.sessionId == id
    case _ => false
  }

  /** The table says revoked and the cache says nothing. */
  ghost predicate Gone(sys: System, id: Id) {
    id in sys.store.rows && sys.store.rows[id].revokedAt.Some? && id !in sys.store.cache
  }

  ghost predicate Pending(sys: System, id: Id) {
    exists c :: c in sys.calls && WritesCacheOf(sys.calls[c], id)
  }

  /** Cache entries are stored under the id of their session, as every cache write does. */
  ghost predicate Keyed(sys: System) {
    forall k :: k in sys.store.cache ==> sys.store.cache[k].session.sessionId == k
  }

  predicate BeginsSave(e: Event, id: Id) {
    e.Begin? && e.pc.SaveUpdate? && e.pc.s.sessionId == id
  }

  predicate BeginsNoSave(schedule: seq<Event>, id: Id) {
    forall i :: 0 <= i < |schedule| ==> !BeginsSave(schedule[i], id)
  }

  predicate Answered(sys: System, c: nat, id: Id) {
    && c in sys.calls && sys.calls[c].Returned? && sys.calls[c].answer.Some?
    && sys.calls[c].answer.value.sessionId == id
  }

  /** A call that has answered with session `id` had done so before. */
  ghost predicate NoNewAnswer(before: System, after: System, id: Id) {
    forall c :: Answered(after, c, id) ==> Answered(before, c, id)
  }

  lemma NextStaysGone(sys: System, e: Event, id: Id)
    requires IdsDistinct(sys) && Keyed(sys) && Gone(sys, id) && !Pending(sys, id) && Enabled(sys, e)
    requires BeginsNoSave([e], id)
    ensures var next := Next(sys, e);
            Keyed(next) && Gone(next, id) && !Pending(next, id) && NoNewAnswer(sys, next, id)
  {
    assert [e][0] == e;
    if e.Advance? {
      assert !WritesCacheOf(sys.calls[e.call], id);
    }
  }

  /** Once a session is gone and no running call has a cache write of it ahead, no schedule that
      begins no `save` of it brings its entry back or makes any `get` return it. */
  lemma {:induction false} GoneForGood(sys: System, schedule: seq<Event>, id: Id)
    requires IdsDistinct(sys) && Keyed(sys) && Gone(sys, id) && !Pending(sys, id)
    requires Possible(sys, schedule) && BeginsNoSave(schedule, id)
    ensures var end := Run(sys, schedule); Gone(end, id) && !Pending(end, id) && NoNewAnswer(sys, end, id)
    decreases |schedule|
  {
    hide Gone, Pending, Keyed, IdsDistinct, Enabled, Next;
    if schedule != [] {
      NextKeepsIdsDistinct(sys, schedule[0]);
      assert BeginsNoSave([schedule[0]], id);
      NextStaysGone(sys, schedule[0], id);
      GoneForGood(Next(sys, schedule[0]), schedule[1..], id);
    }
  }

  /** Some schedule without a new `save` of `id` makes its cache entry readable at `now`. */
  ghost predicate CanReappear(sys: System, id: Id, now: Time) {
    exists schedule ::
      Possible(sys, schedule) && BeginsNoSave(schedule, id) && Live(Run(sys, schedule).store.cache, id, now)
  }

  /** A gone session can become readable again exactly if a running call still has a cache write
      of it ahead. */
  lemma ReappearsIff(sys: System, id: Id, now: Time)
    requires IdsDistinct(sys) && Keyed(sys) && Gone(sys, id)
    ensures CanReappear(sys, id, now) <==> Pending(sys, id)
  {
    if Pending(sys, id) {
      var c :| c in sys.calls && WritesCacheOf(sys.calls[c], id);
      PendingWriteLands(sys, c, id, now);
    } else if CanReappear(sys, id, now) {
      var schedule :|
        Possible(sys, schedule) && BeginsNoSave(schedule, id) && Live(Run(sys, schedule).store.cache, id, now);
      GoneForGood(sys, schedule, id);
    }
  }

  lemma PendingWriteLands(sys: System, c: nat, id: Id, now: Time)
    requires IdsDistinct(sys) && Gone(sys, id) && c in sys.calls && WritesCacheOf(sys.calls[c], id)
    ensures CanReappear(sys, id, now)
  {
    var e := Advance(c, now);
    assert !sys.calls[c].CreateInsert?;
    RunNothing(Next(sys, e));
    RunCons(sys, e, []);
    assert BeginsNoSave([e] + [], id);
    if sys.calls[c].SaveUpdate? {
      RunNothing(Next(Next(sys, e), e));
      RunCons(Next(sys, e), e, []);
      RunCons(sys, e, [e] + []);
      assert BeginsNoSave([e] + ([e] + []), id);
      assert Live(Run(sys, [e] + ([e] + [])).store.cache, id, now);
    } else {
      assert Live(Run(sys, [e] + []).store.cache, id, now);
    }
  }

  /** And a `save` of a gone session, begun afterwards, always brings its entry back. */
  lemma SaveBringsBack(sys: System, c: nat, s: Session, now: Time)
    requires IdsDistinct(sys) && Gone(sys, s.sessionId) && c !in sys.calls
    ensures var schedule := [Begin(c, SaveUpdate(s))] + ([Advance(c, now)] + ([Advance(c, now)] + []));
            Possible(sys, schedule) && Live(Run(sys, schedule).store.cache, s.sessionId, now) &&
            Run(sys, schedule).store.rows == sys.store.rows
  {
    var e := Advance(c, now);
    var begun := Next(sys, Begin(c, SaveUpdate(s)));
    RunNothing(Next(Next(begun, e), e));
    RunThree(sys, Begin(c, SaveUpdate(s)), e, e, []);
  }

  // ---------------------------------------------------------------- coherence step by step

  /** When a single step leaves the cache coherent: a cache write needs the row to be
      unrevoked and still what is written; a table write needs that no readable entry shows
      the columns it changes. */
  predicate KeepsCoherence(st: StoreState, pc: Pc, now: Time) {
    match pc
    case CreateCache(s) => Writable(st.rows, s)
    case GetWriteCache(s) => Writable(st.rows, s)
    case SaveCache(s) => Writable(st.rows, s)
    case SaveUpdate(s) => Live(st.cache, s.sessionId, now) ==> Updated(st.rows, s) == st.rows
    case RevokeUpdate(id) => !Live(st.cache, id, now)
    case _ => true
  }

  predicate Writable(rows: map<Id, SessionRow>, s: Session) {
    s.sessionId in rows && rows[s.sessionId].revokedAt.None? && s == Projection(s.sessionId, rows[s.sessionId])
  }

  /** Exactly the steps that satisfy `KeepsCoherence` keep a coherent cache coherent. */
  lemma StepKeepsCoherentIff(st: StoreState, pc: Pc, now: Time)
    requires Coherent(st, now)
    requires pc.CreateInsert? ==> pc.s.sessionId !in st.rows
    ensures Coherent(StepCall(st, pc, now).0, now) <==> KeepsCoherence(st, pc, now)
  {
    var st' := StepCall(st, pc, now).0;
    match pc
    case CreateCache(s) => CacheWriteKeepsCoherentIff(st, s, now);
    case GetWriteCache(s) => CacheWriteKeepsCoherentIff(st, s, now);
    case SaveCache(s) => CacheWriteKeepsCoherentIff(st, s, now);
    case SaveUpdate(s) =>
      if Live(st.cache, s.sessionId, now) && Updated(st.rows, s) != st.rows {
        var id := s.sessionId;
        assert st'.rows[id] != st.rows[id];
        assert Projection(id, st'.rows[id]) != Projection(id, st.rows[id]);
      }
    case RevokeUpdate(id) =>
      if Live(st.cache, id, now) {
        assert st'.rows[id].revokedAt.Some?;
      }
    case _ =>
  }

  lemma CacheWriteKeepsCoherentIff(st: StoreState, s: Session, now: Time)
    requires Coherent(st, now)
    ensures Coherent(st.(cache := CacheWith(st.cache, s, now)), now) <==> Writable(st.rows, s)
  {
    var st' := st.(cache := CacheWith(st.cache, s, now));
    assert Live(st'.cache, s.sessionId, now);
    assert forall id :: id != s.sessionId ==> Live(st'.cache, id, now) == Live(st.cache, id, now);
  }

  /** Whole calls, run one after the other, do keep coherence; interleaved ones need not,
      because `save` writes the cache although its guarded update matched no row. From one
      coherent live session, the schedule "save begins, revoke runs to its end, save
      continues" leaves a readable entry for a revoked row. */
  lemma CoherenceNeedsAtomicCalls()
    ensures exists sys: System, schedule ::
              IdsDistinct(sys) && Coherent(sys.store, 0) && Possible(sys, schedule) &&
              !Coherent(Run(sys, schedule).store, 0)
  {
    hide Possible, Run, Next, IdsDistinct;
    var s := Session("s", "u", "t", 0, 60000, true, None);
    var row := SessionRow("t", "u", true, None, 60000, None, 0);
    var sys := System(StoreState(map["s" := row], map[]), map[], {"s"});
    var e0, e1, e2, e3 := Begin(0, SaveUpdate(s)), Begin(1, RevokeUpdate("s")), Advance(1, 0), Advance(0, 0);
    SaveAroundRevoke(s, row);
    var mid := Next(Next(Next(sys, e0), e1), e2);
    var end := Next(Next(Next(mid, e2), e3), e3);
    RunNothing(end);
    RunThree(mid, e2, e3, e3, []);
    RunThree(sys, e0, e1, e2, [e2] + ([e3] + ([e3] + [])));
  }

  lemma SaveAroundRevoke(s: Session, row: SessionRow)
    requires s == Session("s", "u", "t", 0, 60000, true, None)
    requires row == SessionRow("t", "u", true, None, 60000, None, 0)
    ensures var sys := System(StoreState(map["s" := row], map[]), map[], {"s"});
            var e0, e1, e2, e3 := Begin(0, SaveUpdate(s)), Begin(1, RevokeUpdate("s")), Advance(1, 0), Advance(0, 0);
            && IdsDistinct(sys) && Coherent(sys.store, 0)
            && Enabled(sys, e0) && Enabled(Next(sys, e0), e1) && Enabled(Next(Next(sys, e0), e1), e2)
            && var mid := Next(Next(Next(sys, e0), e1), e2);
               && Enabled(mid, e2) && Enabled(Next(mid, e2), e3) && Enabled(Next(Next(mid, e2), e3), e3)
               && !Coherent(Next(Next(Next(mid, e2), e3), e3).store, 0)
  {
    var sys := System(StoreState(map["s" := row], map[]), map[], {"s"});
    var mid := Next(Next(Next(sys, Begin(0, SaveUpdate(s))), Begin(1, RevokeUpdate("s"))), Advance(1, 0));
    var revoked := row.(revokedAt := Some(0));
    assert mid == System(StoreState(map["s" := revoked], map[]),
                         map[0 := SaveUpdate(s), 1 := RevokeCache("s")], {"s"});
    var end := Next(Next(Next(mid, Advance(1, 0)), Advance(0, 0)), Advance(0, 0));
    assert Live(end.store.cache, "s", 0) && end.store.rows["s"] == revoked;
  }
}
