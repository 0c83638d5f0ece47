// sso-oidc.service.ts as a protocol: any number of `start` and `callback` calls interleave,
// each database statement being one step, together with SAML sign-ins that share the
// transaction table and with administrators changing the identity providers.
module SsoOidc {
  import opened Options
  import opened AuthSessions
  import opened AuthUsers
  import opened SsoTransactions

  /** A row of `tenant_identity_providers`; `configured` says that issuer and client id are set. */
  datatype Idp = Idp(id: Id, enabled: bool, configured: bool)

  const LIFETIME: int := 10 * 60 * 1000

  datatype Callback =
    | Arrived(tenantId: Id, state: string)
    | Holding(tenantId: Id, state: string, tx: Tx)
    | Exchanging(tenantId: Id, state: string, tx: Tx)
    | Finished
    | Rejected

  datatype Start =
    | Asked(tenantId: Id)
    | Preparing(tenantId: Id, providerId: Id)
    | Redirected
    | Failed

  /** What `start` recorded for a state (history). */
  datatype Started = Started(
    tenantId: Id, providerId: Id, nonce: string, pkceVerifier: string, redirectUri: string, expiresAt: Time)

  /** One call of `exchangeAuthorizationCode` (history). */
  datatype Exchange = Exchange(
    call: nat, tenantId: Id, state: string, provider: Idp,
    nonce: string, pkceVerifier: string, redirectUri: string, consumedAt: Time)

  datatype System = System(
    rows: Txs, idps: map<(Id, Provider), Idp>, // UNIQUE(tenant_id, protocol)
    callbacks: map<nat, Callback>, starts: map<nat, Start>,
    // history
    drawn: set<string>, started: map<string, Started>, owner: map<string, Option<nat>>,
    exchanges: seq<Exchange>)

  datatype Action =
    | StartArrives(k: nat, tenantId: Id)
    | StartLooksUp(k: nat)
    | StartInserts(k: nat, state: string, nonce: string, pkceVerifier: string, redirectUri: string, computedAt: Time)
    | CallbackArrives(c: nat, tenantId: Id, state: string)
    | CallbackConsumes(c: nat, now: Time)
    | CallbackLooksUp(c: nat)
    | CallbackEnds(c: nat)
    | SamlInserts(tenantId: Id, providerId: Id, state: string, redirectUri: string, computedAt: Time)
    | SamlConsumes(tenantId: Id, state: string, now: Time)
    | PutIdp(tenantId: Id, protocol: Provider, idp: Idp)
    | DeleteIdp(tenantId: Id, protocol: Provider)

  /** Calls are numbered as they arrive, and random states do not repeat. */
  predicate Enabled(s: System, a: Action) {
    match a
    case StartArrives(k, _) => k !in s.starts
    case StartInserts(_, state, _, _, _, _) => state !in s.drawn
    case CallbackArrives(c, _, _) => c !in s.callbacks
    case SamlInserts(_, _, state, _, _) => state !in s.drawn
    case _ => true
  }

  function EnabledIdp(s: System, tenantId: Id, protocol: Provider): Option<Idp> {
    if (tenantId, protocol) in s.idps && s.idps[(tenantId, protocol)].enabled
    then Some(s.idps[(tenantId, protocol)]) else None
  }

  predicate IdpExists(s: System, id: Id) {
    exists key :: key in s.idps && s.idps[key].id == id
  }

  predicate Usable(r: Option<Tx>) {
    && r.Some? && r.value.protocol == OIDC
    && r.value.pkceVerifier.Some? && r.value.nonce.Some? && r.value.redirectUri.Some?
  }

  function StartLookUp(s: System, k: nat): System
    requires k in s.starts && s.starts[k].Asked?
  {
    var tenantId := s.starts[k].tenantId;
    match EnabledIdp(s, tenantId, OIDC)
    case None => s.(starts := s.starts[k := Failed])
    case Some(idp) =>
      s.(starts := s.starts[k := if idp.configured then Preparing(tenantId, idp.id) else Failed])
  }

  /** The insert fails when the provider was deleted meanwhile (foreign key). */
  function StartInsert(
      s: System, k: nat, state: string, nonce: string, verifier: string, redirectUri: string, t: Time): System
    requires k in s.starts && s.starts[k].Preparing?
  {
    var Preparing(tenantId, providerId) := s.starts[k];
    if !IdpExists(s, providerId) then s.(starts := s.starts[k := Failed], drawn := s.drawn + {state})
    else
      s.(starts := s.starts[k := Redirected], drawn := s.drawn + {state},
         rows := s.rows[state := Tx(tenantId, providerId, OIDC, Some(nonce), Some(verifier), Some(redirectUri),
                                    t + LIFETIME, None)],
         started := s.started[state := Started(tenantId, providerId, nonce, verifier, redirectUri, t + LIFETIME)])
  }

  function Consume(s: System, c: nat, now: Time): System
    requires c in s.callbacks && s.callbacks[c].Arrived?
  {
    var Arrived(tenantId, state) := s.callbacks[c];
    var r := ConsumeResult(s.rows, tenantId, state, now);
    s.(rows := AfterConsume(s.rows, tenantId, state, now),
       owner := if r.Some? then s.owner[state := Some(c)] else s.owner,
       callbacks := s.callbacks[c := if Usable(r) then Holding(tenantId, state, r.value) else Rejected])
  }

  function LookUp(s: System, c: nat): System
    requires c in s.callbacks && s.callbacks[c].Holding? && Usable(Some(s.callbacks[c].tx))
  {
    var Holding(tenantId, state, tx) := s.callbacks[c];
    match EnabledIdp(s, tenantId, OIDC)
    case None => s.(callbacks := s.callbacks[c := Rejected])
    case Some(idp) =>
      if idp.id != tx.providerId then s.(callbacks := s.callbacks[c := Rejected])
      else
        s.(callbacks := s.callbacks[c := Exchanging(tenantId, state, tx)],
           exchanges := s.exchanges + [Exchange(c, tenantId, state, idp, tx.nonce.value, tx.pkceVerifier.value,
                                                tx.redirectUri.value,
                                                if tx.consumedAt.Some? then tx.consumedAt.value else 0)])
  }

  function WithoutProvider(rows: Txs, id: Id): Txs {
    map state | state in rows && rows[state].providerId != id :: rows[state]
  }

  function Apply(s: System, a: Action): System {
    match a
    case StartArrives(k, tenantId) => s.(starts := s.starts[k := Asked(tenantId)])
    case StartLooksUp(k) => if k in s.starts && s.starts[k].Asked? then StartLookUp(s, k) else s
    case StartInserts(k, state, nonce, verifier, redirectUri, t) =>
      if k in s.starts && s.starts[k].Preparing? then StartInsert(s, k, state, nonce, verifier, redirectUri, t) else s
    case CallbackArrives(c, tenantId, state) => s.(callbacks := s.callbacks[c := Arrived(tenantId, state)])
    case CallbackConsumes(c, now) => if c in s.callbacks && s.callbacks[c].Arrived? then Consume(s, c, now) else s
    case CallbackLooksUp(c) =>
      if c in s.callbacks && s.callbacks[c].Holding? && Usable(Some(s.callbacks[c].tx)) then LookUp(s, c) else s
    case CallbackEnds(c) =>
      if c in s.callbacks && s.callbacks[c].Exchanging? then s.(callbacks := s.callbacks[c := Finished]) else s
    case SamlInserts(tenantId, providerId, state, redirectUri, t) =>
      s.(drawn := s.drawn + {state},
         rows := s.rows[state := Tx(tenantId, providerId, SAML, None, None, Some(redirectUri), t + LIFETIME, None)])
    case SamlConsumes(tenantId, state, now) =>
      s.(rows := AfterConsume(s.rows, tenantId, state, now),
         owner := if Pending(s.rows, tenantId, state, now) then s.owner[state := None] else s.owner)
    case PutIdp(tenantId, protocol, idp) => s.(idps := s.idps[(tenantId, protocol) := idp])
    case DeleteIdp(tenantId, protocol) =>
      if (tenantId, protocol) !in s.idps then s
      else s.(idps := s.idps - {(tenantId, protocol)},
              rows := WithoutProvider(s.rows, s.idps[(tenantId, protocol)].id))
  }

  // ---------------------------------------------------------------- the invariant

  predicate Matches(st: Started, tx: Tx) {
    && tx.protocol == OIDC && tx.tenantId == st.tenantId && tx.providerId == st.providerId
    && tx.nonce == Some(st.nonce) && tx.pkceVerifier == Some(st.pkceVerifier)
    && tx.redirectUri == Some(st.redirectUri) && tx.expiresAt == st.expiresAt
  }

  ghost predicate RowsOk(s: System) {
    && s.rows.Keys <= s.drawn && s.started.Keys <= s.drawn && s.owner.Keys <= s.drawn
    && (forall st :: st in s.rows ==>
          && (if st in s.started then Matches(s.started[st], s.rows[st]) else s.rows[st].protocol == SAML)
          && (st in s.owner <==> s.rows[st].consumedAt.Some?))
  }

  /** A transaction in the hands of callback `c`: consumed by it alone, in time, for the
      tenant that started it. */
  predicate Holds(s: System, c: nat, tenantId: Id, state: string, tx: Tx) {
    && state in s.owner && s.owner[state] == Some(c)
    && state in s.started && s.started[state].tenantId == tenantId && Matches(s.started[state], tx)
    && tx.consumedAt.Some? && tx.consumedAt.value < tx.expiresAt
  }

  ghost predicate CallbacksOk(s: System) {
    forall c :: c in s.callbacks && s.callbacks[c].Holding? ==>
      Holds(s, c, s.callbacks[c].tenantId, s.callbacks[c].state, s.callbacks[c].tx)
  }

  /** The exchange agrees with what `start` recorded, and its callback owns the state. */
  predicate ExchangeOk(s: System, e: Exchange) {
    && e.state in s.owner && s.owner[e.state] == Some(e.call)
    && e.state in s.started
    && s.started[e.state].tenantId == e.tenantId && s.started[e.state].providerId == e.provider.id
    && e.provider.enabled
    && s.started[e.state].nonce == e.nonce && s.started[e.state].pkceVerifier == e.pkceVerifier
    && s.started[e.state].redirectUri == e.redirectUri && e.consumedAt < s.started[e.state].expiresAt
    && e.call in s.callbacks && (s.callbacks[e.call].Exchanging? || s.callbacks[e.call].Finished?)
  }

  ghost predicate ExchangesOk(s: System) {
    && (forall i :: 0 <= i < |s.exchanges| ==> ExchangeOk(s, s.exchanges[i]))
    && (forall i, j :: 0 <= i < j < |s.exchanges| ==> s.exchanges[i].call != s.exchanges[j].call)
  }

  ghost predicate Inv(s: System) {
    RowsOk(s) && CallbacksOk(s) && ExchangesOk(s)
  }

  const INITIAL := System(map[], map[], map[], map[], {}, map[], map[], [])

  lemma ConsumeKeeps(s: System, c: nat, now: Time)
    requires Inv(s) && c in s.callbacks && s.callbacks[c].Arrived?
    ensures Inv(Consume(s, c, now))
  {
    var s' := Consume(s, c, now);
    var Arrived(tenantId, state) := s.callbacks[c];
    if ConsumeResult(s.rows, tenantId, state, now).Some? {
      assert state !in s.owner;
    }
    assert forall st :: st in s.owner ==> st in s'.owner && s'.owner[st] == s.owner[st];
  }

  lemma LookUpKeeps(s: System, c: nat)
    requires Inv(s) && c in s.callbacks && s.callbacks[c].Holding? && Usable(Some(s.callbacks[c].tx))
    ensures Inv(LookUp(s, c))
  {
    SameRows(s, LookUp(s, c));
    LookUpKeepsExchanges(s, c);
  }

  lemma LookUpKeepsExchanges(s: System, c: nat)
    requires CallbacksOk(s) && ExchangesOk(s)
    requires c in s.callbacks && s.callbacks[c].Holding? && Usable(Some(s.callbacks[c].tx))
    ensures CallbacksOk(LookUp(s, c)) && ExchangesOk(LookUp(s, c))
  {
    assert Holds(s, c, s.callbacks[c].tenantId, s.callbacks[c].state, s.callbacks[c].tx);
    assert forall i :: 0 <= i < |s.exchanges| ==> ExchangeOk(s, s.exchanges[i]) && s.exchanges[i].call != c;
  }

  lemma ApplyKeeps(s: System, a: Action)
    requires Inv(s) && Enabled(s, a)
    ensures Inv(Apply(s, a))
  {
    match a
    case CallbackConsumes(c, now) => if c in s.callbacks && s.callbacks[c].Arrived? { ConsumeKeeps(s, c, now); }
    case CallbackLooksUp(c) =>
      if c in s.callbacks && s.callbacks[c].Holding? && Usable(Some(s.callbacks[c].tx)) { LookUpKeeps(s, c); }
    case _ => OtherKeeps(s, a);
  }

  /** History only grows, and no callback moves but past the exchange. */
  ghost predicate Frame(s: System, s': System) {
    && s'.exchanges == s.exchanges
    && (forall st :: st in s.started ==> st in s'.started && s'.started[st] == s.started[st])
    && (forall st :: st in s.owner ==> st in s'.owner && s'.owner[st] == s.owner[st])
    && (forall c :: c in s'.callbacks && s'.callbacks[c].Holding? ==>
          c in s.callbacks && s'.callbacks[c] == s.callbacks[c])
    && (forall c :: c in s.callbacks && (s.callbacks[c].Exchanging? || s.callbacks[c].Finished?) ==>
          c in s'.callbacks && (s'.callbacks[c].Exchanging? || s'.callbacks[c].Finished?))
  }

  lemma FrameKeeps(s: System, s': System)
    requires CallbacksOk(s) && ExchangesOk(s) && Frame(s, s')
    ensures CallbacksOk(s') && ExchangesOk(s')
  {
    forall c | c in s'.callbacks && s'.callbacks[c].Holding?
      ensures Holds(s', c, s'.callbacks[c].tenantId, s'.callbacks[c].state, s'.callbacks[c].tx)
    {
      assert Holds(s, c, s.callbacks[c].tenantId, s.callbacks[c].state, s.callbacks[c].tx);
    }
    forall i | 0 <= i < |s'.exchanges|
      ensures ExchangeOk(s', s'.exchanges[i])
    {
      assert ExchangeOk(s, s.exchanges[i]);
    }
  }

  lemma OtherKeeps(s: System, a: Action)
    requires Inv(s) && Enabled(s, a) && !a.CallbackConsumes? && !a.CallbackLooksUp?
    ensures Inv(Apply(s, a))
  {
    hide RowsOk, CallbacksOk, ExchangesOk, Frame, Apply;
    OtherKeepsRows(s, a);
    OtherFrames(s, a);
    FrameKeeps(s, Apply(s, a));
  }

  lemma OtherFrames(s: System, a: Action)
    requires RowsOk(s) && Enabled(s, a) && !a.CallbackConsumes? && !a.CallbackLooksUp?
    ensures Frame(s, Apply(s, a))
  {
    hide RowsOk, Frame, StartInsert, StartLookUp;
    match a
    case SamlConsumes(_, _, _) => SamlConsumeFrames(s, a);
    case StartInserts(_, _, _, _, _, _) => StartInsertFrames(s, a);
    case _ => QuietFrames(s, a);
  }

  lemma QuietFrames(s: System, a: Action)
    requires Enabled(s, a) && !a.CallbackConsumes? && !a.CallbackLooksUp? && !a.SamlConsumes? && !a.StartInserts?
    ensures Frame(s, Apply(s, a))
  {
    hide WithoutProvider, EnabledIdp, Frame;
    if a.CallbackArrives? || a.CallbackEnds? {
      ArrivingOrEndingFrames(s, a);
    } else {
      SameHistory(s, Apply(s, a));
    }
  }

  lemma ArrivingOrEndingFrames(s: System, a: Action)
    requires Enabled(s, a) && (a.CallbackArrives? || a.CallbackEnds?)
    ensures Frame(s, Apply(s, a))
  {
  }

  lemma SameHistory(s: System, s': System)
    requires s'.exchanges == s.exchanges && s'.started == s.started
    requires s'.owner == s.owner && s'.callbacks == s.callbacks
    ensures Frame(s, s')
  {
  }

  lemma SamlConsumeFrames(s: System, a: Action)
    requires RowsOk(s) && a.SamlConsumes?
    ensures Frame(s, Apply(s, a))
  {
    hide AfterConsume, Matches;
    assert Pending(s.rows, a.tenantId, a.state, a.now) ==> a.state !in s.owner;
  }

  lemma StartInsertFrames(s: System, a: Action)
    requires RowsOk(s) && a.StartInserts? && Enabled(s, a)
    ensures Frame(s, Apply(s, a))
  {
    hide IdpExists, Matches;
  }

  lemma OtherKeepsRows(s: System, a: Action)
    requires RowsOk(s) && Enabled(s, a) && !a.CallbackConsumes? && !a.CallbackLooksUp?
    ensures RowsOk(Apply(s, a))
  {
    hide RowsOk, StartInsert;
    match a
    case StartInserts(k, state, nonce, verifier, redirectUri, t) =>
      if k in s.starts && s.starts[k].Preparing? {
        StartInsertKeepsRows(s, k, state, nonce, verifier, redirectUri, t);
      }
    case SamlInserts(_, _, _, _, _) => SamlKeepsRows(s, a);
    case SamlConsumes(_, _, _) => SamlKeepsRows(s, a);
    case DeleteIdp(_, _) => SamlKeepsRows(s, a);
    case _ => SameRows(s, Apply(s, a));
  }

  lemma StartInsertKeepsRows(
      s: System, k: nat, state: string, nonce: string, verifier: string, redirectUri: string, t: Time)
    requires RowsOk(s) && state !in s.drawn && k in s.starts && s.starts[k].Preparing?
    ensures RowsOk(StartInsert(s, k, state, nonce, verifier, redirectUri, t))
  {
  }

  lemma SamlKeepsRows(s: System, a: Action)
    requires RowsOk(s) && Enabled(s, a) && (a.SamlInserts? || a.SamlConsumes? || a.DeleteIdp?)
    ensures RowsOk(Apply(s, a))
  {
  }

  lemma SameRows(s: System, s': System)
    requires RowsOk(s) && s'.rows == s.rows && s'.drawn == s.drawn && s'.started == s.started && s'.owner == s.owner
    ensures RowsOk(s')
  {
  }

  // ---------------------------------------------------------------- runs

  datatype Run = Run(systems: seq<System>, actions: seq<Action>)

  predicate WellShaped(run: Run) {
    |run.systems| == |run.actions| + 1 && run.systems[0] == INITIAL
  }

  predicate StepAt(run: Run, i: nat)
    requires WellShaped(run) && i < |run.actions|
  {
    Enabled(run.systems[i], run.actions[i]) && run.systems[i + 1] == Apply(run.systems[i], run.actions[i])
  }

  ghost predicate IsRun(run: Run) {
    WellShaped(run) && forall i :: 0 <= i < |run.actions| ==> StepAt(run, i)
  }

  lemma {:induction false} InvAlways(run: Run, i: nat)
    requires IsRun(run) && i <= |run.actions|
    ensures Inv(run.systems[i])
  {
    if i > 0 {
      InvAlways(run, i - 1);
      assert StepAt(run, i - 1);
      ApplyKeeps(run.systems[i - 1], run.actions[i - 1]);
    }
  }

  /** Whatever the interleaving, at most one callback reaches the code exchange for a state,
      hence for a (tenant, state) pair, and no callback exchanges twice. */
  lemma AtMostOneExchange(run: Run, i: nat, x: nat, y: nat)
    requires IsRun(run) && i <= |run.actions| && x < y < |run.systems[i].exchanges|
    ensures run.systems[i].exchanges[x].state != run.systems[i].exchanges[y].state
    ensures run.systems[i].exchanges[x].call != run.systems[i].exchanges[y].call
  {
    InvAlways(run, i);
    var s := run.systems[i];
    assert ExchangeOk(s, s.exchanges[x]) && ExchangeOk(s, s.exchanges[y]);
  }

  lemma NewExchange(s: System, a: Action, x: nat)
    requires Inv(s) && x < |Apply(s, a).exchanges|
    ensures x < |s.exchanges| ==> Apply(s, a).exchanges[x] == s.exchanges[x]
    ensures x >= |s.exchanges| ==>
              var e := Apply(s, a).exchanges[x];
              && a == CallbackLooksUp(e.call) && EnabledIdp(s, e.tenantId, OIDC) == Some(e.provider)
              && e.call in s.callbacks && s.callbacks[e.call].Holding? && s.callbacks[e.call].state == e.state
              && s.callbacks[e.call].tx.consumedAt == Some(e.consumedAt)
  {
    hide RowsOk, ExchangesOk;
    if !a.CallbackLooksUp? {
      OnlyLookUpExchanges(s, a);
    } else {
      hide EnabledIdp;
      if x >= |s.exchanges| {
        var c := a.c;
        assert Holds(s, c, s.callbacks[c].tenantId, s.callbacks[c].state, s.callbacks[c].tx);
      }
    }
  }

  lemma OnlyLookUpExchanges(s: System, a: Action)
    requires !a.CallbackLooksUp?
    ensures Apply(s, a).exchanges == s.exchanges
  {
    hide WithoutProvider, EnabledIdp, AfterConsume, IdpExists;
  }

  /** The step that made an exchange: the callback held the transaction, and at that moment
      the exchange's provider was the enabled one of the tenant. */
  lemma {:induction false} ExchangeStep(run: Run, i: nat, x: nat) returns (k: nat)
    requires IsRun(run) && i <= |run.actions| && x < |run.systems[i].exchanges|
    ensures k < i && run.actions[k] == CallbackLooksUp(run.systems[i].exchanges[x].call)
    ensures var e, s := run.systems[i].exchanges[x], run.systems[k];
            && EnabledIdp(s, e.tenantId, OIDC) == Some(e.provider)
            && e.call in s.callbacks && s.callbacks[e.call].Holding? && s.callbacks[e.call].state == e.state
            && s.callbacks[e.call].tx.consumedAt == Some(e.consumedAt)
  {
    hide Inv, Apply, EnabledIdp;
    InvAlways(run, i - 1);
    assert StepAt(run, i - 1);
    NewExchange(run.systems[i - 1], run.actions[i - 1], x);
    if x < |run.systems[i - 1].exchanges| {
      k := ExchangeStep(run, i - 1, x);
    } else {
      k := i - 1;
    }
  }

  lemma NewHolding(s: System, a: Action, c: nat)
    requires Inv(s) && Enabled(s, a)
    requires c in Apply(s, a).callbacks && Apply(s, a).callbacks[c].Holding?
    ensures c in s.callbacks && s.callbacks[c].Holding? ==> Apply(s, a).callbacks[c] == s.callbacks[c]
    ensures !(c in s.callbacks && s.callbacks[c].Holding?) ==>
              var h := Apply(s, a).callbacks[c];
              && h.tx.consumedAt.Some? && a == CallbackConsumes(c, h.tx.consumedAt.value)
              && Pending(s.rows, h.tenantId, h.state, h.tx.consumedAt.value)
              && s.rows[h.state].(consumedAt := h.tx.consumedAt) == h.tx
              && h.tx.protocol == OIDC
  {
    hide Apply, Pending, RowsOk;
    if a.CallbackLooksUp? {
      LookUpLeavesHolders(s, a, c);
    } else if !a.CallbackConsumes? {
      OtherFrames(s, a);
    } else if c in s.callbacks && s.callbacks[c].Holding? {
      ConsumeLeavesHolders(s, a, c);
    } else {
      NewHoldingIsConsume(s, a, c);
    }
  }

  lemma LookUpLeavesHolders(s: System, a: Action, c: nat)
    requires a.CallbackLooksUp? && c in Apply(s, a).callbacks && Apply(s, a).callbacks[c].Holding?
    ensures c in s.callbacks && s.callbacks[c] == Apply(s, a).callbacks[c]
  {
    hide EnabledIdp;
  }

  lemma ConsumeLeavesHolders(s: System, a: Action, c: nat)
    requires a.CallbackConsumes? && c in s.callbacks && s.callbacks[c].Holding?
    ensures c in Apply(s, a).callbacks && Apply(s, a).callbacks[c] == s.callbacks[c]
  {
  }

  lemma NewHoldingIsConsume(s: System, a: Action, c: nat)
    requires a.CallbackConsumes? && c in Apply(s, a).callbacks && Apply(s, a).callbacks[c].Holding?
    requires !(c in s.callbacks && s.callbacks[c].Holding?)
    ensures var h := Apply(s, a).callbacks[c];
            && h.tx.consumedAt.Some? && a == CallbackConsumes(c, h.tx.consumedAt.value)
            && Pending(s.rows, h.tenantId, h.state, h.tx.consumedAt.value)
            && s.rows[h.state].(consumedAt := h.tx.consumedAt) == h.tx
            && h.tx.protocol == OIDC
  {
  }

  /** The step at which a callback took its transaction. */
  lemma {:induction false} HoldingStep(run: Run, i: nat, c: nat) returns (j: nat)
    requires IsRun(run) && i <= |run.actions|
    requires c in run.systems[i].callbacks && run.systems[i].callbacks[c].Holding?
    ensures var h := run.systems[i].callbacks[c];
            && j < i && h.tx.consumedAt.Some? && run.actions[j] == CallbackConsumes(c, h.tx.consumedAt.value)
            && Pending(run.systems[j].rows, h.tenantId, h.state, h.tx.consumedAt.value)
            && run.systems[j].rows[h.state].(consumedAt := h.tx.consumedAt) == h.tx
            && h.tx.protocol == OIDC
  {
    hide Apply, Pending, Inv, Enabled;
    InvAlways(run, i - 1);
    assert StepAt(run, i - 1);
    var s := run.systems[i - 1];
    NewHolding(s, run.actions[i - 1], c);
    if c in s.callbacks && s.callbacks[c].Holding? {
      j := HoldingStep(run, i - 1, c);
    } else {
      j := i - 1;
    }
  }

  lemma NewStarted(s: System, a: Action, state: string)
    requires Inv(s) && Enabled(s, a)
    ensures state in s.started ==> state in Apply(s, a).started && Apply(s, a).started[state] == s.started[state]
    ensures state in Apply(s, a).started && state !in s.started ==>
              var st := Apply(s, a).started[state];
              && a.StartInserts? && a.state == state
              && a.k in s.starts && s.starts[a.k] == Preparing(st.tenantId, st.providerId)
              && st == Started(st.tenantId, st.providerId, a.nonce, a.pkceVerifier, a.redirectUri,
                               a.computedAt + LIFETIME)
  {
    hide CallbacksOk, ExchangesOk, IdpExists, WithoutProvider, AfterConsume, EnabledIdp;
  }

  /** The step at which `start` stored a transaction. */
  lemma {:induction false} StartedStep(run: Run, i: nat, state: string) returns (m: nat)
    requires IsRun(run) && i <= |run.actions| && state in run.systems[i].started
    ensures var st := run.systems[i].started[state];
            && m < i
            && run.actions[m].StartInserts? && run.actions[m].state == state
            && run.actions[m].k in run.systems[m].starts
            && run.systems[m].starts[run.actions[m].k] == Preparing(st.tenantId, st.providerId)
            && st == Started(st.tenantId, st.providerId, run.actions[m].nonce, run.actions[m].pkceVerifier,
                             run.actions[m].redirectUri, run.actions[m].computedAt + LIFETIME)
  {
    hide Inv, Apply, Enabled;
    InvAlways(run, i - 1);
    assert StepAt(run, i - 1);
    NewStarted(run.systems[i - 1], run.actions[i - 1], state);
    if state in run.systems[i - 1].started {
      m := StartedStep(run, i - 1, state);
    } else {
      m := i - 1;
    }
  }

  /** Every code exchange of every run has this past: a `start` of the same tenant stored the
      transaction with the provider it had looked up; later this callback, and nobody else,
      consumed it before its expiry; later still the same provider was the tenant's enabled
      one; and the exchange uses that start's nonce, verifier and redirect URI. */
  lemma ExchangeHasItsPast(run: Run, i: nat, x: nat) returns (m: nat, j: nat, k: nat)
    requires IsRun(run) && i <= |run.actions| && x < |run.systems[i].exchanges|
    ensures var e := run.systems[i].exchanges[x];
            && m < j < k < i
            && run.actions[m].StartInserts? && run.actions[m].state == e.state
            && run.actions[m].k in run.systems[m].starts
            && run.systems[m].starts[run.actions[m].k] == Preparing(e.tenantId, e.provider.id)
            && run.actions[m].nonce == e.nonce && run.actions[m].pkceVerifier == e.pkceVerifier
            && run.actions[m].redirectUri == e.redirectUri
            && run.actions[j] == CallbackConsumes(e.call, e.consumedAt)
            && e.consumedAt < run.actions[m].computedAt + LIFETIME
            && run.actions[k] == CallbackLooksUp(e.call)
            && EnabledIdp(run.systems[k], e.tenantId, OIDC) == Some(e.provider)
  {
    var e := run.systems[i].exchanges[x];
    k := ExchangeStep(run, i, x);
    j := HoldingStep(run, k, e.call);
    InvAlways(run, j);
    m := StartedStep(run, j, e.state);
    InvAlways(run, i);
    assert ExchangeOk(run.systems[i], e);
    StartedStays(run, j, i, e.state);
  }

  lemma {:induction false} StartedStays(run: Run, j: nat, i: nat, state: string)
    requires IsRun(run) && j <= i <= |run.actions| && state in run.systems[j].started
    ensures state in run.systems[i].started && run.systems[i].started[state] == run.systems[j].started[state]
    decreases i
  {
    hide Inv, Apply, Enabled;
    if j < i {
      StartedStays(run, j, i - 1, state);
      InvAlways(run, i - 1);
      assert StepAt(run, i - 1);
      NewStarted(run.systems[i - 1], run.actions[i - 1], state);
    }
  }

  /** A callback gets the transaction exactly when its tenant's `start` created the state,
      the row is still there and in time, and nobody consumed it before. */
  lemma ConsumeSucceedsIff(run: Run, i: nat)
    requires IsRun(run) && i < |run.actions| && run.actions[i].CallbackConsumes?
    requires run.actions[i].c in run.systems[i].callbacks && run.systems[i].callbacks[run.actions[i].c].Arrived?
    ensures var s, s', CallbackConsumes(c, now) := run.systems[i], run.systems[i + 1], run.actions[i];
            var Arrived(tenantId, state) := s.callbacks[c];
            c in s'.callbacks &&
            (s'.callbacks[c].Holding? <==>
               && state in s.rows && state in s.started && s.started[state].tenantId == tenantId
               && state !in s.owner && now < s.started[state].expiresAt)
  {
    InvAlways(run, i);
    assert StepAt(run, i);
  }
}
