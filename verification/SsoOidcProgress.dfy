// When an OIDC sign-in gets on: what each look-up of `start` and `callback` decides, and exactly
// which callbacks reach the code exchange.
module SsoOidcProgress {
  import opened Options
  import opened AuthSessions
  import opened AuthUsers
  import opened SsoTransactions
  import opened SsoOidc

  /** `start` goes on exactly if the tenant's OIDC provider is there, enabled and configured. */
  lemma StartDecision(run: Run, i: nat)
    requires IsRun(run) && i < |run.actions| && run.actions[i].StartLooksUp?
    requires run.actions[i].k in run.systems[i].starts && run.systems[i].starts[run.actions[i].k].Asked?
    ensures var s, k := run.systems[i], run.actions[i].k;
            var key := (s.starts[k].tenantId, OIDC);
            run.systems[i + 1] ==
            s.(starts := s.starts[k := if key in s.idps && s.idps[key].enabled && s.idps[key].configured
                                       then Preparing(key.0, s.idps[key].id) else Failed])
  {
    assert StepAt(run, i);
  }

  /** It then stores its transaction for ten minutes and redirects, unless the provider has been
      deleted meanwhile. */
  lemma StartInsertDecision(run: Run, i: nat)
    requires IsRun(run) && i < |run.actions| && run.actions[i].StartInserts?
    requires run.actions[i].k in run.systems[i].starts && run.systems[i].starts[run.actions[i].k].Preparing?
    ensures var s, s', a := run.systems[i], run.systems[i + 1], run.actions[i];
            var Preparing(tenantId, providerId) := s.starts[a.k];
            a.k in s'.starts && s'.idps == s.idps &&
            if exists key :: key in s.idps && s.idps[key].id == providerId then
              && s'.starts[a.k] == Redirected
              && s'.rows == s.rows[a.state := Tx(tenantId, providerId, OIDC, Some(a.nonce), Some(a.pkceVerifier),
                                                 Some(a.redirectUri), a.computedAt + 600000, None)]
            else s'.starts[a.k] == Failed && s'.rows == s.rows
  {
    assert StepAt(run, i);
  }

  /** A callback that holds a transaction exchanges the code exactly if the tenant's OIDC provider
      is there, enabled, and the one of the transaction; otherwise it is rejected. */
  lemma CallbackDecision(run: Run, i: nat)
    requires IsRun(run) && i < |run.actions| && run.actions[i].CallbackLooksUp?
    requires run.actions[i].c in run.systems[i].callbacks && run.systems[i].callbacks[run.actions[i].c].Holding?
    ensures var s, s', c := run.systems[i], run.systems[i + 1], run.actions[i].c;
            var Holding(tenantId, state, tx) := s.callbacks[c];
            var key := (tenantId, OIDC);
            && c in s'.callbacks && s'.rows == s.rows && s'.idps == s.idps && s'.starts == s.starts
            && state in s.started && tx.consumedAt.Some?
            && if key in s.idps && s.idps[key].enabled && s.idps[key].id == tx.providerId then
                 && s'.callbacks[c] == Exchanging(tenantId, state, tx)
                 && s'.exchanges == s.exchanges +
                    [Exchange(c, tenantId, state, s.idps[key], s.started[state].nonce, s.started[state].pkceVerifier,
                              s.started[state].redirectUri, tx.consumedAt.value)]
               else s'.callbacks[c] == Rejected && s'.exchanges == s.exchanges
  {
    InvAlways(run, i);
    HeldIsUsable(run.systems[i], run.actions[i].c);
    assert StepAt(run, i);
    hide Inv;
  }

  lemma HeldIsUsable(s: System, c: nat)
    requires Inv(s) && c in s.callbacks && s.callbacks[c].Holding?
    ensures var Holding(tenantId, state, tx) := s.callbacks[c];
            && Usable(Some(tx)) && state in s.started && tx.consumedAt.Some? && s.started[state].tenantId == tenantId
            && tx.nonce == Some(s.started[state].nonce) && tx.pkceVerifier == Some(s.started[state].pkceVerifier)
            && tx.redirectUri == Some(s.started[state].redirectUri) && tx.providerId == s.started[state].providerId
  {
    assert Holds(s, c, s.callbacks[c].tenantId, s.callbacks[c].state, s.callbacks[c].tx);
  }

  /** The look-up of callback `c` aside, nothing moves a callback that has consumed. */
  lemma CallbackWaits(s: System, a: Action, c: nat)
    requires Enabled(s, a) && a != CallbackLooksUp(c)
    requires c in s.callbacks && (s.callbacks[c].Holding? || s.callbacks[c].Rejected?)
    ensures c in Apply(s, a).callbacks && Apply(s, a).callbacks[c] == s.callbacks[c]
  {
    hide WithoutProvider, AfterConsume, Consume, LookUp, StartInsert, StartLookUp;
    match a
    case CallbackConsumes(d, now) => if d in s.callbacks && s.callbacks[d].Arrived? { ConsumeMoves(s, d, now); }
    case CallbackLooksUp(d) =>
      if d in s.callbacks && s.callbacks[d].Holding? && Usable(Some(s.callbacks[d].tx)) { LookUpMoves(s, d); }
    case StartInserts(_, _, _, _, _, _) => StartersLeaveCallbacks(s, a);
    case StartLooksUp(_) => StartersLeaveCallbacks(s, a);
    case _ =>
  }

  lemma ConsumeMoves(s: System, d: nat, now: Time)
    requires d in s.callbacks && s.callbacks[d].Arrived?
    ensures forall c :: c in s.callbacks && c != d ==>
              c in Consume(s, d, now).callbacks && Consume(s, d, now).callbacks[c] == s.callbacks[c]
  {
    hide AfterConsume, ConsumeResult, Usable;
  }

  lemma LookUpMoves(s: System, d: nat)
    requires d in s.callbacks && s.callbacks[d].Holding? && Usable(Some(s.callbacks[d].tx))
    ensures forall c :: c in s.callbacks && c != d ==>
              c in LookUp(s, d).callbacks && LookUp(s, d).callbacks[c] == s.callbacks[c]
  {
    hide EnabledIdp;
  }

  lemma StartersLeaveCallbacks(s: System, a: Action)
    requires a.StartInserts? || a.StartLooksUp?
    ensures Apply(s, a).callbacks == s.callbacks
  {
    hide EnabledIdp, IdpExists;
  }

  lemma {:induction false} CallbackWaitsOver(run: Run, j: nat, k: nat, c: nat)
    requires IsRun(run) && j <= k <= |run.actions|
    requires c in run.systems[j].callbacks
    requires run.systems[j].callbacks[c].Holding? || run.systems[j].callbacks[c].Rejected?
    requires forall n :: j <= n < k ==> run.actions[n] != CallbackLooksUp(c)
    ensures c in run.systems[k].callbacks && run.systems[k].callbacks[c] == run.systems[j].callbacks[c]
    decreases k
  {
    hide Apply, Enabled;
    if j < k {
      CallbackWaitsOver(run, j, k - 1, c);
      assert StepAt(run, k - 1);
      CallbackWaits(run.systems[k - 1], run.actions[k - 1], c);
    }
  }

  /** What a consuming step makes of a callback. */
  lemma ConsumeDecision(run: Run, j: nat)
    requires IsRun(run) && j < |run.actions| && run.actions[j].CallbackConsumes?
    requires run.actions[j].c in run.systems[j].callbacks && run.systems[j].callbacks[run.actions[j].c].Arrived?
    ensures var s, s', CallbackConsumes(c, now) := run.systems[j], run.systems[j + 1], run.actions[j];
            var Arrived(tenantId, state) := s.callbacks[c];
            && c in s'.callbacks && s'.started == s.started
            && if state in s.rows && state in s.started && s.started[state].tenantId == tenantId &&
                  state !in s.owner && now < s.started[state].expiresAt
               then
                 && s'.callbacks[c].Holding? && s'.callbacks[c].tenantId == tenantId
                 && s'.callbacks[c].state == state && s'.callbacks[c].tx.consumedAt == Some(now)
               else s'.callbacks[c] == Rejected
  {
    ConsumeSucceedsIff(run, j);
    assert StepAt(run, j);
    hide Inv, RowsOk;
  }

  /** Exactly which callbacks reach the code exchange, over both of their database accesses: those
      whose state a `start` of their tenant has stored, whose row is there, in time and not
      consumed, and whose provider is, later on, the tenant's enabled OIDC provider. The exchange
      uses what that `start` recorded; any other callback is rejected. */
  lemma CallbackReachesExchangeIff(run: Run, j: nat, k: nat, c: nat)
    requires IsRun(run) && j < k < |run.actions|
    requires run.actions[j].CallbackConsumes? && run.actions[j].c == c && run.actions[k] == CallbackLooksUp(c)
    requires c in run.systems[j].callbacks && run.systems[j].callbacks[c].Arrived?
    requires forall n :: j < n < k ==> run.actions[n] != CallbackLooksUp(c)
    ensures var s, t, now := run.systems[j], run.systems[k], run.actions[j].now;
            var Arrived(tenantId, state) := s.callbacks[c];
            var key := (tenantId, OIDC);
            && c in run.systems[k + 1].callbacks
            && if state in s.rows && state in s.started && s.started[state].tenantId == tenantId &&
                  state !in s.owner && now < s.started[state].expiresAt &&
                  key in t.idps && t.idps[key].enabled && t.idps[key].id == s.started[state].providerId
               then
                 && run.systems[k + 1].callbacks[c].Exchanging?
                 && run.systems[k + 1].exchanges == t.exchanges +
                    [Exchange(c, tenantId, state, t.idps[key], s.started[state].nonce, s.started[state].pkceVerifier,
                              s.started[state].redirectUri, now)]
               else run.systems[k + 1].callbacks[c] == Rejected && run.systems[k + 1].exchanges == t.exchanges
  {
    hide Apply, Enabled, Inv;
    ConsumeDecision(run, j);
    CallbackWaitsOver(run, j + 1, k, c);
    if run.systems[j + 1].callbacks[c].Holding? {
      var state := run.systems[j].callbacks[c].state;
      CallbackDecision(run, k);
      StartedStays(run, j, k, state);
      InvAlways(run, k);
      HeldIsUsable(run.systems[k], c);
    } else {
      RejectedStays(run, k, c);
    }
  }

  lemma RejectedStays(run: Run, k: nat, c: nat)
    requires IsRun(run) && k < |run.actions| && run.actions[k] == CallbackLooksUp(c)
    requires c in run.systems[k].callbacks && run.systems[k].callbacks[c] == Rejected
    ensures run.systems[k + 1] == run.systems[k]
  {
    assert StepAt(run, k);
  }

  // ---------------------------------------------------------------- taken transactions

  lemma TakenStep(s: System, a: Action, state: string)
    requires state in s.owner
    ensures state in Apply(s, a).owner
  {
    hide WithoutProvider, EnabledIdp, AfterConsume, ConsumeResult, Usable, IdpExists, Pending;
  }

  lemma {:induction false} TakenStays(run: Run, i: nat, j: nat, state: string)
    requires IsRun(run) && i <= j <= |run.actions| && state in run.systems[i].owner
    ensures state in run.systems[j].owner
    decreases j
  {
    hide Apply, Enabled;
    if i < j {
      TakenStays(run, i, j - 1, state);
      assert StepAt(run, j - 1);
      TakenStep(run.systems[j - 1], run.actions[j - 1], state);
    }
  }

  /** The two protocols share the table: once a SAML sign-in has consumed the transaction of a
      state, every OIDC callback with that state is rejected. */
  lemma SamlTakesTransaction(run: Run, i: nat, j: nat)
    requires IsRun(run) && i < j < |run.actions| && run.actions[i].SamlConsumes?
    requires var s, SamlConsumes(tenantId, state, now) := run.systems[i], run.actions[i];
             && state in s.rows && s.rows[state].tenantId == tenantId
             && s.rows[state].consumedAt == None && now < s.rows[state].expiresAt
    requires run.actions[j].CallbackConsumes? && run.actions[j].c in run.systems[j].callbacks
    requires run.systems[j].callbacks[run.actions[j].c].Arrived?
    requires run.systems[j].callbacks[run.actions[j].c].state == run.actions[i].state
    ensures run.actions[j].c in run.systems[j + 1].callbacks
    ensures run.systems[j + 1].callbacks[run.actions[j].c] == Rejected
  {
    assert StepAt(run, i);
    TakenStays(run, i + 1, j, run.actions[i].state);
    ConsumeDecision(run, j);
  }

  // ---------------------------------------------------------------- undisturbed sign-ins

  /** The step takes the transaction of this state away: it consumes it for its tenant, or deletes
      its provider. */
  predicate Disturbs(s: System, a: Action, tenantId: Id, providerId: Id, state: string) {
    match a
    case CallbackConsumes(c, _) => c in s.callbacks && s.callbacks[c] == Arrived(tenantId, state)
    case SamlConsumes(t, st, _) => t == tenantId && st == state
    case DeleteIdp(t, protocol) => (t, protocol) in s.idps && s.idps[(t, protocol)].id == providerId
    case _ => false
  }

  predicate Waiting(s: System, tenantId: Id, providerId: Id, state: string, st: Started) {
    && state in s.rows && state in s.drawn && state in s.started && s.started[state] == st && state !in s.owner
    && s.rows[state].tenantId == tenantId && s.rows[state].providerId == providerId
    && st.tenantId == tenantId && st.providerId == providerId
  }

  lemma WaitingStep(s: System, a: Action, tenantId: Id, providerId: Id, state: string, st: Started)
    requires Enabled(s, a) && Waiting(s, tenantId, providerId, state, st)
    requires !Disturbs(s, a, tenantId, providerId, state)
    ensures Waiting(Apply(s, a), tenantId, providerId, state, st)
  {
    hide EnabledIdp, Usable, IdpExists;
  }

  lemma {:induction false} WaitingStays(
      run: Run, m: nat, j: nat, tenantId: Id, providerId: Id, state: string, st: Started)
    requires IsRun(run) && m <= j <= |run.actions| && Waiting(run.systems[m], tenantId, providerId, state, st)
    requires forall n :: m <= n < j ==> !Disturbs(run.systems[n], run.actions[n], tenantId, providerId, state)
    ensures Waiting(run.systems[j], tenantId, providerId, state, st)
    decreases j
  {
    hide Apply, Enabled, Disturbs, Waiting;
    if m < j {
      WaitingStays(run, m, j - 1, tenantId, providerId, state, st);
      assert StepAt(run, j - 1);
      WaitingStep(run.systems[j - 1], run.actions[j - 1], tenantId, providerId, state, st);
    }
  }

  /** Every undisturbed sign-in reaches the code exchange: a `start` that stores its transaction;
      nobody consumes it or deletes its provider; a callback of the tenant with that state within
      ten minutes; and the provider still the tenant's enabled one when the callback looks it up. */
  lemma SignInReachesExchange(run: Run, m: nat, j: nat, k: nat, c: nat)
    requires IsRun(run) && m < j < k < |run.actions|
    requires run.actions[m].StartInserts?
    requires run.actions[m].k in run.systems[m].starts && run.systems[m].starts[run.actions[m].k].Preparing?
    requires var Preparing(tenantId, providerId) := run.systems[m].starts[run.actions[m].k];
             && (exists key :: key in run.systems[m].idps && run.systems[m].idps[key].id == providerId)
             && (forall n :: m < n < j ==>
                   !Disturbs(run.systems[n], run.actions[n], tenantId, providerId, run.actions[m].state))
             && c in run.systems[j].callbacks && run.systems[j].callbacks[c] == Arrived(tenantId, run.actions[m].state)
             && (tenantId, OIDC) in run.systems[k].idps && run.systems[k].idps[(tenantId, OIDC)].enabled
             && run.systems[k].idps[(tenantId, OIDC)].id == providerId
    requires run.actions[j].CallbackConsumes? && run.actions[j].c == c
    requires run.actions[j].now < run.actions[m].computedAt + 600000
    requires run.actions[k] == CallbackLooksUp(c)
    requires forall n :: j < n < k ==> run.actions[n] != CallbackLooksUp(c)
    ensures var Preparing(tenantId, providerId) := run.systems[m].starts[run.actions[m].k];
            run.systems[k + 1].exchanges == run.systems[k].exchanges +
            [Exchange(c, tenantId, run.actions[m].state, run.systems[k].idps[(tenantId, OIDC)], run.actions[m].nonce,
                      run.actions[m].pkceVerifier, run.actions[m].redirectUri, run.actions[j].now)]
  {
    hide Apply, Enabled, Inv, Disturbs;
    var Preparing(tenantId, providerId) := run.systems[m].starts[run.actions[m].k];
    var state, st := run.actions[m].state, InsertedBy(run, m);
    InsertWaits(run, m);
    WaitingStays(run, m + 1, j, tenantId, providerId, state, st);
    CallbackReachesExchangeIff(run, j, k, c);
  }

  /** What the history records of the `start` that inserts in step `m`. */
  function InsertedBy(run: Run, m: nat): Started
    requires m < |run.actions| && m < |run.systems| && run.actions[m].StartInserts?
    requires run.actions[m].k in run.systems[m].starts && run.systems[m].starts[run.actions[m].k].Preparing?
  {
    var a, Preparing(tenantId, providerId) := run.actions[m], run.systems[m].starts[run.actions[m].k];
    Started(tenantId, providerId, a.nonce, a.pkceVerifier, a.redirectUri, a.computedAt + 600000)
  }

  lemma InsertWaits(run: Run, m: nat)
    requires IsRun(run) && m < |run.actions| && run.actions[m].StartInserts?
    requires run.actions[m].k in run.systems[m].starts && run.systems[m].starts[run.actions[m].k].Preparing?
    requires exists key :: key in run.systems[m].idps &&
                           run.systems[m].idps[key].id == run.systems[m].starts[run.actions[m].k].providerId
    ensures var Preparing(tenantId, providerId) := run.systems[m].starts[run.actions[m].k];
            Waiting(run.systems[m + 1], tenantId, providerId, run.actions[m].state, InsertedBy(run, m))
  {
    InvAlways(run, m);
    assert StepAt(run, m);
    hide CallbacksOk, ExchangesOk;
  }
}
