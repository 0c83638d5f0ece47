// sso-auth-transaction.repository.ts: pending sign-ins, keyed by their `state`.
module SsoTransactions {
  import opened Options
  import opened AuthSessions
  import opened AuthUsers

  datatype Tx = Tx(
    tenantId: Id, providerId: Id, protocol: Provider,
    nonce: Option<string>, pkceVerifier: Option<string>, redirectUri: Option<string>,
    expiresAt: Time, consumedAt: Option<Time>)

  type Txs = map<string, Tx> // UNIQUE(state)

  /** Matched by both queries: of the tenant, not consumed, not expired. */
  predicate Pending(rows: Txs, tenantId: Id, state: string, now: Time) {
    && state in rows && rows[state].tenantId == tenantId
    && rows[state].consumedAt.None? && now < rows[state].expiresAt
  }

  function AfterConsume(rows: Txs, tenantId: Id, state: string, now: Time): Txs {
    if Pending(rows, tenantId, state, now) then rows[state := rows[state].(consumedAt := Some(now))] else rows
  }

  /** The row as the guarded update returns it. */
  function ConsumeResult(rows: Txs, tenantId: Id, state: string, now: Time): Option<Tx> {
    if Pending(rows, tenantId, state, now) then Some(rows[state].(consumedAt := Some(now))) else None
  }

  class SsoAuthTransactionRepository {
    var rows: Txs

    constructor ()
      ensures rows == map[]
    {
      rows := map[];
    }

    /** `false` when the unique `state` is taken. */
    method Create(state: string, tx: Tx) returns (ok: bool)
      modifies this
      ensures ok <==> state !in old(rows)
      ensures rows == if ok then old(rows)[state := tx.(consumedAt := None)] else old(rows)
    {
      if state in rows {
        return false;
      }
      rows := rows[state := tx.(consumedAt := None)];
      return true;
    }

    method ConsumeByState(tenantId: Id, state: string, now: Time) returns (r: Option<Tx>)
      modifies this
      ensures r == ConsumeResult(old(rows), tenantId, state, now)
      ensures rows == AfterConsume(old(rows), tenantId, state, now)
    {
      if state in rows && rows[state].tenantId == tenantId && rows[state].consumedAt.None? &&
         rows[state].expiresAt > now
      {
        rows := rows[state := rows[state].(consumedAt := Some(now))];
        return Some(rows[state]);
      }
      return None;
    }

    method FindByState(tenantId: Id, state: string, now: Time) returns (r: Option<Tx>)
      ensures r == if Pending(rows, tenantId, state, now) then Some(rows[state]) else None
    {
      if state in rows && rows[state].tenantId == tenantId && rows[state].consumedAt.None? &&
         rows[state].expiresAt > now
      {
        return Some(rows[state]);
      }
      return None;
    }
  }

  /** A transaction is handed out once, whatever happens to the table row in between. */
  lemma ConsumedOnce(rows: Txs, tenantId: Id, state: string, now: Time, tenantId': Id, later: Time)
    requires ConsumeResult(rows, tenantId, state, now).Some?
    ensures ConsumeResult(AfterConsume(rows, tenantId, state, now), tenantId', state, later).None?
  {
  }
}
