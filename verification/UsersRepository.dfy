// users.repository.ts and auth-token.repository.ts: the `users` and `auth_tokens` tables.
module AuthUsers {
  import opened Options
  import opened EmailText
  import opened AuthSessions

  datatype Status = ACTIVE | INVITED | DISABLED | LOCKED | PASSWORD_RESET_REQUIRED
  datatype Provider = OIDC | SAML

  datatype User = User(
    id: Id, tenantId: Id, email: string, passwordHash: string, status: Status,
    failedLoginCount: int, lockedUntil: Option<Time>,
    idpProvider: Option<Provider>, externalId: Option<string>, mfaSecret: Option<string>)

  type Users = map<Id, User>

  datatype Write = Stored(user: User) | NoRow | UniqueViolation

  // ---------------------------------------------------------------- lookups

  ghost predicate HasEmail(users: Users, tenantId: Id, key: string, id: Id) {
    id in users && users[id].tenantId == tenantId && Lower(users[id].email) == key
  }

  ghost predicate HasExternalId(users: Users, tenantId: Id, idp: Provider, externalId: string, id: Id) {
    id in users && users[id].tenantId == tenantId && users[id].idpProvider == Some(idp) &&
    users[id].externalId == Some(externalId)
  }

  ghost function IdByEmail(users: Users, tenantId: Id, email: string): (r: Option<Id>)
    ensures r.Some? ==> HasEmail(users, tenantId, Normalize(email), r.value)
    ensures r.None? ==> forall id :: !HasEmail(users, tenantId, Normalize(email), id)
  {
    if exists id :: HasEmail(users, tenantId, Normalize(email), id) then
      var id :| HasEmail(users, tenantId, Normalize(email), id);
      Some(id)
    else None
  }

  ghost function IdByExternalId(users: Users, tenantId: Id, idp: Provider, externalId: string): (r: Option<Id>)
    ensures r.Some? ==> HasExternalId(users, tenantId, idp, externalId, r.value)
    ensures r.None? ==> forall id :: !HasExternalId(users, tenantId, idp, externalId, id)
  {
    if exists id :: HasExternalId(users, tenantId, idp, externalId, id) then
      var id :| HasExternalId(users, tenantId, idp, externalId, id);
      Some(id)
    else None
  }

  ghost function RowAt(users: Users, id: Option<Id>): Option<User> {
    if id.Some? && id.value in users then Some(users[id.value]) else None
  }

  /** The columns of the unique index (tenant_id, lower(email)). */
  predicate SameEmail(u: User, v: User) {
    u.tenantId == v.tenantId && Lower(u.email) == Lower(v.email)
  }

  /** The columns of the partial unique index (tenant_id, idp_provider, external_id). */
  predicate SameIdentity(u: User, v: User) {
    && u.tenantId == v.tenantId && u.idpProvider.Some? && u.externalId.Some?
    && u.idpProvider == v.idpProvider && u.externalId == v.externalId
  }

  /** The table's keys: the primary key and the two unique indexes. */
  ghost predicate KeysUnique(users: Users) {
    && (forall id :: id in users ==> users[id].id == id)
    && (forall i, j {:trigger SameEmail(users[i], users[j])} ::
          i in users && j in users && SameEmail(users[i], users[j]) ==> i == j)
    && (forall i, j {:trigger SameIdentity(users[i], users[j])} ::
          i in users && j in users && SameIdentity(users[i], users[j]) ==> i == j)
  }

  /** The columns of `user` are free in the unique indexes. */
  ghost predicate IndexesAdmit(users: Users, user: User) {
    forall i :: i in users && i != user.id ==> !SameEmail(users[i], user) && !SameIdentity(users[i], user)
  }

  lemma StoreKeepsKeysUnique(users: Users, user: User)
    requires KeysUnique(users) && IndexesAdmit(users, user)
    ensures KeysUnique(users[user.id := user])
  {
  }

  /** A change of columns that no index covers. */
  lemma UpdateKeepsKeysUnique(users: Users, user: User)
    requires KeysUnique(users) && user.id in users
    requires user.tenantId == users[user.id].tenantId && user.email == users[user.id].email
    requires user.idpProvider == users[user.id].idpProvider && user.externalId == users[user.id].externalId
    ensures KeysUnique(users[user.id := user])
  {
    forall i | i in users && i != user.id
      ensures !SameEmail(users[i], user) && !SameIdentity(users[i], user)
    {
      assert !SameEmail(users[i], users[user.id]) && !SameIdentity(users[i], users[user.id]);
    }
    StoreKeepsKeysUnique(users, user);
  }

  lemma EmailIdUnique(users: Users, tenantId: Id, email: string, id: Id)
    requires KeysUnique(users) && HasEmail(users, tenantId, Normalize(email), id)
    ensures IdByEmail(users, tenantId, email) == Some(id)
  {
    assert SameEmail(users[IdByEmail(users, tenantId, email).value], users[id]);
  }

  lemma ExternalIdUnique(users: Users, tenantId: Id, idp: Provider, externalId: string, id: Id)
    requires KeysUnique(users) && HasExternalId(users, tenantId, idp, externalId, id)
    ensures IdByExternalId(users, tenantId, idp, externalId) == Some(id)
  {
    assert SameIdentity(users[IdByExternalId(users, tenantId, idp, externalId).value], users[id]);
  }

  // ---------------------------------------------------------------- the repository

  class UsersRepository {
    var rows: Users

    constructor ()
      ensures rows == map[]
    {
      rows := map[];
    }

    method FindByEmail(tenantId: Id, email: string) returns (r: Option<User>)
      requires KeysUnique(rows)
      ensures r == RowAt(rows, IdByEmail(rows, tenantId, email))
    {
      var key := Normalize(email);
      if id :| id in rows && rows[id].tenantId == tenantId && Lower(rows[id].email) == key {
        EmailIdUnique(rows, tenantId, email, id);
        return Some(rows[id]);
      }
      assert forall id :: !HasEmail(rows, tenantId, key, id);
      return None;
    }

    method FindById(id: Id) returns (r: Option<User>)
      ensures r == RowAt(rows, Some(id))
    {
      return if id in rows then Some(rows[id]) else None;
    }

    method FindByExternalId(tenantId: Id, idp: Provider, externalId: string) returns (r: Option<User>)
      requires KeysUnique(rows)
      ensures r == RowAt(rows, IdByExternalId(rows, tenantId, idp, externalId))
    {
      if id :| id in rows && rows[id].tenantId == tenantId && rows[id].idpProvider == Some(idp) &&
               rows[id].externalId == Some(externalId)
      {
        ExternalIdUnique(rows, tenantId, idp, externalId, id);
        return Some(rows[id]);
      }
      assert forall id :: !HasExternalId(rows, tenantId, idp, externalId, id);
      return None;
    }

    /** The unique indexes, evaluated. */
    method Admits(user: User) returns (ok: bool)
      ensures ok <==> IndexesAdmit(rows, user)
    {
      if i :| i in rows && i != user.id && (SameEmail(rows[i], user) || SameIdentity(rows[i], user))
      {
        return false;
      }
      return true;
    }

    method Create(user: User) returns (r: Write)
      requires KeysUnique(rows)
      modifies this
      ensures KeysUnique(rows)
      ensures if user.id !in old(rows) && IndexesAdmit(old(rows), user)
              then r == Stored(user) && rows == old(rows)[user.id := user]
              else r.UniqueViolation? && rows == old(rows)
    {
      var ok := Admits(user);
      if user.id in rows || !ok {
        return UniqueViolation;
      }
      StoreKeepsKeysUnique(rows, user);
      rows := rows[user.id := user];
      return Stored(user);
    }

    method LinkIdentityProvider(id: Id, idp: Provider, externalId: string) returns (r: Write)
      requires KeysUnique(rows)
      modifies this
      ensures KeysUnique(rows)
      ensures id !in old(rows) ==> r.NoRow? && rows == old(rows)
      ensures id in old(rows) ==>
                var linked := old(rows)[id].(idpProvider := Some(idp), externalId := Some(externalId));
                if IndexesAdmit(old(rows), linked)
                then r == Stored(linked) && rows == old(rows)[id := linked]
                else r.UniqueViolation? && rows == old(rows)
    {
      if id !in rows {
        return NoRow;
      }
      var linked := rows[id].(idpProvider := Some(idp), externalId := Some(externalId));
      var ok := Admits(linked);
      if !ok {
        return UniqueViolation;
      }
      StoreKeepsKeysUnique(rows, linked);
      rows := rows[id := linked];
      return Stored(linked);
    }

    method UpdateMfaSecret(id: Id, secret: string)
      requires KeysUnique(rows)
      modifies this
      ensures KeysUnique(rows)
      ensures rows == if id in old(rows) then old(rows)[id := old(rows)[id].(mfaSecret := Some(secret))] else old(rows)
    {
      if id in rows {
        UpdateKeepsKeysUnique(rows, rows[id].(mfaSecret := Some(secret)));
        rows := rows[id := rows[id].(mfaSecret := Some(secret))];
      }
    }

    method ResetFailedLoginState(id: Id)
      requires KeysUnique(rows)
      modifies this
      ensures KeysUnique(rows)
      ensures rows == if id !in old(rows) then old(rows)
                      else old(rows)[id := old(rows)[id].(failedLoginCount := 0, lockedUntil := None, status := ACTIVE)]
    {
      if id in rows {
        UpdateKeepsKeysUnique(rows, Cleared(rows[id]));
        rows := rows[id := rows[id].(failedLoginCount := 0, lockedUntil := None, status := ACTIVE)];
      }
    }

    method RecordFailedLogin(id: Id, count: int, lockedUntil: Option<Time>)
      requires KeysUnique(rows)
      modifies this
      ensures KeysUnique(rows)
      ensures rows == if id !in old(rows) then old(rows)
                      else old(rows)[id := old(rows)[id].(
                             failedLoginCount := count, lockedUntil := lockedUntil,
                             status := if lockedUntil.Some? then LOCKED else old(rows)[id].status)]
    {
      if id in rows {
        UpdateKeepsKeysUnique(rows, Failed(rows[id], count, lockedUntil));
        if lockedUntil.Some? {
          rows := rows[id := rows[id].(failedLoginCount := count, lockedUntil := lockedUntil, status := LOCKED)];
        } else {
          rows := rows[id := rows[id].(failedLoginCount := count, lockedUntil := None)];
        }
      }
    }

    method UpdatePassword(id: Id, hash: string, status: Status)
      requires KeysUnique(rows)
      modifies this
      ensures KeysUnique(rows)
      ensures rows == if id !in old(rows) then old(rows)
                      else old(rows)[id := old(rows)[id].(passwordHash := hash, status := status,
                                                          failedLoginCount := 0, lockedUntil := None)]
    {
      if id in rows {
        UpdateKeepsKeysUnique(rows, WithPassword(rows[id], hash, status));
        rows := rows[id := rows[id].(
          passwordHash := hash, status := status, failedLoginCount := 0, lockedUntil := None)];
      }
    }
  }

  function Cleared(u: User): User {
    u.(failedLoginCount := 0, lockedUntil := None, status := ACTIVE)
  }

  function Failed(u: User, count: int, lockedUntil: Option<Time>): User {
    if lockedUntil.Some? then u.(failedLoginCount := count, lockedUntil := lockedUntil, status := LOCKED)
    else u.(failedLoginCount := count, lockedUntil := None)
  }

  function WithPassword(u: User, hash: string, status: Status): User {
    u.(passwordHash := hash, status := status, failedLoginCount := 0, lockedUntil := None)
  }

  // ---------------------------------------------------------------- one-time tokens

  datatype TokenType = SET_PASSWORD | PASSWORD_RESET

  /** A row of `auth_tokens`, stored under its (unique) token hash. */
  datatype Token = Token(userId: Id, tokenType: TokenType, expiresAt: Time, consumedAt: Option<Time>)

  type Tokens = map<string, Token>

  predicate Active(tokens: Tokens, hash: string, now: Time) {
    hash in tokens && tokens[hash].consumedAt.None? && now < tokens[hash].expiresAt
  }

  function Consumed(tokens: Tokens, hash: string, now: Time): Tokens {
    if hash in tokens then tokens[hash := tokens[hash].(consumedAt := Some(now))] else tokens
  }

  class AuthTokenRepository {
    var rows: Tokens

    constructor ()
      ensures rows == map[]
    {
      rows := map[];
    }

    /** `false` when the unique `token_hash` is taken. */
    method Create(hash: string, token: Token) returns (ok: bool)
      modifies this
      ensures ok <==> hash !in old(rows)
      ensures rows == if ok then old(rows)[hash := token] else old(rows)
    {
      if hash in rows {
        return false;
      }
      rows := rows[hash := token];
      return true;
    }

    method FindActiveByHash(hash: string, tokenType: TokenType, now: Time) returns (r: Option<Token>)
      ensures r == if Active(rows, hash, now) && rows[hash].tokenType == tokenType then Some(rows[hash]) else None
    {
      if hash in rows && rows[hash].tokenType == tokenType && rows[hash].consumedAt.None? &&
         now < rows[hash].expiresAt
      {
        return Some(rows[hash]);
      }
      return None;
    }

    method Consume(hash: string, now: Time)
      modifies this
      ensures rows == Consumed(old(rows), hash, now)
    {
      if hash in rows {
        rows := rows[hash := rows[hash].(consumedAt := Some(now))];
      }
    }
  }
}
