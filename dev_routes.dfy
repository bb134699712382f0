/**
 * The gateway's local-only helpers under `/auth/dev`: a password-less login,
 * the promotion routes, the admin username fix-up, the limiter resets, token
 * inspection and setting a password directly. (The merge of duplicate users
 * is in the module `Dedupe`.)
 */
module DevRoutes {
  import opened Wrappers
  import opened Text
  import opened Numeric
  import opened Json
  import opened Storage
  import opened GatewayState
  import opened Rate
  import opened AuthRoutes

  const OK_TRUE: Json := JObj(map["ok" := JBool(true)])

  function Fail(status: nat, message: string): ApiError
  {
    ApiError(status, message)
  }

  // ------------------------------------------------------------ the credentials-then-user chain

  /**
   * The start of every promotion by e-mail: the credentials row under the
   * e-mail, and the user id it names.
   */
  function LinkedUser(d: map<Table, Rows>, rf: set<Table>, email: string): (r: Result<string, ApiError>)
    ensures r.Ok? <==> ReadRow(d, rf, Credentials, email).Ok? && ReadRow(d, rf, Credentials, email).value.Some?
                       && GetStr(ReadRow(d, rf, Credentials, email).value.value, "user_id").Some?
    ensures r.Ok? ==> GetStr(ReadRow(d, rf, Credentials, email).value.value, "user_id") == Some(r.value)
    ensures ReadRow(d, rf, Credentials, email) == Ok(None) ==> r == Err(Fail(NOT_FOUND, "credentials not found"))
    ensures r.Err? ==> r.error.status in {NOT_FOUND, INTERNAL_SERVER_ERROR}
  {
    match ReadRow(d, rf, Credentials, email)
    case Err(e) => Err(Fail(INTERNAL_SERVER_ERROR, StoreErrorText(e)))
    case Ok(None) => Err(Fail(NOT_FOUND, "credentials not found"))
    case Ok(Some(cred)) =>
      match GetStr(cred, "user_id")
      case Some(id) => Ok(id)
      case None => Err(Fail(INTERNAL_SERVER_ERROR, "malformed credentials"))
  }

  /** `get_user`, then `insert(key, value)` into the object and `put_user`; a missing user is a 404. */
  function UpdateUser(d: map<Table, Rows>, rf: set<Table>, wf: set<Table>, userId: string, key: string, value: Json)
    : (r: (map<Table, Rows>, Result<(), ApiError>))
    ensures r.1.Err? ==> r.0 == d
    ensures ReadRow(d, rf, Users, userId) == Ok(None) ==> r.1 == Err(Fail(NOT_FOUND, "user not found"))
  {
    match ReadRow(d, rf, Users, userId)
    case Err(e) => (d, Err(Fail(INTERNAL_SERVER_ERROR, StoreErrorText(e))))
    case Ok(None) => (d, Err(Fail(NOT_FOUND, "user not found")))
    case Ok(Some(user)) =>
      var (d1, put) := WriteRow(d, wf, Users, userId, Insert(user, key, value));
      if put.Err? then (d1, Err(Fail(INTERNAL_SERVER_ERROR, StoreErrorText(put.error)))) else (d1, Ok(()))
  }

  /** The update of the user the e-mail's credentials name; the user id on success. */
  function UpdateLinked(d: map<Table, Rows>, rf: set<Table>, wf: set<Table>, email: string, key: string, value: Json)
    : (r: (map<Table, Rows>, Result<string, ApiError>))
    ensures r.1.Err? ==> r.0 == d
    ensures r.1.Ok? ==> LinkedUser(d, rf, email) == r.1
    ensures r.1.Ok? ==>
      var id := r.1.value;
      && id in RowsIn(d, Users) && RowsIn(d, Users)[id].Doc?
      && RowsIn(r.0, Users) == RowsIn(d, Users)[id := Doc(Insert(RowsIn(d, Users)[id].doc, key, value))]
      && (RowsIn(d, Users)[id].doc.JObj? ==> Get(RowsIn(r.0, Users)[id].doc, key) == Some(value))
      && (forall t :: t != Users ==> RowsIn(r.0, t) == RowsIn(d, t))
  {
    match LinkedUser(d, rf, email)
    case Err(e) => (d, Err(e))
    case Ok(id) =>
      var (d1, u) := UpdateUser(d, rf, wf, id, key, value);
      if u.Err? then (d1, Err(u.error)) else (d1, Ok(id))
  }

  lemma InsertTwice(j: Json, key: string, value: Json)
    ensures Insert(Insert(j, key, value), key, value) == Insert(j, key, value)
  {
    if j.JObj? {
      assert j.fields[key := value][key := value] == j.fields[key := value];
    }
  }

  /** Running an update again changes nothing and answers the same. */
  lemma UpdateLinkedIdempotent(d: map<Table, Rows>, rf: set<Table>, wf: set<Table>, email: string, key: string, value: Json)
    ensures var once := UpdateLinked(d, rf, wf, email, key, value);
      UpdateLinked(once.0, rf, wf, email, key, value) == once
  {
    var once := UpdateLinked(d, rf, wf, email, key, value);
    if once.1.Ok? {
      var id := once.1.value;
      var user := RowsIn(d, Users)[id].doc;
      InsertTwice(user, key, value);
      assert RowsIn(once.0, Users) == RowsIn(d, Users)[id := Doc(Insert(user, key, value))];
      assert ReadRow(once.0, rf, Credentials, email) == ReadRow(d, rf, Credentials, email);
      assert ReadRow(once.0, rf, Users, id) == Ok(Some(Insert(user, key, value)));
      assert RowsIn(once.0, Users)[id := Doc(Insert(user, key, value))] == RowsIn(once.0, Users);
      assert once.0[Users := RowsIn(once.0, Users)] == once.0;
    }
  }

  /** The credentials read of the chain, as a method. */
  method ResolveLinkedUser(store: Store, email: string) returns (r: Result<string, ApiError>)
    ensures r == LinkedUser(store.docs, store.readFails, email)
  {
    var cred := store.GetCredentials(email);
    if cred.Err? {
      return Err(Fail(INTERNAL_SERVER_ERROR, StoreErrorText(cred.error)));
    }
    if cred.value.None? {
      return Err(Fail(NOT_FOUND, "credentials not found"));
    }
    var id := GetStr(cred.value.value, "user_id");
    if id.None? {
      return Err(Fail(INTERNAL_SERVER_ERROR, "malformed credentials"));
    }
    return Ok(id.value);
  }

  /** The user half of the chain: read the user, set the field, write it back. */
  method UpdateUserField(store: Store, userId: string, key: string, value: Json) returns (r: Result<(), ApiError>)
    modifies store
    ensures (store.docs, r) == UpdateUser(old(store.docs), store.readFails, store.writeFails, userId, key, value)
    ensures store.seqs == old(store.seqs) && store.rate == old(store.rate)
  {
    var found := store.GetUser(userId);
    if found.Err? {
      return Err(Fail(INTERNAL_SERVER_ERROR, StoreErrorText(found.error)));
    }
    if found.value.None? {
      return Err(Fail(NOT_FOUND, "user not found"));
    }
    var put := store.PutUser(userId, Insert(found.value.value, key, value));
    if put.Err? {
      return Err(Fail(INTERNAL_SERVER_ERROR, StoreErrorText(put.error)));
    }
    return Ok(());
  }

  method UpdateLinkedUser(store: Store, email: string, key: string, value: Json) returns (r: Result<string, ApiError>)
    modifies store
    ensures (store.docs, r) == UpdateLinked(old(store.docs), store.readFails, store.writeFails, email, key, value)
    ensures store.seqs == old(store.seqs) && store.rate == old(store.rate)
  {
    var id := ResolveLinkedUser(store, email);
    if id.Err? {
      return Err(id.error);
    }
    var u := UpdateUserField(store, id.value, key, value);
    if u.Err? {
      return Err(u.error);
    }
    return Ok(id.value);
  }

  // ------------------------------------------------------------ promotion

  /**
   * `api_dev_promote`, `api_dev_promote_get` and `api_dev_promote_by`, which
   * differ only in where the e-mail comes from: no e-mail is a 400, an
   * e-mail other than the admin's a 403, and otherwise the linked user
   * becomes an admin.
   */
  function DevPromoteOutcome(d: map<Table, Rows>, rf: set<Table>, wf: set<Table>, email: Option<string>)
    : (r: (map<Table, Rows>, Result<Json, ApiError>))
    ensures email.None? ==> r == (d, Err(Fail(BAD_REQUEST, "missing email")))
    ensures email.Some? && !IsAdminEmail(email.value) ==> r == (d, Err(Fail(FORBIDDEN, "not allowed")))
    ensures r.1.Ok? ==> email.Some? && IsAdminEmail(email.value) && LinkedUser(d, rf, email.value).Ok?
    ensures r.1.Err? ==> r.0 == d
  {
    if email.None? then (d, Err(Fail(BAD_REQUEST, "missing email")))
    else if !IsAdminEmail(email.value) then (d, Err(Fail(FORBIDDEN, "not allowed")))
    else
      var (d1, u) := UpdateLinked(d, rf, wf, email.value, "role", JStr("admin"));
      if u.Err? then (d1, Err(u.error)) else (d1, Ok(OK_TRUE))
  }

  /** A successful promotion leaves the linked user's row with role `admin` when the row is an object. */
  lemma DevPromoteMakesAdmin(d: map<Table, Rows>, rf: set<Table>, wf: set<Table>, email: Option<string>)
    requires DevPromoteOutcome(d, rf, wf, email).1.Ok?
    ensures var id := LinkedUser(d, rf, email.value).value;
      var after := DevPromoteOutcome(d, rf, wf, email).0;
      RowsIn(d, Users)[id].doc.JObj? ==> GetStr(RowsIn(after, Users)[id].doc, "role") == Some("admin")
  {
  }

  /** Promoting twice is promoting once. */
  lemma DevPromoteIdempotent(d: map<Table, Rows>, rf: set<Table>, wf: set<Table>, email: Option<string>)
    ensures var once := DevPromoteOutcome(d, rf, wf, email);
      DevPromoteOutcome(once.0, rf, wf, email) == once
  {
    if email.Some? && IsAdminEmail(email.value) {
      UpdateLinkedIdempotent(d, rf, wf, email.value, "role", JStr("admin"));
    }
  }

  method PromoteEmail(store: Store, email: Option<string>) returns (r: Result<Json, ApiError>)
    modifies store
    ensures (store.docs, r) == DevPromoteOutcome(old(store.docs), store.readFails, store.writeFails, email)
    ensures store.seqs == old(store.seqs) && store.rate == old(store.rate)
  {
    if email.None? {
      return Err(Fail(BAD_REQUEST, "missing email"));
    }
    if !IsAdminEmail(email.value) {
      return Err(Fail(FORBIDDEN, "not allowed"));
    }
    var u := UpdateLinkedUser(store, email.value, "role", JStr("admin"));
    if u.Err? {
      return Err(u.error);
    }
    return Ok(OK_TRUE);
  }

  /** `POST /auth/dev/promote`: the e-mail is the JSON body's string field `email`. */
  method DevPromote(store: Store, payload: Json) returns (r: Result<Json, ApiError>)
    modifies store
    ensures (store.docs, r) == DevPromoteOutcome(old(store.docs), store.readFails, store.writeFails, GetStr(payload, "email"))
    ensures store.seqs == old(store.seqs) && store.rate == old(store.rate)
  {
    r := PromoteEmail(store, GetStr(payload, "email"));
  }

  /** `GET /auth/dev/promote_get?email=...`. */
  method DevPromoteGet(store: Store, query: map<string, string>) returns (r: Result<Json, ApiError>)
    modifies store
    ensures (store.docs, r) == DevPromoteOutcome(old(store.docs), store.readFails, store.writeFails,
                                                 if "email" in query then Some(query["email"]) else None)
    ensures store.seqs == old(store.seqs) && store.rate == old(store.rate)
  {
    var email: Option<string> := None;
    if "email" in query {
      email := Some(query["email"]);
    }
    r := PromoteEmail(store, email);
  }

  /** `GET /auth/dev/promote_by/{email}`: the path always carries an e-mail. */
  method DevPromoteBy(store: Store, email: string) returns (r: Result<Json, ApiError>)
    modifies store
    ensures (store.docs, r) == DevPromoteOutcome(old(store.docs), store.readFails, store.writeFails, Some(email))
    ensures store.seqs == old(store.seqs) && store.rate == old(store.rate)
  {
    r := PromoteEmail(store, Some(email));
  }

  /** `GET /auth/dev/promote_user_by_id/{id}`: no credentials and no e-mail check, just the user row. */
  method PromoteUserById(store: Store, userId: string) returns (r: Result<Json, ApiError>)
    modifies store
    ensures var (after, u) := UpdateUser(old(store.docs), store.readFails, store.writeFails, userId, "role", JStr("admin"));
      && store.docs == after
      && r == if u.Err? then Err(u.error) else Ok(Obj2("ok", JBool(true), "promoted", JStr(userId)))
    ensures store.seqs == old(store.seqs) && store.rate == old(store.rate)
  {
    var u := UpdateUserField(store, userId, "role", JStr("admin"));
    if u.Err? {
      return Err(u.error);
    }
    return Ok(Obj2("ok", JBool(true), "promoted", JStr(userId)));
  }

  /** `GET /auth/dev/promote_now`: the promotion of the admin address, with no guard to pass. */
  method PromoteNow(store: Store) returns (r: Result<Json, ApiError>)
    modifies store
    ensures var (after, u) := UpdateLinked(old(store.docs), store.readFails, store.writeFails, ADMIN_EMAIL, "role", JStr("admin"));
      && store.docs == after
      && r == if u.Err? then Err(u.error) else Ok(Obj2("ok", JBool(true), "promoted", JStr(ADMIN_EMAIL)))
    ensures store.seqs == old(store.seqs) && store.rate == old(store.rate)
  {
    var u := UpdateLinkedUser(store, ADMIN_EMAIL, "role", JStr("admin"));
    if u.Err? {
      return Err(u.error);
    }
    return Ok(Obj2("ok", JBool(true), "promoted", JStr(ADMIN_EMAIL)));
  }

  /** The admin address passes the promotion guard, so `promote_now` and `promote_by/admin@example.com` do the same writes. */
  lemma PromoteNowIsPromoteBy(d: map<Table, Rows>, rf: set<Table>, wf: set<Table>)
    ensures DevPromoteOutcome(d, rf, wf, Some(ADMIN_EMAIL)).0
         == UpdateLinked(d, rf, wf, ADMIN_EMAIL, "role", JStr("admin")).0
  {
    IsAdminEmailMeans(ADMIN_EMAIL);
  }

  function UsernameReply(userId: string): Json
  {
    JObj(map["ok" := JBool(true), "user_id" := JStr(userId), "username" := JStr("admin")])
  }

  /** `POST /auth/dev/set_admin_username`: the admin's user row gets the username `admin`. */
  method SetAdminUsername(store: Store) returns (r: Result<Json, ApiError>)
    modifies store
    ensures var (after, u) := UpdateLinked(old(store.docs), store.readFails, store.writeFails, ADMIN_EMAIL, "username", JStr("admin"));
      && store.docs == after
      && r == if u.Err? then Err(u.error) else Ok(UsernameReply(u.value))
    ensures store.seqs == old(store.seqs) && store.rate == old(store.rate)
  {
    var u := UpdateLinkedUser(store, ADMIN_EMAIL, "username", JStr("admin"));
    if u.Err? {
      return Err(u.error);
    }
    return Ok(UsernameReply(u.value));
  }

  // ------------------------------------------------------------ the limiter

  /**
   * `GET /auth/dev/reset_rate_now`: needs the admin's credentials, then
   * empties the in-memory buckets; the stored counters are not touched.
   */
  method ResetRateNow(store: Store, limiter: RateLimiter) returns (r: Result<Json, ApiError>)
    modifies limiter
    ensures var id := LinkedUser(store.docs, store.readFails, ADMIN_EMAIL);
      && (id.Err? ==> r == Err(id.error) && limiter.buckets == old(limiter.buckets))
      && (id.Ok? ==> r == Ok(Obj2("ok", JBool(true), "reset", JStr(id.value))) && limiter.Valid() && limiter.View() == map[])
  {
    var id := ResolveLinkedUser(store, ADMIN_EMAIL);
    if id.Err? {
      return Err(id.error);
    }
    limiter.ClearBuckets();
    return Ok(Obj2("ok", JBool(true), "reset", JStr(id.value)));
  }

  /** `GET /auth/dev/clear_buckets`. */
  method ClearBuckets(limiter: RateLimiter) returns (r: Json)
    modifies limiter
    ensures r == Obj2("ok", JBool(true), "cleared", JBool(true))
    ensures limiter.Valid() && limiter.View() == map[]
  {
    limiter.ClearBuckets();
    return Obj2("ok", JBool(true), "cleared", JBool(true));
  }

  // ------------------------------------------------------------ tokens

  /** The claims `verify_jwt` hands back. */
  datatype Claims = Claims(sub: string, iat: int, exp: int, iss: string, aud: string)

  /** `POST /auth/dev/inspect_token`: the body's `token` verified, its claims echoed back. */
  function InspectToken(payload: Json, verify: string -> Option<Claims>): (r: Result<Json, ApiError>)
    ensures GetStr(payload, "token").None? ==> r == Err(Fail(BAD_REQUEST, "missing token"))
    ensures r.Ok? <==> GetStr(payload, "token").Some? && verify(GetStr(payload, "token").value).Some?
    ensures r.Ok? ==>
      var c := verify(GetStr(payload, "token").value).value;
      Get(r.value, "claims") == Some(JObj(map["sub" := JStr(c.sub), "iat" := JNum(c.iat), "exp" := JNum(c.exp),
                                               "iss" := JStr(c.iss), "aud" := JStr(c.aud)]))
    ensures r.Err? ==> r.error.status == BAD_REQUEST
  {
    match GetStr(payload, "token")
    case None => Err(Fail(BAD_REQUEST, "missing token"))
    case Some(token) =>
      match verify(token)
      case None => Err(Fail(BAD_REQUEST, "invalid token"))
      case Some(c) =>
        var claims := JObj(map["sub" := JStr(c.sub), "iat" := JNum(c.iat), "exp" := JNum(c.exp),
                               "iss" := JStr(c.iss), "aud" := JStr(c.aud)]);
        Ok(Obj2("ok", JBool(true), "claims", claims))
  }

  // ------------------------------------------------------------ dev login

  /** Thirty days in seconds, the life of a dev refresh token. */
  const THIRTY_DAYS: int := 30 * 24 * 60 * 60

  /** The user id and e-mail of a dev login: the body's `user`, else a fresh id; its `email`, else `<user>@example.com`. */
  function DevIdentity(payload: map<string, string>, freshId: string): (r: (string, string))
    ensures r.0 == if "user" in payload then payload["user"] else freshId
    ensures r.1 == if "email" in payload then payload["email"] else r.0 + "@example.com"
  {
    var userId := if "user" in payload then payload["user"] else freshId;
    (userId, if "email" in payload then payload["email"] else userId + "@example.com")
  }

  /**
   * `POST /auth/dev/login_post`: stores a password-less user row with the
   * role its e-mail earns, signs an access token, and stores a refresh token
   * that lives thirty days. Every failure is a 500; writes made before it stay.
   */
  function DevLoginOutcome(d: map<Table, Rows>, wf: set<Table>, payload: map<string, string>, freshId: string,
                           refreshId: string, sign: string -> Option<string>, nowSecs: i64)
    : (r: (map<Table, Rows>, Result<Json, ApiError>))
    requires nowSecs + THIRTY_DAYS < I64_LIMIT
    ensures r.1.Ok? ==>
      var (userId, email) := DevIdentity(payload, freshId);
      && RowsIn(r.0, Refresh) == RowsIn(d, Refresh)[refreshId := Doc(RefreshDoc(userId, nowSecs + THIRTY_DAYS))]
      && RowsIn(r.0, Users) == RowsIn(d, Users)[userId := Doc(UserRow(userId, email, None, nowSecs, RoleFor(email)))]
      && sign(userId).Some?
      && Get(r.1.value, "access_token") == Some(JStr(sign(userId).value))
      && Get(r.1.value, "refresh_token") == Some(JStr(refreshId))
      && Get(r.1.value, "user_id") == Some(JStr(userId))
    ensures r.1.Err? ==> r.1.error.status == INTERNAL_SERVER_ERROR
  {
    var (userId, email) := DevIdentity(payload, freshId);
    var (d1, put) := WriteRow(d, wf, Users, userId, UserRow(userId, email, None, nowSecs, RoleFor(email)));
    if put.Err? then (d1, Err(Fail(INTERNAL_SERVER_ERROR, StoreErrorText(put.error))))
    else match sign(userId)
      case None => (d1, Err(Fail(INTERNAL_SERVER_ERROR, SIGN_FAILED)))
      case Some(access) =>
        var (d2, stored) := WriteRow(d1, wf, Refresh, refreshId, RefreshDoc(userId, nowSecs + THIRTY_DAYS));
        if stored.Err? then (d2, Err(Fail(INTERNAL_SERVER_ERROR, StoreErrorText(stored.error))))
        else (d2, Ok(JObj(map["access_token" := JStr(access), "refresh_token" := JStr(refreshId), "user_id" := JStr(userId)])))
  }

  method DevLogin(store: Store, payload: map<string, string>, freshId: string, refreshId: string,
                  sign: string -> Option<string>, nowSecs: i64)
    returns (r: Result<Json, ApiError>)
    requires nowSecs + THIRTY_DAYS < I64_LIMIT
    modifies store
    ensures (store.docs, r) == DevLoginOutcome(old(store.docs), store.writeFails, payload, freshId, refreshId, sign, nowSecs)
    ensures store.seqs == old(store.seqs) && store.rate == old(store.rate)
  {
    var userId := if "user" in payload then payload["user"] else freshId;
    var email := if "email" in payload then payload["email"] else userId + "@example.com";
    var put := store.PutUser(userId, UserRow(userId, email, None, nowSecs, RoleFor(email)));
    if put.Err? {
      return Err(Fail(INTERNAL_SERVER_ERROR, StoreErrorText(put.error)));
    }
    var access := sign(userId);
    if access.None? {
      return Err(Fail(INTERNAL_SERVER_ERROR, SIGN_FAILED));
    }
    var stored := store.CreateRefreshToken(refreshId, userId, nowSecs + THIRTY_DAYS);
    if stored.Err? {
      return Err(Fail(INTERNAL_SERVER_ERROR, StoreErrorText(stored.error)));
    }
    return Ok(JObj(map["access_token" := JStr(access.value), "refresh_token" := JStr(refreshId), "user_id" := JStr(userId)]));
  }

  // ------------------------------------------------------------ set password

  /**
   * `POST /auth/dev/set_password`: the e-mail trimmed and lower-cased, a
   * password of at least 8 bytes, the user the credentials name (or a fresh
   * user when there are none or they cannot be read), then new credentials
   * with the password's hash.
   */
  function SetPasswordOutcome(d: map<Table, Rows>, rf: set<Table>, wf: set<Table>, payload: Json, freshId: string,
                              hashOf: Hasher, nowSecs: i64)
    : (r: (map<Table, Rows>, Result<Json, ApiError>))
    ensures GetStr(payload, "email").None? ==> r == (d, Err(Fail(BAD_REQUEST, "missing email")))
    ensures GetStr(payload, "email").Some? && GetStr(payload, "password").None? ==> r == (d, Err(Fail(BAD_REQUEST, "missing password")))
    ensures GetStr(payload, "email").Some? && GetStr(payload, "password").Some? && Utf8Len(GetStr(payload, "password").value) < 8
      ==> r == (d, Err(Fail(BAD_REQUEST, "password too short")))
    ensures GetStr(payload, "email").Some? && GetStr(payload, "password").Some? && Utf8Len(GetStr(payload, "password").value) >= 8
      ==> r == StorePassword(d, rf, wf, NormalEmail(GetStr(payload, "email").value), GetStr(payload, "password").value, freshId, hashOf, nowSecs)
    ensures r.1.Err? && r.1.error.status == BAD_REQUEST ==> r.0 == d
  {
    match GetStr(payload, "email")
    case None => (d, Err(Fail(BAD_REQUEST, "missing email")))
    case Some(raw) =>
      var email := NormalEmail(raw);
      match GetStr(payload, "password")
      case None => (d, Err(Fail(BAD_REQUEST, "missing password")))
      case Some(password) =>
        if Utf8Len(password) < 8 then (d, Err(Fail(BAD_REQUEST, "password too short")))
        else StorePassword(d, rf, wf, email, password, freshId, hashOf, nowSecs)
  }

  /**
   * The writes of `set_password` once the request is accepted: the owner,
   * then the hash, then the credentials. A failed hashing is a 500 that
   * keeps the fresh user row the owner step may have written.
   */
  function StorePassword(d: map<Table, Rows>, rf: set<Table>, wf: set<Table>, email: string, password: string,
                         freshId: string, hashOf: Hasher, nowSecs: i64)
    : (r: (map<Table, Rows>, Result<Json, ApiError>))
    ensures var (d1, owner) := PasswordOwner(d, rf, wf, email, freshId, nowSecs);
      owner.Ok? && hashOf(password).None? ==> r == (d1, Err(Fail(INTERNAL_SERVER_ERROR, HASH_FAILED)))
    ensures r.1.Ok? ==> hashOf(password).Some?
    ensures r.1.Err? ==> r.1.error.status == INTERNAL_SERVER_ERROR
  {
    var (d1, owner) := PasswordOwner(d, rf, wf, email, freshId, nowSecs);
    match owner
    case Err(e) => (d1, Err(e))
    case Ok(userId) =>
      match hashOf(password)
      case None => (d1, Err(Fail(INTERNAL_SERVER_ERROR, HASH_FAILED)))
      case Some(hash) =>
        var (d2, put) := WriteRow(d1, wf, Credentials, email, CredRow(userId, hash, nowSecs));
        if put.Err? then (d2, Err(Fail(INTERNAL_SERVER_ERROR, StoreErrorText(put.error))))
        else (d2, Ok(Obj2("ok", JBool(true), "email", JStr(email))))
  }

  /**
   * A hashing failure for an e-mail without credentials answers 500 and
   * leaves behind the fresh user row, with no credentials pointing at it.
   */
  lemma HashFailureLeavesUser(d: map<Table, Rows>, rf: set<Table>, wf: set<Table>, email: string, password: string,
                              freshId: string, hashOf: Hasher, nowSecs: i64)
    requires ReadRow(d, rf, Credentials, email) == Ok(None) && Users !in wf && hashOf(password).None?
    ensures var r := StorePassword(d, rf, wf, email, password, freshId, hashOf, nowSecs);
      && r.1 == Err(Fail(INTERNAL_SERVER_ERROR, HASH_FAILED))
      && RowsIn(r.0, Users) == RowsIn(d, Users)[freshId := Doc(UserRow(freshId, email, None, nowSecs, RoleFor(email)))]
      && RowsIn(r.0, Credentials) == RowsIn(d, Credentials)
  {
    var (d1, owner) := PasswordOwner(d, rf, wf, email, freshId, nowSecs);
    assert owner == Ok(freshId);
  }

  /** Whose password it is: the credentials' `user_id` (or `""`), else a fresh user row written now. */
  function PasswordOwner(d: map<Table, Rows>, rf: set<Table>, wf: set<Table>, email: string, freshId: string, nowSecs: i64)
    : (r: (map<Table, Rows>, Result<string, ApiError>))
    ensures var cred := ReadRow(d, rf, Credentials, email);
      cred.Ok? && cred.value.Some? ==>
        r == (d, Ok(if GetStr(cred.value.value, "user_id").Some? then GetStr(cred.value.value, "user_id").value else ""))
    ensures var cred := ReadRow(d, rf, Credentials, email);
      !(cred.Ok? && cred.value.Some?) && r.1.Ok? ==>
        && r.1.value == freshId
        && RowsIn(r.0, Users) == RowsIn(d, Users)[freshId := Doc(UserRow(freshId, email, None, nowSecs, RoleFor(email)))]
        && RowsIn(r.0, Credentials) == RowsIn(d, Credentials)
    ensures r.1.Err? ==> r.0 == d && r.1.error.status == INTERNAL_SERVER_ERROR
  {
    match ReadRow(d, rf, Credentials, email)
    case Ok(Some(cred)) => (d, Ok(match GetStr(cred, "user_id") case Some(u) => u case None => ""))
    case _ =>
      var (d1, put) := WriteRow(d, wf, Users, freshId, UserRow(freshId, email, None, nowSecs, RoleFor(email)));
      if put.Err? then (d1, Err(Fail(INTERNAL_SERVER_ERROR, StoreErrorText(put.error)))) else (d1, Ok(freshId))
  }

  /**
   * After a successful call the e-mail's credentials hold the new hash; they
   * name the previous owner when there were credentials, and otherwise a
   * fresh user row with the role the e-mail earns.
   */
  lemma SetPasswordStores(d: map<Table, Rows>, rf: set<Table>, wf: set<Table>, email: string, password: string,
                          freshId: string, hashOf: Hasher, nowSecs: i64)
    requires StorePassword(d, rf, wf, email, password, freshId, hashOf, nowSecs).1.Ok?
    ensures var after := StorePassword(d, rf, wf, email, password, freshId, hashOf, nowSecs).0;
      var cred := ReadRow(d, rf, Credentials, email);
      var owner := if cred.Ok? && cred.value.Some? then
                     (if GetStr(cred.value.value, "user_id").Some? then GetStr(cred.value.value, "user_id").value else "")
                   else freshId;
      && hashOf(password).Some?
      && RowsIn(after, Credentials) == RowsIn(d, Credentials)[email := Doc(CredRow(owner, hashOf(password).value, nowSecs))]
      && (cred.Ok? && cred.value.Some? ==> RowsIn(after, Users) == RowsIn(d, Users))
      && (!(cred.Ok? && cred.value.Some?) ==>
            RowsIn(after, Users) == RowsIn(d, Users)[freshId := Doc(UserRow(freshId, email, None, nowSecs, RoleFor(email)))])
  {
    var (d1, owner) := PasswordOwner(d, rf, wf, email, freshId, nowSecs);
    var (d2, put) := WriteRow(d1, wf, Credentials, email, CredRow(owner.value, hashOf(password).value, nowSecs));
    assert RowsIn(d2, Credentials) == RowsIn(d1, Credentials)[email := Doc(CredRow(owner.value, hashOf(password).value, nowSecs))];
    assert RowsIn(d2, Users) == RowsIn(d1, Users);
  }

  method FindPasswordOwner(store: Store, email: string, freshId: string, nowSecs: i64) returns (r: Result<string, ApiError>)
    modifies store
    ensures (store.docs, r) == PasswordOwner(old(store.docs), store.readFails, store.writeFails, email, freshId, nowSecs)
    ensures store.seqs == old(store.seqs) && store.rate == old(store.rate)
  {
    var cred := store.GetCredentials(email);
    if cred.Ok? && cred.value.Some? {
      var u := GetStr(cred.value.value, "user_id");
      return Ok(if u.Some? then u.value else "");
    }
    var put := store.PutUser(freshId, UserRow(freshId, email, None, nowSecs, RoleFor(email)));
    if put.Err? {
      return Err(Fail(INTERNAL_SERVER_ERROR, StoreErrorText(put.error)));
    }
    return Ok(freshId);
  }

  method SetPassword(store: Store, payload: Json, freshId: string, hashOf: Hasher, nowSecs: i64)
    returns (r: Result<Json, ApiError>)
    modifies store
    ensures (store.docs, r) == SetPasswordOutcome(old(store.docs), store.readFails, store.writeFails, payload, freshId, hashOf, nowSecs)
    ensures store.seqs == old(store.seqs) && store.rate == old(store.rate)
  {
    var raw := GetStr(payload, "email");
    if raw.None? {
      return Err(Fail(BAD_REQUEST, "missing email"));
    }
    var email := NormalEmail(raw.value);
    var password := GetStr(payload, "password");
    if password.None? {
      return Err(Fail(BAD_REQUEST, "missing password"));
    }
    if Utf8Len(password.value) < 8 {
      return Err(Fail(BAD_REQUEST, "password too short"));
    }
    var owner := FindPasswordOwner(store, email, freshId, nowSecs);
    if owner.Err? {
      return Err(owner.error);
    }
    var hash := hashOf(password.value);
    if hash.None? {
      return Err(Fail(INTERNAL_SERVER_ERROR, HASH_FAILED));
    }
    var put := store.PutCredentials(email, CredRow(owner.value, hash.value, nowSecs));
    if put.Err? {
      return Err(Fail(INTERNAL_SERVER_ERROR, StoreErrorText(put.error)));
    }
    return Ok(Obj2("ok", JBool(true), "email", JStr(email)));
  }
}
