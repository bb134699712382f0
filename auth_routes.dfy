/**
 * The gateway's account endpoints: signup with its validation order, the
 * username availability check, login (payload reading, username to e-mail
 * resolution, credential check, the seeded-admin safety row) and `me`.
 *
 * Fresh ids, the clock, Argon2 and the JWT check are parameters; a request
 * body comes already decoded in the three ways the handler can read it.
 */
module AuthRoutes {
  import opened Wrappers
  import opened Text
  import opened Numeric
  import opened Json
  import opened StringOrder
  import opened Storage
  import opened GatewayState

  const UNSUPPORTED_MEDIA_TYPE: nat := 415

  /** `is_admin_email(email)` turned into the role a new row gets. */
  function RoleFor(email: string): (role: string)
    ensures role == "admin" <==> IsAdminEmail(email)
    ensures role == "admin" || role == "user"
  {
    if IsAdminEmail(email) then "admin" else "user"
  }

  /** A user row as the handlers build it: `id`, `email`, an optional `username`, `created_at` and `role`. */
  function UserRow(id: string, email: string, username: Option<string>, createdAt: i64, role: string): (j: Json)
    ensures GetStr(j, "id") == Some(id) && GetStr(j, "email") == Some(email) && GetStr(j, "role") == Some(role)
    ensures GetStr(j, "username") == username
    ensures GetI64(j, "created_at") == Some(createdAt)
  {
    var base := map["id" := JStr(id), "email" := JStr(email), "created_at" := JNum(createdAt), "role" := JStr(role)];
    match username
    case Some(u) => JObj(base["username" := JStr(u)])
    case None => JObj(base)
  }

  /** A credentials row: the user it belongs to, the password hash and `created_at`. */
  function CredRow(userId: string, hash: string, createdAt: i64): (j: Json)
    ensures GetStr(j, "user_id") == Some(userId) && GetStr(j, "password_hash") == Some(hash)
    ensures LinksTo(Doc(j), userId)
  {
    JObj(map["user_id" := JStr(userId), "password_hash" := JStr(hash), "created_at" := JNum(createdAt)])
  }

  /** What `list_users` returns on the store as it is. */
  ghost function Listing(store: Store): Result<seq<Json>, StoreError>
    reads store
  {
    if Users in store.readFails then Err(Unavailable(Users)) else Ok(Collect(Ordered(store.RowsOf(Users)), UserDoc))
  }

  // ------------------------------------------------------------ usernames

  /** The row's `username` is a string equal to `name` ignoring ASCII case. */
  predicate NamedAs(usr: Json, name: string)
  {
    GetStr(usr, "username").Some? && EqIgnoreAsciiCase(GetStr(usr, "username").value, name)
  }

  /** `users.iter().any(...)` of the username test. */
  function AnyNamed(users: seq<Json>, name: string): (r: bool)
    ensures r <==> exists i :: 0 <= i < |users| && NamedAs(users[i], name)
  {
    if users == [] then false
    else if NamedAs(users[0], name) then true
    else
      var r := AnyNamed(users[1..], name);
      assert forall i :: 1 <= i < |users| ==> users[i] == users[1..][i - 1];
      r
  }

  // ------------------------------------------------------------ signup

  /** The normalised signup and login e-mail: trimmed, then lower-cased. */
  function NormalEmail(email: string): string
  {
    Lower(Trim(email))
  }

  predicate GoodEmailPassword(email: string, password: string)
  {
    NormalEmail(email) != [] && Utf8Len(password) >= 8
  }

  predicate GoodUsername(username: string)
  {
    Trim(username) != [] && Utf8Len(Trim(username)) >= 2
  }

  /**
   * The checks of `api_signup` in the order it makes them, given what
   * `get_credentials` and `list_users` return; `None` lets the signup go on.
   */
  function SignupCheck(email: string, password: string, username: string,
                       cred: Result<Option<Json>, StoreError>, users: Result<seq<Json>, StoreError>): (r: Option<ApiError>)
    ensures !GoodEmailPassword(email, password) ==> r == Some(ApiError(BAD_REQUEST, "invalid email or password"))
    ensures GoodEmailPassword(email, password) && cred.Ok? && cred.value.Some? ==> r == Some(ApiError(CONFLICT, "email already registered"))
    ensures GoodEmailPassword(email, password) && cred.Err? ==> r == Some(ApiError(INTERNAL_SERVER_ERROR, StoreErrorText(cred.error)))
    ensures GoodEmailPassword(email, password) && cred == Ok(None) && !GoodUsername(username) ==> r == Some(ApiError(BAD_REQUEST, "invalid username"))
    ensures GoodEmailPassword(email, password) && cred == Ok(None) && GoodUsername(username) && users.Err? ==>
      r == Some(ApiError(INTERNAL_SERVER_ERROR, StoreErrorText(users.error)))
    ensures GoodEmailPassword(email, password) && cred == Ok(None) && GoodUsername(username) && users.Ok? && AnyNamed(users.value, Trim(username)) ==>
      r == Some(ApiError(CONFLICT, "username already taken"))
    ensures r.None? <==>
      GoodEmailPassword(email, password) && cred == Ok(None) && GoodUsername(username) && users.Ok? &&
      forall i :: 0 <= i < |users.value| ==> !NamedAs(users.value[i], Trim(username))
  {
    if !GoodEmailPassword(email, password) then Some(ApiError(BAD_REQUEST, "invalid email or password"))
    else match cred
      case Ok(Some(_)) => Some(ApiError(CONFLICT, "email already registered"))
      case Err(e) => Some(ApiError(INTERNAL_SERVER_ERROR, StoreErrorText(e)))
      case Ok(None) =>
        if !GoodUsername(username) then Some(ApiError(BAD_REQUEST, "invalid username"))
        else match users
          case Err(e) => Some(ApiError(INTERNAL_SERVER_ERROR, StoreErrorText(e)))
          case Ok(us) => if AnyNamed(us, Trim(username)) then Some(ApiError(CONFLICT, "username already taken")) else None
  }

  /**
   * Argon2 hashing of a password with a fresh random salt: the PHC string,
   * or `None` when the salt encoding or the hashing fails.
   */
  type Hasher = string -> Option<string>

  /**
   * `create_jwt` for a user id with the seven-day lifetime: the token, or
   * `None` when the clock reads before 1970 or the encoding fails.
   */
  type Signer = string -> Option<string>

  /** The message of a 500 for a failed hashing (the library's own text is not modelled). */
  const HASH_FAILED: string := "password hashing failed"

  /** The message of a 500 for a failed `create_jwt`. */
  const SIGN_FAILED: string := "token signing failed"

  /**
   * What a signup does once its checks pass, on the tables `d` with the
   * write faults `wf`: the user row, then the hash, then the credentials
   * row under the e-mail, then the session token. Each failure is a 500,
   * and the writes made before it stay.
   */
  function Account(d: map<Table, Rows>, wf: set<Table>, e: string, username: string, userId: string,
                   hash: Option<string>, token: Option<string>, nowSecs: i64)
    : (r: (map<Table, Rows>, Result<(string, string, string), ApiError>))
    ensures var withUser := d[Users := RowsIn(d, Users)[userId := Doc(UserRow(userId, e, Some(username), nowSecs, RoleFor(e)))]];
      && (Users in wf ==> r == (d, Err(ApiError(INTERNAL_SERVER_ERROR, StoreErrorText(Unavailable(Users))))))
      && (Users !in wf && hash.None? ==> r == (withUser, Err(ApiError(INTERNAL_SERVER_ERROR, HASH_FAILED))))
      && (Users !in wf && hash.Some? && Credentials in wf ==>
            r == (withUser, Err(ApiError(INTERNAL_SERVER_ERROR, StoreErrorText(Unavailable(Credentials))))))
      && (Users !in wf && hash.Some? && Credentials !in wf ==>
            && r.0 == withUser[Credentials := RowsIn(d, Credentials)[e := Doc(CredRow(userId, hash.value, nowSecs))]]
            && r.1 == if token.Some? then Ok((userId, e, token.value)) else Err(ApiError(INTERNAL_SERVER_ERROR, SIGN_FAILED)))
    ensures r.1.Ok? <==> Users !in wf && hash.Some? && Credentials !in wf && token.Some?
    ensures r.1.Err? ==> r.1.error.status == INTERNAL_SERVER_ERROR
  {
    var (d1, put) := WriteRow(d, wf, Users, userId, UserRow(userId, e, Some(username), nowSecs, RoleFor(e)));
    if put.Err? then (d1, Err(ApiError(INTERNAL_SERVER_ERROR, StoreErrorText(put.error))))
    else match hash
      case None => (d1, Err(ApiError(INTERNAL_SERVER_ERROR, HASH_FAILED)))
      case Some(h) =>
        var (d2, putCred) := WriteRow(d1, wf, Credentials, e, CredRow(userId, h, nowSecs));
        if putCred.Err? then (d2, Err(ApiError(INTERNAL_SERVER_ERROR, StoreErrorText(putCred.error))))
        else match token
          case None => (d2, Err(ApiError(INTERNAL_SERVER_ERROR, SIGN_FAILED)))
          case Some(t) => (d2, Ok((userId, e, t)))
  }

  /**
   * `api_signup`: validates, then creates the account, and answers with the
   * new id, the normalised e-mail and the session token. `userId` is the
   * fresh UUID, `hashOf` the Argon2 hashing, `sign` the JWT signing and
   * `nowSecs` the clock.
   */
  method Signup(store: Store, email: string, password: string, username: string, userId: string,
                hashOf: Hasher, sign: Signer, nowSecs: i64)
    returns (r: Result<(string, string, string), ApiError>)
    modifies store
    ensures var check := SignupCheck(email, password, username, old(store.GetCredentials(NormalEmail(email))), old(Listing(store)));
      && (check.Some? ==> r == Err(check.value) && store.docs == old(store.docs))
      && (check.None? ==>
            (store.docs, r) == Account(old(store.docs), store.writeFails, NormalEmail(email), Trim(username), userId,
                                       hashOf(password), sign(userId), nowSecs))
    ensures store.seqs == old(store.seqs) && store.rate == old(store.rate)
  {
    var e := NormalEmail(email);
    var cred := store.GetCredentials(e);
    var listed: Result<seq<Json>, StoreError> := Err(Unavailable(Users));
    if GoodEmailPassword(email, password) && cred == Ok(None) && GoodUsername(username) {
      listed := store.ListUsers();
    }
    var check := SignupCheck(email, password, username, cred, listed);
    if check.Some? {
      return Err(check.value);
    }
    r := CreateAccount(store, e, Trim(username), userId, hashOf(password), sign, nowSecs);
  }

  /** The steps of a signup after its checks: the user row, the hash, the credentials row, the token. */
  method CreateAccount(store: Store, e: string, username: string, userId: string, hash: Option<string>, sign: Signer, nowSecs: i64)
    returns (r: Result<(string, string, string), ApiError>)
    modifies store
    ensures (store.docs, r) == Account(old(store.docs), store.writeFails, e, username, userId, hash, sign(userId), nowSecs)
    ensures store.seqs == old(store.seqs) && store.rate == old(store.rate)
  {
    var put := store.PutUser(userId, UserRow(userId, e, Some(username), nowSecs, RoleFor(e)));
    if put.Err? {
      return Err(ApiError(INTERNAL_SERVER_ERROR, StoreErrorText(put.error)));
    }
    if hash.None? {
      return Err(ApiError(INTERNAL_SERVER_ERROR, HASH_FAILED));
    }
    var putCred := store.PutCredentials(e, CredRow(userId, hash.value, nowSecs));
    if putCred.Err? {
      return Err(ApiError(INTERNAL_SERVER_ERROR, StoreErrorText(putCred.error)));
    }
    var token := sign(userId);
    if token.None? {
      return Err(ApiError(INTERNAL_SERVER_ERROR, SIGN_FAILED));
    }
    return Ok((userId, e, token.value));
  }

  /** `api_check_username`: an empty name is never available; otherwise available iff no row carries it, ignoring case. */
  function Availability(query: map<string, string>, users: Result<seq<Json>, StoreError>): (r: Result<bool, ApiError>)
    ensures var name := Trim(if "u" in query then query["u"] else "");
      && (name == [] ==> r == Ok(false))
      && (name != [] && users.Err? ==> r == Err(ApiError(INTERNAL_SERVER_ERROR, StoreErrorText(users.error))))
      && (name != [] && users.Ok? ==> r == Ok(forall i :: 0 <= i < |users.value| ==> !NamedAs(users.value[i], name)))
  {
    var name := Trim(if "u" in query then query["u"] else "");
    if name == [] then Ok(false)
    else match users
      case Err(e) => Err(ApiError(INTERNAL_SERVER_ERROR, StoreErrorText(e)))
      case Ok(us) => Ok(!AnyNamed(us, name))
  }

  /** The handler itself reads the user table only when the name is not empty. */
  method CheckUsername(store: Store, query: map<string, string>) returns (r: Result<bool, ApiError>)
    ensures r == Availability(query, Listing(store))
  {
    var name := Trim(if "u" in query then query["u"] else "");
    if name == [] {
      return Ok(false);
    }
    var listed := store.ListUsers();
    r := Availability(query, listed);
  }

  /** A name signup accepted is reported taken by the availability check, in any case. */
  lemma SignedUpNameTaken(users: seq<Json>, i: nat, query: map<string, string>)
    requires i < |users| && "u" in query && Trim(query["u"]) != []
    requires NamedAs(users[i], Trim(query["u"]))
    ensures Availability(query, Ok(users)) == Ok(false)
  {
  }

  // ------------------------------------------------------------ login payloads

  /** `AuthPayload`: log in by e-mail or by username. */
  datatype Identity = ByEmail(email: string, password: string) | ByUsername(username: string, password: string)

  /**
   * One login body: its length in bytes, and its bytes read the three ways
   * `api_login` can read them: as a JSON value (`None` when it does not
   * parse), as URL-encoded pairs (a repeated name keeps its last value) and
   * as lossy UTF-8 text.
   */
  datatype LoginBody = LoginBody(length: nat, json: Option<Json>, form: map<string, string>, text: string)

  /** The most bytes `api_login` collects from a body: 64 KiB. */
  const BODY_LIMIT: nat := 64 * 1024

  /** The message of the 500 for a body over the limit. */
  const BODY_TOO_LARGE: string := "length limit exceeded"

  /** The message of a body that does not deserialize into `AuthPayload`. */
  const BAD_PAYLOAD: string := "invalid login payload"

  /**
   * The untagged `AuthPayload` from a JSON value: `ByEmail` is tried first.
   * Each variant reads an object with the two string fields (others are
   * ignored) or an array of exactly two strings.
   */
  function IdentityFromJson(j: Json): (r: Option<Identity>)
    ensures j.JObj? && GetStr(j, "email").Some? && GetStr(j, "password").Some? ==>
      r == Some(ByEmail(GetStr(j, "email").value, GetStr(j, "password").value))
    ensures j.JObj? && (GetStr(j, "email").None? || GetStr(j, "password").None?) ==>
      r == if GetStr(j, "username").Some? && GetStr(j, "password").Some?
           then Some(ByUsername(GetStr(j, "username").value, GetStr(j, "password").value)) else None
    ensures !j.JObj? && !j.JArr? ==> r.None?
  {
    match j
    case JObj(_) =>
      if GetStr(j, "email").Some? && GetStr(j, "password").Some? then Some(ByEmail(GetStr(j, "email").value, GetStr(j, "password").value))
      else if GetStr(j, "username").Some? && GetStr(j, "password").Some? then Some(ByUsername(GetStr(j, "username").value, GetStr(j, "password").value))
      else None
    case JArr(items) =>
      if |items| == 2 && items[0].JStr? && items[1].JStr? then Some(ByEmail(items[0].s, items[1].s)) else None
    case _ => None
  }

  /** `serde_json::from_slice::<AuthPayload>`, failing with `status`. */
  function JsonPayload(json: Option<Json>, status: nat): (r: Result<Identity, ApiError>)
    ensures r.Err? ==> r.error == ApiError(status, BAD_PAYLOAD)
    ensures r.Ok? <==> json.Some? && IdentityFromJson(json.value).Some?
  {
    match json
    case Some(j) => (match IdentityFromJson(j) case Some(id) => Ok(id) case None => Err(ApiError(status, BAD_PAYLOAD)))
    case None => Err(ApiError(status, BAD_PAYLOAD))
  }

  /** `format!("name=\"{}\"", name)`. */
  function Marker(name: string): string
  {
    "name=\"" + name + "\""
  }

  const CRLF: string := "\r\n"
  const BLANK_LINE: string := "\r\n\r\n"

  /**
   * The multipart `extract`: after the first `name="<name>"`, the text
   * following the first blank line, up to the next line break or the end.
   */
  function Extract(s: string, name: string): (r: Option<string>)
    ensures r.None? <==> Find(s, Marker(name)).None? || Find(s[Find(s, Marker(name)).value..], BLANK_LINE).None?
    ensures r.Some? ==>
      var idx := Find(s, Marker(name)).value;
      var i := Find(s[idx..], BLANK_LINE).value;
      var rest := s[idx..][i + 4..];
      && StartsWith(rest, r.value)
      && (forall j :: 0 <= j < |r.value| ==> !OccursAt(rest, CRLF, j))
      && (|r.value| == |rest| || OccursAt(rest, CRLF, |r.value|))
  {
    match Find(s, Marker(name))
    case None => None
    case Some(idx) =>
      var after := s[idx..];
      match Find(after, BLANK_LINE)
      case None => None
      case Some(i) =>
        var rest := after[i + 4..];
        var end := match Find(rest, CRLF) case Some(e) => e case None => |rest|;
        Some(rest[..end])
  }

  /** A field written as `name="<name>"`, a blank line and a value without `\r` is read back. */
  lemma ExtractField(name: string, value: string, tail: string)
    requires '\r' !in name && '\r' !in value
    ensures Extract(Marker(name) + BLANK_LINE + value + CRLF + tail, name) == Some(value)
  {
    var m := Marker(name);
    var s := m + BLANK_LINE + value + CRLF + tail;
    assert OccursAt(s, m, 0) by { assert s[0..|m|] == m; }
    assert Find(s, m) == Some(0);
    assert s[0..] == s;
    assert OccursAt(s, BLANK_LINE, |m|) by { assert s[|m|..|m| + 4] == BLANK_LINE; }
    forall j | 0 <= j < |m|
      ensures !OccursAt(s, BLANK_LINE, j)
    {
      assert s[j] == m[j];
      assert m[j] != '\r';
    }
    assert Find(s, BLANK_LINE) == Some(|m|);
    var rest := s[|m| + 4..];
    assert rest == value + CRLF + tail;
    assert OccursAt(rest, CRLF, |value|) by { assert rest[|value|..|value| + 2] == CRLF; }
    forall j | 0 <= j < |value|
      ensures !OccursAt(rest, CRLF, j)
    {
      assert rest[j] == value[j];
    }
    assert Find(rest, CRLF) == Some(|value|);
    assert rest[..|value|] == value;
  }

  /** `Content-Type`, ASCII lower-cased, or `""`. */
  function ContentType(h: Headers): string
  {
    Lower(match HeaderStr(h, "content-type") case Some(s) => s case None => "")
  }

  predicate Contains(s: string, pat: string)
  {
    Find(s, pat).Some?
  }

  /** A form or multipart body: a password is required, then `username` wins over `email`. */
  function FieldPayload(password: Option<string>, username: Option<string>, email: Option<string>): (r: Result<Identity, ApiError>)
    ensures password.None? ==> r == Err(ApiError(BAD_REQUEST, "missing password"))
    ensures password.Some? && username.Some? ==> r == Ok(ByUsername(username.value, password.value))
    ensures password.Some? && username.None? && email.Some? ==> r == Ok(ByEmail(email.value, password.value))
    ensures password.Some? && username.None? && email.None? ==> r == Err(ApiError(BAD_REQUEST, "missing email or username"))
  {
    match password
    case None => Err(ApiError(BAD_REQUEST, "missing password"))
    case Some(p) =>
      match username
      case Some(u) => Ok(ByUsername(u, p))
      case None =>
        match email
        case Some(e) => Ok(ByEmail(e, p))
        case None => Err(ApiError(BAD_REQUEST, "missing email or username"))
  }

  function Field(form: map<string, string>, name: string): Option<string>
  {
    if name in form then Some(form[name]) else None
  }

  /** Step 1 of `api_login`: a body over the limit is a 500; otherwise the payload, chosen by the content type. */
  function LoginPayload(h: Headers, body: LoginBody): (r: Result<Identity, ApiError>)
    ensures body.length > BODY_LIMIT ==> r == Err(ApiError(INTERNAL_SERVER_ERROR, BODY_TOO_LARGE))
    ensures body.length <= BODY_LIMIT && Contains(ContentType(h), "application/json") ==> r == JsonPayload(body.json, BAD_REQUEST)
    ensures (body.length <= BODY_LIMIT && !Contains(ContentType(h), "application/json")
      && Contains(ContentType(h), "application/x-www-form-urlencoded")) ==>
      r == FieldPayload(Field(body.form, "password"), Field(body.form, "username"), Field(body.form, "email"))
    ensures (body.length <= BODY_LIMIT && !Contains(ContentType(h), "application/json")
      && !Contains(ContentType(h), "application/x-www-form-urlencoded") && Contains(ContentType(h), "multipart/form-data")) ==>
      r == FieldPayload(Extract(body.text, "password"), Extract(body.text, "username"), Extract(body.text, "email"))
    ensures (body.length <= BODY_LIMIT && !Contains(ContentType(h), "application/json")
      && !Contains(ContentType(h), "application/x-www-form-urlencoded") && !Contains(ContentType(h), "multipart/form-data")) ==>
      r == JsonPayload(body.json, UNSUPPORTED_MEDIA_TYPE)
  {
    var ct := ContentType(h);
    if body.length > BODY_LIMIT then Err(ApiError(INTERNAL_SERVER_ERROR, BODY_TOO_LARGE))
    else if Contains(ct, "application/json") then JsonPayload(body.json, BAD_REQUEST)
    else if Contains(ct, "application/x-www-form-urlencoded") then
      FieldPayload(Field(body.form, "password"), Field(body.form, "username"), Field(body.form, "email"))
    else if Contains(ct, "multipart/form-data") then
      FieldPayload(Extract(body.text, "password"), Extract(body.text, "username"), Extract(body.text, "email"))
    else JsonPayload(body.json, UNSUPPORTED_MEDIA_TYPE)
  }

  /** A form carrying both identifiers logs in by username; a JSON object carrying both logs in by e-mail. */
  lemma IdentifierPreference(h: Headers, body: LoginBody)
    requires body.length <= BODY_LIMIT
    requires "password" in body.form && "username" in body.form && "email" in body.form
    requires body.json.Some? && body.json.value.JObj?
    requires GetStr(body.json.value, "email").Some? && GetStr(body.json.value, "password").Some?
    ensures !Contains(ContentType(h), "application/json") && Contains(ContentType(h), "application/x-www-form-urlencoded") ==>
      LoginPayload(h, body) == Ok(ByUsername(body.form["username"], body.form["password"]))
    ensures Contains(ContentType(h), "application/json") ==>
      LoginPayload(h, body) == Ok(ByEmail(GetStr(body.json.value, "email").value, GetStr(body.json.value, "password").value))
  {
  }

  // ------------------------------------------------------------ login

  /** The `find_map` arm for one row: its lower-cased `email` when its username matches. */
  function EmailOf(usr: Json, name: string): Option<string>
  {
    if NamedAs(usr, name) then (match GetStr(usr, "email") case Some(e) => Some(Lower(e)) case None => None) else None
  }

  /** `find_map`: the first row with a matching username and a string `email`. */
  function FindEmail(users: seq<Json>, name: string): (r: Option<string>)
    ensures r.None? <==> forall i :: 0 <= i < |users| ==> EmailOf(users[i], name).None?
    ensures r.Some? ==> exists i :: (0 <= i < |users| && EmailOf(users[i], name) == r
      && forall j :: 0 <= j < i ==> EmailOf(users[j], name).None?)
  {
    if users == [] then None
    else if EmailOf(users[0], name).Some? then EmailOf(users[0], name)
    else
      var r := FindEmail(users[1..], name);
      assert forall i :: 1 <= i < |users| ==> users[i] == users[1..][i - 1];
      if r.Some? then
        var k :| 0 <= k < |users[1..]| && EmailOf(users[1..][k], name) == r
          && forall j :: 0 <= j < k ==> EmailOf(users[1..][j], name).None?;
        assert EmailOf(users[k + 1], name) == r;
        r
      else r
  }

  /**
   * Step 2 of `api_login`: the e-mail to log in as. A username is trimmed and
   * looked up (only then is the user table read); an unmatched `admin` is the
   * admin address.
   */
  function LoginEmail(id: Identity, users: Result<seq<Json>, StoreError>): (r: Result<string, ApiError>)
    ensures id.ByEmail? ==> r == Ok(NormalEmail(id.email))
    ensures id.ByUsername? && Trim(id.username) == [] ==> r == Err(ApiError(BAD_REQUEST, "invalid username"))
    ensures id.ByUsername? && Trim(id.username) != [] && users.Err? ==> r == Err(ApiError(INTERNAL_SERVER_ERROR, StoreErrorText(users.error)))
    ensures id.ByUsername? && Trim(id.username) != [] && users.Ok? ==>
      var found := FindEmail(users.value, Trim(id.username));
      r == if found.Some? then Ok(found.value)
           else if EqIgnoreAsciiCase(Trim(id.username), "admin") then Ok(ADMIN_EMAIL)
           else Err(ApiError(UNAUTHORIZED, "invalid credentials"))
  {
    match id
    case ByEmail(e, _) => Ok(NormalEmail(e))
    case ByUsername(u, _) =>
      var uname := Trim(u);
      if uname == [] then Err(ApiError(BAD_REQUEST, "invalid username"))
      else match users
        case Err(e) => Err(ApiError(INTERNAL_SERVER_ERROR, StoreErrorText(e)))
        case Ok(us) =>
          match FindEmail(us, uname)
          case Some(e) => Ok(e)
          case None => if EqIgnoreAsciiCase(uname, "admin") then Ok(ADMIN_EMAIL) else Err(ApiError(UNAUTHORIZED, "invalid credentials"))
  }

  /** A username that no row carries is refused, unless it is `admin` in some case. */
  lemma UnknownUsername(u: string, password: string, users: seq<Json>)
    requires Trim(u) != [] && forall i :: 0 <= i < |users| ==> !NamedAs(users[i], Trim(u))
    ensures EqIgnoreAsciiCase(Trim(u), "admin") ==> LoginEmail(ByUsername(u, password), Ok(users)) == Ok(ADMIN_EMAIL)
    ensures !EqIgnoreAsciiCase(Trim(u), "admin") ==> LoginEmail(ByUsername(u, password), Ok(users)) == Err(ApiError(UNAUTHORIZED, "invalid credentials"))
  {
    assert FindEmail(users, Trim(u)).None?;
  }

  /** The password check: `(password, stored hash)` to `None` when the hash does not parse, else whether it matches. */
  type HashCheck = (string, string) -> Option<bool>

  const BAD_CREDENTIALS_BODY: string := "{\"message\":\"invalid credentials\"}"

  /** Step 3 of `api_login`: the credentials row must exist, be well formed and match the password. */
  function Authenticate(cred: Result<Option<Json>, StoreError>, password: string, check: HashCheck): (r: Result<string, ApiError>)
    ensures cred == Ok(None) ==> r == Err(ApiError(UNAUTHORIZED, "invalid credentials"))
    ensures cred.Err? ==> r == Err(ApiError(INTERNAL_SERVER_ERROR, StoreErrorText(cred.error)))
    ensures r.Ok? <==>
      && cred.Ok? && cred.value.Some?
      && GetStr(cred.value.value, "user_id").Some? && GetStr(cred.value.value, "password_hash").Some?
      && check(password, GetStr(cred.value.value, "password_hash").value) == Some(true)
    ensures r.Ok? ==> r.value == GetStr(cred.value.value, "user_id").value
    ensures (cred.Ok? && cred.value.Some? && GetStr(cred.value.value, "user_id").Some? && GetStr(cred.value.value, "password_hash").Some?
      && check(password, GetStr(cred.value.value, "password_hash").value) == Some(false)) ==>
      r == Err(ApiError(UNAUTHORIZED, BAD_CREDENTIALS_BODY))
  {
    match cred
    case Err(e) => Err(ApiError(INTERNAL_SERVER_ERROR, StoreErrorText(e)))
    case Ok(None) => Err(ApiError(UNAUTHORIZED, "invalid credentials"))
    case Ok(Some(c)) =>
      match (GetStr(c, "user_id"), GetStr(c, "password_hash"))
      case (Some(uid), Some(hash)) =>
        (match check(password, hash)
         case None => Err(ApiError(INTERNAL_SERVER_ERROR, "malformed password hash"))
         case Some(false) => Err(ApiError(UNAUTHORIZED, BAD_CREDENTIALS_BODY))
         case Some(true) => Ok(uid))
      case _ => Err(ApiError(INTERNAL_SERVER_ERROR, "malformed credentials"))
  }

  /**
   * Once a signup has stored its credentials, a login with the password they
   * were hashed from gets the new user's id, even when the token could not
   * be signed.
   */
  lemma SignupThenAuthenticate(d: map<Table, Rows>, rf: set<Table>, wf: set<Table>, e: string, username: string, userId: string,
                               hash: Option<string>, token: Option<string>, nowSecs: i64, password: string, check: HashCheck)
    requires Users !in wf && Credentials !in wf && Credentials !in rf
    requires hash.Some? && check(password, hash.value) == Some(true)
    ensures var after := Account(d, wf, e, username, userId, hash, token, nowSecs).0;
      Authenticate(ReadRow(after, rf, Credentials, e), password, check) == Ok(userId)
  {
    var after := Account(d, wf, e, username, userId, hash, token, nowSecs).0;
    assert RowsIn(after, Credentials)[e] == Doc(CredRow(userId, hash.value, nowSecs));
  }

  /** Steps 1 to 3 of `api_login`: the user id and e-mail of the session to open. */
  function LoginOutcome(store: Store, h: Headers, body: LoginBody, users: Result<seq<Json>, StoreError>, check: HashCheck)
    : (r: Result<(string, string), ApiError>)
    reads store
    ensures LoginPayload(h, body).Err? ==> r == Err(LoginPayload(h, body).error)
    ensures LoginPayload(h, body).Ok? && LoginEmail(LoginPayload(h, body).value, users).Err? ==>
      r == Err(LoginEmail(LoginPayload(h, body).value, users).error)
    ensures r.Ok? ==>
      && LoginPayload(h, body).Ok?
      && var id := LoginPayload(h, body).value;
      && LoginEmail(id, users) == Ok(r.value.1)
      && Authenticate(store.GetCredentials(r.value.1), id.password, check) == Ok(r.value.0)
  {
    match LoginPayload(h, body)
    case Err(e) => Err(e)
    case Ok(id) =>
      match LoginEmail(id, users)
      case Err(e) => Err(e)
      case Ok(email) =>
        match Authenticate(store.GetCredentials(email), id.password, check)
        case Err(e) => Err(e)
        case Ok(uid) => Ok((uid, email))
  }

  /** The part of an e-mail before its first `@`: the username of a row login has to create. */
  function UsernameGuess(email: string): (u: string)
    ensures '@' !in u && StartsWith(email, u)
    ensures |u| < |email| ==> email[|u|] == '@'
  {
    var p := Split(email, '@');
    SplitHead(email, p);
    p[0]
  }

  lemma SplitHead(email: string, p: seq<string>)
    requires p == Split(email, '@')
    ensures StartsWith(email, p[0]) && (|p[0]| < |email| ==> email[|p[0]|] == '@')
  {
    if |p| > 1 {
      assert Join(p, '@') == p[0] + ['@'] + Join(p[1..], '@');
      assert email[..|p[0]|] == p[0];
    }
  }

  /**
   * `api_login`: a successful check also makes sure the credentials' user
   * has a row (a seeded admin may have none), ignoring that write's failure,
   * and then signs the session token; a signing failure is a 500 that keeps
   * the row written.
   */
  method Login(store: Store, h: Headers, body: LoginBody, check: HashCheck, sign: Signer, nowSecs: i64)
    returns (r: Result<(string, string, string), ApiError>)
    modifies store
    ensures var o := old(LoginOutcome(store, h, body, Listing(store), check));
      && (o.Err? ==> r == Err(o.error) && store.docs == old(store.docs))
      && (o.Ok? ==> r == if sign(o.value.0).Some? then Ok((o.value.0, o.value.1, sign(o.value.0).value))
                         else Err(ApiError(INTERNAL_SERVER_ERROR, SIGN_FAILED)))
      && (o.Ok? && old(store.GetUser(o.value.0)) == Ok(None) && Users !in store.writeFails ==>
            var (uid, email) := o.value;
            store.docs == old(store.docs)[Users := old(store.RowsOf(Users))[uid := Doc(UserRow(uid, email, Some(UsernameGuess(email)), nowSecs, RoleFor(email)))]])
      && (o.Ok? && (old(store.GetUser(o.value.0)) != Ok(None) || Users in store.writeFails) ==> store.docs == old(store.docs))
    ensures store.seqs == old(store.seqs) && store.rate == old(store.rate)
  {
    ghost var listing := Listing(store);
    var payload := LoginPayload(h, body);
    if payload.Err? {
      return Err(payload.error);
    }
    var users: Result<seq<Json>, StoreError> := Err(Unavailable(Users));
    if payload.value.ByUsername? && Trim(payload.value.username) != [] {
      users := store.ListUsers();
    }
    var em := LoginEmail(payload.value, users);
    assert em == LoginEmail(payload.value, listing);
    if em.Err? {
      return Err(em.error);
    }
    var email := em.value;
    var auth := Authenticate(store.GetCredentials(email), payload.value.password, check);
    if auth.Err? {
      return Err(auth.error);
    }
    var uid := auth.value;
    if store.GetUser(uid) == Ok(None) {
      var _ := store.PutUser(uid, UserRow(uid, email, Some(UsernameGuess(email)), nowSecs, RoleFor(email)));
    }
    var token := sign(uid);
    if token.None? {
      return Err(ApiError(INTERNAL_SERVER_ERROR, SIGN_FAILED));
    }
    return Ok((uid, email, token.value));
  }

  // ------------------------------------------------------------ me

  /** A cookie piece that is the session cookie once trimmed. */
  predicate IsSessionPiece(piece: string)
  {
    StartsWith(Trim(piece), "session=")
  }

  /** The value of a session piece: trimmed, with every leading `session=` stripped. */
  function SessionValue(piece: string): string
  {
    TrimStartMatches(Trim(piece), "session=")
  }

  /** The first trimmed cookie piece starting `session=`, with every leading `session=` stripped. */
  function SessionCookie(pieces: seq<string>): (r: Option<string>)
    ensures r.None? <==> forall i :: 0 <= i < |pieces| ==> !IsSessionPiece(pieces[i])
    ensures r.Some? ==> exists i :: 0 <= i < |pieces| && IsSessionPiece(pieces[i]) && r.value == SessionValue(pieces[i])
  {
    if pieces == [] then None
    else if IsSessionPiece(pieces[0]) then Some(SessionValue(pieces[0]))
    else
      var r := SessionCookie(pieces[1..]);
      assert forall i :: 1 <= i < |pieces| ==> pieces[i] == pieces[1..][i - 1];
      if r.Some? then
        var k :| 0 <= k < |pieces[1..]| && IsSessionPiece(pieces[1..][k]) && r.value == SessionValue(pieces[1..][k]);
        assert pieces[k + 1] == pieces[1..][k];
        r
      else r
  }

  /**
   * The token of `api_auth_me`: a readable `Authorization` header decides on
   * its own (untrimmed, `bearer ` in any case, the rest after seven
   * characters); only without one is the `session` cookie read.
   */
  function MeToken(h: Headers): (r: Option<string>)
    ensures HeaderStr(h, "authorization").Some? ==>
      var a := h["authorization"];
      r == if StartsWith(Lower(a), "bearer ") then Some(a[7..]) else None
    ensures HeaderStr(h, "authorization").None? && HeaderStr(h, "cookie").Some? ==> r == SessionCookie(Split(h["cookie"], ';'))
    ensures HeaderStr(h, "authorization").None? && HeaderStr(h, "cookie").None? ==> r.None?
  {
    match HeaderStr(h, "authorization")
    case Some(a) => if StartsWith(Lower(a), "bearer ") then Some(a[7..]) else None
    case None =>
      match HeaderStr(h, "cookie")
      case Some(c) => SessionCookie(Split(c, ';'))
      case None => None
  }

  /** `api_auth_me`: the stored row of the token's subject. */
  function AuthMe(store: Store, h: Headers, verify: Verifier): (r: Result<Json, ApiError>)
    reads store
    ensures MeToken(h).None? ==> r == Err(ApiError(UNAUTHORIZED, "{\"message\":\"missing token\"}"))
    ensures MeToken(h).Some? && verify(MeToken(h).value).None? ==> r == Err(ApiError(UNAUTHORIZED, "{\"message\":\"invalid token\"}"))
    ensures r.Ok? <==> (MeToken(h).Some? && verify(MeToken(h).value).Some?
      && store.GetUser(verify(MeToken(h).value).value).Ok? && store.GetUser(verify(MeToken(h).value).value).value.Some?)
    ensures r.Ok? ==> Some(r.value) == store.GetUser(verify(MeToken(h).value).value).value
    ensures MeToken(h).Some? && verify(MeToken(h).value).Some? && store.GetUser(verify(MeToken(h).value).value) == Ok(None) ==>
      r == Err(ApiError(NOT_FOUND, "{\"message\":\"user not found\"}"))
  {
    match MeToken(h)
    case None => Err(ApiError(UNAUTHORIZED, "{\"message\":\"missing token\"}"))
    case Some(token) =>
      match verify(token)
      case None => Err(ApiError(UNAUTHORIZED, "{\"message\":\"invalid token\"}"))
      case Some(sub) =>
        match store.GetUser(sub)
        case Ok(Some(val)) => Ok(val)
        case Ok(None) => Err(ApiError(NOT_FOUND, "{\"message\":\"user not found\"}"))
        case Err(e) => Err(ApiError(INTERNAL_SERVER_ERROR, StoreErrorText(e)))
  }

  /** An `Authorization` header of another scheme hides the session cookie: `me` answers 401 whatever the cookie holds. */
  lemma OtherSchemeHidesCookie(store: Store, h: Headers, verify: Verifier)
    requires HeaderStr(h, "authorization").Some? && !StartsWith(Lower(h["authorization"]), "bearer ")
    ensures AuthMe(store, h, verify) == Err(ApiError(UNAUTHORIZED, "{\"message\":\"missing token\"}"))
  {
  }

  /** With no `Authorization` header, `me` and `extract_token` read the same `session=` cookie piece when it comes first. */
  lemma SessionCookieAgrees(pieces: seq<string>)
    requires pieces != [] && StartsWith(Trim(pieces[0]), "session=") && !StartsWith(Trim(pieces[0])[8..], "session=")
    ensures SessionCookie(pieces) == FirstSession(pieces)
  {
    assert TrimStartMatches(Trim(pieces[0]), "session=") == Trim(pieces[0])[8..];
  }
}
