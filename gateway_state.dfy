/**
 * The gateway's shared helpers: the admin e-mail test, reading a session
 * token from the `Authorization` header or the `Cookie` header, and the
 * admin guard every admin endpoint runs first.
 */
module GatewayState {
  import opened Wrappers
  import opened Text
  import opened Json
  import opened Storage

  const ADMIN_EMAIL: string := "admin@example.com"

  const UNAUTHORIZED: nat := 401
  const FORBIDDEN: nat := 403
  const NOT_FOUND: nat := 404
  const BAD_REQUEST: nat := 400
  const CONFLICT: nat := 409
  const TOO_MANY_REQUESTS: nat := 429
  const INTERNAL_SERVER_ERROR: nat := 500

  /** An error response: its status and the `message` of its JSON body. */
  datatype ApiError = ApiError(status: nat, message: string)

  /** The text of a storage error in a 500 response. */
  function StoreErrorText(e: StoreError): string
  {
    match e
    case Unavailable(_) => "storage unavailable"
    case Malformed(_, _) => "stored value did not decode"
    case TimeBeforeEpoch => "clock before epoch"
  }

  /** `is_admin_email`: the admin address, ignoring ASCII case. */
  predicate IsAdminEmail(email: string)
  {
    EqIgnoreAsciiCase(email, ADMIN_EMAIL)
  }

  /** An e-mail is the admin's exactly when its ASCII lowering is `admin@example.com`. */
  lemma IsAdminEmailMeans(email: string)
    ensures IsAdminEmail(email) <==> Lower(email) == ADMIN_EMAIL
    ensures IsAdminEmail("Admin@Example.COM") && !IsAdminEmail("admin@example.org")
  {
    assert Lower(ADMIN_EMAIL) == ADMIN_EMAIL;
    assert Lower("Admin@Example.COM") == ADMIN_EMAIL;
    assert Lower("admin@example.org")[16] == 'g';
  }

  /**
   * Request headers by lower-case name, each the first value sent under that
   * name; every character stands for one byte of the value.
   */
  type Headers = map<string, string>

  /** `HeaderValue::to_str` succeeds on visible ASCII and tab only. */
  predicate VisibleAscii(s: string)
  {
    forall i :: 0 <= i < |s| ==> (' ' <= s[i] <= '~' || s[i] == '\t')
  }

  /** `headers.get(name).and_then(|hv| hv.to_str().ok())`. */
  function HeaderStr(h: Headers, name: string): (r: Option<string>)
    ensures r.Some? <==> name in h && VisibleAscii(h[name])
    ensures r.Some? ==> r.value == h[name]
  {
    if name in h && VisibleAscii(h[name]) then Some(h[name]) else None
  }

  /** The token of a trimmed `Bearer` header: longer than seven characters, starting `bearer ` in any case. */
  function BearerOf(value: string): (r: Option<string>)
    ensures var t := Trim(value);
      r.Some? <==> |t| > 7 && Lower(t[..7]) == "bearer "
    ensures r.Some? ==> var t := Trim(value); r.value == t[7..] && r.value != []
  {
    var t := Trim(value);
    assert Lower("bearer ") == "bearer ";
    if |t| > 7 && EqIgnoreAsciiCase(t[..7], "bearer ") then Some(t[7..]) else None
  }

  /** `header_bearer_token`. */
  function HeaderBearerToken(h: Headers): (r: Option<string>)
    ensures r.Some? ==> HeaderStr(h, "authorization").Some? && r == BearerOf(h["authorization"]) && r.value != []
    ensures HeaderStr(h, "authorization").None? ==> r.None?
  {
    match HeaderStr(h, "authorization")
    case Some(s) => BearerOf(s)
    case None => None
  }

  /** One trimmed cookie piece: its value when it is `session=…` or, failing that, `session_token=…`. */
  function SessionValue(kv: string): (r: Option<string>)
    ensures r.Some? <==> StartsWith(kv, "session=") || StartsWith(kv, "session_token=")
    ensures StartsWith(kv, "session=") ==> r == Some(kv[8..])
    ensures !StartsWith(kv, "session=") && StartsWith(kv, "session_token=") ==> r == Some(kv[14..])
  {
    match StripPrefix(kv, "session=")
    case Some(v) => Some(v)
    case None => StripPrefix(kv, "session_token=")
  }

  /** `find_map` over the `;`-separated pieces of a cookie header, each trimmed. */
  function FirstSession(pieces: seq<string>): (r: Option<string>)
    ensures r.None? <==> forall i :: 0 <= i < |pieces| ==> SessionValue(Trim(pieces[i])).None?
  {
    if pieces == [] then None
    else match SessionValue(Trim(pieces[0]))
      case Some(v) => Some(v)
      case None =>
        var r := FirstSession(pieces[1..]);
        assert forall i :: 1 <= i < |pieces| ==> pieces[i] == pieces[1..][i - 1];
        r
  }

  /** `cookie_session_token`. */
  function CookieSessionToken(h: Headers): (r: Option<string>)
    ensures HeaderStr(h, "cookie").None? ==> r.None?
    ensures HeaderStr(h, "cookie").Some? ==> r == FirstSession(Split(h["cookie"], ';'))
  {
    match HeaderStr(h, "cookie")
    case Some(c) => FirstSession(Split(c, ';'))
    case None => None
  }

  /** The first piece that carries a session wins, whatever the pieces after it say. */
  lemma {:induction false} EarlierSessionWins(pieces: seq<string>, i: nat)
    requires i < |pieces| && SessionValue(Trim(pieces[i])).Some?
    requires forall j :: 0 <= j < i ==> SessionValue(Trim(pieces[j])).None?
    ensures FirstSession(pieces) == SessionValue(Trim(pieces[i]))
  {
    if i > 0 {
      var tail := pieces[1..];
      assert SessionValue(Trim(pieces[0])).None?;
      assert FirstSession(pieces) == FirstSession(tail);
      assert tail[i - 1] == pieces[i];
      forall j | 0 <= j < i - 1
        ensures SessionValue(Trim(tail[j])).None?
      {
        assert tail[j] == pieces[j + 1];
      }
      EarlierSessionWins(tail, i - 1);
    }
  }

  /** `extract_token`: the bearer token, or else the session cookie. */
  function ExtractToken(h: Headers): (r: Option<string>)
    ensures HeaderBearerToken(h).Some? ==> r == HeaderBearerToken(h)
    ensures HeaderBearerToken(h).None? ==> r == CookieSessionToken(h)
  {
    match HeaderBearerToken(h)
    case Some(t) => Some(t)
    case None => CookieSessionToken(h)
  }

  /** Token verification (the JWT check): the `sub` claim of a valid token. */
  type Verifier = string -> Option<string>

  /** `require_admin`: the requester's id when the token verifies and the stored user's role is `admin`. */
  function RequireAdmin(store: Store, h: Headers, verify: Verifier): (r: Result<string, ApiError>)
    reads store
    ensures ExtractToken(h).None? ==> r == Err(ApiError(UNAUTHORIZED, "missing authorization"))
    ensures ExtractToken(h).Some? && verify(ExtractToken(h).value).None? ==> r == Err(ApiError(UNAUTHORIZED, "invalid token"))
    ensures r.Ok? <==>
      && ExtractToken(h).Some? && verify(ExtractToken(h).value).Some?
      && var sub := verify(ExtractToken(h).value).value;
      && store.GetUser(sub).Ok? && store.GetUser(sub).value.Some?
      && GetStr(store.GetUser(sub).value.value, "role") == Some("admin")
    ensures r.Ok? ==> r.value == verify(ExtractToken(h).value).value
    ensures r.Err? ==> r.error.status in {UNAUTHORIZED, FORBIDDEN, INTERNAL_SERVER_ERROR}
  {
    match ExtractToken(h)
    case None => Err(ApiError(UNAUTHORIZED, "missing authorization"))
    case Some(token) =>
      match verify(token)
      case None => Err(ApiError(UNAUTHORIZED, "invalid token"))
      case Some(sub) =>
        match store.GetUser(sub)
        case Ok(Some(user)) =>
          if GetStr(user, "role") != Some("admin") then Err(ApiError(FORBIDDEN, "admin access required"))
          else Ok(sub)
        case Ok(None) => Err(ApiError(UNAUTHORIZED, "user not found"))
        case Err(e) => Err(ApiError(INTERNAL_SERVER_ERROR, StoreErrorText(e)))
  }

  /** The guard's failures for a verified requester: a missing row is 401, a readable non-admin row 403, a storage error 500. */
  lemma RequireAdminStatuses(store: Store, h: Headers, verify: Verifier)
    requires ExtractToken(h).Some? && verify(ExtractToken(h).value).Some?
    ensures var sub := verify(ExtractToken(h).value).value;
      var r := RequireAdmin(store, h, verify);
      && (store.GetUser(sub) == Ok(None) ==> r == Err(ApiError(UNAUTHORIZED, "user not found")))
      && (store.GetUser(sub).Err? ==> r.Err? && r.error.status == INTERNAL_SERVER_ERROR)
      && (store.GetUser(sub).Ok? && store.GetUser(sub).value.Some? && GetStr(store.GetUser(sub).value.value, "role") != Some("admin")
          ==> r == Err(ApiError(FORBIDDEN, "admin access required")))
  {
  }
}
