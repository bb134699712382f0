/**
 * The gateway's cross-cutting layers: the global rate limit with its
 * exempt paths, the double-submit CSRF check, and the capped logging of
 * POST bodies.
 */
module Middleware {
  import opened Wrappers
  import opened Text
  import opened Numeric
  import opened GatewayState
  import opened Rate

  /** `rate_limit_middleware`'s key: the verified `sub` of the request's token, else `anon`. */
  function RateKey(h: Headers, verify: Verifier): (k: string)
    ensures ExtractToken(h).Some? && verify(ExtractToken(h).value).Some? ==> k == verify(ExtractToken(h).value).value
    ensures ExtractToken(h).None? || verify(ExtractToken(h).value).None? ==> k == "anon"
  {
    match ExtractToken(h)
    case Some(t) => (match verify(t) case Some(sub) => sub case None => "anon")
    case None => "anon"
  }

  /** The paths the global limiter lets through without taking a token. */
  const EXEMPT_PREFIXES: seq<string> := [
    "/api/auth/me", "/api/auth/login", "/api/auth/logout", "/api/auth/signup",
    "/api/auth/check_username", "/api/frontend-logs", "/healthz", "/ws"]

  predicate Exempt(path: string)
  {
    exists i :: 0 <= i < |EXEMPT_PREFIXES| && StartsWith(path, EXEMPT_PREFIXES[i])
  }

  /** Exemption is by prefix: sub-paths of the listed ones are exempt. */
  lemma ExemptExamples()
    ensures Exempt("/api/auth/login/extra") && Exempt("/ws") && Exempt("/healthz?probe")
  {
    assert StartsWith("/api/auth/login/extra", EXEMPT_PREFIXES[1]);
    assert StartsWith("/ws", EXEMPT_PREFIXES[7]);
    assert StartsWith("/healthz?probe", EXEMPT_PREFIXES[6]);
  }

  /** No room path is exempt, so posting a message always takes a token here. */
  lemma RoomPathsNotExempt(path: string)
    requires StartsWith(path, "/rooms/")
    ensures !Exempt(path)
  {
    forall i | 0 <= i < |EXEMPT_PREFIXES|
      ensures !StartsWith(path, EXEMPT_PREFIXES[i])
    {
      var p := EXEMPT_PREFIXES[i];
      assert |p| >= 2 && p[1] != 'r';
      assert path[1] == 'r';
    }
  }

  /** What a layer does with a request: hand it on, or answer it with a status. */
  datatype Verdict = Forward | Reject(status: nat, text: string)

  /** `rate_limit_middleware`: exempt paths pass untouched; any other takes one token or gets 429. */
  method RateLimit(limiter: RateLimiter, h: Headers, verify: Verifier, path: string, now: real) returns (v: Verdict)
    requires limiter.Valid()
    modifies limiter, limiter.buckets.Values
    ensures limiter.Valid()
    ensures forall b :: b in limiter.buckets.Values ==> b in old(limiter.buckets.Values) || fresh(b)
    ensures Exempt(path) ==> v == Forward && limiter.View() == old(limiter.View())
    ensures !Exempt(path) ==>
      var (ok, view) := Step(old(limiter.View()), RateKey(h, verify), now, limiter.capacity, limiter.refillPerSec);
      && limiter.View() == view
      && v == if ok then Forward else Reject(TOO_MANY_REQUESTS, "rate limit")
  {
    var key := RateKey(h, verify);
    if Exempt(path) {
      return Forward;
    }
    var ok := limiter.Allow(key, now);
    if !ok {
      return Reject(TOO_MANY_REQUESTS, "rate limit");
    }
    return Forward;
  }

  datatype Method = GET | HEAD | OPTIONS | POST | PUT | PATCH | DELETE | OtherMethod(name: string)

  /** A cookie piece that starts with `prefix` once trimmed. */
  predicate PieceHas(piece: string, prefix: string)
  {
    StartsWith(Trim(piece), prefix)
  }

  /** The text of a trimmed cookie piece. */
  function Piece(piece: string): string
  {
    Trim(piece)
  }

  /** `find_map` of a cookie's value over the trimmed `;`-pieces of a cookie header. */
  function FirstWithPrefix(pieces: seq<string>, prefix: string): (r: Option<string>)
    ensures r.None? <==> forall i :: 0 <= i < |pieces| ==> !PieceHas(pieces[i], prefix)
    ensures r.Some? ==> exists i :: 0 <= i < |pieces| && Piece(pieces[i]) == prefix + r.value
  {
    if pieces == [] then None
    else match StripPrefix(Piece(pieces[0]), prefix)
      case Some(v) => Some(v)
      case None =>
        var r := FirstWithPrefix(pieces[1..], prefix);
        assert forall i :: 1 <= i < |pieces| ==> pieces[i] == pieces[1..][i - 1];
        if r.Some? then
          var k :| 0 <= k < |pieces[1..]| && Piece(pieces[1..][k]) == prefix + r.value;
          assert pieces[k + 1] == pieces[1..][k];
          r
        else r
  }

  /** The value of the first `csrfToken=` piece of the cookie header. */
  function CsrfCookie(h: Headers): Option<string>
  {
    match HeaderStr(h, "cookie")
    case Some(c) => FirstWithPrefix(Split(c, ';'), "csrfToken=")
    case None => None
  }

  /** `csrf_middleware`: safe methods pass; an unsafe one with a CSRF cookie needs the same value in `x-csrf-token`. */
  function Csrf(m: Method, h: Headers): (v: Verdict)
    ensures m in {GET, HEAD, OPTIONS} ==> v == Forward
    ensures m !in {GET, HEAD, OPTIONS} ==>
      (v == Forward <==> CsrfCookie(h).None? || HeaderStr(h, "x-csrf-token") == CsrfCookie(h))
    ensures v != Forward ==> v == Reject(FORBIDDEN, "csrf token mismatch")
  {
    if m in {GET, HEAD, OPTIONS} then Forward
    else match CsrfCookie(h)
      case Some(cookie) =>
        if HeaderStr(h, "x-csrf-token") != Some(cookie) then Reject(FORBIDDEN, "csrf token mismatch") else Forward
      case None => Forward
  }

  /** A forged unsafe request, which carries the victim's cookies but cannot set the header, is refused. */
  lemma ForgedRequestRefused(m: Method, h: Headers)
    requires m !in {GET, HEAD, OPTIONS} && CsrfCookie(h).Some? && "x-csrf-token" !in h
    ensures Csrf(m, h) == Reject(FORBIDDEN, "csrf token mismatch")
  {
  }

  /** Bearer-token clients that send no cookie header are never checked. */
  lemma CookielessRequestsPass(m: Method, h: Headers)
    requires "cookie" !in h
    ensures Csrf(m, h) == Forward
  {
  }

  /** The logging cap of `log_post_body_middleware`, 64 KiB. */
  const LOG_CAP: nat := 65536

  // ------------------------------------------------------------ UTF-8 of logged bytes

  predicate Continuation(b: byte)
  {
    0x80 <= b <= 0xBF
  }

  /**
   * The length of the well-formed UTF-8 sequence at the head of `b`, as
   * `std::str::from_utf8` accepts it (no overlong forms, no surrogates,
   * nothing above U+10FFFF), or 0 when there is none.
   */
  function CharWidth(b: seq<byte>): (w: nat)
    ensures w <= |b| && (b == [] ==> w == 0)
  {
    if b == [] then 0
    else if b[0] < 0x80 then 1
    else if 0xC2 <= b[0] <= 0xDF then
      (if |b| >= 2 && Continuation(b[1]) then 2 else 0)
    else if 0xE0 <= b[0] <= 0xEF then
      var lo := if b[0] == 0xE0 then 0xA0 else 0x80;
      var hi := if b[0] == 0xED then 0x9F else 0xBF;
      (if |b| >= 3 && lo <= b[1] <= hi && Continuation(b[2]) then 3 else 0)
    else if 0xF0 <= b[0] <= 0xF4 then
      var lo := if b[0] == 0xF0 then 0x90 else 0x80;
      var hi := if b[0] == 0xF4 then 0x8F else 0xBF;
      (if |b| >= 4 && lo <= b[1] <= hi && Continuation(b[2]) && Continuation(b[3]) then 4 else 0)
    else 0
  }

  /** `std::str::from_utf8(b).is_ok()`: the bytes split into well-formed sequences. */
  predicate ValidUtf8(b: seq<byte>)
    decreases |b|
  {
    b == [] || (CharWidth(b) > 0 && ValidUtf8(b[CharWidth(b)..]))
  }

  /** A well-formed sequence keeps its width whatever follows it. */
  lemma CharWidthExtends(b: seq<byte>, rest: seq<byte>)
    requires CharWidth(b) > 0
    ensures CharWidth(b + rest) == CharWidth(b)
  {
    assert (b + rest)[..|b|] == b;
  }

  /** A sequence cut short of its width is no sequence. */
  lemma CutCharInvalid(c: seq<byte>, k: nat)
    requires 0 < k < CharWidth(c)
    ensures CharWidth(c[..k]) == 0
  {
  }

  /** Valid text followed by the first bytes of a character that does not fit is not valid. */
  lemma {:induction false} ValidThenCut(p: seq<byte>, c: seq<byte>, k: nat)
    requires ValidUtf8(p) && 0 < k < CharWidth(c)
    ensures !ValidUtf8(p + c[..k])
    decreases |p|
  {
    if p == [] {
      assert p + c[..k] == c[..k];
      CutCharInvalid(c, k);
    } else {
      var w := CharWidth(p);
      CharWidthExtends(p, c[..k]);
      assert (p + c[..k])[w..] == p[w..] + c[..k];
      ValidThenCut(p[w..], c, k);
    }
  }

  // ------------------------------------------------------------ the logging middleware

  /** What one POST log line records: the body's full length, the bytes shown, whether they were cut, and whether they are shown as `[binary body]`. */
  datatype LogEntry = LogEntry(size: nat, shown: seq<byte>, truncated: bool, binary: bool)

  function LogEntryFor(body: seq<byte>): (e: LogEntry)
    ensures e.size == |body|
    ensures |e.shown| == if |body| > LOG_CAP then LOG_CAP else |body|
    ensures e.shown == body[..|e.shown|]
    ensures e.truncated <==> |body| > LOG_CAP
    ensures e.binary <==> !ValidUtf8(e.shown)
  {
    var shown := if |body| > LOG_CAP then body[..LOG_CAP] else body;
    LogEntry(|body|, shown, |body| > LOG_CAP, !ValidUtf8(shown))
  }

  /**
   * A long text body whose 64 KiB cut falls inside a multi-byte character is
   * logged as `[binary body]`, although the bytes before the cut are text.
   */
  lemma CutInsideCharIsBinary(p: seq<byte>, rest: seq<byte>)
    requires ValidUtf8(p) && |p| < LOG_CAP && LOG_CAP - |p| < CharWidth(rest)
    ensures LogEntryFor(p + rest).truncated && LogEntryFor(p + rest).binary
  {
    var body := p + rest;
    var k := LOG_CAP - |p|;
    assert body[..LOG_CAP] == p + rest[..k];
    ValidThenCut(p, rest, k);
  }

  /** A body stream: its bytes, or a stream whose collection fails. */
  datatype Body = Bytes(bytes: seq<byte>) | Broken

  /** `collect().await` with a failure turned into the empty buffer. */
  function Collected(b: Body): seq<byte>
  {
    match b case Bytes(x) => x case Broken => []
  }

  /**
   * `log_post_body_middleware` around a handler. A POST's request body is
   * collected (a failing stream becomes empty), logged and passed on; the
   * response body is collected the same way, logged and returned. Other
   * methods pass through untouched and unlogged.
   */
  function LogPostBody(m: Method, request: Body, handler: Body -> Body): (r: (Body, seq<LogEntry>))
    ensures m != POST ==> r == (handler(request), [])
    ensures m == POST && request.Bytes? && handler(request).Bytes? ==> r.0 == handler(request)
    ensures m == POST && request.Broken? ==> r.0 == Bytes(Collected(handler(Bytes([]))))
    ensures m == POST && request.Bytes? && handler(request).Broken? ==> r.0 == Bytes([])
    ensures m == POST ==> r.0.Bytes? && r.1 == [LogEntryFor(Collected(request)), LogEntryFor(r.0.bytes)]
  {
    if m == POST then
      var sent := Collected(request);
      var response := Collected(handler(Bytes(sent)));
      (Bytes(response), [LogEntryFor(sent), LogEntryFor(response)])
    else (handler(request), [])
  }
}
