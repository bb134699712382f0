/**
 * The gateway's room endpoints: `GET /rooms/{room}/history` with its
 * forgiving query parsing, and `POST /rooms/{room}/messages`, which takes a
 * limiter token of its own, counts the post, and sends the message.
 */
module RoomsRoutes {
  import opened Wrappers
  import opened Text
  import opened Numeric
  import opened Json
  import opened MessageLog
  import opened StringOrder
  import opened Storage
  import opened PubSub
  import opened Rooms
  import opened GatewayState
  import opened Rate
  import opened Middleware

  /** The page size when `limit` is absent or unparsable. */
  const DEFAULT_LIMIT: nat := 50

  /** `after_ts` parsed as an i64 and `limit` as a usize; anything unparsable counts as absent. */
  function HistoryParams(q: map<string, string>): (r: (Option<i64>, nat))
    ensures "after_ts" !in q ==> r.0 == None
    ensures "after_ts" in q ==> r.0 == ParseI64(q["after_ts"])
    ensures r.1 == if "limit" in q && ParseU64(q["limit"]).Some? then ParseU64(q["limit"]).value else DEFAULT_LIMIT
  {
    var after := if "after_ts" in q then ParseI64(q["after_ts"]) else None;
    var limit := if "limit" in q then ParseU64(q["limit"]) else None;
    (after, match limit case Some(l) => l case None => DEFAULT_LIMIT)
  }

  /** A client that writes both parameters with `{}` gets them back; an empty query is the first 50 of everything. */
  lemma HistoryParamsRoundTrip(after: i64, limit: u64)
    ensures HistoryParams(map["after_ts" := FormatInt(after), "limit" := Decimal(limit)]) == (Some(after), limit)
    ensures HistoryParams(map[]) == (None, DEFAULT_LIMIT)
  {
    ParseFormatI64(after);
    ParseFormatU64(limit);
  }

  function SendErrorText(e: SendError): string
  {
    match e
    case ClockBeforeEpoch => "clock before epoch"
    case StoreFailed(c) => StoreErrorText(c)
    case PublishFailed(reason) => reason
  }

  /** `get_room_history`: `fetch_history` with the parsed parameters; a failure is a 500. */
  method History(store: Store, room: string, q: map<string, string>) returns (r: Result<seq<MessageRecord>, ApiError>)
    ensures var (after, limit) := HistoryParams(q);
      r == if Messages in store.readFails
           then Err(ApiError(INTERNAL_SERVER_ERROR, StoreErrorText(Unavailable(Messages))))
           else Ok(ScanResult(Ordered(store.RowsOf(Messages)), room, after, limit))
  {
    var (after, limit) := HistoryParams(q);
    var h := FetchHistory(room, after, limit, store);
    if h.Err? {
      return Err(ApiError(INTERNAL_SERVER_ERROR, SendErrorText(h.error)));
    }
    return Ok(h.value);
  }

  /**
   * The handler's own rate key: the verified `sub` of the token after the
   * first seven characters of an `authorization` header that starts
   * `bearer ` in any case, else `anon`. Unlike the middleware it does not
   * trim and never looks at cookies.
   */
  function PostRateKey(h: Headers, verify: Verifier): (k: string)
    ensures HeaderStr(h, "authorization").None? ==> k == "anon"
    ensures var a := HeaderStr(h, "authorization");
      a.Some? && StartsWith(Lower(a.value), "bearer ") && verify(a.value[7..]).Some? ==> k == verify(a.value[7..]).value
    ensures var a := HeaderStr(h, "authorization");
      a.Some? && StartsWith(Lower(a.value), "bearer ") && verify(a.value[7..]).None? ==> k == "anon"
    ensures var a := HeaderStr(h, "authorization");
      a.Some? && !StartsWith(Lower(a.value), "bearer ") ==> k == "anon"
  {
    match HeaderStr(h, "authorization")
    case None => "anon"
    case Some(a) =>
      if StartsWith(Lower(a), "bearer ") then
        match verify(a[7..]) case Some(sub) => sub case None => "anon"
      else "anon"
  }

  /** A session cookie alone identifies the user to the global limiter but not to the handler. */
  lemma CookieOnlyPostsAsAnon(h: Headers, verify: Verifier)
    requires "authorization" !in h
    ensures PostRateKey(h, verify) == "anon"
  {
  }

  /**
   * `post_room_message`. A denied token is a 429 with nothing counted or
   * sent; otherwise the key's stored counter goes up by one (a failure to
   * count is ignored) and the message is sent, a send failure being a 500.
   */
  method PostMessage(store: Store, hub: Hub, limiter: RateLimiter, room: string, h: Headers, verify: Verifier,
                     body: Json, now: real, clockMs: int)
    returns (r: Result<MessageRecord, ApiError>)
    requires hub.Valid() && limiter.Valid()
    requires {store, hub} !! ({limiter} + limiter.buckets.Values)
    modifies store, hub, limiter, limiter.buckets.Values
    ensures hub.Valid() && limiter.Valid()
    ensures var (ok, view) := Step(old(limiter.View()), PostRateKey(h, verify), now, limiter.capacity, limiter.refillPerSec);
      && limiter.View() == view
      && (!ok ==> r == Err(ApiError(TOO_MANY_REQUESTS, "rate limit")))
      && (!ok ==> store.docs == old(store.docs) && store.seqs == old(store.seqs) && store.rate == old(store.rate))
      && (!ok ==> hub.log == old(hub.log) && hub.topics == old(hub.topics) && hub.subs == old(hub.subs))
      && (ok ==> store.rate == Counted(old(store.rate), store.writeFails, PostRateKey(h, verify)))
      && (ok ==> (r.Ok? <==> Stored(clockMs, store) && !hub.sendFails))
      && (ok && r.Ok? ==> r.value == SentRecord(room, body, clockMs, old(store.seqs))
                          && hub.log == old(hub.log) + [(RoomTopic(room), RecordToJson(r.value))])
      && (ok && r.Err? ==> r.error.status == INTERNAL_SERVER_ERROR)
      && (ok ==> store.seqs == if clockMs >= 0 && Seqs !in store.writeFails then Bump(old(store.seqs), room) else old(store.seqs))
  {
    var key := PostRateKey(h, verify);
    var allowed := limiter.Allow(key, now);
    if !allowed {
      return Err(ApiError(TOO_MANY_REQUESTS, "rate limit"));
    }
    ghost var bs := limiter.buckets;
    label admitted:
    r := CountAndSend(store, hub, room, key, body, clockMs);
    assert limiter.buckets == bs;
    assert forall k :: k in bs ==> bs[k].tokens == old@admitted(bs[k].tokens) && bs[k].last == old@admitted(bs[k].last);
  }

  /** The admitted part of `post_room_message`: count the post under `key`, then send. */
  method CountAndSend(store: Store, hub: Hub, room: string, key: string, body: Json, clockMs: int)
    returns (r: Result<MessageRecord, ApiError>)
    requires hub.Valid()
    modifies store, hub
    ensures hub.Valid()
    ensures store.rate == Counted(old(store.rate), store.writeFails, key)
    ensures r.Ok? <==> Stored(clockMs, store) && !hub.sendFails
    ensures r.Ok? ==> r.value == SentRecord(room, body, clockMs, old(store.seqs))
                      && hub.log == old(hub.log) + [(RoomTopic(room), RecordToJson(r.value))]
    ensures r.Err? ==> r.error.status == INTERNAL_SERVER_ERROR
    ensures store.seqs == if clockMs >= 0 && Seqs !in store.writeFails then Bump(old(store.seqs), room) else old(store.seqs)
  {
    var _ := store.IncrRateCounter(key, 1);
    var sent := SendMessage(room, body, clockMs, store, hub);
    if sent.Err? {
      return Err(ApiError(INTERNAL_SERVER_ERROR, SendErrorText(sent.error)));
    }
    return Ok(sent.value);
  }

  /** The stored counters after `incr_rate_counter(key, 1)`, whose failure is ignored. */
  function Counted(c: Counters, wf: set<Table>, key: string): (r: Counters)
    ensures Rate !in wf ==> CounterAt(r, key) == WrappingAdd(CounterAt(c, key), 1)
    ensures Rate in wf ==> r == c
  {
    if Rate in wf then c
    else
      var next := WrappingAdd(CounterAt(c, key), 1);
      CounterAfterStore(c, key, next, key);
      c[key := U64ToLe(next)]
  }

  // ------------------------------------------------------------ both limiters on one post

  /**
   * A message post as the gateway serves it: the global limiter first (the
   * path is never exempt), then the handler. When both derive the same key
   * the post costs that key two tokens.
   */
  method PostThroughGateway(store: Store, hub: Hub, limiter: RateLimiter, room: string, h: Headers, verify: Verifier,
                            body: Json, now: real, clockMs: int)
    returns (r: Result<MessageRecord, ApiError>)
    requires hub.Valid() && limiter.Valid()
    requires {store, hub} !! ({limiter} + limiter.buckets.Values)
    modifies store, hub, limiter, limiter.buckets.Values
    ensures limiter.Valid()
    ensures var key := RateKey(h, verify);
      var (first, v1) := Step(old(limiter.View()), key, now, limiter.capacity, limiter.refillPerSec);
      && (!first ==> r == Err(ApiError(TOO_MANY_REQUESTS, "rate limit")) && limiter.View() == v1 && store.docs == old(store.docs))
      && (first && PostRateKey(h, verify) == key ==>
            var (second, v2) := Step(v1, key, now, limiter.capacity, limiter.refillPerSec);
            limiter.View() == v2 && (!second ==> r == Err(ApiError(TOO_MANY_REQUESTS, "rate limit"))))
  {
    RoomPathsNotExempt("/rooms/" + room + "/messages");
    var v := RateLimit(limiter, h, verify, "/rooms/" + room + "/messages", now);
    if v.Reject? {
      return Err(ApiError(v.status, v.text));
    }
    r := PostMessage(store, hub, limiter, room, h, verify, body, now, clockMs);
  }

  /** Whether each post of a run got through both limiters, from the limiter's answers taken two at a time. */
  function PostsAdmitted(answers: seq<bool>): (r: seq<bool>)
    ensures |r| == (|answers| + 1) / 2
  {
    if answers == [] then []
    else if |answers| == 1 then [false]
    else [answers[0] && answers[1]] + PostsAdmitted(answers[2..])
  }

  /**
   * With the configured capacity of 5 and no time passing, a fresh key gets
   * two messages posted, not five: the third post passes the global limiter
   * and is refused by the handler.
   */
  lemma BurstOfPosts(v: map<string, BucketState>, key: string, now: real, rate: real)
    requires key !in v
    ensures PostsAdmitted(Answers(v, key, [now, now, now, now, now, now], 5.0, rate)) == [true, true, false]
  {
    FreshKeyAllowsFive(v, key, now, rate);
    var a := [true, true, true, true, true, false];
    assert a[2..] == [true, true, true, false];
    assert a[2..][2..] == [true, false];
    assert a[2..][2..][2..] == [];
  }
}
