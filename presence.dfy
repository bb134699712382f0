/**
 * The presence tracker: heartbeats mark a user online, `mark_offline` and the
 * periodic sweep mark users offline, and each change is announced on the bus.
 * Timestamps here are seconds since the epoch.
 */
module Presence {
  import opened Wrappers
  import opened Numeric
  import opened Json
  import opened StringOrder
  import opened Storage
  import opened PubSub

  datatype PresenceError = ClockBeforeEpoch | StoreFailed(cause: StoreError)

  /** The id a heartbeat uses: the caller's, even when empty; a guest id only when there is none. */
  function HeartbeatId(userId: Option<string>, freshUuid: string): string
  {
    match userId
    case Some(id) => id
    case None => "anon-" + freshUuid
  }

  lemma EmptyIdKept(freshUuid: string)
    ensures HeartbeatId(Some(""), freshUuid) == ""
    ensures HeartbeatId(None, freshUuid)[..5] == "anon-"
  {
  }

  /** `json!({"user_id": id, "last_seen": ts})`. */
  function PresenceEvent(userId: string, ts: i64): (j: Json)
    ensures GetStr(j, "user_id") == Some(userId) && GetI64(j, "last_seen") == Some(ts)
  {
    Obj2("user_id", JStr(userId), "last_seen", JNum(ts))
  }

  /** `json!({"event": event, "user_id": id, "last_seen": ts})` on `presence/diag`. */
  function DiagEvent(event: string, userId: string, ts: i64): (j: Json)
    ensures GetStr(j, "event") == Some(event) && GetStr(j, "user_id") == Some(userId) && GetI64(j, "last_seen") == Some(ts)
  {
    JObj(map["event" := JStr(event), "user_id" := JStr(userId), "last_seen" := JNum(ts)])
  }

  /** What a heartbeat or `mark_offline` puts on the bus: the event, then, if that went out, the diagnostic copy. */
  function Announced(sendFails: bool, topic: string, event: string, userId: string, ts: i64): seq<(string, Json)>
  {
    if sendFails then [] else [(topic, PresenceEvent(userId, ts)), ("presence/diag", DiagEvent(event, userId, ts))]
  }

  /** The sweep's test: more than `timeout` seconds since `lastSeen`, in wrapping `i64` arithmetic. */
  predicate Stale(now: i64, lastSeen: i64, timeoutSecs: u64)
  {
    WrapI64(now - lastSeen) > WrapI64(timeoutSecs)
  }

  /** The users of the listed rows that one sweep finds stale. */
  function StaleUsers(entries: seq<(string, i64)>, now: i64, timeoutSecs: u64): set<string>
  {
    if entries == [] then {}
    else
      var (u, l) := entries[|entries| - 1];
      StaleUsers(entries[..|entries| - 1], now, timeoutSecs) + if Stale(now, l, timeoutSecs) then {u} else {}
  }

  /** The `presence/offline` events one sweep publishes, each with the row's old `last_seen`. */
  function OfflineEvents(entries: seq<(string, i64)>, now: i64, timeoutSecs: u64): (ev: seq<(string, Json)>)
    ensures |ev| <= |entries|
  {
    if entries == [] then []
    else
      var (u, l) := entries[|entries| - 1];
      OfflineEvents(entries[..|entries| - 1], now, timeoutSecs)
        + if Stale(now, l, timeoutSecs) then [("presence/offline", PresenceEvent(u, l))] else []
  }

  /** One more listed row adds its user to the stale set, and its event to the announcements, exactly when it is stale. */
  lemma SweepStep(es: seq<(string, i64)>, i: nat, now: i64, timeoutSecs: u64)
    requires i < |es|
    ensures StaleUsers(es[..i + 1], now, timeoutSecs)
      == StaleUsers(es[..i], now, timeoutSecs) + if Stale(now, es[i].1, timeoutSecs) then {es[i].0} else {}
    ensures OfflineEvents(es[..i + 1], now, timeoutSecs)
      == OfflineEvents(es[..i], now, timeoutSecs) + if Stale(now, es[i].1, timeoutSecs) then [("presence/offline", PresenceEvent(es[i].0, es[i].1))] else []
  {
    assert es[..i + 1][..i] == es[..i];
  }

  lemma {:induction false} StaleUsersMember(entries: seq<(string, i64)>, now: i64, timeoutSecs: u64, u: string)
    ensures u in StaleUsers(entries, now, timeoutSecs) <==> exists l :: (u, l) in entries && Stale(now, l, timeoutSecs)
  {
    if entries != [] {
      var init := entries[..|entries| - 1];
      StaleUsersMember(init, now, timeoutSecs, u);
      assert entries == init + [entries[|entries| - 1]];
      var (v, m) := entries[|entries| - 1];
      if exists l :: (u, l) in entries && Stale(now, l, timeoutSecs) {
        var l :| (u, l) in entries && Stale(now, l, timeoutSecs);
        if (u, l) !in init {
          assert entries[|entries| - 1] == (u, l);
        }
      }
      if u in StaleUsers(entries, now, timeoutSecs) {
        if u !in StaleUsers(init, now, timeoutSecs) {
          assert u == v && Stale(now, m, timeoutSecs);
          assert (v, m) in entries;
        }
      }
    }
  }

  /** A sweep over `list_presence` removes exactly the users whose stored `last_seen` is stale. */
  lemma SweepRemovesStale(rows: Rows, now: i64, timeoutSecs: u64, u: string)
    ensures u in StaleUsers(Collect(Ordered(rows), PresenceRow), now, timeoutSecs)
      <==> LastSeen(rows, u).Some? && Stale(now, LastSeen(rows, u).value, timeoutSecs)
  {
    var es := Collect(Ordered(rows), PresenceRow);
    StaleUsersMember(es, now, timeoutSecs, u);
    if LastSeen(rows, u).Some? {
      ListedPresence(rows, u, LastSeen(rows, u).value);
    }
    forall l | (u, l) in es
      ensures LastSeen(rows, u) == Some(l)
    {
      ListedPresence(rows, u, l);
    }
  }

  /** Users inside the timeout keep their rows through a sweep, and nobody comes online. */
  lemma SweepKeepsFresh(rows: Rows, now: i64, timeoutSecs: u64, u: string)
    ensures var after := rows - StaleUsers(Collect(Ordered(rows), PresenceRow), now, timeoutSecs);
      && (LastSeen(rows, u).Some? && !Stale(now, LastSeen(rows, u).value, timeoutSecs) ==> LastSeen(after, u) == LastSeen(rows, u))
      && (LastSeen(rows, u).Some? && Stale(now, LastSeen(rows, u).value, timeoutSecs) ==> LastSeen(after, u).None?)
      && (LastSeen(rows, u).None? ==> LastSeen(after, u).None?)
  {
    SweepRemovesStale(rows, now, timeoutSecs, u);
  }

  /** A second heartbeat refreshes the one row of its user. */
  lemma HeartbeatRefreshes(rows: Rows, userId: string, t1: i64, t2: i64)
    ensures var twice := rows[userId := Doc(PresenceDoc(t1))][userId := Doc(PresenceDoc(t2))];
      twice == rows[userId := Doc(PresenceDoc(t2))] && LastSeen(twice, userId) == Some(t2) && twice.Keys == rows.Keys + {userId}
  {
    LastSeenAfterSet(rows[userId := Doc(PresenceDoc(t1))], userId, t2, userId);
  }

  /** `PresenceManager` over a store and a bus; the sweeper task itself is not modelled, one tick of it is. */
  class PresenceManager {
    const store: Store
    const hub: Hub
    const timeoutSecs: u64

    constructor (store: Store, hub: Hub, timeoutSecs: u64)
      ensures this.store == store && this.hub == hub && this.timeoutSecs == timeoutSecs
    {
      this.store, this.hub, this.timeoutSecs := store, hub, timeoutSecs;
    }

    /**
     * `heartbeat`. `clockSecs` is the system clock in seconds (negative:
     * before the epoch); `freshUuid` is the uuid a guest id would use.
     */
    method Heartbeat(userId: Option<string>, freshUuid: string, clockSecs: int) returns (r: Result<string, PresenceError>)
      requires hub.Valid()
      modifies store, hub
      ensures hub.Valid() && SameSubscribers(old(hub.subs), hub.subs)
      ensures store.seqs == old(store.seqs) && store.rate == old(store.rate)
      ensures clockSecs < 0 ==> r == Err(ClockBeforeEpoch)
      ensures clockSecs >= 0 && Presence in store.writeFails ==> r == Err(StoreFailed(Unavailable(Presence)))
      ensures r.Err? ==> store.docs == old(store.docs) && hub.log == old(hub.log)
      ensures r.Ok? <==> clockSecs >= 0 && Presence !in store.writeFails
      ensures r.Ok? ==> var id, now := HeartbeatId(userId, freshUuid), WrapI64(clockSecs);
        && r.value == id
        && store.docs == old(store.docs)[Presence := old(store.RowsOf(Presence))[id := Doc(PresenceDoc(now))]]
        && LastSeen(store.RowsOf(Presence), id) == Some(now)
        && hub.log == old(hub.log) + Announced(hub.sendFails, "presence/online", "online", id, now)
    {
      var id := HeartbeatId(userId, freshUuid);
      if clockSecs < 0 {
        return Err(ClockBeforeEpoch);
      }
      var now := WrapI64(clockSecs);
      var w := store.SetPresence(id, true, now);
      if w.Err? {
        return Err(StoreFailed(w.error));
      }
      var p := hub.Publish("presence/online", PresenceEvent(id, now));
      if p.Ok? {
        var _ := hub.Publish("presence/diag", DiagEvent("online", id, now));
      }
      return Ok(id);
    }

    /** `mark_offline`: removes the row, then announces `presence/offline` with the current time. */
    method MarkOffline(userId: string, clockSecs: int) returns (r: Result<(), PresenceError>)
      requires hub.Valid()
      modifies store, hub
      ensures hub.Valid() && SameSubscribers(old(hub.subs), hub.subs)
      ensures store.seqs == old(store.seqs) && store.rate == old(store.rate)
      ensures clockSecs < 0 ==> r == Err(ClockBeforeEpoch)
      ensures clockSecs >= 0 && Presence in store.writeFails ==> r == Err(StoreFailed(Unavailable(Presence)))
      ensures r.Err? ==> store.docs == old(store.docs) && hub.log == old(hub.log)
      ensures r.Ok? <==> clockSecs >= 0 && Presence !in store.writeFails
      ensures r.Ok? ==>
        && store.docs == old(store.docs)[Presence := old(store.RowsOf(Presence)) - {userId}]
        && LastSeen(store.RowsOf(Presence), userId).None?
        && hub.log == old(hub.log) + Announced(hub.sendFails, "presence/offline", "offline", userId, WrapI64(clockSecs))
    {
      if clockSecs < 0 {
        return Err(ClockBeforeEpoch);
      }
      var now := WrapI64(clockSecs);
      var w := store.SetPresence(userId, false, now);
      if w.Err? {
        return Err(StoreFailed(w.error));
      }
      var p := hub.Publish("presence/offline", PresenceEvent(userId, now));
      if p.Ok? {
        var _ := hub.Publish("presence/diag", DiagEvent("offline", userId, now));
      }
      return Ok(());
    }

    /** The body of the sweep loop for one listed row. */
    method SweepEntry(u: string, lastSeen: i64, now: i64)
      requires hub.Valid()
      modifies store, hub
      ensures hub.Valid() && SameSubscribers(old(hub.subs), hub.subs)
      ensures store.seqs == old(store.seqs) && store.rate == old(store.rate)
      ensures store.RowsOf(Presence) == if Presence in store.writeFails || !Stale(now, lastSeen, timeoutSecs) then old(store.RowsOf(Presence))
        else old(store.RowsOf(Presence)) - {u}
      ensures forall t :: t != Presence ==> store.RowsOf(t) == old(store.RowsOf(t))
      ensures hub.log == old(hub.log) + if hub.sendFails || !Stale(now, lastSeen, timeoutSecs) then [] else [("presence/offline", PresenceEvent(u, lastSeen))]
    {
      if Stale(now, lastSeen, timeoutSecs) {
        var _ := store.SetPresence(u, false, now);
        var _ := hub.Publish("presence/offline", PresenceEvent(u, lastSeen));
      }
    }

    /**
     * One tick of the sweeper: every listed user more than the timeout
     * behind `now` is removed and announced offline; the results of both
     * are ignored. `clockSecs` negative stands for a clock before the epoch,
     * which the tick reads as 0.
     */
    method SweepTick(clockSecs: int)
      requires hub.Valid()
      modifies store, hub
      ensures hub.Valid() && SameSubscribers(old(hub.subs), hub.subs)
      ensures store.seqs == old(store.seqs) && store.rate == old(store.rate)
      ensures forall t :: t != Presence ==> store.RowsOf(t) == old(store.RowsOf(t))
      ensures Presence in store.readFails ==> store.docs == old(store.docs) && hub.log == old(hub.log)
      ensures Presence !in store.readFails ==>
        var es := Collect(Ordered(old(store.RowsOf(Presence))), PresenceRow);
        var now := if clockSecs < 0 then 0 else WrapI64(clockSecs);
        && store.RowsOf(Presence) == (if Presence in store.writeFails then old(store.RowsOf(Presence))
                                      else old(store.RowsOf(Presence)) - StaleUsers(es, now, timeoutSecs))
        && hub.log == old(hub.log) + (if hub.sendFails then [] else OfflineEvents(es, now, timeoutSecs))
    {
      var listed := store.ListPresence();
      if listed.Err? {
        return;
      }
      var now: i64 := if clockSecs < 0 then 0 else WrapI64(clockSecs);
      SweepEntries(listed.value, now);
    }

    /** The sweep loop over the listed rows, in listing order. */
    method SweepEntries(es: seq<(string, i64)>, now: i64)
      requires hub.Valid()
      modifies store, hub
      ensures hub.Valid() && SameSubscribers(old(hub.subs), hub.subs)
      ensures store.seqs == old(store.seqs) && store.rate == old(store.rate)
      ensures forall t :: t != Presence ==> store.RowsOf(t) == old(store.RowsOf(t))
      ensures store.RowsOf(Presence) == if Presence in store.writeFails then old(store.RowsOf(Presence))
        else old(store.RowsOf(Presence)) - StaleUsers(es, now, timeoutSecs)
      ensures hub.log == old(hub.log) + if hub.sendFails then [] else OfflineEvents(es, now, timeoutSecs)
    {
      ghost var docs0, seqs0, rate0, log0, subs0 := store.docs, store.seqs, store.rate, hub.log, hub.subs;
      var i := 0;
      while i < |es|
        invariant 0 <= i <= |es|
        invariant Swept(es[..i], now, docs0, seqs0, rate0, log0, subs0)
      {
        SweepNext(es, i, now, docs0, seqs0, rate0, log0, subs0);
        i := i + 1;
      }
      assert es[..i] == es;
    }

    /** The state after sweeping the entries `done`, starting from the tables `docs0`, the counters `seqs0` and `rate0`, the log `log0` and the subscribers `subs0`. */
    ghost predicate Swept(done: seq<(string, i64)>, now: i64, docs0: map<Table, Rows>, seqs0: Counters, rate0: Counters, log0: seq<(string, Json)>, subs0: seq<Subscription>)
      reads this, store, hub
    {
      && hub.Valid() && SameSubscribers(subs0, hub.subs)
      && store.seqs == seqs0 && store.rate == rate0
      && (forall t :: t != Presence ==> store.RowsOf(t) == RowsIn(docs0, t))
      && store.RowsOf(Presence) == (if Presence in store.writeFails then RowsIn(docs0, Presence)
                                    else RowsIn(docs0, Presence) - StaleUsers(done, now, timeoutSecs))
      && hub.log == log0 + (if hub.sendFails then [] else OfflineEvents(done, now, timeoutSecs))
    }

    /** One turn of the sweep loop. */
    method SweepNext(es: seq<(string, i64)>, i: nat, now: i64, ghost docs0: map<Table, Rows>,
                     ghost seqs0: Counters, ghost rate0: Counters, ghost log0: seq<(string, Json)>, ghost subs0: seq<Subscription>)
      requires i < |es| && Swept(es[..i], now, docs0, seqs0, rate0, log0, subs0)
      modifies store, hub
      ensures Swept(es[..i + 1], now, docs0, seqs0, rate0, log0, subs0)
    {
      SweepStep(es, i, now, timeoutSecs);
      ghost var stale, events := StaleUsers(es[..i], now, timeoutSecs), OfflineEvents(es[..i], now, timeoutSecs);
      ghost var rows0 := RowsIn(docs0, Presence);
      SweepEntry(es[i].0, es[i].1, now);
      if Stale(now, es[i].1, timeoutSecs) {
        if Presence !in store.writeFails {
          assert rows0 - stale - {es[i].0} == rows0 - (stale + {es[i].0});
        }
        if !hub.sendFails {
          var ev := ("presence/offline", PresenceEvent(es[i].0, es[i].1));
          assert log0 + events + [ev] == log0 + (events + [ev]);
        }
      }
    }
  }
}
