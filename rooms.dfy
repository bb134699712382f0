/**
 * The room service: sending a message (sequence, persist, publish) and
 * reading a room's history back.
 */
module Rooms {
  import opened Wrappers
  import opened Text
  import opened Numeric
  import opened Json
  import opened StringOrder
  import opened MessageLog
  import opened Storage
  import opened PubSub

  datatype SendError =
    | ClockBeforeEpoch   // `duration_since(UNIX_EPOCH)` failed
    | StoreFailed(cause: StoreError)
    | PublishFailed(reason: string)

  /** `format!("{}-{}", now_ms, seq)`. */
  function MessageId(nowMs: i64, seqNo: u64): string
  {
    FormatInt(nowMs) + "-" + Decimal(seqNo)
  }

  /** For clock readings that fit, the id determines the time and the sequence number it was made from. */
  lemma MessageIdInjective(t1: i64, s1: u64, t2: i64, s2: u64)
    requires t1 >= 0 && t2 >= 0
    requires MessageId(t1, s1) == MessageId(t2, s2)
    ensures t1 == t2 && s1 == s2
  {
    assert '-' !in Decimal(t1) && '-' !in Decimal(t2) by {
      assert !IsDigit('-');
    }
    SplitUnique(Decimal(t1), Decimal(s1), Decimal(t2), Decimal(s2), '-');
    DecimalValue(t1);
    DecimalValue(t2);
    DecimalValue(s1);
    DecimalValue(s2);
  }

  /** Both rooms' first message at the same millisecond get the same id: ids are unique within a room only. */
  lemma IdsRepeatAcrossRooms(t: i64, s: u64, roomA: string, roomB: string, body: Json)
    ensures var a := NewRecord(roomA, body, t, s);
      var b := NewRecord(roomB, body, t, s);
      roomA != roomB ==> a.id == b.id && KeyOf(a) != KeyOf(b)
  {
    var a, b := NewRecord(roomA, body, t, s), NewRecord(roomB, body, t, s);
    if roomA != roomB && KeyOf(a) == KeyOf(b) {
      MakeKeyRoom(roomA, roomB, t, s);
    }
  }

  /** Keys of records with the same timestamp and sequence number differ when the rooms do. */
  lemma MakeKeyRoom(roomA: string, roomB: string, t: i64, s: u64)
    requires MakeKey(roomA, t, s) == MakeKey(roomB, t, s)
    ensures roomA == roomB
  {
    var ka, kb := MakeKey(roomA, t, s), MakeKey(roomB, t, s);
    assert |roomA| == |roomB|;
    assert roomA == ka[..|roomA|] && roomB == kb[..|roomB|];
  }

  /** The record `send_message` builds from the clock reading and the sequence number it drew. */
  function NewRecord(room: string, body: Json, nowMs: i64, seqNo: u64): (r: MessageRecord)
    ensures r.room == room && r.serverTs == nowMs && r.seqNo == seqNo && r.body == body
  {
    MessageRecord(MessageId(nowMs, seqNo), seqNo, room, nowMs, body)
  }

  /** The record a `send_message` that draws its number from `seqs` builds. */
  function SentRecord(room: string, body: Json, clockMs: int, seqs: Counters): (r: MessageRecord)
    ensures 0 <= clockMs < I64_LIMIT && CounterAt(seqs, room) + 1 < U64_LIMIT ==>
      r == NewRecord(room, body, clockMs, CounterAt(seqs, room) + 1)
  {
    NewRecord(room, body, WrapI64(clockMs), WrappingAdd(CounterAt(seqs, room), 1))
  }

  /** `format!("room/{}", room)`. */
  function RoomTopic(room: string): (t: string)
    ensures |t| == |room| + 5 && t[5..] == room
  {
    "room/" + room
  }

  /**
   * `send_message`. `clockMs` is the system clock in milliseconds since the
   * epoch; `as i64` wraps it. The sequence number is drawn first, so a failed
   * append leaves it consumed; a failed publish comes after the record is
   * stored, and the caller still gets an error.
   */
  method SendMessage(room: string, body: Json, clockMs: int, store: Store, hub: Hub) returns (r: Result<MessageRecord, SendError>)
    requires hub.Valid()
    modifies store, hub
    ensures hub.Valid()
    ensures clockMs < 0 ==> r == Err(ClockBeforeEpoch)
    ensures clockMs < 0 || Seqs in store.writeFails ==> store.seqs == old(store.seqs)
    ensures clockMs >= 0 && Seqs in store.writeFails ==> r == Err(StoreFailed(Unavailable(Seqs)))
    ensures clockMs >= 0 && Seqs !in store.writeFails ==> store.seqs == Bump(old(store.seqs), room)
    ensures store.rate == old(store.rate)
    ensures var rec := SentRecord(room, body, clockMs, old(store.seqs));
      store.docs == if Stored(clockMs, store) then old(store.docs)[Messages := old(store.RowsOf(Messages))[KeyOf(rec) := EncodeRecord(rec)]] else old(store.docs)
    ensures clockMs >= 0 && Seqs !in store.writeFails && Messages in store.writeFails ==> r == Err(StoreFailed(Unavailable(Messages)))
    ensures Stored(clockMs, store) && hub.sendFails ==> r.Err? && r.error.PublishFailed?
    ensures var rec := SentRecord(room, body, clockMs, old(store.seqs));
      Stored(clockMs, store) && !hub.sendFails ==> r == Ok(rec) && hub.log == old(hub.log) + [(RoomTopic(room), RecordToJson(rec))]
    ensures var rec := SentRecord(room, body, clockMs, old(store.seqs));
      if Stored(clockMs, store) && !hub.sendFails
      then hub.topics == old(hub.topics) + {RoomTopic(room)} && hub.subs == DeliverAll(old(hub.subs), RoomTopic(room), RecordToJson(rec))
      else hub.log == old(hub.log) && hub.topics == old(hub.topics) && hub.subs == old(hub.subs)
    ensures clockMs < I64_LIMIT && old(WellKeyed(store.RowsOf(Messages))) ==> WellKeyed(store.RowsOf(Messages))
  {
    if clockMs < 0 {
      return Err(ClockBeforeEpoch);
    }
    var nowMs := WrapI64(clockMs);
    var s := store.NextSeqForRoom(room);
    if s.Err? {
      return Err(StoreFailed(s.error));
    }
    var rec := NewRecord(room, body, nowMs, s.value);
    var a := store.AppendMessage(rec);
    if a.Err? {
      return Err(StoreFailed(a.error));
    }
    var p := hub.Publish(RoomTopic(room), RecordToJson(rec));
    if p.Err? {
      return Err(PublishFailed(p.error));
    }
    return Ok(rec);
  }

  /** Whether `send_message` gets as far as storing its record: the clock, the `seqs` and the messages tables all work. */
  predicate Stored(clockMs: int, store: Store)
  {
    clockMs >= 0 && Seqs !in store.writeFails && Messages !in store.writeFails
  }

  /** `fetch_history`: the room's records as `scan_messages` lists them. */
  method FetchHistory(room: string, after: Option<i64>, limit: nat, store: Store) returns (r: Result<seq<MessageRecord>, SendError>)
    ensures Messages in store.readFails ==> r == Err(StoreFailed(Unavailable(Messages)))
    ensures Messages !in store.readFails ==> r == Ok(ScanResult(Ordered(store.RowsOf(Messages)), room, after, limit))
  {
    var h := store.ScanMessages(room, after, limit);
    if h.Err? {
      return Err(StoreFailed(h.error));
    }
    return Ok(h.value);
  }

  /** Appending a record under a key no listed record of its room holds adds exactly that record. */
  lemma AppendFresh(m: map<string, Blob>, room: string, x: MessageRecord, listed: set<MessageRecord>)
    requires WellKeyed(m) && x.room == room
    requires forall r :: StoredIn(m, room, r) <==> r in listed
    requires forall r :: r in listed ==> KeyOf(r) != KeyOf(x)
    ensures forall r :: StoredIn(m[KeyOf(x) := EncodeRecord(x)], room, r) <==> r in listed + {x}
  {
    var m' := m[KeyOf(x) := EncodeRecord(x)];
    forall r
      ensures StoredIn(m', room, r) <==> r in listed + {x}
    {
      if StoredIn(m', room, r) && r != x {
        var k :| k in m' && Holds(m'[k], room, r);
        assert k != KeyOf(x);
        assert Holds(m[k], room, r);
      }
      if r in listed {
        var k :| k in m && Holds(m[k], room, r);
        assert WellKeyedEntry((k, m[k]));
        assert k != KeyOf(x);
        assert Holds(m'[k], room, r);
      }
      if r == x {
        assert Holds(m'[KeyOf(x)], room, r);
      }
    }
  }

  /** The table after appending three records of a room it held nothing of. */
  function AppendThree(m0: map<string, Blob>, r1: MessageRecord, r2: MessageRecord, r3: MessageRecord): map<string, Blob>
  {
    m0[KeyOf(r1) := EncodeRecord(r1)][KeyOf(r2) := EncodeRecord(r2)][KeyOf(r3) := EncodeRecord(r3)]
  }

  lemma ThreeStored(m0: map<string, Blob>, room: string, r1: MessageRecord, r2: MessageRecord, r3: MessageRecord)
    requires WellKeyed(m0) && forall r :: !StoredIn(m0, room, r)
    requires r1.room == room && r2.room == room && r3.room == room
    requires 0 <= r1.serverTs && Before(r1, r2) && Before(r2, r3)
    ensures WellKeyed(AppendThree(m0, r1, r2, r3))
    ensures forall r :: StoredIn(AppendThree(m0, r1, r2, r3), room, r) <==> r in [r1, r2, r3]
  {
    var m1 := m0[KeyOf(r1) := EncodeRecord(r1)];
    var m2 := m1[KeyOf(r2) := EncodeRecord(r2)];
    AppendKeepsWellKeyed(m0, r1);
    AppendKeepsWellKeyed(m1, r2);
    AppendKeepsWellKeyed(m2, r3);
    DistinctKeys(room, r1, r2);
    DistinctKeys(room, r2, r3);
    DistinctKeys(room, r1, r3);
    AppendFresh(m0, room, r1, {});
    assert {} + {r1} == {r1};
    AppendFresh(m1, room, r2, {r1});
    assert {r1} + {r2} == {r1, r2};
    AppendFresh(m2, room, r3, {r1, r2});
    assert forall r :: r in {r1, r2} + {r3} <==> r in [r1, r2, r3];
  }

  /** Three records appended under their own keys to a table holding nothing of their room are listed in order. */
  lemma ThreeRecordsListed(m0: map<string, Blob>, room: string, r1: MessageRecord, r2: MessageRecord, r3: MessageRecord)
    requires WellKeyed(m0) && forall r :: !StoredIn(m0, room, r)
    requires r1.room == room && r2.room == room && r3.room == room
    requires 0 <= r1.serverTs && Before(r1, r2) && Before(r2, r3)
    ensures RecordsFrom(Ordered(AppendThree(m0, r1, r2, r3)), room, "") == [r1, r2, r3]
  {
    ThreeStored(m0, room, r1, r2, r3);
    assert Ascending([r1, r2, r3]);
    ListingDetermined(AppendThree(m0, r1, r2, r3), room, [r1, r2, r3]);
  }

  lemma DistinctKeys(room: string, a: MessageRecord, b: MessageRecord)
    requires a.room == room && b.room == room && 0 <= a.serverTs && 0 <= b.serverTs && Before(a, b)
    ensures KeyOf(a) != KeyOf(b)
  {
    MakeKeyOrder(room, a.serverTs, a.seqNo, b.serverTs, b.seqNo);
    LtIrreflexive(KeyOf(a));
  }

  /** One send that gets through: the record it returns and where it is stored. */
  method SendOk(room: string, body: Json, clockMs: nat, store: Store, hub: Hub) returns (rec: MessageRecord)
    requires hub.Valid() && !hub.sendFails && clockMs < I64_LIMIT
    requires Seqs !in store.writeFails && Messages !in store.writeFails
    requires CounterAt(store.seqs, room) + 1 < U64_LIMIT
    modifies store, hub
    ensures hub.Valid()
    ensures rec == SentRecord(room, body, clockMs, old(store.seqs))
    ensures rec.seqNo == old(CounterAt(store.seqs, room)) + 1 && CounterAt(store.seqs, room) == rec.seqNo
    ensures store.RowsOf(Messages) == old(store.RowsOf(Messages))[KeyOf(rec) := EncodeRecord(rec)]
    ensures old(WellKeyed(store.RowsOf(Messages))) ==> WellKeyed(store.RowsOf(Messages))
  {
    BumpCounts(store.seqs, room);
    var r := SendMessage(room, body, clockMs, store, hub);
    rec := r.value;
  }

  /**
   * Three sends to a room the table knows nothing of, then
   * `fetch_history(room, None, 2)`: the second and third records, oldest
   * first, with consecutive sequence numbers.
   */
  method SendThreeFetchTwo(room: string, b1: Json, b2: Json, b3: Json, c1: nat, c2: nat, c3: nat, store: Store, hub: Hub)
    returns (h: Result<seq<MessageRecord>, SendError>, r1: MessageRecord, r2: MessageRecord, r3: MessageRecord)
    requires hub.Valid() && !hub.sendFails
    requires Seqs !in store.writeFails && Messages !in store.writeFails && Messages !in store.readFails
    requires WellKeyed(store.RowsOf(Messages)) && forall r :: !StoredIn(store.RowsOf(Messages), room, r)
    requires CounterAt(store.seqs, room) + 3 < U64_LIMIT
    requires c1 <= c2 <= c3 < I64_LIMIT
    modifies store, hub
    ensures r1.seqNo == old(CounterAt(store.seqs, room)) + 1
    ensures r2.seqNo == r1.seqNo + 1 && r3.seqNo == r2.seqNo + 1
    ensures h == Ok([r2, r3])
  {
    ghost var m0 := store.RowsOf(Messages);
    r1 := SendOk(room, b1, c1, store, hub);
    r2 := SendOk(room, b2, c2, store, hub);
    r3 := SendOk(room, b3, c3, store, hub);
    ThreeRecordsListed(m0, room, r1, r2, r3);
    h := FetchHistory(room, None, 2, store);
    assert Last([r1, r2, r3], 2) == [r2, r3];
  }
}
