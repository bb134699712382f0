/**
 * The message table of the store: the stored record, its sortable key, and
 * what the two branches of a scan and a retention sweep compute from the
 * table's entries in key order.
 */
module MessageLog {
  import opened Wrappers
  import opened Numeric
  import opened Json
  import opened StringOrder

  /** `MessageRecord`. */
  datatype MessageRecord = MessageRecord(id: string, seqNo: u64, room: string, serverTs: i64, body: Json)

  /** The JSON object `serde` derives for a record. */
  function RecordToJson(r: MessageRecord): Json
  {
    JObj(map["id" := JStr(r.id), "seq" := JNum(r.seqNo), "room" := JStr(r.room),
             "server_ts" := JNum(r.serverTs), "body" := r.body])
  }

  /** The derived `Deserialize`: the five fields with their types; other fields are ignored. */
  function RecordFromJson(j: Json): Option<MessageRecord>
  {
    match (GetStr(j, "id"), Get(j, "seq"), GetStr(j, "room"), GetI64(j, "server_ts"), Get(j, "body"))
    case (Some(id), Some(JNum(n)), Some(room), Some(ts), Some(body)) =>
      if 0 <= n < U64_LIMIT then Some(MessageRecord(id, n, room, ts, body)) else None
    case _ => None
  }

  /** `serde_json::from_slice::<MessageRecord>` on stored bytes. */
  function DecodeRecord(b: Blob): Option<MessageRecord>
  {
    match Decode(b)
    case Some(j) => RecordFromJson(j)
    case None => None
  }

  /** `serde_json::to_vec(rec)`: what `append_message` stores, read back as the same record. */
  function EncodeRecord(r: MessageRecord): (b: Blob)
    ensures !IsEmpty(b)
    ensures DecodeRecord(b) == Some(r)
  {
    Doc(RecordToJson(r))
  }

  // ---------------------------------------------------------------- keys

  /** `{:020}` on a 64-bit integer: a sign for negatives, zero padding to 20 characters. */
  function Field20(x: int): (s: string)
    requires -TEN_POW_19 < x < TEN_POW_20
    ensures |s| == 20
  {
    Pow10Values();
    if x >= 0 then ZeroPadded(x, 20) else "-" + ZeroPadded(-x, 19)
  }

  /** The part of a key after `room/`. */
  function KeyTail(ts: i64, seqNo: u64): (s: string)
    ensures |s| == 41
  {
    Field20(ts) + ("/" + Field20(seqNo))
  }

  /** `make_key`: `room/ts:020/seq:020`. */
  function MakeKey(room: string, ts: i64, seqNo: u64): string
  {
    (room + "/") + KeyTail(ts, seqNo)
  }

  function KeyOf(r: MessageRecord): string
  {
    MakeKey(r.room, r.serverTs, r.seqNo)
  }

  /** Order of records by `(server_ts, seq)`. */
  predicate Before(a: MessageRecord, b: MessageRecord)
  {
    a.serverTs < b.serverTs || (a.serverTs == b.serverTs && a.seqNo < b.seqNo)
  }

  /** For one room and non-negative timestamps, key order is `(server_ts, seq)` order. */
  lemma MakeKeyOrder(room: string, t1: i64, s1: u64, t2: i64, s2: u64)
    requires t1 >= 0 && t2 >= 0
    ensures Lt(MakeKey(room, t1, s1), MakeKey(room, t2, s2)) <==> t1 < t2 || (t1 == t2 && s1 < s2)
  {
    Pow10Values();
    LtCommonPrefix(room + "/", KeyTail(t1, s1), KeyTail(t2, s2));
    LtConcat(Field20(t1), "/" + Field20(s1), Field20(t2), "/" + Field20(s2));
    ZeroPaddedOrder(t1, t2, 20);
    LtCommonPrefix("/", Field20(s1), Field20(s2));
    ZeroPaddedOrder(s1, s2, 20);
  }

  /** A negative timestamp's key sorts before every non-negative one of the room. */
  lemma NegativeKeysFirst(room: string, t1: i64, s1: u64, t2: i64, s2: u64)
    requires t1 < 0 <= t2
    ensures Lt(MakeKey(room, t1, s1), MakeKey(room, t2, s2))
  {
    Pow10Values();
    LtCommonPrefix(room + "/", KeyTail(t1, s1), KeyTail(t2, s2));
    var z := ZeroPadded(t2, 20);
    assert KeyTail(t2, s2)[0] == z[0] && IsDigit(z[0]);
  }

  /** The key tail of a negative timestamp: a minus sign, then its magnitude padded to 19 digits. */
  lemma NegativeKeyTail(t: i64, s: u64)
    requires t < 0
    ensures -(t as int) < Pow10(19) && KeyTail(t, s) == "-" + (ZeroPadded(-(t as int), 19) + ("/" + Field20(s)))
  {
    Pow10Values();
  }

  /** Among negative timestamps key order is reversed: the key of -2 sorts after the key of -1. */
  lemma NegativeKeysReversed(room: string, t1: i64, t2: i64, s: u64)
    requires t1 < t2 < 0
    ensures Lt(MakeKey(room, t2, s), MakeKey(room, t1, s))
  {
    Pow10Values();
    var z1, z2 := ZeroPadded(-(t1 as int), 19), ZeroPadded(-(t2 as int), 19);
    var tail := "/" + Field20(s);
    NegativeKeyTail(t1, s);
    NegativeKeyTail(t2, s);
    ZeroPaddedOrder(-(t2 as int), -(t1 as int), 19);
    LtConcat(z2, tail, z1, tail);
    LtCommonPrefix("-", z2 + tail, z1 + tail);
    LtCommonPrefix(room + "/", KeyTail(t2, s), KeyTail(t1, s));
  }

  /** A record of the room is at or above the start key of a scan after `t` exactly when it is newer than `t`. */
  lemma StartKeyBound(room: string, t: i64, ts: i64, seqNo: u64)
    requires t < I64_LIMIT - 1 && ts >= 0
    ensures !Lt(MakeKey(room, ts, seqNo), StartKey(room, t)) <==> ts > t
  {
    if t + 1 >= 0 {
      MakeKeyOrder(room, ts, seqNo, t + 1, 0);
    } else {
      NegativeKeysFirst(room, t + 1, 0, ts, seqNo);
      LtAsymmetric(StartKey(room, t), MakeKey(room, ts, seqNo));
    }
  }

  // ---------------------------------------------------------------- scans

  /** `make_key(room, after + 1, 0)`, with the release-build wrap of `after + 1`. */
  function StartKey(room: string, after: i64): string
  {
    MakeKey(room, WrapI64(after + 1), 0)
  }

  /** A stored value read back as a record of `room`, as both scan branches filter it. */
  predicate Holds(b: Blob, room: string, r: MessageRecord)
  {
    !IsEmpty(b) && DecodeRecord(b) == Some(r) && r.room == room
  }

  /** What one visited entry contributes to a scan of `room` from `start`. */
  function Pick(room: string, start: string, k: string, b: Blob): (p: Option<MessageRecord>)
    ensures forall r :: p == Some(r) <==> !Lt(k, start) && Holds(b, room, r)
  {
    if Lt(k, start) || IsEmpty(b) then None
    else match DecodeRecord(b)
      case Some(r) => if r.room == room then Some(r) else None
      case None => None
  }

  function Picker(room: string, start: string): (string, Blob) -> Option<MessageRecord>
  {
    (k, b) => Pick(room, start, k, b)
  }

  /** The records of `room` a scan collects from entries at or above `start`, in entry order. */
  function RecordsFrom(es: seq<(string, Blob)>, room: string, start: string): seq<MessageRecord>
  {
    Collect(es, Picker(room, start))
  }

  function Take<T>(s: seq<T>, n: nat): (r: seq<T>)
    ensures |r| == if n < |s| then n else |s|
  {
    if n < |s| then s[..n] else s
  }

  function Last<T>(s: seq<T>, n: nat): (r: seq<T>)
    ensures |r| == if n < |s| then n else |s|
  {
    if n < |s| then s[|s| - n..] else s
  }

  /** What `scan_messages` returns for entries `es` in key order. */
  function ScanResult(es: seq<(string, Blob)>, room: string, after: Option<i64>, limit: nat): seq<MessageRecord>
  {
    match after
    case Some(t) => Take(RecordsFrom(es, room, StartKey(room, t)), limit)
    case None => Last(RecordsFrom(es, room, ""), limit)
  }

  predicate Ascending(rs: seq<MessageRecord>)
  {
    forall i, j :: 0 <= i < j < |rs| ==> Before(rs[i], rs[j])
  }

  /** An entry written by `append_message`: a record under its own key, with a non-negative timestamp. */
  predicate WellKeyedEntry(e: (string, Blob))
  {
    DecodeRecord(e.1).Some? ==> e.0 == KeyOf(DecodeRecord(e.1).value) && DecodeRecord(e.1).value.serverTs >= 0
  }

  ghost predicate WellKeyed(m: map<string, Blob>)
  {
    forall k :: k in m ==> WellKeyedEntry((k, m[k]))
  }

  /** `r` is stored in `m` as a record of `room`. */
  ghost predicate StoredIn(m: map<string, Blob>, room: string, r: MessageRecord)
  {
    exists k :: k in m && Holds(m[k], room, r)
  }

  lemma AscendingSnoc(rs: seq<MessageRecord>, x: MessageRecord)
    requires Ascending(rs)
    requires forall y :: y in rs ==> Before(y, x)
    ensures Ascending(rs + [x])
  {
    forall i, j | 0 <= i < j < |rs + [x]| ensures Before((rs + [x])[i], (rs + [x])[j]) {
      if j == |rs| {
        assert (rs + [x])[i] in rs;
      }
    }
  }

  lemma NoMembersEmpty<T>(s: seq<T>)
    ensures (forall x :: x !in s) ==> s == []
  {
    if s != [] {
      assert s[0] in s;
    }
  }

  /** Two ascending listings of the same records are the same listing. */
  lemma {:induction false} AscendingUnique(a: seq<MessageRecord>, b: seq<MessageRecord>)
    requires Ascending(a) && Ascending(b)
    requires forall r :: r in a <==> r in b
    ensures a == b
    decreases |a|
  {
    if a == [] || b == [] {
      assert forall r :: r !in a && r !in b;
      NoMembersEmpty(a);
      NoMembersEmpty(b);
    } else {
      assert b[0] in a && a[0] in b;
      var i :| 0 <= i < |a| && a[i] == b[0];
      var j :| 0 <= j < |b| && b[j] == a[0];
      assert a[0] == b[0] by {
        if i != 0 && j != 0 {
          assert false;
        }
      }
      forall r
        ensures r in a[1..] <==> r in b[1..]
      {
        if r in a[1..] {
          var k :| 1 <= k < |a| && a[k] == r;
          assert Before(a[0], a[k]);
          assert r in b;
          var m :| 0 <= m < |b| && b[m] == r;
          assert b[1..][m - 1] == r;
        }
        if r in b[1..] {
          var k :| 1 <= k < |b| && b[k] == r;
          assert Before(b[0], b[k]);
          assert r in a;
          var m :| 0 <= m < |a| && a[m] == r;
          assert a[1..][m - 1] == r;
        }
      }
      AscendingUnique(a[1..], b[1..]);
      assert a == [a[0]] + a[1..] && b == [b[0]] + b[1..];
    }
  }

  /** Over entries in key order, well-keyed entries give records in `(server_ts, seq)` order. */
  lemma {:induction false} RecordsFromAscending(es: seq<(string, Blob)>, room: string, start: string)
    requires KeysSorted(es)
    requires forall i :: 0 <= i < |es| ==> WellKeyedEntry(es[i])
    ensures Ascending(RecordsFrom(es, room, start))
  {
    if es != [] {
      var init, e := es[..|es| - 1], es[|es| - 1];
      RecordsFromAscending(init, room, start);
      var prev := RecordsFrom(init, room, start);
      var p := Pick(room, start, e.0, e.1);
      assert RecordsFrom(es, room, start) == prev + OptionToSeq(p);
      if p.Some? {
        var x := p.value;
        forall y | y in prev ensures Before(y, x) {
          CollectMember(init, Picker(room, start), y);
          var i :| 0 <= i < |init| && Picker(room, start)(init[i].0, init[i].1) == Some(y);
          assert Pick(room, start, init[i].0, init[i].1) == Some(y);
          assert init[i] == es[i] && Lt(es[i].0, e.0);
          MakeKeyOrder(room, y.serverTs, y.seqNo, x.serverTs, x.seqNo);
        }
        AscendingSnoc(prev, x);
      }
    }
  }

  /** Membership in a scan of a whole table, in terms of the table. */
  lemma TableRecordsMember(m: map<string, Blob>, room: string, start: string, r: MessageRecord)
    ensures r in RecordsFrom(Ordered(m), room, start) <==>
            exists k :: k in m && !Lt(k, start) && Holds(m[k], room, r)
  {
    CollectTable(m, Picker(room, start), r);
    forall k | k in m
      ensures Picker(room, start)(k, m[k]) == Some(r) <==> !Lt(k, start) && Holds(m[k], room, r)
    {
      assert Picker(room, start)(k, m[k]) == Pick(room, start, k, m[k]);
    }
  }

  lemma TableRecordsAscending(m: map<string, Blob>, room: string, start: string)
    requires WellKeyed(m)
    ensures Ascending(RecordsFrom(Ordered(m), room, start))
  {
    OrderedFacts(m);
    var es := Ordered(m);
    forall i | 0 <= i < |es| ensures WellKeyedEntry(es[i]) {
      assert WellKeyedEntry((es[i].0, m[es[i].0]));
    }
    RecordsFromAscending(es, room, start);
  }

  /**
   * `scan_messages(room, Some(t), limit)` on a table `append_message` wrote:
   * at most `limit` records of `room`, in `(server_ts, seq)` order, all
   * stored and with `server_ts > t`.
   */
  lemma ScanAfterSound(m: map<string, Blob>, room: string, t: i64, limit: nat)
    requires WellKeyed(m)
    requires t < I64_LIMIT - 1
    ensures var rs := ScanResult(Ordered(m), room, Some(t), limit);
      && |rs| <= limit
      && Ascending(rs)
      && (forall r :: r in rs ==> StoredIn(m, room, r) && r.serverTs > t)
  {
    var start := StartKey(room, t);
    var all := RecordsFrom(Ordered(m), room, start);
    var rs := ScanResult(Ordered(m), room, Some(t), limit);
    assert rs == Take(all, limit);
    TableRecordsAscending(m, room, start);
    forall r | r in rs ensures StoredIn(m, room, r) && r.serverTs > t {
      assert r in all;
      TableRecordsMember(m, room, start, r);
      var k :| k in m && !Lt(k, start) && Holds(m[k], room, r);
      assert WellKeyedEntry((k, m[k]));
      StartKeyBound(room, t, r.serverTs, r.seqNo);
    }
  }

  /** When a scan after `t` returns fewer than `limit` records, it returned every stored record of the room newer than `t`. */
  lemma ScanAfterComplete(m: map<string, Blob>, room: string, t: i64, limit: nat, r: MessageRecord)
    requires WellKeyed(m)
    requires t < I64_LIMIT - 1
    requires |ScanResult(Ordered(m), room, Some(t), limit)| < limit
    requires StoredIn(m, room, r) && r.serverTs > t
    ensures r in ScanResult(Ordered(m), room, Some(t), limit)
  {
    var start := StartKey(room, t);
    var k :| k in m && Holds(m[k], room, r);
    assert WellKeyedEntry((k, m[k]));
    StartKeyBound(room, t, r.serverTs, r.seqNo);
    TableRecordsMember(m, room, start, r);
  }

  /** The records a scan from the empty key collects are exactly the room's stored records. */
  lemma TableListing(m: map<string, Blob>, room: string)
    ensures forall r :: r in RecordsFrom(Ordered(m), room, "") <==> StoredIn(m, room, r)
  {
    forall r ensures r in RecordsFrom(Ordered(m), room, "") <==> StoredIn(m, room, r) {
      TableRecordsMember(m, room, "", r);
      if StoredIn(m, room, r) {
        var k :| k in m && Holds(m[k], room, r);
        assert !Lt(k, "");
      }
    }
  }

  /** The full listing of a room is its stored records in ascending order, whatever the table's other rows. */
  lemma ListingDetermined(m: map<string, Blob>, room: string, rs: seq<MessageRecord>)
    requires WellKeyed(m) && Ascending(rs)
    requires forall r :: StoredIn(m, room, r) <==> r in rs
    ensures RecordsFrom(Ordered(m), room, "") == rs
  {
    TableRecordsAscending(m, room, "");
    TableListing(m, room);
    AscendingUnique(RecordsFrom(Ordered(m), room, ""), rs);
  }

  /**
   * `scan_messages(room, None, limit)`: the last `min(limit, n)` of the room's
   * `n` stored records, which are listed in `(server_ts, seq)` order.
   */
  lemma LatestProperties(m: map<string, Blob>, room: string, limit: nat)
    requires WellKeyed(m)
    ensures var all := RecordsFrom(Ordered(m), room, "");
      && Ascending(all)
      && (forall r :: r in all <==> StoredIn(m, room, r))
      && ScanResult(Ordered(m), room, None, limit) == all[|all| - (if limit < |all| then limit else |all|)..]
  {
    TableRecordsAscending(m, room, "");
    TableListing(m, room);
    LatestIsSuffix(Ordered(m), room, limit);
  }

  lemma LatestIsSuffix(es: seq<(string, Blob)>, room: string, limit: nat)
    ensures var all := RecordsFrom(es, room, "");
      ScanResult(es, room, None, limit) == all[|all| - (if limit < |all| then limit else |all|)..]
  {
  }

  /** One step of the bounded window: push the new record, then drop the front once the window exceeds `n`. */
  lemma LastSnoc<T>(s: seq<T>, x: T, n: nat)
    ensures var d := Last(s, n) + [x];
      Last(s + [x], n) == if |d| > n then d[1..] else d
  {
    var d := Last(s, n) + [x];
    if n < |s| {
      assert (s + [x])[|s| + 1 - n..] == d[1..];
    } else if n == |s| && n > 0 {
      assert (s + [x])[1..] == d[1..];
    } else if n == 0 {
      assert (s + [x])[|s| + 1..] == [];
    }
  }

  /** `append_message` keeps the table well-keyed when the timestamp is non-negative. */
  lemma AppendKeepsWellKeyed(m: map<string, Blob>, r: MessageRecord)
    requires WellKeyed(m) && r.serverTs >= 0
    ensures WellKeyed(m[KeyOf(r) := EncodeRecord(r)])
  {
  }

  // ---------------------------------------------------------------- retention

  /** The predicate `retention_sweep` hands to `extract_if`. */
  predicate Expired(b: Blob, cutoff: int)
  {
    !IsEmpty(b) && (DecodeRecord(b).None? || DecodeRecord(b).value.serverTs < cutoff)
  }

  /** The message table after removing every expired entry. */
  function Swept(m: map<string, Blob>, cutoff: int): (r: map<string, Blob>)
    ensures forall k :: k in r <==> k in m && !Expired(m[k], cutoff)
    ensures forall k :: k in r ==> r[k] == m[k]
  {
    map k | k in m && !Expired(m[k], cutoff) :: m[k]
  }

  /** A sweep keeps the table well-keyed. */
  lemma SweptKeepsWellKeyed(m: map<string, Blob>, cutoff: int)
    requires WellKeyed(m)
    ensures WellKeyed(Swept(m, cutoff))
  {
  }

  /** A second sweep with the same cutoff removes nothing. */
  lemma SweptIdempotent(m: map<string, Blob>, cutoff: int)
    ensures Swept(Swept(m, cutoff), cutoff) == Swept(m, cutoff)
  {
  }

  /** The cutoff as `retention_sweep` computes it: `now_secs as i64 - keep_days as i64 * 86400`, wrapping. */
  function CutoffAsWritten(keepDays: u64, nowSecs: u64): i64
  {
    WrapI64(WrapI64(nowSecs) - WrapI64(WrapI64(keepDays) * 86400))
  }

  /** The cutoff in the milliseconds `server_ts` is written in. */
  function CutoffMillis(keepDays: u64, nowMillis: i64): i64
  {
    WrapI64(nowMillis - WrapI64(WrapI64(keepDays) * 86_400_000))
  }

  /**
   * As written, a sweep removes no well-formed record whose millisecond
   * timestamp is at least the current time in seconds, whatever `keep_days` is.
   */
  lemma AsWrittenSweepKeepsMillisRecords(m: map<string, Blob>, keepDays: u64, nowSecs: u64, k: string)
    requires nowSecs < I64_LIMIT && keepDays * 86400 < I64_LIMIT
    requires k in m && DecodeRecord(m[k]).Some? && DecodeRecord(m[k]).value.serverTs >= nowSecs
    ensures k in Swept(m, CutoffAsWritten(keepDays, nowSecs))
  {
  }

  /** A message stored two days ago survives a one-day sweep as written. */
  lemma AsWrittenSweepMissesOldMessage()
    ensures var nowSecs := 1_700_000_000;
      var r := MessageRecord("m", 1, "lobby", (nowSecs - 2 * 86400) * 1000, JNull);
      var m := map[KeyOf(r) := EncodeRecord(r)];
      KeyOf(r) in Swept(m, CutoffAsWritten(1, nowSecs))
  {
  }

  /** With the cutoff in milliseconds, a sweep keeps exactly the empty values and the records no older than `keep_days`. */
  lemma MillisSweepKeepsRecent(m: map<string, Blob>, keepDays: u64, nowMillis: i64, k: string)
    requires k in m
    requires I64_MIN <= nowMillis - keepDays * 86_400_000 && keepDays * 86_400_000 < I64_LIMIT
    ensures k in Swept(m, CutoffMillis(keepDays, nowMillis)) <==>
      IsEmpty(m[k]) || (DecodeRecord(m[k]).Some? && DecodeRecord(m[k]).value.serverTs >= nowMillis - keepDays * 86_400_000)
  {
  }
}
