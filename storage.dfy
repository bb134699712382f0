/**
 * `Storage`: string-keyed tables of one embedded database. JSON tables hold
 * `Blob`s, the `seqs` and `rate` tables raw bytes. Every call runs in a
 * transaction of its own; whether a table's read or write transactions can
 * run is fixed by the two fault sets of the store, and a call whose
 * transaction cannot run changes nothing.
 */
module Storage {
  import opened Wrappers
  import opened Text
  import opened Numeric
  import opened Json
  import opened StringOrder
  import opened MessageLog

  /** The tables `Storage::new` opens, except `oauth`, whose two operations are not part of this model. */
  datatype Table = Messages | Seqs | Users | Presence | Rate | Credentials | Refresh | WebauthnReg | WebauthnAuth | OAuthState

  type Rows = map<string, Blob>

  /** A table of raw values (`seqs`, `rate`). */
  type Counters = map<string, seq<byte>>

  /** The error of a storage call: the table's transaction could not run, or a stored value did not decode. */
  /** Why a storage call failed: its transaction, an undecodable value, or a clock reading before 1970. */
  datatype StoreError = Unavailable(table: Table) | Malformed(table: Table, key: string) | TimeBeforeEpoch

  type Status = Result<(), StoreError>

  // ---------------------------------------------------------------- JSON tables

  /** `table.get(key)` then `serde_json::from_slice`: a present value that does not decode is an error. */
  function Lookup(t: Table, rows: Rows, key: string): (r: Result<Option<Json>, StoreError>)
    ensures r == Ok(None) <==> key !in rows
    ensures r.Err? <==> key in rows && rows[key].Junk?
    ensures r.Err? ==> r.error == Malformed(t, key)
    ensures forall j :: r == Ok(Some(j)) <==> key in rows && rows[key] == Doc(j)
  {
    if key !in rows then Ok(None)
    else match Decode(rows[key])
      case Some(j) => Ok(Some(j))
      case None => Err(Malformed(t, key))
  }

  /** Last write wins, and writing one key leaves every other key as it was. */
  lemma LookupAfterInsert(t: Table, rows: Rows, key: string, j: Json, other: string)
    ensures Lookup(t, rows[key := Doc(j)], key) == Ok(Some(j))
    ensures other != key ==> Lookup(t, rows[key := Doc(j)], other) == Lookup(t, rows, other)
  {
  }

  /** A removed key reads as absent, and removing it leaves every other key as it was. */
  lemma LookupAfterRemove(t: Table, rows: Rows, key: string, other: string)
    ensures Lookup(t, rows - {key}, key) == Ok(None)
    ensures other != key ==> Lookup(t, rows - {key}, other) == Lookup(t, rows, other)
  {
  }

  /** A table of a snapshot of the JSON tables; absent tables are empty. */
  function RowsIn(d: map<Table, Rows>, t: Table): Rows
  {
    if t in d then d[t] else map[]
  }

  /** A point read on the tables `d` with the read faults `rf`, as `Store.Get` gives it. */
  function ReadRow(d: map<Table, Rows>, rf: set<Table>, t: Table, key: string): Result<Option<Json>, StoreError>
  {
    if t in rf then Err(Unavailable(t)) else Lookup(t, RowsIn(d, t), key)
  }

  /** A one-row write with the write faults `wf`, as `Store.Insert` does it. */
  function WriteRow(d: map<Table, Rows>, wf: set<Table>, t: Table, key: string, j: Json): (map<Table, Rows>, Status)
  {
    if t in wf then (d, Err(Unavailable(t))) else (d[t := RowsIn(d, t)[key := Doc(j)]], Ok(()))
  }

  /** What `delete_user` does to the tables `d` with the write faults `wf`, as `Store.DeleteUser` does it. */
  function DeleteUserIn(d: map<Table, Rows>, wf: set<Table>, userId: string): map<Table, Rows>
  {
    if Users in wf then d
    else if Credentials in wf then d[Users := RowsIn(d, Users) - {userId}]
    else d[Users := RowsIn(d, Users) - {userId}][Credentials := Unlinked(RowsIn(d, Credentials), userId)]
  }

  /** `"<user_id>/<id>"`, the key of a WebAuthn credential or pending state. */
  function PairKey(userId: string, id: string): (k: string)
    ensures |k| == |userId| + 1 + |id|
    ensures k[..|userId|] == userId && k[|userId|] == '/' && k[|userId| + 1..] == id
  {
    userId + "/" + id
  }

  /** Distinct pairs have distinct keys as long as user ids hold no `/`. */
  lemma PairKeyInjective(u1: string, i1: string, u2: string, i2: string)
    requires '/' !in u1 && '/' !in u2
    requires PairKey(u1, i1) == PairKey(u2, i2)
    ensures u1 == u2 && i1 == i2
  {
    SplitUnique(u1, i1, u2, i2, '/');
  }

  // ---------------------------------------------------------------- presence rows

  /** The row `set_presence(_, true, ts)` stores. */
  function PresenceDoc(ts: i64): (j: Json)
    ensures GetI64(j, "last_seen") == Some(ts)
  {
    JObj(map["last_seen" := JNum(ts)])
  }

  /** `get_presence` on a table: the integer `last_seen` of a decodable row; anything else reads as absent. */
  function LastSeen(rows: Rows, userId: string): (r: Option<i64>)
    ensures r.Some? ==> userId in rows && rows[userId].Doc? && GetI64(rows[userId].doc, "last_seen") == r
    ensures userId !in rows ==> r.None?
  {
    if userId in rows && Decode(rows[userId]).Some? then GetI64(Decode(rows[userId]).value, "last_seen") else None
  }

  /** Going online then reading gives the timestamp back; going offline reads as absent; other users are unaffected. */
  lemma LastSeenAfterSet(rows: Rows, userId: string, ts: i64, other: string)
    ensures LastSeen(rows[userId := Doc(PresenceDoc(ts))], userId) == Some(ts)
    ensures LastSeen(rows - {userId}, userId) == None
    ensures other != userId ==> LastSeen(rows[userId := Doc(PresenceDoc(ts))], other) == LastSeen(rows, other)
    ensures other != userId ==> LastSeen(rows - {userId}, other) == LastSeen(rows, other)
  {
  }

  /** What `list_presence` pushes for one entry. */
  function PresenceRow(k: string, b: Blob): Option<(string, i64)>
  {
    if IsEmpty(b) then None
    else match Decode(b)
      case Some(j) => (match GetI64(j, "last_seen") case Some(n) => Some((k, n)) case None => None)
      case None => None
  }

  /** `list_presence` lists exactly the rows whose JSON has an integer `last_seen`, with that value. */
  lemma ListedPresence(rows: Rows, k: string, n: i64)
    ensures (k, n) in Collect(Ordered(rows), PresenceRow) <==> LastSeen(rows, k) == Some(n)
  {
    CollectTable(rows, PresenceRow, (k, n));
    if LastSeen(rows, k) == Some(n) {
      assert PresenceRow(k, rows[k]) == Some((k, n));
    }
  }

  /** What `list_users` pushes for one entry. */
  function UserDoc(k: string, b: Blob): Option<Json>
  {
    if IsEmpty(b) then None else Decode(b)
  }

  /** `list_users` lists exactly the stored documents, skipping values that do not decode. */
  lemma ListedUsers(rows: Rows, j: Json)
    ensures j in Collect(Ordered(rows), UserDoc) <==> exists k :: k in rows && rows[k] == Doc(j)
  {
    CollectTable(rows, UserDoc, j);
    forall k | k in rows
      ensures UserDoc(k, rows[k]) == Some(j) <==> rows[k] == Doc(j)
    {
    }
  }

  /** The credential rows `delete_user` removes: JSON whose `user_id` is the deleted id. */
  predicate LinksTo(b: Blob, userId: string)
  {
    !IsEmpty(b) && Decode(b).Some? && GetStr(Decode(b).value, "user_id") == Some(userId)
  }

  /** The rows `extract_if` keeps: those `drop` rejects. */
  function Retain(rows: Rows, drop: (string, Blob) -> bool): (r: Rows)
    ensures forall k :: k in r <==> k in rows && !drop(k, rows[k])
    ensures forall k :: k in r ==> r[k] == rows[k]
  {
    map k | k in rows && !drop(k, rows[k]) :: rows[k]
  }

  function Unlinked(rows: Rows, userId: string): (r: Rows)
    ensures forall k :: k in r <==> k in rows && !LinksTo(rows[k], userId)
    ensures forall k :: k in r ==> r[k] == rows[k]
  {
    Retain(rows, (k, b) => LinksTo(b, userId))
  }

  /** `table.extract_if(drop)` consumed to the end: removes every row `drop` accepts, one at a time. */
  method ExtractIf(rows: Rows, drop: (string, Blob) -> bool) returns (kept: Rows)
    ensures kept == Retain(rows, drop)
  {
    kept := rows;
    var todo := rows.Keys;
    while todo != {}
      invariant todo <= rows.Keys
      invariant kept == map k | k in rows && (k in todo || !drop(k, rows[k])) :: rows[k]
      decreases todo
    {
      var k :| k in todo;
      if drop(k, rows[k]) {
        kept := kept - {k};
      }
      todo := todo - {k};
    }
  }

  // ---------------------------------------------------------------- counters

  /** A counter: 8 little-endian bytes; a missing or wrong-length value counts as 0. */
  function CounterAt(c: Counters, key: string): (n: u64)
    ensures (key !in c || |c[key]| != 8) ==> n == 0
    ensures key in c && |c[key]| == 8 ==> U64ToLe(n) == c[key]
  {
    if key in c && |c[key]| == 8 then U64FromLe(c[key]) else 0
  }

  /** Storing `n` reads back as `n`; other counters are unaffected. */
  lemma CounterAfterStore(c: Counters, key: string, n: u64, other: string)
    ensures CounterAt(c[key := U64ToLe(n)], key) == n
    ensures other != key ==> CounterAt(c[key := U64ToLe(n)], other) == CounterAt(c, other)
  {
    U64LeRoundTrip(n);
  }

  /** The `seqs` table after one `next_seq_for_room(room)`. */
  function Bump(c: Counters, room: string): Counters
  {
    c[room := U64ToLe(WrappingAdd(CounterAt(c, room), 1))]
  }

  /** One call moves the room's counter on by one, wrapping at 2^64. */
  lemma BumpCounts(c: Counters, room: string)
    ensures CounterAt(Bump(c, room), room) == WrappingAdd(CounterAt(c, room), 1)
  {
    CounterAfterStore(c, room, WrappingAdd(CounterAt(c, room), 1), room);
  }

  /** The `seqs` table after `k` calls of `next_seq_for_room(room)`. */
  function BumpTimes(c: Counters, room: string, k: nat): Counters
  {
    if k == 0 then c else Bump(BumpTimes(c, room, k - 1), room)
  }

  /**
   * Consecutive calls count up by one with no gap or repeat: after `k` calls
   * the room's counter has grown by `k`, and every other room's is unchanged.
   */
  lemma {:induction false} BumpTimesCounts(c: Counters, room: string, k: nat, other: string)
    requires CounterAt(c, room) + k < U64_LIMIT
    ensures CounterAt(BumpTimes(c, room, k), room) == CounterAt(c, room) + k
    ensures other != room ==> CounterAt(BumpTimes(c, room, k), other) == CounterAt(c, other)
  {
    if k > 0 {
      BumpTimesCounts(c, room, k - 1, other);
      var before := BumpTimes(c, room, k - 1);
      var n := WrappingAdd(CounterAt(before, room), 1);
      assert n == CounterAt(before, room) + 1;
      assert BumpTimes(c, room, k) == before[room := U64ToLe(n)];
      CounterAfterStore(before, room, n, other);
    }
  }

  /** What `list_rate_counters` pushes for one entry. */
  function RateRow(k: string, b: seq<byte>): Option<(string, u64)>
  {
    if |b| == 8 then Some((k, U64FromLe(b))) else None
  }

  /** `list_rate_counters` lists exactly the 8-byte values, decoded. */
  lemma ListedRates(c: Counters, k: string, n: u64)
    ensures (k, n) in Collect(Ordered(c), RateRow) <==> k in c && |c[k]| == 8 && CounterAt(c, k) == n
  {
    CollectTable(c, RateRow, (k, n));
    if k in c && |c[k]| == 8 && CounterAt(c, k) == n {
      assert RateRow(k, c[k]) == Some((k, n));
    }
  }

  /** The loop of a listing: push what `f` picks from each entry, in order. */
  method CollectEntries<V, T>(es: seq<(string, V)>, f: (string, V) -> Option<T>) returns (out: seq<T>)
    ensures out == Collect(es, f)
  {
    out := [];
    var i := 0;
    while i < |es|
      invariant 0 <= i <= |es|
      invariant out == Collect(es[..i], f)
    {
      assert es[..i + 1][..i] == es[..i];
      var (k, v) := es[i];
      match f(k, v) {
        case Some(x) => out := out + [x];
        case None =>
      }
      i := i + 1;
    }
    assert es[..|es|] == es;
  }

  /** The range branch of `scan_messages`: entries from `start` up, stopping once `limit` records are collected. */
  method ScanRange(es: seq<(string, Blob)>, room: string, start: string, limit: nat) returns (out: seq<MessageRecord>)
    ensures out == Take(RecordsFrom(es, room, start), limit)
  {
    out := [];
    var i := 0;
    while i < |es|
      invariant 0 <= i <= |es|
      invariant out == RecordsFrom(es[..i], room, start)
      invariant |out| <= limit
    {
      if |out| >= limit {
        break;
      }
      assert es[..i + 1][..i] == es[..i];
      var (k, v) := es[i];
      if !Lt(k, start) && !IsEmpty(v) {
        match DecodeRecord(v) {
          case Some(rec) =>
            if rec.room == room {
              out := out + [rec];
            }
          case None =>
        }
      }
      i := i + 1;
    }
    assert es == es[..i] + es[i..];
    CollectAppend(es[..i], es[i..], Picker(room, start));
  }

  /** The latest branch of `scan_messages`: a window that keeps the last `limit` records of the room. */
  method ScanLatest(es: seq<(string, Blob)>, room: string, limit: nat) returns (window: seq<MessageRecord>)
    ensures window == Last(RecordsFrom(es, room, ""), limit)
  {
    window := [];
    var i := 0;
    while i < |es|
      invariant 0 <= i <= |es|
      invariant window == Last(RecordsFrom(es[..i], room, ""), limit)
    {
      assert es[..i + 1][..i] == es[..i];
      var (k, v) := es[i];
      assert !Lt(k, "");
      if !IsEmpty(v) {
        match DecodeRecord(v) {
          case Some(rec) =>
            if rec.room == room {
              LastSnoc(RecordsFrom(es[..i], room, ""), rec, limit);
              window := window + [rec];
              if |window| > limit {
                window := window[1..];
              }
            }
          case None =>
        }
      }
      i := i + 1;
    }
    assert es[..|es|] == es;
  }

  // ---------------------------------------------------------------- the store

  class Store {
    /** The JSON-valued tables. */
    var docs: map<Table, Rows>
    var seqs: Counters
    var rate: Counters
    /** Tables whose read transactions fail. */
    const readFails: set<Table>
    /** Tables whose write transactions fail. */
    const writeFails: set<Table>

    /** An empty database. */
    constructor (readFails: set<Table>, writeFails: set<Table>)
      ensures docs == map[] && seqs == map[] && rate == map[]
      ensures this.readFails == readFails && this.writeFails == writeFails
    {
      docs, seqs, rate := map[], map[], map[];
      this.readFails, this.writeFails := readFails, writeFails;
    }

    function RowsOf(t: Table): Rows
      reads this
    {
      if t in docs then docs[t] else map[]
    }

    /** What a write transaction on `t` returns. */
    function Written(t: Table): (r: Status)
      ensures r.Err? <==> t in writeFails
      ensures r.Err? ==> r.error == Unavailable(t)
    {
      if t in writeFails then Err(Unavailable(t)) else Ok(())
    }

    /** `table.insert(key, bytes)` in a write transaction of its own. */
    method Insert(t: Table, key: string, b: Blob) returns (r: Status)
      modifies this
      ensures r == Written(t)
      ensures docs == if r.Ok? then old(docs)[t := old(RowsOf(t))[key := b]] else old(docs)
      ensures seqs == old(seqs) && rate == old(rate)
    {
      if t in writeFails {
        return Err(Unavailable(t));
      }
      docs := docs[t := RowsOf(t)[key := b]];
      return Ok(());
    }

    /** `table.remove(key)` in a write transaction of its own; removing an absent key succeeds. */
    method Remove(t: Table, key: string) returns (r: Status)
      modifies this
      ensures r == Written(t)
      ensures docs == if r.Ok? then old(docs)[t := old(RowsOf(t)) - {key}] else old(docs)
      ensures seqs == old(seqs) && rate == old(rate)
    {
      if t in writeFails {
        return Err(Unavailable(t));
      }
      docs := docs[t := RowsOf(t) - {key}];
      return Ok(());
    }

    /** A point read: `Lookup` in a read transaction. */
    function Get(t: Table, key: string): (r: Result<Option<Json>, StoreError>)
      reads this
      ensures t in readFails ==> r == Err(Unavailable(t))
      ensures t !in readFails ==> (r == Ok(None) <==> key !in RowsOf(t))
      ensures t !in readFails ==> forall j :: r == Ok(Some(j)) <==> key in RowsOf(t) && RowsOf(t)[key] == Doc(j)
    {
      if t in readFails then Err(Unavailable(t)) else Lookup(t, RowsOf(t), key)
    }

    // ------------------------------------------------------------ messages

    /** `append_message`: the record stored under its own key. */
    method AppendMessage(rec: MessageRecord) returns (r: Status)
      modifies this
      ensures r == Written(Messages)
      ensures docs == if r.Ok? then old(docs)[Messages := old(RowsOf(Messages))[KeyOf(rec) := EncodeRecord(rec)]] else old(docs)
      ensures seqs == old(seqs) && rate == old(rate)
      ensures old(WellKeyed(RowsOf(Messages))) && rec.serverTs >= 0 ==> WellKeyed(RowsOf(Messages))
    {
      ghost var before := RowsOf(Messages);
      r := Insert(Messages, KeyOf(rec), EncodeRecord(rec));
      if r.Ok? && WellKeyed(before) && rec.serverTs >= 0 {
        AppendKeepsWellKeyed(before, rec);
      }
    }

    /** `scan_messages`: the range branch stops at `limit`; the latest branch keeps a window of the last `limit`. */
    method ScanMessages(room: string, after: Option<i64>, limit: nat) returns (r: Result<seq<MessageRecord>, StoreError>)
      ensures Messages in readFails ==> r == Err(Unavailable(Messages))
      ensures Messages !in readFails ==> r == Ok(ScanResult(Ordered(RowsOf(Messages)), room, after, limit))
    {
      if Messages in readFails {
        return Err(Unavailable(Messages));
      }
      var es := OrderedEntries(RowsOf(Messages));
      match after {
        case Some(t) =>
          var out := ScanRange(es, room, StartKey(room, t), limit);
          return Ok(out);
        case None =>
          var out := ScanLatest(es, room, limit);
          return Ok(out);
      }
    }

    /**
     * `retention_sweep` as written: the clock reading in whole seconds
     * (`None` when it is before 1970, which is an error with nothing changed),
     * then a cutoff of `now_secs - keep_days * 86400`, in seconds.
     */
    method RetentionSweep(keepDays: u64, nowSecs: Option<u64>) returns (r: Status)
      modifies this
      ensures nowSecs.None? ==> r == Err(TimeBeforeEpoch) && docs == old(docs)
      ensures nowSecs.Some? ==> r == Written(Messages)
      ensures nowSecs.Some? ==>
        docs == if r.Ok? then old(docs)[Messages := Swept(old(RowsOf(Messages)), CutoffAsWritten(keepDays, nowSecs.value))] else old(docs)
      ensures seqs == old(seqs) && rate == old(rate)
    {
      if nowSecs.None? {
        return Err(TimeBeforeEpoch);
      }
      r := SweepBefore(CutoffAsWritten(keepDays, nowSecs.value));
    }

    /** The sweep with the cutoff in the milliseconds message timestamps are written in; the clock can fail the same way. */
    method RetentionSweepMillis(keepDays: u64, nowMillis: Option<i64>) returns (r: Status)
      modifies this
      ensures nowMillis.None? ==> r == Err(TimeBeforeEpoch) && docs == old(docs)
      ensures nowMillis.Some? ==> r == Written(Messages)
      ensures nowMillis.Some? ==>
        docs == if r.Ok? then old(docs)[Messages := Swept(old(RowsOf(Messages)), CutoffMillis(keepDays, nowMillis.value))] else old(docs)
      ensures seqs == old(seqs) && rate == old(rate)
    {
      if nowMillis.None? {
        return Err(TimeBeforeEpoch);
      }
      r := SweepBefore(CutoffMillis(keepDays, nowMillis.value));
    }

    /** The `extract_if` transaction of a sweep with a given cutoff. */
    method SweepBefore(cutoff: int) returns (r: Status)
      modifies this
      ensures r == Written(Messages)
      ensures docs == if r.Ok? then old(docs)[Messages := Swept(old(RowsOf(Messages)), cutoff)] else old(docs)
      ensures seqs == old(seqs) && rate == old(rate)
    {
      if Messages in writeFails {
        return Err(Unavailable(Messages));
      }
      var kept := ExtractIf(RowsOf(Messages), (k, b) => Expired(b, cutoff));
      assert kept == Swept(RowsOf(Messages), cutoff);
      docs := docs[Messages := kept];
      return Ok(());
    }

    // ------------------------------------------------------------ sequences

    /** `next_seq_for_room`: stores and returns the room's counter plus one, wrapping at 2^64. */
    method NextSeqForRoom(room: string) returns (r: Result<u64, StoreError>)
      modifies this
      ensures Seqs in writeFails ==> r == Err(Unavailable(Seqs)) && seqs == old(seqs)
      ensures Seqs !in writeFails ==> r == Ok(WrappingAdd(old(CounterAt(seqs, room)), 1)) && seqs == Bump(old(seqs), room)
      ensures docs == old(docs) && rate == old(rate)
    {
      if Seqs in writeFails {
        return Err(Unavailable(Seqs));
      }
      var next := WrappingAdd(CounterAt(seqs, room), 1);
      seqs := seqs[room := U64ToLe(next)];
      return Ok(next);
    }

    /** `set_seq_for_room`. */
    method SetSeqForRoom(room: string, s: u64) returns (r: Status)
      modifies this
      ensures r.Err? <==> Seqs in writeFails
      ensures seqs == if r.Ok? then old(seqs)[room := U64ToLe(s)] else old(seqs)
      ensures r.Ok? ==> CounterAt(seqs, room) == s
      ensures docs == old(docs) && rate == old(rate)
    {
      if Seqs in writeFails {
        return Err(Unavailable(Seqs));
      }
      seqs := seqs[room := U64ToLe(s)];
      CounterAfterStore(old(seqs), room, s, room);
      return Ok(());
    }

    // ------------------------------------------------------------ users and credentials

    /** `put_user`. */
    method PutUser(userId: string, user: Json) returns (r: Status)
      modifies this
      ensures r == Written(Users)
      ensures docs == if r.Ok? then old(docs)[Users := old(RowsOf(Users))[userId := Doc(user)]] else old(docs)
      ensures seqs == old(seqs) && rate == old(rate)
    {
      r := Insert(Users, userId, Doc(user));
    }

    /** `get_user`. */
    function GetUser(userId: string): (r: Result<Option<Json>, StoreError>)
      reads this
      ensures Users !in readFails && userId !in RowsOf(Users) ==> r == Ok(None)
      ensures r.Ok? && r.value.Some? ==> userId in RowsOf(Users) && RowsOf(Users)[userId] == Doc(r.value.value)
    {
      Get(Users, userId)
    }

    /** `list_users`: every decodable user document, in key order. */
    method ListUsers() returns (r: Result<seq<Json>, StoreError>)
      ensures Users in readFails ==> r == Err(Unavailable(Users))
      ensures Users !in readFails ==> r == Ok(Collect(Ordered(RowsOf(Users)), UserDoc))
    {
      if Users in readFails {
        return Err(Unavailable(Users));
      }
      var es := OrderedEntries(RowsOf(Users));
      var out := CollectEntries(es, UserDoc);
      return Ok(out);
    }

    /**
     * `delete_user`: one transaction removes the user row, a second removes
     * every credential row linked to the user; a failure of the second leaves
     * the first done.
     */
    method DeleteUser(userId: string) returns (r: Status)
      modifies this
      ensures r.Err? <==> Users in writeFails || Credentials in writeFails
      ensures r.Err? ==> r.error.Unavailable?
      ensures docs == DeleteUserIn(old(docs), writeFails, userId)
      ensures Users in writeFails ==> docs == old(docs)
      ensures Users !in writeFails && Credentials in writeFails ==>
        docs == old(docs)[Users := old(RowsOf(Users)) - {userId}]
      ensures r.Ok? ==>
        docs == old(docs)[Users := old(RowsOf(Users)) - {userId}][Credentials := Unlinked(old(RowsOf(Credentials)), userId)]
      ensures seqs == old(seqs) && rate == old(rate)
    {
      r := Remove(Users, userId);
      if r.Err? {
        return;
      }
      if Credentials in writeFails {
        return Err(Unavailable(Credentials));
      }
      var kept := ExtractIf(RowsOf(Credentials), (k, b) => LinksTo(b, userId));
      docs := docs[Credentials := kept];
    }

    /** `put_credentials`. */
    method PutCredentials(email: string, cred: Json) returns (r: Status)
      modifies this
      ensures r == Written(Credentials)
      ensures docs == if r.Ok? then old(docs)[Credentials := old(RowsOf(Credentials))[email := Doc(cred)]] else old(docs)
      ensures seqs == old(seqs) && rate == old(rate)
    {
      r := Insert(Credentials, email, Doc(cred));
    }

    /** `get_credentials`. */
    function GetCredentials(email: string): (r: Result<Option<Json>, StoreError>)
      reads this
      ensures Credentials !in readFails && email !in RowsOf(Credentials) ==> r == Ok(None)
      ensures r.Ok? && r.value.Some? ==> email in RowsOf(Credentials) && RowsOf(Credentials)[email] == Doc(r.value.value)
    {
      Get(Credentials, email)
    }

    // ------------------------------------------------------------ presence

    /** `set_presence`: online stores `{"last_seen": ts}`, offline removes the row. */
    method SetPresence(userId: string, online: bool, tsMs: i64) returns (r: Status)
      modifies this
      ensures r == Written(Presence)
      ensures docs == if r.Err? then old(docs)
        else if online then old(docs)[Presence := old(RowsOf(Presence))[userId := Doc(PresenceDoc(tsMs))]]
        else old(docs)[Presence := old(RowsOf(Presence)) - {userId}]
      ensures r.Ok? ==> LastSeen(RowsOf(Presence), userId) == if online then Some(tsMs) else None
      ensures seqs == old(seqs) && rate == old(rate)
    {
      if online {
        r := Insert(Presence, userId, Doc(PresenceDoc(tsMs)));
      } else {
        r := Remove(Presence, userId);
      }
    }

    /** `get_presence`: a row without an integer `last_seen`, or one that does not decode, reads as absent. */
    function GetPresence(userId: string): (r: Result<Option<i64>, StoreError>)
      reads this
      ensures r.Err? <==> Presence in readFails
      ensures r.Ok? ==> r.value == LastSeen(RowsOf(Presence), userId)
    {
      if Presence in readFails then Err(Unavailable(Presence)) else Ok(LastSeen(RowsOf(Presence), userId))
    }

    /** `list_presence`. */
    method ListPresence() returns (r: Result<seq<(string, i64)>, StoreError>)
      ensures Presence in readFails ==> r == Err(Unavailable(Presence))
      ensures Presence !in readFails ==> r == Ok(Collect(Ordered(RowsOf(Presence)), PresenceRow))
    {
      if Presence in readFails {
        return Err(Unavailable(Presence));
      }
      var es := OrderedEntries(RowsOf(Presence));
      var out := CollectEntries(es, PresenceRow);
      return Ok(out);
    }

    // ------------------------------------------------------------ WebAuthn and OAuth state

    /** `put_webauthn_cred`: stored in the credentials table under `user_id/cred_id`. */
    method PutWebauthnCred(userId: string, credId: string, cred: Json) returns (r: Status)
      modifies this
      ensures r == Written(Credentials)
      ensures docs == if r.Ok? then old(docs)[Credentials := old(RowsOf(Credentials))[PairKey(userId, credId) := Doc(cred)]] else old(docs)
      ensures seqs == old(seqs) && rate == old(rate)
    {
      r := Insert(Credentials, PairKey(userId, credId), Doc(cred));
    }

    /** `get_webauthn_cred`. */
    function GetWebauthnCred(userId: string, credId: string): (r: Result<Option<Json>, StoreError>)
      reads this
      ensures Credentials !in readFails && PairKey(userId, credId) !in RowsOf(Credentials) ==> r == Ok(None)
      ensures r.Ok? && r.value.Some? ==> PairKey(userId, credId) in RowsOf(Credentials) && RowsOf(Credentials)[PairKey(userId, credId)] == Doc(r.value.value)
    {
      Get(Credentials, PairKey(userId, credId))
    }

    /** `put_webauthn_reg_state` and `put_webauthn_auth_state` (`t` is the pending-state table). */
    method PutPending(t: Table, userId: string, id: string, state: Json) returns (r: Status)
      requires t == WebauthnReg || t == WebauthnAuth
      modifies this
      ensures r == Written(t)
      ensures docs == if r.Ok? then old(docs)[t := old(RowsOf(t))[PairKey(userId, id) := Doc(state)]] else old(docs)
      ensures seqs == old(seqs) && rate == old(rate)
    {
      r := Insert(t, PairKey(userId, id), Doc(state));
    }

    /** `get_webauthn_reg_state` and `get_webauthn_auth_state`. */
    function GetPending(t: Table, userId: string, id: string): (r: Result<Option<Json>, StoreError>)
      requires t == WebauthnReg || t == WebauthnAuth
      reads this
      ensures t !in readFails && PairKey(userId, id) !in RowsOf(t) ==> r == Ok(None)
      ensures r.Ok? && r.value.Some? ==> PairKey(userId, id) in RowsOf(t) && RowsOf(t)[PairKey(userId, id)] == Doc(r.value.value)
    {
      Get(t, PairKey(userId, id))
    }

    /** `delete_webauthn_reg_state` and `delete_webauthn_auth_state`. */
    method DeletePending(t: Table, userId: string, id: string) returns (r: Status)
      requires t == WebauthnReg || t == WebauthnAuth
      modifies this
      ensures r == Written(t)
      ensures docs == if r.Ok? then old(docs)[t := old(RowsOf(t)) - {PairKey(userId, id)}] else old(docs)
      ensures seqs == old(seqs) && rate == old(rate)
    {
      r := Remove(t, PairKey(userId, id));
    }

    /** `put_oauth_state`. */
    method PutOAuthState(state: string, value: Json) returns (r: Status)
      modifies this
      ensures r == Written(OAuthState)
      ensures docs == if r.Ok? then old(docs)[OAuthState := old(RowsOf(OAuthState))[state := Doc(value)]] else old(docs)
      ensures seqs == old(seqs) && rate == old(rate)
    {
      r := Insert(OAuthState, state, Doc(value));
    }

    /** `get_oauth_state`. */
    function GetOAuthState(state: string): (r: Result<Option<Json>, StoreError>)
      reads this
      ensures OAuthState !in readFails && state !in RowsOf(OAuthState) ==> r == Ok(None)
      ensures r.Ok? && r.value.Some? ==> state in RowsOf(OAuthState) && RowsOf(OAuthState)[state] == Doc(r.value.value)
    {
      Get(OAuthState, state)
    }

    /** `delete_oauth_state`. */
    method DeleteOAuthState(state: string) returns (r: Status)
      modifies this
      ensures r == Written(OAuthState)
      ensures docs == if r.Ok? then old(docs)[OAuthState := old(RowsOf(OAuthState)) - {state}] else old(docs)
      ensures seqs == old(seqs) && rate == old(rate)
    {
      r := Remove(OAuthState, state);
    }

    // ------------------------------------------------------------ refresh tokens

    /** `create_refresh_token`: `{"user_id": user_id, "expiry": expiry}` under the token id. */
    method CreateRefreshToken(tokenId: string, userId: string, expiry: i64) returns (r: Status)
      modifies this
      ensures r == Written(Refresh)
      ensures docs == if r.Ok? then old(docs)[Refresh := old(RowsOf(Refresh))[tokenId := Doc(RefreshDoc(userId, expiry))]] else old(docs)
      ensures r.Ok? ==> GetStr(RowsOf(Refresh)[tokenId].doc, "user_id") == Some(userId)
      ensures r.Ok? ==> GetI64(RowsOf(Refresh)[tokenId].doc, "expiry") == Some(expiry)
      ensures seqs == old(seqs) && rate == old(rate)
    {
      r := Insert(Refresh, tokenId, Doc(RefreshDoc(userId, expiry)));
    }

    /** `get_refresh_token`. */
    function GetRefreshToken(tokenId: string): (r: Result<Option<Json>, StoreError>)
      reads this
      ensures Refresh !in readFails && tokenId !in RowsOf(Refresh) ==> r == Ok(None)
      ensures r.Ok? && r.value.Some? ==> tokenId in RowsOf(Refresh) && RowsOf(Refresh)[tokenId] == Doc(r.value.value)
    {
      Get(Refresh, tokenId)
    }

    /** `revoke_refresh_token`. */
    method RevokeRefreshToken(tokenId: string) returns (r: Status)
      modifies this
      ensures r == Written(Refresh)
      ensures docs == if r.Ok? then old(docs)[Refresh := old(RowsOf(Refresh)) - {tokenId}] else old(docs)
      ensures seqs == old(seqs) && rate == old(rate)
    {
      r := Remove(Refresh, tokenId);
    }

    // ------------------------------------------------------------ rate counters

    /** `incr_rate_counter`: stores and returns the counter plus `delta`, wrapping at 2^64. */
    method IncrRateCounter(key: string, delta: u64) returns (r: Result<u64, StoreError>)
      modifies this
      ensures Rate in writeFails ==> r == Err(Unavailable(Rate)) && rate == old(rate)
      ensures Rate !in writeFails ==>
        && r == Ok(WrappingAdd(old(CounterAt(rate, key)), delta))
        && rate == old(rate)[key := U64ToLe(r.value)]
        && CounterAt(rate, key) == r.value
      ensures docs == old(docs) && seqs == old(seqs)
    {
      if Rate in writeFails {
        return Err(Unavailable(Rate));
      }
      var next := WrappingAdd(CounterAt(rate, key), delta);
      rate := rate[key := U64ToLe(next)];
      CounterAfterStore(old(rate), key, next, key);
      return Ok(next);
    }

    /** `get_rate_counter`. */
    function GetRateCounter(key: string): (r: Result<u64, StoreError>)
      reads this
      ensures r.Err? <==> Rate in readFails
      ensures r.Ok? && key !in rate ==> r.value == 0
      ensures r.Ok? ==> r.value == CounterAt(rate, key)
    {
      if Rate in readFails then Err(Unavailable(Rate)) else Ok(CounterAt(rate, key))
    }

    /** `list_rate_counters`. */
    method ListRateCounters() returns (r: Result<seq<(string, u64)>, StoreError>)
      ensures Rate in readFails ==> r == Err(Unavailable(Rate))
      ensures Rate !in readFails ==> r == Ok(Collect(Ordered(rate), RateRow))
    {
      if Rate in readFails {
        return Err(Unavailable(Rate));
      }
      var es := OrderedEntries(rate);
      var out := CollectEntries(es, RateRow);
      return Ok(out);
    }

    /** `reset_rate_counter`: stores 0. */
    method ResetRateCounter(key: string) returns (r: Status)
      modifies this
      ensures r.Err? <==> Rate in writeFails
      ensures rate == if r.Ok? then old(rate)[key := U64ToLe(0)] else old(rate)
      ensures r.Ok? ==> CounterAt(rate, key) == 0
      ensures docs == old(docs) && seqs == old(seqs)
    {
      if Rate in writeFails {
        return Err(Unavailable(Rate));
      }
      rate := rate[key := U64ToLe(0)];
      CounterAfterStore(old(rate), key, 0, key);
      return Ok(());
    }
  }

  /** The row `create_refresh_token` stores. */
  function RefreshDoc(userId: string, expiry: i64): (j: Json)
    ensures GetStr(j, "user_id") == Some(userId) && GetI64(j, "expiry") == Some(expiry)
  {
    Obj2("user_id", JStr(userId), "expiry", JNum(expiry))
  }
}
