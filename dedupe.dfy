/**
 * `dedupe_admins`, a development endpoint: group the listed users by their
 * stored e-mail, and in every group of two or more keep one user (the one
 * the e-mail's credentials name, else the oldest) and delete the others,
 * recording them in a backup list and repointing the credentials to the
 * kept user.
 */
module Dedupe {
  import opened Wrappers
  import opened Numeric
  import opened Json
  import opened StringOrder
  import opened Storage
  import opened GatewayState
  import opened AuthRoutes
  import opened AdminRoutes

  /** The grouping key: the `email` string, or `""` without one. */
  function EmailKey(u: Json): string
  {
    match GetStr(u, "email") case Some(e) => e case None => ""
  }

  function IdOf(u: Json): Option<string>
  {
    GetStr(u, "id")
  }

  /** The sort key: `created_at` as an `i64`, or 0. */
  function CreatedKey(u: Json): int
  {
    match GetI64(u, "created_at") case Some(n) => n case None => 0
  }

  // ------------------------------------------------------------ grouping

  /** The users with e-mail key `e`, in listing order. */
  function Group(users: seq<Json>, e: string): seq<Json>
  {
    if users == [] then []
    else Group(users[..|users| - 1], e) + (if EmailKey(users[|users| - 1]) == e then [users[|users| - 1]] else [])
  }

  /** Every e-mail key that occurs in `users`. */
  function Emails(users: seq<Json>): set<string>
  {
    if users == [] then {} else Emails(users[..|users| - 1]) + {EmailKey(users[|users| - 1])}
  }

  /** A group holds exactly the users with its key, so every user is in exactly one group. */
  lemma {:induction false} GroupMembers(users: seq<Json>, e: string, u: Json)
    ensures u in Group(users, e) <==> u in users && EmailKey(u) == e
  {
    if users != [] {
      var init := users[..|users| - 1];
      GroupMembers(init, e, u);
      assert users == init + [users[|users| - 1]];
    }
  }

  /** The groups are the non-empty ones: a key has members exactly when it occurs. */
  lemma {:induction false} GroupNonEmpty(users: seq<Json>, e: string)
    ensures Group(users, e) != [] <==> e in Emails(users)
  {
    if users != [] {
      GroupNonEmpty(users[..|users| - 1], e);
    }
  }

  /** Step 1 of `dedupe_admins`: `by_email.entry(email).or_default().push(u)` over the listing. */
  method GroupByEmail(users: seq<Json>) returns (byEmail: map<string, seq<Json>>)
    ensures byEmail.Keys == Emails(users)
    ensures forall e :: e in byEmail ==> byEmail[e] == Group(users, e)
  {
    byEmail := map[];
    for i := 0 to |users|
      invariant byEmail.Keys == Emails(users[..i])
      invariant forall e :: e in byEmail ==> byEmail[e] == Group(users[..i], e)
    {
      assert users[..i + 1][..i] == users[..i];
      var u := users[i];
      var e := EmailKey(u);
      GroupNonEmpty(users[..i], e);
      var existing := if e in byEmail then byEmail[e] else [];
      byEmail := byEmail[e := existing + [u]];
    }
    assert users[..|users|] == users;
  }

  // ------------------------------------------------------------ the stable sort

  /** Inserts `x` before the first element whose key is not smaller, so it stays ahead of equal keys. */
  function InsertByCreated(x: Json, s: seq<Json>): (r: seq<Json>)
    ensures |r| == |s| + 1
    ensures r[0] == if s == [] || CreatedKey(x) <= CreatedKey(s[0]) then x else s[0]
  {
    if s == [] || CreatedKey(x) <= CreatedKey(s[0]) then [x] + s else [s[0]] + InsertByCreated(x, s[1..])
  }

  /** `group.sort_by_key(created_at)`, a stable sort. */
  function SortByCreated(g: seq<Json>): (r: seq<Json>)
    ensures |r| == |g|
  {
    if g == [] then [] else InsertByCreated(g[0], SortByCreated(g[1..]))
  }

  predicate SortedByCreated(s: seq<Json>)
  {
    forall i, j :: 0 <= i < j < |s| ==> CreatedKey(s[i]) <= CreatedKey(s[j])
  }

  lemma {:induction false} InsertPermutes(x: Json, s: seq<Json>)
    ensures multiset(InsertByCreated(x, s)) == multiset(s) + multiset{x}
  {
    if s != [] && CreatedKey(x) > CreatedKey(s[0]) {
      InsertPermutes(x, s[1..]);
      assert s == [s[0]] + s[1..];
    }
  }

  /** A lower bound on the keys of `x` and of `s` bounds the keys after the insertion. */
  lemma {:induction false} InsertKeepsBound(x: Json, s: seq<Json>, b: int)
    requires b <= CreatedKey(x)
    requires forall j :: 0 <= j < |s| ==> b <= CreatedKey(s[j])
    ensures forall k :: 0 <= k < |InsertByCreated(x, s)| ==> b <= CreatedKey(InsertByCreated(x, s)[k])
  {
    if s != [] && CreatedKey(x) > CreatedKey(s[0]) {
      InsertKeepsBound(x, s[1..], b);
      var r := InsertByCreated(x, s);
      assert r == [s[0]] + InsertByCreated(x, s[1..]);
      forall k | 1 <= k < |r|
        ensures b <= CreatedKey(r[k])
      {
        assert r[k] == InsertByCreated(x, s[1..])[k - 1];
      }
    }
  }

  lemma {:induction false} InsertSorted(x: Json, s: seq<Json>)
    requires SortedByCreated(s)
    ensures SortedByCreated(InsertByCreated(x, s))
  {
    if s != [] && CreatedKey(x) > CreatedKey(s[0]) {
      var rest := InsertByCreated(x, s[1..]);
      InsertSorted(x, s[1..]);
      InsertKeepsBound(x, s[1..], CreatedKey(s[0]));
      var r := InsertByCreated(x, s);
      assert r == [s[0]] + rest;
      forall i, j | 0 <= i < j < |r|
        ensures CreatedKey(r[i]) <= CreatedKey(r[j])
      {
        assert r[j] == rest[j - 1];
        if i > 0 {
          assert r[i] == rest[i - 1];
        }
      }
    }
  }

  /** The sort reorders the group and nothing else. */
  lemma {:induction false} SortPermutes(g: seq<Json>)
    ensures multiset(SortByCreated(g)) == multiset(g)
  {
    if g != [] {
      SortPermutes(g[1..]);
      InsertPermutes(g[0], SortByCreated(g[1..]));
      assert g == [g[0]] + g[1..];
    }
  }

  /** The sort orders the group by `created_at`. */
  lemma {:induction false} SortSorts(g: seq<Json>)
    ensures SortedByCreated(SortByCreated(g))
  {
    if g != [] {
      SortSorts(g[1..]);
      InsertSorted(g[0], SortByCreated(g[1..]));
    }
  }

  /** `i` is the first position holding the smallest `created_at` of the group. */
  predicate FirstOldest(g: seq<Json>, i: nat)
  {
    && i < |g|
    && (forall j :: 0 <= j < |g| ==> CreatedKey(g[i]) <= CreatedKey(g[j]))
    && (forall j :: 0 <= j < i ==> CreatedKey(g[j]) > CreatedKey(g[i]))
  }

  /** Stability where it matters: the sorted group starts with the first of the oldest users. */
  lemma {:induction false} SortHead(g: seq<Json>)
    requires g != []
    ensures exists i: nat :: FirstOldest(g, i) && SortByCreated(g)[0] == g[i]
  {
    var t := g[1..];
    if t == [] {
      assert FirstOldest(g, 0);
    } else {
      SortHead(t);
      var i: nat :| FirstOldest(t, i) && SortByCreated(t)[0] == t[i];
      if CreatedKey(g[0]) <= CreatedKey(t[i]) {
        forall j | 0 <= j < |g|
          ensures CreatedKey(g[0]) <= CreatedKey(g[j])
        {
          if j > 0 {
            assert g[j] == t[j - 1];
          }
        }
        assert FirstOldest(g, 0);
      } else {
        forall j | 0 <= j < |g|
          ensures CreatedKey(g[i + 1]) <= CreatedKey(g[j])
        {
          if j > 0 {
            assert g[j] == t[j - 1];
          }
        }
        forall j | 0 <= j < i + 1
          ensures CreatedKey(g[j]) > CreatedKey(g[i + 1])
        {
          if j > 0 {
            assert g[j] == t[j - 1];
          }
        }
        assert FirstOldest(g, i + 1);
      }
    }
  }

  // ------------------------------------------------------------ one group

  predicate HasId(group: seq<Json>, id: string)
  {
    exists i :: 0 <= i < |group| && IdOf(group[i]) == Some(id)
  }

  /** The `user_id` string of a credentials read that found a row. */
  function MappedId(cred: Result<Option<Json>, StoreError>): Option<string>
  {
    if cred.Ok? && cred.value.Some? then GetStr(cred.value.value, "user_id") else None
  }

  /**
   * Step 2 and 3: the kept id, and the group in the order the deletion loop
   * visits it (sorted when the kept id did not come from the credentials).
   */
  function Keep(group: seq<Json>, mapped: Option<string>): (r: (Option<string>, seq<Json>))
    ensures mapped.Some? && HasId(group, mapped.value) ==> r == (mapped, group)
    ensures !(mapped.Some? && HasId(group, mapped.value)) ==>
      r.1 == SortByCreated(group) && r.0 == (if group == [] then None else IdOf(r.1[0]))
  {
    if mapped.Some? && HasId(group, mapped.value) then (mapped, group)
    else
      var sorted := SortByCreated(group);
      (if sorted != [] then IdOf(sorted[0]) else None, sorted)
  }

  /** Without a credentials match, the kept id is the id of the first of the oldest users; the group goes on in sorted order. */
  lemma KeepOldest(group: seq<Json>, mapped: Option<string>)
    requires group != [] && !(mapped.Some? && HasId(group, mapped.value))
    ensures exists i: nat :: FirstOldest(group, i) && Keep(group, mapped).0 == IdOf(group[i])
    ensures multiset(Keep(group, mapped).1) == multiset(group) && SortedByCreated(Keep(group, mapped).1)
  {
    SortHead(group);
    SortPermutes(group);
    SortSorts(group);
  }

  /** Step 4's victims: the members with an id other than the kept one, in visiting order. */
  function Doomed(ordered: seq<Json>, keep: string): seq<Json>
  {
    if ordered == [] then []
    else
      var u := ordered[|ordered| - 1];
      Doomed(ordered[..|ordered| - 1], keep) + (if IdOf(u).Some? && IdOf(u).value != keep then [u] else [])
  }

  /** The doomed are exactly the members with an id that is not the kept one. */
  lemma {:induction false} DoomedMembers(ordered: seq<Json>, keep: string, u: Json)
    ensures u in Doomed(ordered, keep) <==> u in ordered && IdOf(u).Some? && IdOf(u).value != keep
  {
    if ordered != [] {
      var init := ordered[..|ordered| - 1];
      DoomedMembers(init, keep, u);
      assert ordered == init + [ordered[|ordered| - 1]];
    }
  }

  /** The ids `delete_user` is called with. */
  function IdsOf(us: seq<Json>): (ids: seq<string>)
    ensures |ids| == |us|
  {
    if us == [] then [] else IdsOf(us[..|us| - 1]) + [match IdOf(us[|us| - 1]) case Some(id) => id case None => ""]
  }

  /** The kept id is never among the deleted ones. */
  lemma {:induction false} KeptNotDeleted(ordered: seq<Json>, keep: string)
    ensures keep !in IdsOf(Doomed(ordered, keep))
  {
    if ordered != [] {
      var init := ordered[..|ordered| - 1];
      var u := ordered[|ordered| - 1];
      KeptNotDeleted(init, keep);
      if IdOf(u).Some? && IdOf(u).value != keep {
        var a := Doomed(init, keep);
        assert Doomed(ordered, keep) == a + [u];
        assert (a + [u])[..|a + [u]| - 1] == a;
        assert IdsOf(a + [u]) == IdsOf(a) + [IdOf(u).value];
      } else {
        assert Doomed(ordered, keep) == Doomed(init, keep) + [];
        assert Doomed(init, keep) + [] == Doomed(init, keep);
      }
    }
  }

  /** The tables after `delete_user` of each id in turn, each result ignored. */
  function AfterDeletes(d: map<Table, Rows>, wf: set<Table>, ids: seq<string>): map<Table, Rows>
  {
    if ids == [] then d else DeleteUserIn(AfterDeletes(d, wf, ids[..|ids| - 1]), wf, ids[|ids| - 1])
  }

  /** The deletions remove exactly the given ids from the users table (when it takes writes) and touch no other table but the credentials. */
  lemma {:induction false} AfterDeletesUsers(d: map<Table, Rows>, wf: set<Table>, ids: seq<string>)
    ensures Users in wf ==> AfterDeletes(d, wf, ids) == d
    ensures Users !in wf ==> RowsIn(AfterDeletes(d, wf, ids), Users) == RowsIn(d, Users) - set i | 0 <= i < |ids| :: ids[i]
    ensures forall t :: t != Users && t != Credentials ==> RowsIn(AfterDeletes(d, wf, ids), t) == RowsIn(d, t)
  {
    if ids != [] {
      var init := ids[..|ids| - 1];
      AfterDeletesUsers(d, wf, init);
      if Users !in wf {
        var s' := Elems(init);
        IdsSnoc(ids);
        assert RowsIn(d, Users) - s' - {ids[|ids| - 1]} == RowsIn(d, Users) - (s' + {ids[|ids| - 1]});
      }
    }
  }

  /** The ids a sequence holds. */
  function Elems(ids: seq<string>): set<string>
  {
    set i | 0 <= i < |ids| :: ids[i]
  }

  /** The ids of a sequence are those before its last element, and the last. */
  lemma IdsSnoc(ids: seq<string>)
    requires ids != []
    ensures Elems(ids) == Elems(ids[..|ids| - 1]) + {ids[|ids| - 1]}
  {
    var init := ids[..|ids| - 1];
    forall x | x in Elems(ids) ensures x in Elems(init) + {ids[|ids| - 1]} {
      var i :| 0 <= i < |ids| && ids[i] == x;
      if i < |init| {
        assert init[i] == x;
      }
    }
    forall x | x in Elems(init) ensures x in Elems(ids) {
      var i :| 0 <= i < |init| && init[i] == x;
      assert ids[i] == x;
    }
  }

  /** Step 5: point the e-mail's credentials at the kept id when they name another (`""` standing for no `user_id`). */
  function Repointed(d: map<Table, Rows>, rf: set<Table>, wf: set<Table>, email: string, keep: string): map<Table, Rows>
  {
    match ReadRow(d, rf, Credentials, email)
    case Ok(Some(cred)) =>
      var current := match GetStr(cred, "user_id") case Some(u) => u case None => "";
      if current != keep then WriteRow(d, wf, Credentials, email, Insert(cred, "user_id", JStr(keep))).0 else d
    case _ => d
  }

  /** The backup list's entry for one group. */
  function BackupEntry(email: string, keep: string, deleted: seq<Json>): Json
  {
    JObj(map["email" := JStr(email), "kept" := JStr(keep), "deleted" := JArr(deleted)])
  }

  /** One group of `dedupe_admins` on the tables: the tables after it and the backup entry it records, if any. */
  function DedupeGroup(d: map<Table, Rows>, rf: set<Table>, wf: set<Table>, email: string, group: seq<Json>)
    : (r: (map<Table, Rows>, Option<Json>))
    ensures |group| <= 1 ==> r == (d, None)
    ensures forall t :: t != Users && t != Credentials ==> RowsIn(r.0, t) == RowsIn(d, t)
  {
    if |group| <= 1 then (d, None)
    else
      var (keep, ordered) := Keep(group, MappedId(ReadRow(d, rf, Credentials, email)));
      if keep.None? then (d, None)
      else
        var doomed := Doomed(ordered, keep.value);
        var d1 := AfterDeletes(d, wf, IdsOf(doomed));
        AfterDeletesUsers(d, wf, IdsOf(doomed));
        if doomed == [] then (d1, None)
        else (Repointed(d1, rf, wf, email, keep.value), Some(BackupEntry(email, keep.value, doomed)))
  }

  /** Repointing writes the credentials table only. */
  lemma RepointedTables(d: map<Table, Rows>, rf: set<Table>, wf: set<Table>, email: string, keep: string)
    ensures forall t :: t != Credentials ==> RowsIn(Repointed(d, rf, wf, email, keep), t) == RowsIn(d, t)
  {
  }

  /** After repointing without faults, credentials that are an object name the kept id (`""` standing for no `user_id`). */
  lemma RepointedNamesKept(d: map<Table, Rows>, email: string, keep: string, c: Json)
    requires ReadRow(Repointed(d, {}, {}, email, keep), {}, Credentials, email) == Ok(Some(c)) && c.JObj?
    ensures GetStr(c, "user_id") == Some(keep) || (keep == "" && GetStr(c, "user_id").None?)
  {
    var before := ReadRow(d, {}, Credentials, email);
    if before.Ok? && before.value.Some? {
      var cred := before.value.value;
      var current := match GetStr(cred, "user_id") case Some(u) => u case None => "";
      if current != keep {
        assert ReadRow(Repointed(d, {}, {}, email, keep), {}, Credentials, email) == Ok(Some(Insert(cred, "user_id", JStr(keep))));
      } else {
        assert c == cred;
      }
    }
  }

  /** The users a processed group leaves: the old rows minus the deleted ids. */
  lemma DedupeGroupUsers(d: map<Table, Rows>, rf: set<Table>, email: string, group: seq<Json>)
    requires |group| > 1
    ensures var (keep, ordered) := Keep(group, MappedId(ReadRow(d, rf, Credentials, email)));
      keep.Some? ==>
        var ids := IdsOf(Doomed(ordered, keep.value));
        RowsIn(DedupeGroup(d, rf, {}, email, group).0, Users) == RowsIn(d, Users) - set i | 0 <= i < |ids| :: ids[i]
  {
    var (keep, ordered) := Keep(group, MappedId(ReadRow(d, rf, Credentials, email)));
    if keep.Some? {
      var ids := IdsOf(Doomed(ordered, keep.value));
      var d1 := AfterDeletes(d, {}, ids);
      AfterDeletesUsers(d, {}, ids);
      RepointedTables(d1, rf, {}, email, keep.value);
    }
  }

  /**
   * A processed group, with no storage faults: the kept user's row is as it
   * was, every other member with an id is gone, and the e-mail's credentials,
   * when they are an object, name the kept id.
   */
  lemma DedupeGroupEffect(d: map<Table, Rows>, email: string, group: seq<Json>)
    requires |group| > 1
    ensures var (keep, ordered) := Keep(group, MappedId(ReadRow(d, {}, Credentials, email)));
      var (after, entry) := DedupeGroup(d, {}, {}, email, group);
      keep.Some? ==>
        && (keep.value in RowsIn(d, Users) ==> keep.value in RowsIn(after, Users) && RowsIn(after, Users)[keep.value] == RowsIn(d, Users)[keep.value])
        && (forall u :: u in group && IdOf(u).Some? && IdOf(u).value != keep.value ==> IdOf(u).value !in RowsIn(after, Users))
        && (entry.Some? ==>
              && entry.value == BackupEntry(email, keep.value, Doomed(ordered, keep.value))
              && forall c: Json :: ReadRow(after, {}, Credentials, email) == Ok(Some(c)) && c.JObj? ==>
                   GetStr(c, "user_id") == Some(keep.value) || (keep.value == "" && GetStr(c, "user_id").None?))
  {
    var (keep, ordered) := Keep(group, MappedId(ReadRow(d, {}, Credentials, email)));
    if keep.Some? {
      var r := DedupeGroup(d, {}, {}, email, group);
      DedupeGroupRemovesOthers(d, email, group, keep.value, ordered, r.0);
      DedupeGroupRecordsKept(d, email, group, keep.value, ordered, r);
    }
  }

  /** The user rows a fault-free group step leaves: the kept one as it was, no other member with an id. */
  lemma DedupeGroupRemovesOthers(d: map<Table, Rows>, email: string, group: seq<Json>, k: string, ordered: seq<Json>,
                                 after: map<Table, Rows>)
    requires |group| > 1
    requires (Some(k), ordered) == Keep(group, MappedId(ReadRow(d, {}, Credentials, email)))
    requires after == DedupeGroup(d, {}, {}, email, group).0
    ensures k in RowsIn(d, Users) ==> k in RowsIn(after, Users) && RowsIn(after, Users)[k] == RowsIn(d, Users)[k]
    ensures forall u :: u in group && IdOf(u).Some? && IdOf(u).value != k ==> IdOf(u).value !in RowsIn(after, Users)
  {
    var doomed := Doomed(ordered, k);
    DedupeGroupUsers(d, {}, email, group);
    KeptNotDeleted(ordered, k);
    forall u | u in group && IdOf(u).Some? && IdOf(u).value != k
      ensures IdOf(u).value !in RowsIn(after, Users)
    {
      DoomedAmong(group, ordered, k, u);
      var j :| 0 <= j < |doomed| && doomed[j] == u;
      IdAt(doomed, j);
    }
  }

  /** The backup entry of a fault-free group step, and the credentials it leaves naming the kept id. */
  lemma DedupeGroupRecordsKept(d: map<Table, Rows>, email: string, group: seq<Json>, k: string, ordered: seq<Json>,
                               r: (map<Table, Rows>, Option<Json>))
    requires |group| > 1
    requires (Some(k), ordered) == Keep(group, MappedId(ReadRow(d, {}, Credentials, email)))
    requires r == DedupeGroup(d, {}, {}, email, group)
    ensures r.1.Some? ==>
      && r.1.value == BackupEntry(email, k, Doomed(ordered, k))
      && forall c: Json :: ReadRow(r.0, {}, Credentials, email) == Ok(Some(c)) && c.JObj? ==>
           GetStr(c, "user_id") == Some(k) || (k == "" && GetStr(c, "user_id").None?)
  {
    var ids := IdsOf(Doomed(ordered, k));
    if r.1.Some? {
      forall c: Json | ReadRow(r.0, {}, Credentials, email) == Ok(Some(c)) && c.JObj?
        ensures GetStr(c, "user_id") == Some(k) || (k == "" && GetStr(c, "user_id").None?)
      {
        RepointedNamesKept(AfterDeletes(d, {}, ids), email, k, c);
      }
    }
  }

  /** A member of the group with an id other than the kept one is among the doomed, in either visiting order. */
  lemma DoomedAmong(group: seq<Json>, ordered: seq<Json>, k: string, u: Json)
    requires ordered == group || ordered == SortByCreated(group)
    requires u in group && IdOf(u).Some? && IdOf(u).value != k
    ensures u in Doomed(ordered, k)
  {
    if ordered != group {
      SortPermutes(group);
      assert u in multiset(group);
    }
    DoomedMembers(ordered, k, u);
  }

  lemma {:induction false} IdAt(us: seq<Json>, j: nat)
    requires j < |us| && IdOf(us[j]).Some?
    ensures IdsOf(us)[j] == IdOf(us[j]).value
  {
    if j < |us| - 1 {
      IdAt(us[..|us| - 1], j);
    }
  }

  // ------------------------------------------------------------ the endpoint

  /** Step 4's loop: `delete_user` for each doomed member in visiting order, results ignored, the member recorded. */
  method DeleteMembers(store: Store, ordered: seq<Json>, keep: string) returns (deleted: seq<Json>)
    modifies store
    ensures deleted == Doomed(ordered, keep)
    ensures store.docs == AfterDeletes(old(store.docs), store.writeFails, IdsOf(deleted))
    ensures store.seqs == old(store.seqs) && store.rate == old(store.rate)
  {
    deleted := [];
    for i := 0 to |ordered|
      invariant deleted == Doomed(ordered[..i], keep)
      invariant store.docs == AfterDeletes(old(store.docs), store.writeFails, IdsOf(deleted))
      invariant store.seqs == old(store.seqs) && store.rate == old(store.rate)
    {
      assert ordered[..i + 1][..i] == ordered[..i];
      var u := ordered[i];
      var id := IdOf(u);
      if id.Some? && id.value != keep {
        ghost var before := deleted;
        deleted := deleted + [u];
        assert deleted[..|deleted| - 1] == before;
        assert IdsOf(deleted) == IdsOf(before) + [id.value];
        assert IdsOf(deleted)[..|IdsOf(deleted)| - 1] == IdsOf(before);
        var _ := store.DeleteUser(id.value);
      } else {
        assert Doomed(ordered[..i + 1], keep) == Doomed(ordered[..i], keep) + [];
        assert Doomed(ordered[..i], keep) + [] == Doomed(ordered[..i], keep);
      }
    }
    assert ordered[..|ordered|] == ordered;
  }

  /** Steps 2 and 3 of one group: the id the credentials name if it is in the group, else the oldest member's. */
  method ChooseKeep(store: Store, email: string, group: seq<Json>) returns (keep: Option<string>, ordered: seq<Json>)
    ensures (keep, ordered) == Keep(group, MappedId(ReadRow(store.docs, store.readFails, Credentials, email)))
  {
    var cred := store.GetCredentials(email);
    var mapped: Option<string> := None;
    if cred.Ok? && cred.value.Some? {
      mapped := GetStr(cred.value.value, "user_id");
    }
    keep := None;
    ordered := group;
    if mapped.Some? && HasId(group, mapped.value) {
      keep := mapped;
    }
    if keep.None? {
      ordered := SortByCreated(group);
      if ordered != [] {
        keep := IdOf(ordered[0]);
      }
    }
  }

  /** Step 5: re-read the credentials and point them at the kept id unless they already do. */
  method Repoint(store: Store, email: string, keep: string)
    modifies store
    ensures store.docs == Repointed(old(store.docs), store.readFails, store.writeFails, email, keep)
    ensures store.seqs == old(store.seqs) && store.rate == old(store.rate)
  {
    var again := store.GetCredentials(email);
    if again.Ok? && again.value.Some? {
      var c := again.value.value;
      var current := match GetStr(c, "user_id") case Some(u) => u case None => "";
      if current != keep {
        var _ := store.PutCredentials(email, Insert(c, "user_id", JStr(keep)));
      }
    }
  }

  /** One pass of the group loop of `dedupe_admins`. */
  method DedupeGroupStep(store: Store, email: string, group: seq<Json>) returns (entry: Option<Json>)
    modifies store
    ensures (store.docs, entry) == DedupeGroup(old(store.docs), store.readFails, store.writeFails, email, group)
    ensures store.seqs == old(store.seqs) && store.rate == old(store.rate)
  {
    if |group| <= 1 {
      return None;
    }
    var keep, ordered := ChooseKeep(store, email, group);
    if keep.None? {
      return None;
    }
    var deleted := DeleteMembers(store, ordered, keep.value);
    if deleted == [] {
      return None;
    }
    entry := Some(BackupEntry(email, keep.value, deleted));
    Repoint(store, email, keep.value);
  }

  /** The tables and the backup list after the groups of `users` are processed in the order `order`. */
  function RunGroups(d: map<Table, Rows>, rf: set<Table>, wf: set<Table>, users: seq<Json>, order: seq<string>)
    : (r: (map<Table, Rows>, seq<Json>))
    ensures |r.1| <= |order|
  {
    if order == [] then (d, [])
    else
      var (d1, backup) := RunGroups(d, rf, wf, users, order[..|order| - 1]);
      var email := order[|order| - 1];
      var (d2, entry) := DedupeGroup(d1, rf, wf, email, Group(users, email));
      (d2, backup + OptionToSeq(entry))
  }

  /** One group only ever removes user rows: every row left is an old row, unchanged, and only the two user tables change. */
  lemma DedupeGroupShrinksUsers(d: map<Table, Rows>, rf: set<Table>, wf: set<Table>, email: string, group: seq<Json>)
    ensures var after := DedupeGroup(d, rf, wf, email, group).0;
      forall k :: k in RowsIn(after, Users) ==> k in RowsIn(d, Users) && RowsIn(after, Users)[k] == RowsIn(d, Users)[k]
  {
    if |group| > 1 {
      var (keep, ordered) := Keep(group, MappedId(ReadRow(d, rf, Credentials, email)));
      if keep.Some? {
        var ids := IdsOf(Doomed(ordered, keep.value));
        var d1 := AfterDeletes(d, wf, ids);
        AfterDeletesUsers(d, wf, ids);
        RepointedTables(d1, rf, wf, email, keep.value);
      }
    }
  }

  /** Whatever the order of the groups, `dedupe_admins` only removes user rows and leaves every other table but the credentials alone. */
  lemma {:induction false} RunGroupsShrinksUsers(d: map<Table, Rows>, rf: set<Table>, wf: set<Table>, users: seq<Json>, order: seq<string>)
    ensures var after := RunGroups(d, rf, wf, users, order).0;
      && (forall k :: k in RowsIn(after, Users) ==> k in RowsIn(d, Users) && RowsIn(after, Users)[k] == RowsIn(d, Users)[k])
      && (forall t :: t != Users && t != Credentials ==> RowsIn(after, t) == RowsIn(d, t))
  {
    if order != [] {
      var init := order[..|order| - 1];
      RunGroupsShrinksUsers(d, rf, wf, users, init);
      var d1 := RunGroups(d, rf, wf, users, init).0;
      var email := order[|order| - 1];
      DedupeGroupShrinksUsers(d1, rf, wf, email, Group(users, email));
    }
  }

  function DedupeReply(groups: nat, backupPath: string): Json
  {
    JObj(map["ok" := JBool(true), "deleted_groups" := JNum(groups), "backup" := JStr(backupPath)])
  }

  /** `./data/admin_dedupe_backup_<stamp>.json`, the backup file's path for a UTC time stamp `stamp`. */
  function BackupPath(stamp: string): string
  {
    "./data/admin_dedupe_backup_" + stamp + ".json"
  }

  /**
   * `POST /auth/dev/dedupe_admins`. The groups are visited in the order of
   * the grouping map, which no caller may rely on; `order` is the order this
   * run visited them in.
   */
  method DedupeAdmins(store: Store, stamp: string) returns (r: Result<Json, ApiError>, ghost order: seq<string>)
    modifies store
    ensures old(Listing(store)).Err? ==> r == Err(StoreFailure(old(Listing(store)).error)) && store.docs == old(store.docs)
    ensures old(Listing(store)).Ok? ==>
      var users := old(Listing(store)).value;
      var (after, backup) := RunGroups(old(store.docs), store.readFails, store.writeFails, users, order);
      && (forall e :: e in order <==> e in Emails(users))
      && (forall i, j :: 0 <= i < j < |order| ==> order[i] != order[j])
      && store.docs == after
      && r == Ok(DedupeReply(|backup|, BackupPath(stamp)))
    ensures store.seqs == old(store.seqs) && store.rate == old(store.rate)
  {
    var listed := store.ListUsers();
    if listed.Err? {
      return Err(StoreFailure(listed.error)), [];
    }
    var users := listed.value;
    var backup;
    backup, order := DedupeListed(store, users);
    r := Ok(DedupeReply(|backup|, BackupPath(stamp)));
  }

  /** The loop of `dedupe_admins` over the e-mail groups of the listed users, in the map's iteration order. */
  method DedupeListed(store: Store, users: seq<Json>) returns (backup: seq<Json>, ghost order: seq<string>)
    modifies store
    ensures forall e :: e in order <==> e in Emails(users)
    ensures forall i, j :: 0 <= i < j < |order| ==> order[i] != order[j]
    ensures (store.docs, backup) == RunGroups(old(store.docs), store.readFails, store.writeFails, users, order)
    ensures store.seqs == old(store.seqs) && store.rate == old(store.rate)
  {
    var byEmail := GroupByEmail(users);
    var remaining := byEmail.Keys;
    backup := [];
    order := [];
    while remaining != {}
      invariant remaining <= byEmail.Keys
      invariant forall e :: e in order <==> e in byEmail.Keys && e !in remaining
      invariant forall i, j :: 0 <= i < j < |order| ==> order[i] != order[j]
      invariant (store.docs, backup) == RunGroups(old(store.docs), store.readFails, store.writeFails, users, order)
      invariant store.seqs == old(store.seqs) && store.rate == old(store.rate)
      decreases remaining
    {
      var email :| email in remaining;
      backup := DedupeNext(store, users, email, byEmail[email], backup, old(store.docs), order);
      order := order + [email];
      remaining := remaining - {email};
    }
  }

  /** One turn of the loop: the group of `email` is deduplicated and its backup entry, if any, appended. */
  method DedupeNext(store: Store, users: seq<Json>, email: string, group: seq<Json>, backup0: seq<Json>,
                    ghost docs0: map<Table, Rows>, ghost order: seq<string>) returns (backup: seq<Json>)
    requires group == Group(users, email)
    requires (store.docs, backup0) == RunGroups(docs0, store.readFails, store.writeFails, users, order)
    modifies store
    ensures (store.docs, backup) == RunGroups(docs0, store.readFails, store.writeFails, users, order + [email])
    ensures store.seqs == old(store.seqs) && store.rate == old(store.rate)
  {
    var entry := DedupeGroupStep(store, email, group);
    backup := backup0 + OptionToSeq(entry);
    assert (order + [email])[..|order|] == order;
  }
}
