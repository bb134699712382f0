/**
 * The admin endpoints: list every user, promote a user to admin, demote an
 * admin to user, delete a non-admin user. Each runs the admin guard first;
 * demotion and deletion refuse to touch the requester, demotion refuses to
 * remove the last admin it can count, deletion refuses to remove an admin.
 */
module AdminRoutes {
  import opened Wrappers
  import opened Json
  import opened StringOrder
  import opened Storage
  import opened GatewayState
  import opened AuthRoutes

  const NO_CONTENT: nat := 204

  predicate IsAdmin(user: Json)
  {
    GetStr(user, "role") == Some("admin")
  }

  function StoreFailure(e: StoreError): ApiError
  {
    ApiError(INTERNAL_SERVER_ERROR, StoreErrorText(e))
  }

  const ALREADY_ADMIN: Json := Obj2("ok", JBool(true), "already_admin", JBool(true))
  const ALREADY_USER: Json := Obj2("ok", JBool(true), "already_user", JBool(true))

  function PromotedReply(id: string): Json
  {
    Obj2("ok", JBool(true), "promoted", JStr(id))
  }

  function DemotedReply(id: string): Json
  {
    Obj2("ok", JBool(true), "demoted", JStr(id))
  }

  /** A role change's reply, and the user document it puts, if it puts one. */
  datatype Outcome = Outcome(reply: Result<Json, ApiError>, write: Option<Json>)

  /** `GET /api/admin/users`: the guard, then every listed user as a JSON array. */
  method ListUsers(store: Store, h: Headers, verify: Verifier) returns (r: Result<Json, ApiError>)
    ensures RequireAdmin(store, h, verify).Err? ==> r == Err(RequireAdmin(store, h, verify).error)
    ensures RequireAdmin(store, h, verify).Ok? && Listing(store).Err? ==> r == Err(StoreFailure(Listing(store).error))
    ensures RequireAdmin(store, h, verify).Ok? && Listing(store).Ok? ==> r == Ok(JArr(Listing(store).value))
  {
    var guard := RequireAdmin(store, h, verify);
    if guard.Err? {
      return Err(guard.error);
    }
    var users := store.ListUsers();
    match users {
      case Ok(us) => return Ok(JArr(us));
      case Err(e) => return Err(StoreFailure(e));
    }
  }

  // ------------------------------------------------------------ promote

  /**
   * `POST /api/admin/users/{id}/promote` given the guard's result, the
   * target's lookup and whether the users table takes a write: only an
   * admin's request for an existing non-admin target writes, and what it
   * writes has role `admin` and is otherwise unchanged.
   */
  function Promotion(guard: Result<string, ApiError>, userId: string, found: Result<Option<Json>, StoreError>, writable: bool): (o: Outcome)
    ensures guard.Err? ==> o == Outcome(Err(guard.error), None)
    ensures o.write.Some? <==> guard.Ok? && found.Ok? && found.value.Some? && !IsAdmin(found.value.value)
    ensures o.write.Some? && found.value.value.JObj? ==>
      IsAdmin(o.write.value) && forall k :: k != "role" ==> Get(o.write.value, k) == Get(found.value.value, k)
    ensures o.reply.Ok? <==> guard.Ok? && found.Ok? && found.value.Some? && (IsAdmin(found.value.value) || writable)
    ensures guard.Ok? && found == Ok(None) ==> o.reply == Err(ApiError(NOT_FOUND, "user not found"))
    ensures guard.Ok? && found.Ok? && found.value.Some? && IsAdmin(found.value.value) ==> o.reply == Ok(ALREADY_ADMIN)
    ensures o.write.Some? && writable ==> o.reply == Ok(PromotedReply(userId))
  {
    if guard.Err? then Outcome(Err(guard.error), None)
    else match found
      case Err(e) => Outcome(Err(StoreFailure(e)), None)
      case Ok(None) => Outcome(Err(ApiError(NOT_FOUND, "user not found")), None)
      case Ok(Some(target)) =>
        if IsAdmin(target) then Outcome(Ok(ALREADY_ADMIN), None)
        else
          var promoted := Insert(target, "role", JStr("admin"));
          Outcome(if writable then Ok(PromotedReply(userId)) else Err(StoreFailure(Unavailable(Users))), Some(promoted))
  }

  /** Promoting an object twice: the second request finds an admin and writes nothing. */
  lemma PromoteTwice(guard: Result<string, ApiError>, userId: string, target: Json, writable: bool)
    requires guard.Ok? && target.JObj? && !IsAdmin(target)
    ensures var first := Promotion(guard, userId, Ok(Some(target)), writable);
      && first.write.Some?
      && Promotion(guard, userId, Ok(Some(first.write.value)), writable) == Outcome(Ok(ALREADY_ADMIN), None)
  {
  }

  /** The users table after putting `o.write` under `userId`, when the write goes through. */
  function AfterWrite(docs: map<Table, Rows>, rows: Rows, userId: string, o: Outcome, writable: bool): map<Table, Rows>
  {
    if o.write.Some? && writable then docs[Users := rows[userId := Doc(o.write.value)]] else docs
  }

  method Promote(store: Store, h: Headers, verify: Verifier, userId: string) returns (r: Result<Json, ApiError>)
    modifies store
    ensures var o := Promotion(old(RequireAdmin(store, h, verify)), userId, old(store.GetUser(userId)), Users !in store.writeFails);
      && r == o.reply
      && store.docs == AfterWrite(old(store.docs), old(store.RowsOf(Users)), userId, o, Users !in store.writeFails)
    ensures store.seqs == old(store.seqs) && store.rate == old(store.rate)
  {
    var guard := RequireAdmin(store, h, verify);
    if guard.Err? {
      return Err(guard.error);
    }
    var found := store.GetUser(userId);
    match found {
      case Ok(Some(target)) =>
        if GetStr(target, "role") == Some("admin") {
          return Ok(ALREADY_ADMIN);
        }
        var promoted := Insert(target, "role", JStr("admin"));
        var put := store.PutUser(userId, promoted);
        if put.Err? {
          return Err(StoreFailure(put.error));
        }
        return Ok(PromotedReply(userId));
      case Ok(None) =>
        return Err(ApiError(NOT_FOUND, "user not found"));
      case Err(e) =>
        return Err(StoreFailure(e));
    }
  }

  // ------------------------------------------------------------ counting admins

  /** The demote handler's `filter(role == "admin").count()` over the listed users. */
  function AdminCount(users: seq<Json>): nat
  {
    if users == [] then 0 else AdminCount(users[..|users| - 1]) + (if IsAdmin(users[|users| - 1]) then 1 else 0)
  }

  /** The keys of the user rows holding an admin document. */
  function AdminKeys(rows: Rows): set<string>
  {
    set k | k in rows && rows[k].Doc? && IsAdmin(rows[k].doc)
  }

  function AdminKeysIn(es: seq<(string, Blob)>): (ks: set<string>)
    ensures forall k :: k in ks ==> exists i :: 0 <= i < |es| && es[i].0 == k
  {
    if es == [] then {}
    else
      var last := es[|es| - 1];
      var init := AdminKeysIn(es[..|es| - 1]);
      assert forall i :: 0 <= i < |es| - 1 ==> es[..|es| - 1][i] == es[i];
      init + (if last.1.Doc? && IsAdmin(last.1.doc) then {last.0} else {})
  }

  lemma {:induction false} AdminCountAppend(a: seq<Json>, b: seq<Json>)
    ensures AdminCount(a + b) == AdminCount(a) + AdminCount(b)
  {
    if b == [] {
      assert a + b == a;
    } else {
      assert (a + b)[..|a + b| - 1] == a + b[..|b| - 1];
      AdminCountAppend(a, b[..|b| - 1]);
    }
  }

  /** In strictly ascending entries the last key occurs nowhere before. */
  lemma LastKeyFresh(es: seq<(string, Blob)>)
    requires KeysSorted(es) && es != []
    ensures forall i :: 0 <= i < |es| - 1 ==> es[i].0 != es[|es| - 1].0
  {
    var n := |es| - 1;
    forall i | 0 <= i < n
      ensures es[i].0 != es[n].0
    {
      LtIrreflexive(es[n].0);
      assert Lt(es[i].0, es[n].0);
    }
  }

  /** Whether the last entry holds an admin document. */
  predicate LastIsAdmin(es: seq<(string, Blob)>)
    requires es != []
  {
    es[|es| - 1].1.Doc? && IsAdmin(es[|es| - 1].1.doc)
  }

  lemma KeysSortedInit(es: seq<(string, Blob)>)
    requires KeysSorted(es) && es != []
    ensures KeysSorted(es[..|es| - 1])
  {
    var init := es[..|es| - 1];
    forall i, j | 0 <= i < j < |init|
      ensures Lt(init[i].0, init[j].0)
    {
      assert init[i] == es[i] && init[j] == es[j];
    }
  }

  lemma AdminCountLast(es: seq<(string, Blob)>)
    requires es != []
    ensures AdminCount(Collect(es, UserDoc)) == AdminCount(Collect(es[..|es| - 1], UserDoc)) + (if LastIsAdmin(es) then 1 else 0)
  {
    var last := es[|es| - 1];
    var picked := OptionToSeq(UserDoc(last.0, last.1));
    assert Collect(es, UserDoc) == Collect(es[..|es| - 1], UserDoc) + picked;
    AdminCountAppend(Collect(es[..|es| - 1], UserDoc), picked);
    if last.1.Doc? {
      assert picked == [last.1.doc];
      assert picked[..0] == [];
    } else {
      assert picked == [];
    }
  }

  lemma AdminKeysLast(es: seq<(string, Blob)>)
    requires KeysSorted(es) && es != []
    ensures |AdminKeysIn(es)| == |AdminKeysIn(es[..|es| - 1])| + (if LastIsAdmin(es) then 1 else 0)
  {
    var init := es[..|es| - 1];
    var last := es[|es| - 1];
    LastKeyFresh(es);
    assert last.0 !in AdminKeysIn(init) by {
      forall i | 0 <= i < |init|
        ensures init[i].0 != last.0
      {
        assert init[i] == es[i];
      }
    }
    assert AdminKeysIn(es) == AdminKeysIn(init) + (if LastIsAdmin(es) then {last.0} else {});
  }

  /** Over entries with distinct keys, the listed admins are as many as the keys holding one. */
  lemma {:induction false} AdminCountEntries(es: seq<(string, Blob)>)
    requires KeysSorted(es)
    ensures AdminCount(Collect(es, UserDoc)) == |AdminKeysIn(es)|
  {
    if es != [] {
      KeysSortedInit(es);
      AdminCountEntries(es[..|es| - 1]);
      AdminCountLast(es);
      AdminKeysLast(es);
    }
  }

  lemma AdminKeysListed(es: seq<(string, Blob)>, rows: Rows)
    requires Lists(es, rows)
    ensures AdminKeysIn(es) == AdminKeys(rows)
    decreases |es|
  {
    if es != [] {
      var init := es[..|es| - 1];
      var last := es[|es| - 1];
      forall k | k in AdminKeysIn(es)
        ensures k in AdminKeys(rows)
      {
        AdminKeysInSound(es, rows, k);
      }
      forall k | k in AdminKeys(rows)
        ensures k in AdminKeysIn(es)
      {
        var i :| 0 <= i < |es| && es[i].0 == k;
        AdminKeysInComplete(es, i);
      }
    }
  }

  lemma {:induction false} AdminKeysInSound(es: seq<(string, Blob)>, rows: Rows, k: string)
    requires forall i :: 0 <= i < |es| ==> es[i].0 in rows && es[i].1 == rows[es[i].0]
    requires k in AdminKeysIn(es)
    ensures k in AdminKeys(rows)
  {
    var init := es[..|es| - 1];
    var last := es[|es| - 1];
    if k !in AdminKeysIn(init) {
      assert k == last.0;
    } else {
      assert forall i :: 0 <= i < |init| ==> init[i] == es[i];
      AdminKeysInSound(init, rows, k);
    }
  }

  lemma {:induction false} AdminKeysInComplete(es: seq<(string, Blob)>, i: nat)
    requires i < |es| && es[i].1.Doc? && IsAdmin(es[i].1.doc)
    ensures es[i].0 in AdminKeysIn(es)
  {
    var init := es[..|es| - 1];
    if i < |es| - 1 {
      assert init[i] == es[i];
      AdminKeysInComplete(init, i);
    }
  }

  /** The demote handler's count over `list_users` is the number of stored admin documents. */
  lemma AdminCountIsRows(rows: Rows)
    ensures AdminCount(Collect(Ordered(rows), UserDoc)) == |AdminKeys(rows)|
  {
    OrderedFacts(rows);
    AdminCountEntries(Ordered(rows));
    AdminKeysListed(Ordered(rows), rows);
  }

  // ------------------------------------------------------------ demote

  /**
   * `POST /api/admin/users/{id}/demote` given the guard's result, the
   * target's lookup, the user listing and whether the users table takes a
   * write: the requester never demotes themself, and when the listing is
   * readable a demotion happens only with at least two admins listed.
   */
  function Demotion(guard: Result<string, ApiError>, userId: string, found: Result<Option<Json>, StoreError>,
                    listing: Result<seq<Json>, StoreError>, writable: bool): (o: Outcome)
    ensures guard.Err? ==> o == Outcome(Err(guard.error), None)
    ensures guard.Ok? && guard.value == userId ==> o == Outcome(Err(ApiError(BAD_REQUEST, "cannot demote your own admin account")), None)
    ensures o.write.Some? <==>
      (&& guard.Ok? && guard.value != userId && found.Ok? && found.value.Some? && IsAdmin(found.value.value)
       && (listing.Ok? ==> AdminCount(listing.value) >= 2))
    ensures o.write.Some? && found.value.value.JObj? ==>
      GetStr(o.write.value, "role") == Some("user") && forall k :: k != "role" ==> Get(o.write.value, k) == Get(found.value.value, k)
    ensures !o.write.Some? && guard.Ok? && guard.value != userId && found.Ok? && found.value.Some? && IsAdmin(found.value.value) ==>
      o.reply == Err(ApiError(BAD_REQUEST, "cannot demote the last admin"))
    ensures guard.Ok? && guard.value != userId && found.Ok? && found.value.Some? && !IsAdmin(found.value.value) ==>
      o.reply == Ok(ALREADY_USER)
    ensures o.write.Some? ==> o.reply == if writable then Ok(DemotedReply(userId)) else Err(StoreFailure(Unavailable(Users)))
  {
    if guard.Err? then Outcome(Err(guard.error), None)
    else if guard.value == userId then Outcome(Err(ApiError(BAD_REQUEST, "cannot demote your own admin account")), None)
    else match found
      case Err(e) => Outcome(Err(StoreFailure(e)), None)
      case Ok(None) => Outcome(Err(ApiError(NOT_FOUND, "user not found")), None)
      case Ok(Some(target)) =>
        if !IsAdmin(target) then Outcome(Ok(ALREADY_USER), None)
        else if listing.Ok? && AdminCount(listing.value) <= 1 then
          Outcome(Err(ApiError(BAD_REQUEST, "cannot demote the last admin")), None)
        else
          var demoted := Insert(target, "role", JStr("user"));
          Outcome(if writable then Ok(DemotedReply(userId)) else Err(StoreFailure(Unavailable(Users))), Some(demoted))
  }

  /** With a readable users table, a demotion leaves at least one admin document stored. */
  lemma DemotionKeepsAnAdmin(rows: Rows, guard: Result<string, ApiError>, userId: string, writable: bool)
    requires userId in rows && rows[userId].Doc?
    ensures var o := Demotion(guard, userId, Ok(Some(rows[userId].doc)), Ok(Collect(Ordered(rows), UserDoc)), writable);
      o.write.Some? ==> |AdminKeys(rows[userId := Doc(o.write.value)])| >= 1
  {
    var o := Demotion(guard, userId, Ok(Some(rows[userId].doc)), Ok(Collect(Ordered(rows), UserDoc)), writable);
    if o.write.Some? {
      AdminCountIsRows(rows);
      var after := rows[userId := Doc(o.write.value)];
      OtherAdminsStay(rows, userId, Doc(o.write.value));
      assert |AdminKeys(rows) - {userId}| >= |AdminKeys(rows)| - 1;
    }
  }

  /** Overwriting one row keeps every other admin row an admin row. */
  lemma OtherAdminsStay(rows: Rows, userId: string, b: Blob)
    ensures AdminKeys(rows) - {userId} <= AdminKeys(rows[userId := b])
  {
  }

  method Demote(store: Store, h: Headers, verify: Verifier, userId: string) returns (r: Result<Json, ApiError>)
    modifies store
    ensures var guard := old(RequireAdmin(store, h, verify));
      guard.Err? || guard.value == userId ==>
        r == Demotion(guard, userId, old(store.GetUser(userId)), old(Listing(store)), Users !in store.writeFails).reply
        && store.docs == old(store.docs)
    ensures var guard := old(RequireAdmin(store, h, verify));
      guard.Ok? && guard.value != userId ==>
        var o := Demotion(Ok(guard.value), userId, old(store.GetUser(userId)), old(Listing(store)), Users !in store.writeFails);
        && r == o.reply
        && store.docs == AfterWrite(old(store.docs), old(store.RowsOf(Users)), userId, o, Users !in store.writeFails)
    ensures store.seqs == old(store.seqs) && store.rate == old(store.rate)
  {
    var guard := RequireAdmin(store, h, verify);
    if guard.Err? {
      return Err(guard.error);
    }
    if guard.value == userId {
      return Err(ApiError(BAD_REQUEST, "cannot demote your own admin account"));
    }
    r := DemoteOther(store, guard.value, userId);
  }

  /** The demote handler once the requester is known to be an admin other than the target. */
  method DemoteOther(store: Store, requester: string, userId: string) returns (r: Result<Json, ApiError>)
    requires requester != userId
    modifies store
    ensures var o := Demotion(Ok(requester), userId, old(store.GetUser(userId)), old(Listing(store)), Users !in store.writeFails);
      && r == o.reply
      && store.docs == AfterWrite(old(store.docs), old(store.RowsOf(Users)), userId, o, Users !in store.writeFails)
    ensures store.seqs == old(store.seqs) && store.rate == old(store.rate)
  {
    var found := store.GetUser(userId);
    match found {
      case Ok(Some(target)) =>
        if GetStr(target, "role") != Some("admin") {
          return Ok(ALREADY_USER);
        }
        r := DemoteAdmin(store, userId, target);
      case Ok(None) =>
        return Err(ApiError(NOT_FOUND, "user not found"));
      case Err(e) =>
        return Err(StoreFailure(e));
    }
  }

  /** The demote handler once the target is known to be an admin: the last-admin check, then the write. */
  method DemoteAdmin(store: Store, userId: string, target: Json) returns (r: Result<Json, ApiError>)
    modifies store
    ensures var listing := old(Listing(store));
      var writable := Users !in store.writeFails;
      var demoted := Insert(target, "role", JStr("user"));
      && (listing.Ok? && AdminCount(listing.value) <= 1 ==>
            r == Err(ApiError(BAD_REQUEST, "cannot demote the last admin")) && store.docs == old(store.docs))
      && (!(listing.Ok? && AdminCount(listing.value) <= 1) ==>
            && r == (if writable then Ok(DemotedReply(userId)) else Err(StoreFailure(Unavailable(Users))))
            && store.docs == if writable then old(store.docs)[Users := old(store.RowsOf(Users))[userId := Doc(demoted)]] else old(store.docs))
    ensures store.seqs == old(store.seqs) && store.rate == old(store.rate)
  {
    var users := store.ListUsers();
    if users.Ok? && AdminCount(users.value) <= 1 {
      return Err(ApiError(BAD_REQUEST, "cannot demote the last admin"));
    }
    var demoted := Insert(target, "role", JStr("user"));
    var put := store.PutUser(userId, demoted);
    if put.Err? {
      return Err(StoreFailure(put.error));
    }
    return Ok(DemotedReply(userId));
  }

  // ------------------------------------------------------------ delete

  /** Whether `DELETE /api/admin/users/{id}` goes on to `delete_user`, or the error it answers with instead. */
  function Deletion(guard: Result<string, ApiError>, userId: string, found: Result<Option<Json>, StoreError>): (r: Result<(), ApiError>)
    ensures r.Ok? <==> guard.Ok? && guard.value != userId && found.Ok? && found.value.Some? && !IsAdmin(found.value.value)
    ensures guard.Err? ==> r == Err(guard.error)
    ensures guard.Ok? && guard.value == userId ==> r == Err(ApiError(BAD_REQUEST, "cannot delete your own admin account"))
    ensures guard.Ok? && guard.value != userId && found.Ok? && found.value.Some? && IsAdmin(found.value.value) ==>
      r == Err(ApiError(BAD_REQUEST, "cannot delete another admin"))
    ensures guard.Ok? && guard.value != userId && found == Ok(None) ==> r == Err(ApiError(NOT_FOUND, "user not found"))
  {
    if guard.Err? then Err(guard.error)
    else if guard.value == userId then Err(ApiError(BAD_REQUEST, "cannot delete your own admin account"))
    else match found
      case Ok(Some(target)) => if IsAdmin(target) then Err(ApiError(BAD_REQUEST, "cannot delete another admin")) else Ok(())
      case Ok(None) => Err(ApiError(NOT_FOUND, "user not found"))
      case Err(e) => Err(StoreFailure(e))
  }

  /** A deletion that goes ahead removes no admin: the admin documents are the same before and after. */
  lemma DeletionSparesAdmins(rows: Rows, guard: Result<string, ApiError>, userId: string)
    requires Deletion(guard, userId, Lookup(Users, rows, userId)).Ok?
    ensures AdminKeys(rows - {userId}) == AdminKeys(rows)
  {
  }

  method Delete(store: Store, h: Headers, verify: Verifier, userId: string) returns (r: Result<nat, ApiError>)
    modifies store
    ensures var d := Deletion(old(RequireAdmin(store, h, verify)), userId, old(store.GetUser(userId)));
      var wf := store.writeFails;
      && (d.Err? ==> r == Err(d.error) && store.docs == old(store.docs))
      && (d.Ok? ==> r == if Users in wf || Credentials in wf then Err(StoreFailure(Unavailable(Users))) else Ok(NO_CONTENT))
      && (d.Ok? && Users in wf ==> store.docs == old(store.docs))
      && (d.Ok? && Users !in wf && Credentials in wf ==> store.docs == old(store.docs)[Users := old(store.RowsOf(Users)) - {userId}])
      && (d.Ok? && Users !in wf && Credentials !in wf ==>
            store.docs == old(store.docs)[Users := old(store.RowsOf(Users)) - {userId}]
                                         [Credentials := Unlinked(old(store.RowsOf(Credentials)), userId)])
    ensures store.seqs == old(store.seqs) && store.rate == old(store.rate)
  {
    var guard := RequireAdmin(store, h, verify);
    if guard.Err? {
      return Err(guard.error);
    }
    if guard.value == userId {
      return Err(ApiError(BAD_REQUEST, "cannot delete your own admin account"));
    }
    var found := store.GetUser(userId);
    match found {
      case Ok(Some(target)) =>
        if GetStr(target, "role") == Some("admin") {
          return Err(ApiError(BAD_REQUEST, "cannot delete another admin"));
        }
      case Ok(None) =>
        return Err(ApiError(NOT_FOUND, "user not found"));
      case Err(e) =>
        return Err(StoreFailure(e));
    }
    var deleted := store.DeleteUser(userId);
    if deleted.Err? {
      return Err(StoreFailure(deleted.error));
    }
    return Ok(NO_CONTENT);
  }
}
