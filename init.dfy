/**
 * `seed_admin`, run once at startup: read the seed file's `key: value`
 * lines, fill in what is missing from the environment and defaults, then
 * make sure an admin account exists. The file's text (or its absence), the
 * two environment variables, the fresh id, the password hash and the clock
 * are inputs.
 */
module Init {
  import opened Wrappers
  import opened Text
  import opened Numeric
  import opened Json
  import opened Storage
  import opened AuthRoutes

  /** What the seed file sets: each of the three recognised keys, when some line gives it. */
  datatype Seed = Seed(username: Option<string>, password: Option<string>, email: Option<string>)

  const NO_SEED: Seed := Seed(None, None, None)

  /** A non-blank, non-comment line, already trimmed: its key (trimmed, ASCII lower-cased) and value (trimmed, `""` without a `:`). */
  function KeyValue(line: string): (string, string)
  {
    var (k, v) := SplitOnce(line, ':');
    (Lower(Trim(k)), match v case Some(x) => Trim(x) case None => "")
  }

  predicate Skipped(line: string)
  {
    Trim(line) == [] || Trim(line)[0] == '#'
  }

  /** The key a line assigns and its value; `None` for blank and comment lines. */
  function Assignment(line: string): Option<(string, string)>
  {
    if Skipped(line) then None else Some(KeyValue(Trim(line)))
  }

  /** One iteration of the parsing loop: a recognised key overwrites its field; anything else changes nothing. */
  function Apply(s: Seed, a: Option<(string, string)>): Seed
  {
    match a
    case None => s
    case Some((k, v)) =>
      if k == "username" then s.(username := Some(v))
      else if k == "password" then s.(password := Some(v))
      else if k == "email" then s.(email := Some(Lower(v)))
      else s
  }

  /** The seed after the loop has applied the lines' assignments in order. */
  function Fold(assigns: seq<Option<(string, string)>>): Seed
  {
    if assigns == [] then NO_SEED else Apply(Fold(assigns[..|assigns| - 1]), assigns[|assigns| - 1])
  }

  /** What each line of the file assigns. */
  function Assignments(lines: seq<string>): (r: seq<Option<(string, string)>>)
    ensures |r| == |lines| && forall i :: 0 <= i < |lines| ==> r[i] == Assignment(lines[i])
  {
    seq(|lines|, i requires 0 <= i < |lines| => Assignment(lines[i]))
  }

  /** The seed the file's text gives. */
  function ParseText(text: string): Seed
  {
    Fold(Assignments(Lines(text)))
  }

  /**
   * What one line assigns: nothing when blank or a comment; otherwise the
   * trimmed text splits at its first `:` into a trimmed, lower-cased key and
   * a trimmed value, and a line without `:` is a key with the value `""`.
   */
  lemma AssignmentOfLine(line: string)
    ensures Skipped(line) ==> Assignment(line).None?
    ensures !Skipped(line) && ':' !in Trim(line) ==> Assignment(line) == Some((Lower(Trim(Trim(line))), ""))
    ensures !Skipped(line) && ':' in Trim(line) ==>
      exists k, v :: Trim(line) == k + [':'] + v && ':' !in k && Assignment(line) == Some((Lower(Trim(k)), Trim(v)))
  {
    var t := Trim(line);
    var sp := SplitOnce(t, ':');
    if !Skipped(line) && ':' in t {
      assert sp.1.Some?;
      assert Assignment(line) == Some((Lower(Trim(sp.0)), Trim(sp.1.value)));
      assert t == sp.0 + [':'] + sp.1.value;
    }
  }

  predicate SetsUsername(a: Option<(string, string)>)
  {
    a.Some? && a.value.0 == "username"
  }

  /** The username comes from the last line that sets it; with no such line it stays unset. */
  lemma {:induction false} LastUsernameWins(assigns: seq<Option<(string, string)>>)
    ensures (forall i :: 0 <= i < |assigns| ==> !SetsUsername(assigns[i])) ==> Fold(assigns).username.None?
    ensures forall i :: 0 <= i < |assigns| && SetsUsername(assigns[i]) && (forall j :: i < j < |assigns| ==> !SetsUsername(assigns[j])) ==>
      Fold(assigns).username == Some(assigns[i].value.1)
  {
    if assigns != [] {
      var init := assigns[..|assigns| - 1];
      var n := |assigns| - 1;
      LastUsernameWins(init);
      assert Fold(assigns) == Apply(Fold(init), assigns[n]);
      forall i | 0 <= i < |assigns| && SetsUsername(assigns[i]) && (forall j :: i < j < |assigns| ==> !SetsUsername(assigns[j]))
        ensures Fold(assigns).username == Some(assigns[i].value.1)
      {
        if i < n {
          assert init[i] == assigns[i];
          assert forall j :: i < j < |init| ==> init[j] == assigns[j];
        }
      }
      if forall i :: 0 <= i < |assigns| ==> !SetsUsername(assigns[i]) {
        assert forall i :: 0 <= i < |init| ==> init[i] == assigns[i];
      }
    }
  }

  predicate SetsEmail(a: Option<(string, string)>)
  {
    a.Some? && a.value.0 == "email"
  }

  /** The e-mail comes, lower-cased, from the last line that sets it. */
  lemma {:induction false} LastEmailWins(assigns: seq<Option<(string, string)>>)
    ensures (forall i :: 0 <= i < |assigns| ==> !SetsEmail(assigns[i])) ==> Fold(assigns).email.None?
    ensures forall i :: 0 <= i < |assigns| && SetsEmail(assigns[i]) && (forall j :: i < j < |assigns| ==> !SetsEmail(assigns[j])) ==>
      Fold(assigns).email == Some(Lower(assigns[i].value.1))
  {
    if assigns != [] {
      var init := assigns[..|assigns| - 1];
      var n := |assigns| - 1;
      LastEmailWins(init);
      assert Fold(assigns) == Apply(Fold(init), assigns[n]);
      forall i | 0 <= i < |assigns| && SetsEmail(assigns[i]) && (forall j :: i < j < |assigns| ==> !SetsEmail(assigns[j]))
        ensures Fold(assigns).email == Some(Lower(assigns[i].value.1))
      {
        if i < n {
          assert init[i] == assigns[i];
          assert forall j :: i < j < |init| ==> init[j] == assigns[j];
        }
      }
      if forall i :: 0 <= i < |assigns| ==> !SetsEmail(assigns[i]) {
        assert forall i :: 0 <= i < |init| ==> init[i] == assigns[i];
      }
    }
  }

  /** The parsing loop of `seed_admin` over the file's lines. */
  method ParseSeed(text: string) returns (seed: Seed)
    ensures seed == ParseText(text)
  {
    var lines := Lines(text);
    ghost var assigns := Assignments(lines);
    var u: Option<string> := None;
    var p: Option<string> := None;
    var e: Option<string> := None;
    for i := 0 to |lines|
      invariant Seed(u, p, e) == Fold(assigns[..i])
    {
      assert assigns[..i + 1][..i] == assigns[..i];
      var line := Trim(lines[i]);
      if line == [] || line[0] == '#' {
        assert assigns[i] == None;
        continue;
      }
      var (k, v) := KeyValue(line);
      assert assigns[i] == Some((k, v));
      if k == "username" {
        u := Some(v);
      } else if k == "password" {
        p := Some(v);
      } else if k == "email" {
        e := Some(Lower(v));
      }
    }
    assert assigns[..|lines|] == assigns;
    seed := Seed(u, p, e);
  }

  /** The admin account's settings once every fallback is applied. */
  datatype Config = Config(username: string, email: string, password: string)

  /**
   * The fallback chain: the file's value, else the environment's (`e-mail`
   * and password only), else the defaults; the e-mail is lower-cased last.
   * `file` is `None` when the seed file cannot be read.
   */
  function Fallbacks(file: Option<Seed>, envEmail: Option<string>, envPassword: Option<string>): (c: Config)
    ensures var s := if file.Some? then file.value else NO_SEED;
      && c.username == (if s.username.Some? then s.username.value else "admin")
      && c.email == Lower(if s.email.Some? then s.email.value else if envEmail.Some? then envEmail.value else c.username + "@example.com")
      && c.password == (if s.password.Some? then s.password.value else if envPassword.Some? then envPassword.value else "admin12345")
  {
    var s := if file.Some? then file.value else NO_SEED;
    var username := match s.username case Some(u) => u case None => "admin";
    var email := match s.email case Some(e) => e case None => (match envEmail case Some(e) => e case None => username + "@example.com");
    var password := match s.password case Some(p) => p case None => (match envPassword case Some(p) => p case None => "admin12345");
    Config(username, Lower(email), password)
  }

  /** With no file and no environment, the account is `admin`, `admin@example.com`, `admin12345`. */
  lemma DefaultConfig()
    ensures Fallbacks(None, None, None) == Config("admin", "admin@example.com", "admin12345")
  {
    DefaultEmail();
  }

  lemma DefaultEmail()
    ensures Lower("admin" + "@example.com") == "admin@example.com"
  {
    LowerIdle("admin@example.com");
  }

  // ------------------------------------------------------------ ensuring the account

  /**
   * The existing user after the ensure-admin step, and whether it changed:
   * an object that is not an admin gets `role: "admin"`, one without a string
   * `username` gets the seed's; anything that is not an object is left alone.
   */
  function EnsuredAdmin(user: Json, username: string): (r: (Json, bool))
    ensures r.1 <==> user.JObj? && (GetStr(user, "role") != Some("admin") || GetStr(user, "username").None?)
    ensures !r.1 ==> r.0 == user
    ensures user.JObj? ==> GetStr(r.0, "role") == Some("admin") && GetStr(r.0, "username").Some?
    ensures user.JObj? && GetStr(user, "username").Some? ==> GetStr(r.0, "username") == GetStr(user, "username")
    ensures forall k :: k != "role" && k != "username" ==> Get(r.0, k) == Get(user, k)
  {
    var (u1, c1) := if GetStr(user, "role") != Some("admin") && user.JObj? then (Insert(user, "role", JStr("admin")), true) else (user, false);
    if GetStr(u1, "username").None? && u1.JObj? then (Insert(u1, "username", JStr(username)), true) else (u1, c1)
  }

  /** A second ensure-admin step has nothing left to change. */
  lemma EnsuredAdminIdempotent(user: Json, username: string)
    ensures !EnsuredAdmin(EnsuredAdmin(user, username).0, username).1
  {
  }

  /** The new admin's user row. */
  function AdminRow(id: string, cfg: Config, nowSecs: i64): Json
  {
    UserRow(id, cfg.email, Some(cfg.username), nowSecs, "admin")
  }

  /** Why `seed_admin` fails: a storage write, or the hashing of the password. */
  datatype SeedError = Storing(cause: StoreError) | Hashing

  /**
   * What `seed_admin` does to the tables and what it returns, after the
   * configuration is settled: existing credentials lead to their user being
   * made an admin (write failures ignored); missing ones to a new user, the
   * password's hash (`None` when hashing fails) and credentials; a failed
   * credentials read to nothing at all.
   */
  function SeedOutcome(d: map<Table, Rows>, rf: set<Table>, wf: set<Table>, cfg: Config, freshId: string,
                       hash: Option<string>, nowSecs: i64)
    : (r: (map<Table, Rows>, Result<(), SeedError>))
    ensures ReadRow(d, rf, Credentials, cfg.email).Err? ==> r == (d, Ok(()))
    ensures r.1.Err? ==> ReadRow(d, rf, Credentials, cfg.email) == Ok(None)
    ensures r.1.Err? && r.1.error.Storing? ==> r.1.error.cause.Unavailable?
    ensures ReadRow(d, rf, Credentials, cfg.email) == Ok(None) && Users !in wf && hash.None? ==>
      && r.1 == Err(Hashing)
      && RowsIn(r.0, Users) == RowsIn(d, Users)[freshId := Doc(AdminRow(freshId, cfg, nowSecs))]
      && RowsIn(r.0, Credentials) == RowsIn(d, Credentials)
    ensures forall t :: t != Users && t != Credentials ==> RowsIn(r.0, t) == RowsIn(d, t)
  {
    match ReadRow(d, rf, Credentials, cfg.email)
    case Err(_) => (d, Ok(()))
    case Ok(Some(cred)) =>
      (match GetStr(cred, "user_id")
       case None => (d, Ok(()))
       case Some(uid) =>
         match ReadRow(d, rf, Users, uid)
         case Ok(Some(user)) =>
           var (u2, changed) := EnsuredAdmin(user, cfg.username);
           (if changed then WriteRow(d, wf, Users, uid, u2).0 else d, Ok(()))
         case Ok(None) => (WriteRow(d, wf, Users, uid, AdminRow(uid, cfg, nowSecs)).0, Ok(()))
         case Err(_) => (d, Ok(())))
    case Ok(None) =>
      var (d1, s1) := WriteRow(d, wf, Users, freshId, AdminRow(freshId, cfg, nowSecs));
      if s1.Err? then (d1, Err(Storing(s1.error)))
      else match hash
        case None => (d1, Err(Hashing))
        case Some(h) =>
          var (d2, s2) := WriteRow(d1, wf, Credentials, cfg.email, CredRow(freshId, h, nowSecs));
          (d2, if s2.Err? then Err(Storing(s2.error)) else Ok(()))
  }

  /**
   * Running the seeding twice writes nothing the second time, unless the
   * first run stored the user but no credentials (their write failed, or
   * the hashing did).
   */
  lemma SeedIdempotent(d: map<Table, Rows>, rf: set<Table>, wf: set<Table>, cfg: Config,
                       id1: string, hash1: Option<string>, t1: i64, id2: string, hash2: Option<string>, t2: i64)
    requires !(Users !in wf && (Credentials in wf || hash1.None?))
    ensures var d1 := SeedOutcome(d, rf, wf, cfg, id1, hash1, t1).0;
      SeedOutcome(d1, rf, wf, cfg, id2, hash2, t2).0 == d1
  {
    var found := ReadRow(d, rf, Credentials, cfg.email);
    if found.Ok? && found.value.Some? {
      ReseedLinked(d, rf, wf, cfg, id1, hash1, t1, id2, hash2, t2);
    } else if found.Ok? && Users !in wf {
      ReseedFresh(d, rf, wf, cfg, id1, hash1, t1, id2, hash2, t2);
    }
  }

  /** The second run when the credentials were already there. */
  lemma ReseedLinked(d: map<Table, Rows>, rf: set<Table>, wf: set<Table>, cfg: Config,
                     id1: string, hash1: Option<string>, t1: i64, id2: string, hash2: Option<string>, t2: i64)
    requires ReadRow(d, rf, Credentials, cfg.email).Ok? && ReadRow(d, rf, Credentials, cfg.email).value.Some?
    ensures var d1 := SeedOutcome(d, rf, wf, cfg, id1, hash1, t1).0;
      SeedOutcome(d1, rf, wf, cfg, id2, hash2, t2).0 == d1
  {
    var d1 := SeedOutcome(d, rf, wf, cfg, id1, hash1, t1).0;
    var found := ReadRow(d, rf, Credentials, cfg.email);
    var cred := found.value.value;
    assert RowsIn(d1, Credentials) == RowsIn(d, Credentials);
    assert ReadRow(d1, rf, Credentials, cfg.email) == found;
    if GetStr(cred, "user_id").Some? {
      var uid := GetStr(cred, "user_id").value;
      var existing := ReadRow(d, rf, Users, uid);
      if existing.Ok? && existing.value.Some? {
        var user := existing.value.value;
        EnsuredAdminIdempotent(user, cfg.username);
        var (u2, changed) := EnsuredAdmin(user, cfg.username);
        if changed && Users !in wf {
          assert ReadRow(d1, rf, Users, uid) == Ok(Some(u2));
        } else {
          assert d1 == d;
        }
      } else if existing.Ok? && Users !in wf {
        assert ReadRow(d1, rf, Users, uid) == Ok(Some(AdminRow(uid, cfg, t1)));
        EnsuredAdminIdempotent(AdminRow(uid, cfg, t1), cfg.username);
      }
    }
  }

  /** The second run after the first created the account. */
  lemma ReseedFresh(d: map<Table, Rows>, rf: set<Table>, wf: set<Table>, cfg: Config,
                    id1: string, hash1: Option<string>, t1: i64, id2: string, hash2: Option<string>, t2: i64)
    requires ReadRow(d, rf, Credentials, cfg.email) == Ok(None) && Users !in wf && Credentials !in wf && hash1.Some?
    ensures var d1 := SeedOutcome(d, rf, wf, cfg, id1, hash1, t1).0;
      SeedOutcome(d1, rf, wf, cfg, id2, hash2, t2).0 == d1
  {
    var d1 := SeedOutcome(d, rf, wf, cfg, id1, hash1, t1).0;
    assert ReadRow(d1, rf, Credentials, cfg.email) == Ok(Some(CredRow(id1, hash1.value, t1)));
    if Users !in rf {
      assert ReadRow(d1, rf, Users, id1) == Ok(Some(AdminRow(id1, cfg, t1)));
    }
    EnsuredAdminIdempotent(AdminRow(id1, cfg, t1), cfg.username);
  }

  /** Without faults and with the hashing done, a store with no credentials for the admin ends with an admin user whose credentials link to it. */
  lemma SeedCreatesLinkedAdmin(d: map<Table, Rows>, cfg: Config, freshId: string, hash: string, nowSecs: i64)
    requires cfg.email !in RowsIn(d, Credentials)
    ensures var d1 := SeedOutcome(d, {}, {}, cfg, freshId, Some(hash), nowSecs).0;
      && ReadRow(d1, {}, Credentials, cfg.email) == Ok(Some(CredRow(freshId, hash, nowSecs)))
      && LinksTo(RowsIn(d1, Credentials)[cfg.email], freshId)
      && ReadRow(d1, {}, Users, freshId) == Ok(Some(AdminRow(freshId, cfg, nowSecs)))
      && GetStr(AdminRow(freshId, cfg, nowSecs), "role") == Some("admin")
  {
  }

  /**
   * Without faults, when the admin's credentials name a user, that user ends
   * up stored as an admin with a username: created with the seed's values if
   * it was missing, updated in place if it was an object.
   */
  lemma SeedMakesLinkedUserAdmin(d: map<Table, Rows>, cfg: Config, freshId: string, hash: Option<string>, nowSecs: i64, uid: string)
    requires ReadRow(d, {}, Credentials, cfg.email).Ok? && ReadRow(d, {}, Credentials, cfg.email).value.Some?
    requires GetStr(ReadRow(d, {}, Credentials, cfg.email).value.value, "user_id") == Some(uid)
    ensures var d1 := SeedOutcome(d, {}, {}, cfg, freshId, hash, nowSecs).0;
      && (ReadRow(d, {}, Users, uid) == Ok(None) ==> ReadRow(d1, {}, Users, uid) == Ok(Some(AdminRow(uid, cfg, nowSecs))))
      && (ReadRow(d, {}, Users, uid).Ok? && ReadRow(d, {}, Users, uid).value.Some? && ReadRow(d, {}, Users, uid).value.value.JObj? ==>
            && ReadRow(d1, {}, Users, uid).Ok? && ReadRow(d1, {}, Users, uid).value.Some?
            && GetStr(ReadRow(d1, {}, Users, uid).value.value, "role") == Some("admin")
            && GetStr(ReadRow(d1, {}, Users, uid).value.value, "username").Some?)
      && RowsIn(d1, Credentials) == RowsIn(d, Credentials)
  {
    var existing := ReadRow(d, {}, Users, uid);
    if existing.Ok? && existing.value.Some? && existing.value.value.JObj? {
      var (u2, changed) := EnsuredAdmin(existing.value.value, cfg.username);
      if changed {
        assert ReadRow(SeedOutcome(d, {}, {}, cfg, freshId, hash, nowSecs).0, {}, Users, uid) == Ok(Some(u2));
      }
    }
  }

  /** The ensure-admin step of `seed_admin` on the store. */
  method SeedAdmin(store: Store, cfg: Config, freshId: string, hash: Option<string>, nowSecs: i64) returns (r: Result<(), SeedError>)
    modifies store
    ensures store.docs == SeedOutcome(old(store.docs), store.readFails, store.writeFails, cfg, freshId, hash, nowSecs).0
    ensures r == SeedOutcome(old(store.docs), store.readFails, store.writeFails, cfg, freshId, hash, nowSecs).1
    ensures store.seqs == old(store.seqs) && store.rate == old(store.rate)
  {
    var found := store.GetCredentials(cfg.email);
    match found {
      case Err(_) =>
        return Ok(());
      case Ok(Some(_)) =>
        var again := store.GetCredentials(cfg.email);
        if again.Ok? && again.value.Some? {
          var cred := again.value.value;
          if GetStr(cred, "user_id").Some? {
            var uid := GetStr(cred, "user_id").value;
            var existing := store.GetUser(uid);
            match existing {
              case Ok(Some(user)) =>
                var (u2, changed) := EnsuredAdmin(user, cfg.username);
                if changed {
                  var _ := store.PutUser(uid, u2);
                }
              case Ok(None) =>
                var _ := store.PutUser(uid, AdminRow(uid, cfg, nowSecs));
              case Err(_) =>
            }
          }
        }
        return Ok(());
      case Ok(None) =>
        var put := store.PutUser(freshId, AdminRow(freshId, cfg, nowSecs));
        if put.Err? {
          return Err(Storing(put.error));
        }
        if hash.None? {
          return Err(Hashing);
        }
        var putCred := store.PutCredentials(cfg.email, CredRow(freshId, hash.value, nowSecs));
        if putCred.Err? {
          return Err(Storing(putCred.error));
        }
        return Ok(());
    }
  }

  /**
   * `seed_admin` as a whole: the seed file's text (`None` when it cannot be
   * read), the fallbacks, and the account; `hashOf` is the Argon2 hashing of
   * the chosen password.
   */
  method SeedAdminFrom(store: Store, file: Option<string>, envEmail: Option<string>, envPassword: Option<string>,
                       freshId: string, hashOf: Hasher, nowSecs: i64) returns (r: Result<(), SeedError>)
    modifies store
    ensures var cfg := Fallbacks(if file.Some? then Some(ParseText(file.value)) else None, envEmail, envPassword);
      && r == SeedOutcome(old(store.docs), store.readFails, store.writeFails, cfg, freshId, hashOf(cfg.password), nowSecs).1
      && store.docs == SeedOutcome(old(store.docs), store.readFails, store.writeFails, cfg, freshId, hashOf(cfg.password), nowSecs).0
    ensures store.seqs == old(store.seqs) && store.rate == old(store.rate)
  {
    var seed: Option<Seed> := None;
    if file.Some? {
      var s := ParseSeed(file.value);
      seed := Some(s);
    }
    var cfg := Fallbacks(seed, envEmail, envPassword);
    r := SeedAdmin(store, cfg, freshId, hashOf(cfg.password), nowSecs);
  }
}
