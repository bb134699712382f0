/**
 * The pending-state side of the WebAuthn ceremonies: beginning a
 * registration or an authentication stores a challenge under
 * `<user_id>/<id>`; finishing one needs that state, stores or checks what
 * the client sent, and deletes the state. No signature or attestation is
 * checked.
 */
module Webauthn {
  import opened Wrappers
  import opened Text
  import opened Numeric
  import opened Json
  import opened Storage

  /** The base64url engine without padding, left to the caller. */
  type Encoder = seq<byte> -> string

  /** What a ceremony step can fail with. */
  datatype CeremonyError =
    | StoreFailed(cause: StoreError)
    | NoPendingRegistration(userId: string, regId: string)
    | NoPendingAuthentication(userId: string, authId: string)
    | MalformedAssertion

  /** COSE algorithm ids offered for registration: ES256 and RS256. */
  const ES256: int := -7
  const RS256: int := -257
  const TIMEOUT_MS: nat := 60000

  /** `str::as_bytes`: the UTF-8 encoding of one scalar value. */
  function Utf8Char(c: char): (b: seq<byte>)
    ensures |b| == Utf8Width(c)
  {
    var n := c as int;
    if n < 0x80 then [n]
    else if n < 0x800 then [0xC0 + n / 64, 0x80 + n % 64]
    else if n < 0x10000 then [0xE0 + n / 4096, 0x80 + (n / 64) % 64, 0x80 + n % 64]
    else [0xF0 + n / 262144, 0x80 + (n / 4096) % 64, 0x80 + (n / 64) % 64, 0x80 + n % 64]
  }

  function Utf8Bytes(s: string): (b: seq<byte>)
    ensures |b| == Utf8Len(s)
  {
    if s == [] then [] else Utf8Char(s[0]) + Utf8Bytes(s[1..])
  }

  function PublicKey(options: Json): (r: Json)
    ensures Get(r, "publicKey") == Some(options)
  {
    JObj(map["publicKey" := options])
  }

  // ------------------------------------------------------------ registration

  /** The `publicKey` creation options `begin_registration` returns. */
  function RegistrationOptions(challenge: string, userId: string, displayName: string, rpId: string, rpName: string,
                               encode: Encoder): (r: Json)
    ensures GetStr(r, "challenge") == Some(challenge)
  {
    JObj(map[
      "challenge" := JStr(challenge),
      "rp" := JObj(map["name" := JStr(rpName), "id" := JStr(rpId)]),
      "user" := JObj(map["id" := JStr(encode(Utf8Bytes(userId))), "name" := JStr(userId), "displayName" := JStr(displayName)]),
      "pubKeyCredParams" := JArr([JObj(map["type" := JStr("public-key"), "alg" := JNum(ES256)]),
                                  JObj(map["type" := JStr("public-key"), "alg" := JNum(RS256)])]),
      "timeout" := JNum(TIMEOUT_MS),
      "attestation" := JStr("none")])
  }

  /** The pending registration state, everything the finish step could check against. */
  function RegistrationState(regId: string, challenge: string, rpId: string, rpName: string, origin: string,
                             userId: string, displayName: string): (r: Json)
    ensures GetStr(r, "challenge") == Some(challenge) && GetStr(r, "user_id") == Some(userId) && GetStr(r, "reg_id") == Some(regId)
  {
    JObj(map[
      "reg_id" := JStr(regId), "challenge" := JStr(challenge), "rp_id" := JStr(rpId), "rp_name" := JStr(rpName),
      "origin" := JStr(origin), "user_id" := JStr(userId), "display_name" := JStr(displayName)])
  }

  /**
   * `begin_registration` on the tables `d`: `regId` is the fresh id and
   * `challengeRaw` the fresh challenge bytes. The state is stored under
   * `user_id/reg_id`, and the challenge handed to the client is the one stored.
   */
  function BeginRegistrationIn(d: map<Table, Rows>, wf: set<Table>, userId: string, displayName: string, rpId: string,
                               rpName: string, origin: string, regId: string, challengeRaw: seq<byte>, encode: Encoder)
    : (r: (map<Table, Rows>, Result<(string, Json), CeremonyError>))
    ensures r.1.Err? <==> WebauthnReg in wf
    ensures r.1.Err? ==> r.0 == d && r.1.error == StoreFailed(Unavailable(WebauthnReg))
    ensures r.1.Ok? ==>
      var (id, options) := r.1.value;
      && id == regId
      && PairKey(userId, regId) in RowsIn(r.0, WebauthnReg)
      && var stored := RowsIn(r.0, WebauthnReg)[PairKey(userId, regId)];
      && stored.Doc?
      && GetStr(stored.doc, "challenge") == Some(encode(challengeRaw))
      && Get(options, "publicKey").Some?
      && GetStr(Get(options, "publicKey").value, "challenge") == GetStr(stored.doc, "challenge")
      && GetStr(stored.doc, "user_id") == Some(userId) && GetStr(stored.doc, "reg_id") == Some(regId)
      && (forall t :: t != WebauthnReg ==> RowsIn(r.0, t) == RowsIn(d, t))
  {
    var challenge := encode(challengeRaw);
    var state := RegistrationState(regId, challenge, rpId, rpName, origin, userId, displayName);
    var (d1, put) := WriteRow(d, wf, WebauthnReg, PairKey(userId, regId), state);
    if put.Err? then (d1, Err(StoreFailed(put.error)))
    else (d1, Ok((regId, PublicKey(RegistrationOptions(challenge, userId, displayName, rpId, rpName, encode)))))
  }

  /**
   * `finish_registration`: without pending state it fails and writes
   * nothing; otherwise the client's credential is stored under its string
   * `id` (else `freshId`) and the pending state is deleted. A failed delete
   * leaves the credential stored.
   */
  function FinishRegistrationIn(d: map<Table, Rows>, rf: set<Table>, wf: set<Table>, userId: string, regId: string,
                                cred: Json, freshId: string)
    : (r: (map<Table, Rows>, Result<string, CeremonyError>))
    ensures ReadRow(d, rf, WebauthnReg, PairKey(userId, regId)) == Ok(None) ==>
      r == (d, Err(NoPendingRegistration(userId, regId)))
    ensures ReadRow(d, rf, WebauthnReg, PairKey(userId, regId)).Err? ==> r.0 == d && r.1.Err?
    ensures r.1.Ok? ==>
      && r.1.value == (if GetStr(cred, "id").Some? then GetStr(cred, "id").value else freshId)
      && RowsIn(r.0, Credentials) == RowsIn(d, Credentials)[PairKey(userId, r.1.value) := Doc(cred)]
      && RowsIn(r.0, WebauthnReg) == RowsIn(d, WebauthnReg) - {PairKey(userId, regId)}
  {
    match ReadRow(d, rf, WebauthnReg, PairKey(userId, regId))
    case Err(e) => (d, Err(StoreFailed(e)))
    case Ok(None) => (d, Err(NoPendingRegistration(userId, regId)))
    case Ok(Some(_)) =>
      var credId := match GetStr(cred, "id") case Some(id) => id case None => freshId;
      var (d1, put) := WriteRow(d, wf, Credentials, PairKey(userId, credId), cred);
      if put.Err? then (d1, Err(StoreFailed(put.error)))
      else if WebauthnReg in wf then (d1, Err(StoreFailed(Unavailable(WebauthnReg))))
      else (d1[WebauthnReg := RowsIn(d1, WebauthnReg) - {PairKey(userId, regId)}], Ok(credId))
  }

  /**
   * The registration round trip: after a successful begin, finishing with a
   * credential that carries its `id` stores it under that id and leaves no
   * pending state behind, when the two tables can be written.
   */
  lemma RegistrationLifecycle(d: map<Table, Rows>, rf: set<Table>, wf: set<Table>, userId: string, displayName: string,
                              rpId: string, rpName: string, origin: string, regId: string, challengeRaw: seq<byte>,
                              encode: Encoder, cred: Json, freshId: string)
    requires WebauthnReg !in rf && WebauthnReg !in wf && Credentials !in wf
    requires GetStr(cred, "id").Some?
    ensures var (d1, begun) := BeginRegistrationIn(d, wf, userId, displayName, rpId, rpName, origin, regId, challengeRaw, encode);
      var (d2, finished) := FinishRegistrationIn(d1, rf, wf, userId, regId, cred, freshId);
      && finished == Ok(GetStr(cred, "id").value)
      && ReadRow(d2, rf, WebauthnReg, PairKey(userId, regId)) == Ok(None)
      && (Credentials !in rf ==> ReadRow(d2, rf, Credentials, PairKey(userId, GetStr(cred, "id").value)) == Ok(Some(cred)))
  {
    var (d1, begun) := BeginRegistrationIn(d, wf, userId, displayName, rpId, rpName, origin, regId, challengeRaw, encode);
    var key := PairKey(userId, regId);
    assert ReadRow(d1, rf, WebauthnReg, key) == Lookup(WebauthnReg, RowsIn(d1, WebauthnReg), key);
    assert RowsIn(d1, WebauthnReg)[key].Doc?;
    var (d2, finished) := FinishRegistrationIn(d1, rf, wf, userId, regId, cred, freshId);
    assert finished.Ok?;
    LookupAfterRemove(WebauthnReg, RowsIn(d1, WebauthnReg), key, key);
  }

  method BeginRegistration(store: Store, userId: string, displayName: string, rpId: string, rpName: string, origin: string,
                           regId: string, challengeRaw: seq<byte>, encode: Encoder)
    returns (r: Result<(string, Json), CeremonyError>)
    modifies store
    ensures (store.docs, r) == BeginRegistrationIn(old(store.docs), store.writeFails, userId, displayName, rpId, rpName, origin,
                                                   regId, challengeRaw, encode)
    ensures store.seqs == old(store.seqs) && store.rate == old(store.rate)
  {
    var challenge := encode(challengeRaw);
    var publicKey := RegistrationOptions(challenge, userId, displayName, rpId, rpName, encode);
    var state := RegistrationState(regId, challenge, rpId, rpName, origin, userId, displayName);
    var put := store.PutPending(WebauthnReg, userId, regId, state);
    if put.Err? {
      return Err(StoreFailed(put.error));
    }
    return Ok((regId, PublicKey(publicKey)));
  }

  method FinishRegistration(store: Store, userId: string, regId: string, cred: Json, freshId: string)
    returns (r: Result<string, CeremonyError>)
    modifies store
    ensures (store.docs, r) == FinishRegistrationIn(old(store.docs), store.readFails, store.writeFails, userId, regId, cred, freshId)
    ensures store.seqs == old(store.seqs) && store.rate == old(store.rate)
  {
    var pending := store.GetPending(WebauthnReg, userId, regId);
    if pending.Err? {
      return Err(StoreFailed(pending.error));
    }
    if pending.value.None? {
      return Err(NoPendingRegistration(userId, regId));
    }
    var credId := match GetStr(cred, "id") case Some(id) => id case None => freshId;
    var put := store.PutWebauthnCred(userId, credId, cred);
    if put.Err? {
      return Err(StoreFailed(put.error));
    }
    var del := store.DeletePending(WebauthnReg, userId, regId);
    if del.Err? {
      return Err(StoreFailed(del.error));
    }
    return Ok(credId);
  }

  // ------------------------------------------------------------ authentication

  /** The `publicKey` request options `begin_authentication` returns; `allowCredentials` is always empty. */
  function AuthenticationOptions(challenge: string, rpId: string): Json
  {
    JObj(map[
      "challenge" := JStr(challenge), "rpId" := JStr(rpId), "timeout" := JNum(TIMEOUT_MS),
      "allowCredentials" := JArr([]), "userVerification" := JStr("preferred")])
  }

  function AuthenticationState(authId: string, challenge: string, rpId: string, origin: string, userId: string): Json
  {
    JObj(map[
      "auth_id" := JStr(authId), "challenge" := JStr(challenge), "rp_id" := JStr(rpId),
      "origin" := JStr(origin), "user_id" := JStr(userId)])
  }

  /** `begin_authentication` on the tables `d`, with the fresh `authId` and challenge bytes. */
  function BeginAuthenticationIn(d: map<Table, Rows>, wf: set<Table>, userId: string, rpId: string, origin: string,
                                 authId: string, challengeRaw: seq<byte>, encode: Encoder)
    : (r: (map<Table, Rows>, Result<(string, Json), CeremonyError>))
    ensures r.1.Err? <==> WebauthnAuth in wf
    ensures r.1.Err? ==> r.0 == d
    ensures r.1.Ok? ==>
      var (id, options) := r.1.value;
      && id == authId
      && PairKey(userId, authId) in RowsIn(r.0, WebauthnAuth)
      && var stored := RowsIn(r.0, WebauthnAuth)[PairKey(userId, authId)];
      && stored.Doc?
      && GetStr(stored.doc, "challenge") == Some(encode(challengeRaw))
      && Get(options, "publicKey").Some?
      && GetStr(Get(options, "publicKey").value, "challenge") == GetStr(stored.doc, "challenge")
      && (forall t :: t != WebauthnAuth ==> RowsIn(r.0, t) == RowsIn(d, t))
  {
    var challenge := encode(challengeRaw);
    var (d1, put) := WriteRow(d, wf, WebauthnAuth, PairKey(userId, authId), AuthenticationState(authId, challenge, rpId, origin, userId));
    if put.Err? then (d1, Err(StoreFailed(put.error)))
    else (d1, Ok((authId, PublicKey(AuthenticationOptions(challenge, rpId)))))
  }

  /**
   * `finish_authentication`: it needs the pending state and an assertion
   * with both `id` and `response`; failing either check keeps the state.
   * Success deletes the state and writes nothing else.
   */
  function FinishAuthenticationIn(d: map<Table, Rows>, rf: set<Table>, wf: set<Table>, userId: string, authId: string,
                                  assertion: Json)
    : (r: (map<Table, Rows>, Result<(), CeremonyError>))
    ensures ReadRow(d, rf, WebauthnAuth, PairKey(userId, authId)) == Ok(None) ==>
      r == (d, Err(NoPendingAuthentication(userId, authId)))
    ensures ReadRow(d, rf, WebauthnAuth, PairKey(userId, authId)).Ok? && ReadRow(d, rf, WebauthnAuth, PairKey(userId, authId)).value.Some?
            && (Get(assertion, "id").None? || Get(assertion, "response").None?) ==>
      r == (d, Err(MalformedAssertion))
    ensures r.1.Err? ==> r.0 == d
    ensures r.1.Ok? ==> r.0 == d[WebauthnAuth := RowsIn(d, WebauthnAuth) - {PairKey(userId, authId)}]
  {
    match ReadRow(d, rf, WebauthnAuth, PairKey(userId, authId))
    case Err(e) => (d, Err(StoreFailed(e)))
    case Ok(None) => (d, Err(NoPendingAuthentication(userId, authId)))
    case Ok(Some(_)) =>
      if Get(assertion, "id").None? || Get(assertion, "response").None? then (d, Err(MalformedAssertion))
      else if WebauthnAuth in wf then (d, Err(StoreFailed(Unavailable(WebauthnAuth))))
      else (d[WebauthnAuth := RowsIn(d, WebauthnAuth) - {PairKey(userId, authId)}], Ok(()))
  }

  /**
   * The authentication round trip: a begun ceremony finished with a
   * well-formed assertion succeeds once and leaves no state, so a second
   * finish with the same id is refused.
   */
  lemma AuthenticationLifecycle(d: map<Table, Rows>, rf: set<Table>, wf: set<Table>, userId: string, rpId: string,
                                origin: string, authId: string, challengeRaw: seq<byte>, encode: Encoder, assertion: Json)
    requires WebauthnAuth !in rf && WebauthnAuth !in wf
    requires Get(assertion, "id").Some? && Get(assertion, "response").Some?
    ensures var (d1, begun) := BeginAuthenticationIn(d, wf, userId, rpId, origin, authId, challengeRaw, encode);
      var (d2, finished) := FinishAuthenticationIn(d1, rf, wf, userId, authId, assertion);
      && finished == Ok(())
      && ReadRow(d2, rf, WebauthnAuth, PairKey(userId, authId)) == Ok(None)
      && FinishAuthenticationIn(d2, rf, wf, userId, authId, assertion) == (d2, Err(NoPendingAuthentication(userId, authId)))
  {
    var (d1, begun) := BeginAuthenticationIn(d, wf, userId, rpId, origin, authId, challengeRaw, encode);
    var key := PairKey(userId, authId);
    assert RowsIn(d1, WebauthnAuth)[key].Doc?;
    var (d2, finished) := FinishAuthenticationIn(d1, rf, wf, userId, authId, assertion);
    LookupAfterRemove(WebauthnAuth, RowsIn(d1, WebauthnAuth), key, key);
    assert RowsIn(d2, WebauthnAuth) == RowsIn(d1, WebauthnAuth) - {key};
  }

  method BeginAuthentication(store: Store, userId: string, rpId: string, origin: string, authId: string,
                             challengeRaw: seq<byte>, encode: Encoder)
    returns (r: Result<(string, Json), CeremonyError>)
    modifies store
    ensures (store.docs, r) == BeginAuthenticationIn(old(store.docs), store.writeFails, userId, rpId, origin, authId, challengeRaw, encode)
    ensures store.seqs == old(store.seqs) && store.rate == old(store.rate)
  {
    var challenge := encode(challengeRaw);
    var put := store.PutPending(WebauthnAuth, userId, authId, AuthenticationState(authId, challenge, rpId, origin, userId));
    if put.Err? {
      return Err(StoreFailed(put.error));
    }
    return Ok((authId, PublicKey(AuthenticationOptions(challenge, rpId))));
  }

  method FinishAuthentication(store: Store, userId: string, authId: string, assertion: Json)
    returns (r: Result<(), CeremonyError>)
    modifies store
    ensures (store.docs, r) == FinishAuthenticationIn(old(store.docs), store.readFails, store.writeFails, userId, authId, assertion)
    ensures store.seqs == old(store.seqs) && store.rate == old(store.rate)
  {
    var pending := store.GetPending(WebauthnAuth, userId, authId);
    if pending.Err? {
      return Err(StoreFailed(pending.error));
    }
    if pending.value.None? {
      return Err(NoPendingAuthentication(userId, authId));
    }
    if Get(assertion, "id").None? || Get(assertion, "response").None? {
      return Err(MalformedAssertion);
    }
    var del := store.DeletePending(WebauthnAuth, userId, authId);
    if del.Err? {
      return Err(StoreFailed(del.error));
    }
    return Ok(());
  }
}
