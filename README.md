# A verified model of a chat backend's core

This project models the core of a chat service's backend in Dafny and proves
properties of that model. The parts modelled are:

- **The store.** String-keyed tables inside one embedded database. They hold:
  - messages under a sortable composite key;
  - per-room sequence counters and per-key rate counters as 8-byte little-endian values;
  - presence rows;
  - users, credentials and refresh tokens;
  - WebAuthn and OAuth pending state.
- **The room service.** Sending a message assigns the room's next sequence
  number, persists the record and publishes it on the room's topic. Reading
  history is a scan of the message table.
- **The presence tracker.** Heartbeats, explicit offline, and one tick of the
  stale-user sweep. Each change is announced on the bus.
- **The token-bucket limiter.** One bucket per key. Tokens refill
  continuously up to a capacity.
- **The bus.**
  - The `topic \0 payload` frame codec.
  - The in-process topic registry, in which every subscriber owns a queue.
  - The in-process request/reply address registry.
  - The 4-byte big-endian length framing of the local-socket transport.
- **The HTTP gateway's decision logic:**
  - token extraction from the `Authorization` header or the `session` cookie;
  - the admin guard;
  - the global rate limit with its exempt paths;
  - the double-submit CSRF check;
  - capped logging of POST bodies;
  - signup, username availability, login (JSON, form and multipart payloads) and `me`;
  - the startup admin seeding with its seed-file parser and fallbacks;
  - the admin promote, demote and delete endpoints;
  - the development helpers, including the merge of duplicate users;
  - the room history and post endpoints;
  - the WebAuthn pending-state lifecycle.
- **The brace checker script.** A running brace balance, its negative lines,
  and a stack pass that finds unclosed `{` with a context window around each.

## How the model is built

- **Stateful entities are classes.** The store (`Storage.Store`), the topic
  registry (`PubSub.Hub`), the address registry (`Rpc.RpcRegistry`), a bucket
  (`Rate.TokenBucket`), the limiter (`Rate.RateLimiter`) and the presence
  manager (`Presence.PresenceManager`) are classes whose methods change their
  fields.
- **Each state-changing method is proved against a pure function** of the
  old state: `LookupAfterInsert`, `ScanResult`, `DedupeGroup`, `SeedOutcome`
  and so on. The lemmas are stated about those functions.
- **Loops in the source are loops in the model**, with invariants. These are:
  - the sliding-window scan and the range scan;
  - the listing loops;
  - the presence sweep;
  - the seed-file parser;
  - the grouping and deletion loops of the duplicate-user merge;
  - both passes of the brace checker.
- **A storage call that cannot run its transaction fails and changes
  nothing.** Each store carries two fixed sets of tables: those whose read
  transactions fail and those whose write transactions fail. Failing password
  hashing, failing token signing and a clock reading before the epoch are
  inputs as well, so the handlers' store, hashing, signing and clock errors
  are reachable and specified.
- **Integers are modelled at their machine widths.** `u64` and `i64` values
  have explicit ranges, and the source's additions wrap at those widths
  (`Numeric.WrappingAdd`, `Numeric.WrapI64`). The integers are written in
  decimal and parsed back the way `format!` and `str::parse` do. A table scan
  visits keys in code-point order, which is redb's byte order on UTF-8 keys.
- **Inputs from outside the program are parameters.** These are the clock,
  fresh UUIDs, random challenges, Argon2 hashing and verification, JWT
  signing and verification, and base64 encoding.

## Where the code and its documentation differ

The model follows the code in each case below.

- **Scan order.** `scan_messages` without `after_ts` is documented as
  descending (crates/storage/src/lib.rs:114). It returns the latest `limit`
  records in ascending key order (`MessageLog.LatestProperties`).
- **Publish failures.** A failed publish in `send_message` is reported as an
  error only after the record has been persisted (`Rooms.SendOk`).
- **Guest ids.** `heartbeat` invents a guest id only for a missing user id.
  An empty id is kept as it is (`Presence.EmptyIdKept`).
- **Negative timestamps.** A negative timestamp sorts before every
  non-negative one, and negative ones sort in reverse of their numeric order
  (`MessageLog.NegativeKeysFirst`, `MessageLog.NegativeKeysReversed`).
- **Double rate-limit cost.** A message post passes through the global
  limiter and then through the handler's own `allow`. With the same key it
  costs two tokens, so a fresh key posts two messages in a burst, not five
  (`RoomsRoutes.BurstOfPosts`).
- **Dev login's default email.** `dev_login_post` defaults the email to
  `<user id>@example.com` (apps/gateway/src/routes/dev.rs:48), not to a fixed
  address.

## Model

| member | source | states |
|---|---|---|
| Storage.Lookup | crates/storage/src/lib.rs:275-286 | a point read is `Ok(None)` exactly when the key is absent, an error exactly when the stored bytes do not decode, and otherwise the stored document |
| Storage.LookupAfterInsert | crates/storage/src/lib.rs:263-286 | after an insert the key reads back the document just written, and every other key reads as before |
| Storage.LookupAfterRemove | crates/storage/src/lib.rs:570-578 | after a remove the key reads as absent, and every other key reads as before |
| Storage.PairKey | crates/storage/src/lib.rs:440-442 | the key is the user id, one `/`, then the credential or state id |
| Storage.PairKeyInjective | crates/storage/src/lib.rs:440-442 | two pairs whose user ids hold no `/` share a key only when they are equal |
| Storage.PresenceDoc | crates/storage/src/lib.rs:383-387 | the stored row holds `last_seen` equal to the timestamp |
| Storage.LastSeen | crates/storage/src/lib.rs:398-413 | a timestamp is reported only for a present row that decodes and holds an integer `last_seen`; an absent row reads `None` |
| Storage.LastSeenAfterSet | crates/storage/src/lib.rs:379-413 | going online then reading gives the timestamp back, going offline reads as absent, and other users read as before |
| Storage.ListedPresence | crates/storage/src/lib.rs:417-437 | a pair is listed exactly when that user's row has that integer `last_seen` |
| Storage.ListedUsers | crates/storage/src/lib.rs:289-305 | a document is listed exactly when some row stores it; rows that do not decode are skipped |
| Storage.Retain | crates/storage/src/lib.rs:198-216 | the kept rows are exactly the rows the predicate rejects, with their values unchanged |
| Storage.Unlinked | crates/storage/src/lib.rs:328-339 | the kept credential rows are exactly those whose JSON does not name the user in `user_id` |
| Storage.ExtractIf | crates/storage/src/lib.rs:198-216 | draining the extractor one row at a time leaves exactly the rows `Retain` keeps |
| Storage.CounterAt | crates/storage/src/lib.rs:233-243 | a missing value or one whose length is not 8 counts as 0; an 8-byte value is the little-endian number it encodes |
| Storage.CounterAfterStore | crates/storage/src/lib.rs:244-245 | a stored counter reads back as written, and other counters read as before |
| Storage.BumpCounts | crates/storage/src/lib.rs:228-250 | one `next_seq_for_room` moves the room's counter on by one, wrapping at 2^64 |
| Storage.BumpTimesCounts | crates/storage/src/lib.rs:228-250 | below the wrap, k calls move the room's counter on by exactly k, and every other room's counter is unchanged |
| Storage.ListedRates | crates/storage/src/lib.rs:688-703 | a pair is listed exactly when the key's value is 8 bytes long and decodes to that number |
| Storage.CollectEntries | crates/storage/src/lib.rs:289-305 | the listing loop returns what the picker selects from each entry, in key order |
| Storage.ScanRange | crates/storage/src/lib.rs:121-141 | from the start key up, the room's decodable records, cut off after `limit` of them |
| Storage.ScanLatest | crates/storage/src/lib.rs:142-166 | the bounded deque ends up holding the last `limit` of the room's decodable records, in ascending order |
| Storage.Store.constructor | crates/storage/src/lib.rs:52-82 | a fresh database has every table empty, with the given fault sets |
| Storage.Store.Written | crates/storage/src/lib.rs:104-110 | a write transaction fails exactly on a table whose writes fail |
| Storage.Store.Insert | crates/storage/src/lib.rs:263-272 | on success only that table changes, with the key set to the value; on failure nothing changes |
| Storage.Store.Remove | crates/storage/src/lib.rs:636-644 | on success only that table changes, with the key removed; on failure nothing changes |
| Storage.Store.Get | crates/storage/src/lib.rs:275-286 | a read fault is an error; otherwise `Ok(None)` exactly for an absent key and the stored document for a present one |
| Storage.Store.AppendMessage | crates/storage/src/lib.rs:90-111 | the record is stored under its composite key, and a table whose keys match their records still does after a non-negative timestamp |
| Storage.Store.ScanMessages | crates/storage/src/lib.rs:113-169 | a read fault is an error; otherwise the result is `ScanResult` of the messages table in key order |
| Storage.Store.RetentionSweep | crates/storage/src/lib.rs:184-220 | as written, a clock before the epoch is an error that removes nothing; otherwise the sweep removes the messages below a cutoff of `now_secs - keep_days * 86400`, which is in seconds |
| Storage.Store.RetentionSweepMillis | crates/storage/src/lib.rs:184-220 | the corrected sweep fails the same way on a clock before the epoch, and otherwise removes the messages below the same cutoff taken in milliseconds |
| Storage.Store.SweepBefore | crates/storage/src/lib.rs:192-219 | the `extract_if` transaction keeps exactly the rows `Swept` keeps, and changes nothing on a write fault |
| Storage.Store.NextSeqForRoom | crates/storage/src/lib.rs:228-250 | stores and returns the old counter plus one, wrapping at 2^64; a write fault changes nothing |
| Storage.Store.SetSeqForRoom | crates/storage/src/lib.rs:253-260 | on success the room's counter reads back as the value set |
| Storage.Store.PutUser | crates/storage/src/lib.rs:263-272 | the user document is stored under the user id |
| Storage.Store.GetUser | crates/storage/src/lib.rs:275-286 | an absent user reads `Ok(None)`; a returned document is the stored one |
| Storage.Store.ListUsers | crates/storage/src/lib.rs:289-305 | a read fault is an error; otherwise every decodable user document, in key order |
| Storage.Store.DeleteUser | crates/storage/src/lib.rs:307-350 | two transactions: the user row goes, then every credential row linked to the user; if the second fails the first stays done, and the reply is an error exactly when either failed |
| Storage.Store.PutCredentials | crates/storage/src/lib.rs:352-362 | the credentials document is stored under the e-mail |
| Storage.Store.GetCredentials | crates/storage/src/lib.rs:364-376 | an absent e-mail reads `Ok(None)`; a returned document is the stored one |
| Storage.Store.SetPresence | crates/storage/src/lib.rs:378-395 | online stores `{"last_seen": ts}`, offline removes the row; afterwards `LastSeen` reads `Some(ts)` or `None` accordingly |
| Storage.Store.GetPresence | crates/storage/src/lib.rs:397-413 | an error exactly on a read fault; otherwise `LastSeen` of the presence table |
| Storage.Store.ListPresence | crates/storage/src/lib.rs:415-437 | a read fault is an error; otherwise every row with an integer `last_seen`, in key order |
| Storage.Store.PutWebauthnCred | crates/storage/src/lib.rs:439-451 | the credential is stored in the credentials table under `user_id/cred_id` |
| Storage.Store.GetWebauthnCred | crates/storage/src/lib.rs:453-466 | reads the credentials table under `user_id/cred_id` |
| Storage.Store.PutPending | crates/storage/src/lib.rs:468-518 | the pending registration or authentication state is stored under `user_id/id` |
| Storage.Store.GetPending | crates/storage/src/lib.rs:482-532 | reads the pending state under `user_id/id` |
| Storage.Store.DeletePending | crates/storage/src/lib.rs:496-543 | removes the pending state under `user_id/id` |
| Storage.Store.PutOAuthState | crates/storage/src/lib.rs:545-555 | the OAuth state document is stored under the state string |
| Storage.Store.GetOAuthState | crates/storage/src/lib.rs:557-568 | reads the OAuth state under the state string |
| Storage.Store.DeleteOAuthState | crates/storage/src/lib.rs:570-578 | removes the OAuth state under the state string |
| Storage.Store.CreateRefreshToken | crates/storage/src/lib.rs:608-619 | the row under the token id holds the user id and the expiry |
| Storage.Store.GetRefreshToken | crates/storage/src/lib.rs:621-633 | an absent token reads `Ok(None)`; a returned document is the stored one |
| Storage.Store.RevokeRefreshToken | crates/storage/src/lib.rs:635-644 | removes the token's row |
| Storage.Store.IncrRateCounter | crates/storage/src/lib.rs:646-668 | stores and returns the old counter plus `delta`, wrapping at 2^64; a write fault changes nothing |
| Storage.Store.GetRateCounter | crates/storage/src/lib.rs:670-685 | an error exactly on a read fault; a missing key is 0; otherwise `CounterAt` |
| Storage.Store.ListRateCounters | crates/storage/src/lib.rs:687-703 | a read fault is an error; otherwise every 8-byte counter, decoded, in key order |
| Storage.Store.ResetRateCounter | crates/storage/src/lib.rs:705-715 | on success the counter reads 0 |
| Storage.RefreshDoc | crates/storage/src/lib.rs:610 | the document's `user_id` and `expiry` are the given values |
| MessageLog.EncodeRecord | crates/storage/src/lib.rs:100-101 | the serialized record is never empty and decodes back to the record |
| MessageLog.Field20 | crates/storage/src/lib.rs:95 | `{:020}` of a value in range is exactly 20 characters |
| MessageLog.KeyTail | crates/storage/src/lib.rs:95 | the part after `<room>/` is exactly 41 characters, so keys of one room align field by field |
| MessageLog.MakeKeyOrder | crates/storage/src/lib.rs:88-97 | for non-negative timestamps the key order of one room is the order by timestamp, then by sequence number |
| MessageLog.NegativeKeysFirst | crates/storage/src/lib.rs:91-93 | a negative timestamp's key sorts before every non-negative one's |
| MessageLog.NegativeKeyTail | crates/storage/src/lib.rs:95 | a negative timestamp is written as `-` and 19 zero-padded digits |
| MessageLog.NegativeKeysReversed | crates/storage/src/lib.rs:91-93 | among negative timestamps the key order is reversed: the later one sorts first |
| MessageLog.StartKeyBound | crates/storage/src/lib.rs:123-125 | a key of the room is at or above `make_key(room, after + 1, 0)` exactly when its timestamp is greater than `after` |
| MessageLog.Pick | crates/storage/src/lib.rs:125-140 | an entry yields a record exactly when its key is at or above the start, it decodes, and its room matches |
| MessageLog.Take | crates/storage/src/lib.rs:128-130 | at most `limit` records are kept |
| MessageLog.Last | crates/storage/src/lib.rs:156-160 | the window holds at most `limit` records |
| MessageLog.AscendingSnoc | crates/storage/src/lib.rs:148-163 | appending a record later than every listed one keeps the listing ascending |
| MessageLog.AscendingUnique | crates/storage/src/lib.rs:148-163 | two ascending listings with the same members are equal |
| MessageLog.RecordsFromAscending | crates/storage/src/lib.rs:125-141 | walking a key-sorted table whose keys match their records yields records ascending by timestamp and sequence number |
| MessageLog.TableRecordsMember | crates/storage/src/lib.rs:125-141 | a record is listed exactly when some key at or above the start stores it for the room |
| MessageLog.TableRecordsAscending | crates/storage/src/lib.rs:148-163 | the records of a table with matching keys come out ascending |
| MessageLog.ScanAfterSound | crates/storage/src/lib.rs:113-141 | with `after_ts` the result has at most `limit` records, ascending, each stored for the room and strictly after `after_ts` |
| MessageLog.ScanAfterComplete | crates/storage/src/lib.rs:113-141 | a result shorter than `limit` holds every stored record of the room after `after_ts` |
| MessageLog.TableListing | crates/storage/src/lib.rs:148-163 | the full walk lists exactly the records stored for the room |
| MessageLog.ListingDetermined | crates/storage/src/lib.rs:148-163 | the full walk is the unique ascending listing of the room's records |
| MessageLog.LatestProperties | crates/storage/src/lib.rs:142-166 | without `after_ts` the result is the last `limit` of the room's records, which are ascending and exactly the stored ones |
| MessageLog.LatestIsSuffix | crates/storage/src/lib.rs:142-166 | without `after_ts` the result is the suffix of length `min(limit, n)` of the full walk |
| MessageLog.LastSnoc | crates/storage/src/lib.rs:157-160 | one `push_back` then `pop_front` when over `limit` moves the window on by one record |
| MessageLog.AppendKeepsWellKeyed | crates/storage/src/lib.rs:100-111 | appending a record with a non-negative timestamp keeps every key matching its record |
| MessageLog.Swept | crates/storage/src/lib.rs:198-210 | a row survives exactly when it is not expired: empty rows stay, undecodable rows go, records go when their timestamp is below the cutoff |
| MessageLog.SweptKeepsWellKeyed | crates/storage/src/lib.rs:198-216 | a sweep keeps every key matching its record |
| MessageLog.SweptIdempotent | crates/storage/src/lib.rs:186-220 | sweeping twice with one cutoff is sweeping once |
| MessageLog.AsWrittenSweepKeepsMillisRecords | crates/storage/src/lib.rs:187-190 | with the cutoff in seconds, every record whose millisecond timestamp is at least the current second survives, however old it is |
| MessageLog.AsWrittenSweepMissesOldMessage | crates/storage/src/lib.rs:187-190 | a message two days old survives a one-day sweep |
| MessageLog.MillisSweepKeepsRecent | crates/storage/src/lib.rs:184-220 | with the cutoff in milliseconds a row survives exactly when it is empty or a record at most `keep_days` old |
| Json.Decode | crates/storage/src/lib.rs:281 | `serde_json::from_slice` succeeds exactly on stored JSON, gives that document, and fails on empty bytes |
| Json.Get | crates/storage/src/lib.rs:334 | `get(key)` finds a field exactly when the value is an object holding that key |
| Json.GetStr | crates/storage/src/lib.rs:334 | `get(key).and_then(as_str)` finds a string exactly when the field is present and is a string |
| Json.GetI64 | crates/storage/src/lib.rs:405 | `get(key).and_then(as_i64)` gives a value exactly when the field is that integer |
| Json.Insert | apps/gateway/src/routes/dev.rs:31 | setting an object's field gives the new value under that key and leaves every other field as it was; a non-object is left alone |
| Json.Obj2 | crates/storage/src/lib.rs:610 | a two-field `json!` object holds both values under their keys |
| StringOrder.LtIrreflexive | crates/storage/src/lib.rs:22-24 | the key order of the tables is irreflexive |
| StringOrder.LtTransitive | crates/storage/src/lib.rs:22-24 | the key order is transitive |
| StringOrder.LtTotal | crates/storage/src/lib.rs:22-24 | any two distinct keys are ordered one way or the other |
| StringOrder.LtAsymmetric | crates/storage/src/lib.rs:22-24 | the key order is asymmetric |
| StringOrder.LtCommonPrefix | crates/storage/src/lib.rs:88-95 | a common prefix such as `<room>/` does not change the order of two keys |
| StringOrder.LtConcat | crates/storage/src/lib.rs:88-95 | keys made of a fixed-width field then a tail compare by the field first, then by the tail |
| StringOrder.ZeroPaddedOrder | crates/storage/src/lib.rs:88-95 | zero-padded numbers of one width compare as the numbers do, and are equal only when the numbers are |
| StringOrder.Least | crates/storage/src/lib.rs:148 | a non-empty key set has a least key |
| StringOrder.SortedKeys | crates/storage/src/lib.rs:148 | the keys of a table in iteration order: strictly ascending, exactly the set, each once |
| StringOrder.SortedUnique | crates/storage/src/lib.rs:148 | there is only one strictly ascending listing of a key set |
| StringOrder.SortKeys | crates/storage/src/lib.rs:148 | repeatedly moving the least remaining key to the end gives the iteration order |
| StringOrder.Zip | crates/storage/src/lib.rs:293-295 | pairs each listed key with its value, position by position |
| StringOrder.OrderedEntries | crates/storage/src/lib.rs:293-295 | the loop builds the table's entries in key order |
| StringOrder.ZipFacts | crates/storage/src/lib.rs:293-295 | pairing sorted keys with a table lists that table with sorted keys |
| StringOrder.OrderedFacts | crates/storage/src/lib.rs:293-295 | `table.iter()` yields every entry exactly once, keys ascending |
| StringOrder.Collect | crates/storage/src/lib.rs:289-305 | a listing never has more items than the table has entries |
| StringOrder.CollectMember | crates/storage/src/lib.rs:289-305 | an item is listed exactly when some entry yields it |
| StringOrder.CollectAppend | crates/storage/src/lib.rs:289-305 | listing two runs of entries one after the other is listing each in turn |
| StringOrder.CollectTable | crates/storage/src/lib.rs:289-305 | an item is listed exactly when some key of the table yields it |
| Ipc.ReadExact | crates/ipc/src/lib.rs:128-131 | `read_exact` of n bytes fails exactly when fewer than n remain, and otherwise splits the input into the n bytes read and the rest |
| Ipc.ReadFrame | crates/ipc/src/lib.rs:126-133 | fails with end of input exactly when the 4-byte prefix or the n payload bytes it announces are missing; otherwise the input is the prefix, the payload and the unread rest |
| Ipc.WriteFrame | crates/ipc/src/lib.rs:136-142 | a payload of 2^32 bytes or more is refused as too large before anything is written; otherwise the frame is 4 bytes longer than the payload and ends with it |
| Ipc.WrittenPrefix | crates/ipc/src/lib.rs:137-138 | the frame starts with the payload length in big-endian, which decodes back to that length |
| Ipc.ReadWrite | crates/ipc/src/lib.rs:126-142 | reading a written frame followed by anything gives back the payload and leaves the rest unread |
| Ipc.TwoFrames | crates/ipc/src/lib.rs:146-159 | a request frame and a reply frame on one stream read back in order, each whole |
| Ipc.TruncatedFrameFails | crates/ipc/src/lib.rs:126-133 | any strict prefix of a frame fails to read |
| Numeric.WrappingAdd | crates/storage/src/lib.rs:244 | `wrapping_add` is the sum below 2^64 and the sum minus 2^64 at or above it |
| Numeric.WrapI64 | crates/storage/src/lib.rs:123 | an `i64` result is the exact value in range and otherwise agrees with it modulo 2^64 |
| Numeric.FromLeOfLe | crates/storage/src/lib.rs:237 | decoding `n` little-endian bytes of a value below 256^n gives the value back |
| Numeric.LeOfFromLe | crates/storage/src/lib.rs:237 | encoding a decoded byte string at its own length gives the bytes back |
| Numeric.U64ToLe | crates/storage/src/lib.rs:245 | `to_le_bytes` of a `u64` is 8 bytes |
| Numeric.U64FromLe | crates/storage/src/lib.rs:237 | `from_le_bytes` is the value whose encoding is the given 8 bytes |
| Numeric.U64LeRoundTrip | crates/storage/src/lib.rs:237-245 | decoding an encoded `u64` gives it back |
| Numeric.FromBeOfBe | crates/ipc/src/lib.rs:129 | decoding `n` big-endian bytes of a value below 256^n gives the value back |
| Numeric.BeOfFromBe | crates/ipc/src/lib.rs:129 | encoding a decoded big-endian byte string at its own length gives the bytes back |
| Numeric.U32ToBe | crates/ipc/src/lib.rs:138 | `to_be_bytes` of a `u32` is 4 bytes |
| Numeric.U32FromBe | crates/ipc/src/lib.rs:129 | `from_be_bytes` is the value whose encoding is the given 4 bytes |
| Numeric.U32BeRoundTrip | crates/ipc/src/lib.rs:129-138 | the big-endian `u32` pair is a bijection: decoding an encoding gives the value back |
| Numeric.ZeroPadded | crates/storage/src/lib.rs:95 | `{:0w}` of a value below 10^w is exactly w digits |
| Numeric.ZeroPaddedValue | crates/storage/src/lib.rs:95 | the padded digits read back as the value |
| Numeric.Decimal | crates/storage/src/lib.rs:95 | the decimal form of a number is a non-empty string of digits |
| Numeric.DecimalValue | crates/storage/src/lib.rs:95 | the decimal digits read back as the number |
| Numeric.ParseI64 | apps/gateway/src/routes/rooms.rs:28 | `parse::<i64>` accepts only a string that starts with a digit or a sign |
| Numeric.ParseU64 | apps/gateway/src/routes/rooms.rs:29 | `parse::<usize>` accepts only a string that starts with a digit or `+` |
| Numeric.ParseFormatI64 | apps/gateway/src/routes/rooms.rs:28 | parsing the decimal form of any `i64` gives it back |
| Numeric.ParseFormatU64 | apps/gateway/src/routes/rooms.rs:29 | parsing the decimal form of any `u64` gives it back |
| Text.TrimStart | apps/gateway/src/routes/auth.rs:63 | drops exactly the leading whitespace: the result is a suffix that does not start with whitespace, and everything dropped is whitespace |
| Text.TrimEnd | apps/gateway/src/routes/auth.rs:63 | drops exactly the trailing whitespace: the result is a prefix that does not end with whitespace, and everything dropped is whitespace |
| Text.StripStart | scripts/check_braces.py:25 | `lstrip` drops exactly the leading Python whitespace: the result is a suffix that does not start with whitespace |
| Text.StripEnd | scripts/check_braces.py:25 | `rstrip` drops exactly the trailing Python whitespace: the result is a prefix that does not end with whitespace |
| Text.Trim | apps/gateway/src/routes/auth.rs:63 | the result is a slice of the input that starts and ends with no whitespace |
| Text.Lower | apps/gateway/src/routes/auth.rs:63 | lower-casing keeps the length and lowers each character |
| Text.LowerIdle | apps/gateway/src/init.rs:65 | a string without capitals is its own lower case |
| Text.StripPrefix | apps/gateway/src/state.rs:70 | `strip_prefix` succeeds exactly when the string starts with the prefix, and gives what follows it |
| Text.TrimStartMatches | apps/gateway/src/routes/auth.rs:240 | `trim_start_matches` gives a suffix that no longer starts with the pattern |
| Text.Find | apps/gateway/src/routes/auth.rs:151 | `find` gives the first position where the pattern occurs, and `None` exactly when it occurs nowhere |
| Text.FindFrom | apps/gateway/src/routes/auth.rs:151-156 | the first occurrence at or after a position, and `None` exactly when there is none |
| Text.FindChar | apps/gateway/src/init.rs:44 | the first position of a character, and `None` exactly when it is absent |
| Text.Split | apps/gateway/src/state.rs:68 | `split` gives at least one piece, none containing the separator, and joining the pieces gives the input back |
| Text.SplitOnce | apps/gateway/src/init.rs:44 | `splitn(2, sep)`: without the separator the whole string and nothing; otherwise the part before the first separator and the rest |
| Text.SplitUnique | apps/gateway/src/init.rs:44 | the first-separator split of a string is unique |
| Text.Lines | apps/gateway/src/init.rs:41 | `lines` gives no lines exactly for the empty text, and no line holds a line feed |
| Text.LinesArePieces | apps/gateway/src/init.rs:41 | the lines are the line-feed pieces without the empty piece after a final line feed, and only a piece a line feed ends loses one trailing carriage return |
| Text.PiecesStep | apps/gateway/src/init.rs:41 | the piece description of the lines carries over from the text after the first line feed to the whole text |
| Text.LinesJoin | apps/gateway/src/init.rs:41 | for a text without carriage returns, the lines joined with line feeds, plus the final line feed if there was one, give the text back |
| Text.Utf8Len | apps/gateway/src/routes/auth.rs:65 | `len()` counts UTF-8 bytes: between one and four per character |
| PubSub.EncodeFrame | crates/bus/src/pubsub.rs:159-164 | a socket message is the topic bytes, one zero byte, then the payload |
| PubSub.FirstZero | crates/bus/src/pubsub.rs:201 | `position(b == 0)` gives the first zero byte, and `None` exactly when there is none |
| PubSub.DecodeFrame | crates/bus/src/pubsub.rs:199-217 | a message with a zero byte splits there into a topic without zeros and the payload; one without is all payload with an empty topic |
| PubSub.FirstZeroOfFrame | crates/bus/src/pubsub.rs:159-203 | in a message whose topic holds no zero byte, the first zero is the separator |
| PubSub.DecodeEncode | crates/bus/src/pubsub.rs:159-217 | a subscriber splits a published message back into its topic and payload, whenever the topic holds no zero byte |
| PubSub.PrefixTopicsAccepted | crates/bus/src/pubsub.rs:183-184 | a socket subscription accepts every message whose topic starts with the subscribed bytes |
| PubSub.ShorterRoomAcceptsLonger | crates/bus/src/pubsub.rs:183-184 | a subscriber to `room/a` also accepts the messages of `room/ab` |
| PubSub.Deliveries | crates/bus/src/pubsub.rs:92-100 | a subscriber's messages are drawn from the publish log |
| PubSub.DeliveriesAppend | crates/bus/src/pubsub.rs:92-100 | what a subscriber is owed from two runs of publishes is what each run owes it, in order |
| PubSub.DeliveriesMember | crates/bus/src/pubsub.rs:82-100 | a subscriber is owed exactly the published messages whose topic is its own |
| PubSub.Delivered | crates/bus/src/pubsub.rs:92-100 | one publish changes only a subscriber's queue |
| PubSub.DeliverAll | crates/bus/src/pubsub.rs:55-69 | one publish steps every subscriber, in order |
| PubSub.DeliveredOwed | crates/bus/src/pubsub.rs:55-100 | delivering a publish keeps every subscriber's queue equal to what it is owed since it connected, less what it has received |
| PubSub.Hub.constructor | crates/bus/src/pubsub.rs:34-39 | an empty registry with no topics, subscribers or published messages |
| PubSub.Hub.Connect | crates/bus/src/pubsub.rs:79-114 | `connect` makes sure the topic has an entry and adds a subscriber that is owed only what is published from now on |
| PubSub.Hub.Publish | crates/bus/src/pubsub.rs:55-69 | a publish over the registry always succeeds, even with no subscriber, and appends the message to every matching queue; a socket send that fails changes nothing |
| PubSub.Hub.Receive | crates/bus/src/pubsub.rs:94-101 | a receive takes the oldest message of the subscriber's queue, or nothing when the queue is empty |
| Rpc.Bound | crates/bus/src/rpc.rs:43-72 | binding fails exactly when the address is taken, and otherwise adds that address |
| Rpc.Unbound | crates/bus/src/rpc.rs:96-99 | unbinding reports whether the address was bound and removes it |
| Rpc.Answer | crates/bus/src/rpc.rs:76-93 | a request fails with `no rpc server bound at <addr>` exactly when nothing is bound there |
| Rpc.BindThenRequest | crates/bus/src/rpc.rs:43-93 | a request to a freshly bound address is answered by that handler |
| Rpc.OthersUnaffected | crates/bus/src/rpc.rs:43-99 | binding or unbinding one address leaves the answers at every other address unchanged |
| Rpc.UnbindFrees | crates/bus/src/rpc.rs:96-99 | after an unbind the address can be bound again, and a request there fails |
| Rpc.SecondBindFails | crates/bus/src/rpc.rs:48-51 | a second bind of one address fails, and the first handler keeps answering |
| Rpc.RpcRegistry.constructor | crates/bus/src/rpc.rs:30-35 | the registry starts empty |
| Rpc.RpcRegistry.BindServer | crates/bus/src/rpc.rs:43-72 | a taken address gives `address already bound: <addr>` with the registry unchanged; otherwise the handler is registered |
| Rpc.RpcRegistry.UnbindServer | crates/bus/src/rpc.rs:96-99 | removes the address and reports whether it was bound |
| Rpc.RpcRegistry.ReqOnce | crates/bus/src/rpc.rs:76-93 | the reply is the bound handler's answer to the payload, or the not-bound error |
| Rate.Refilled | crates/rate/src/lib.rs:26-33 | with no time elapsed the bucket is unchanged; otherwise the last time moves to now and the tokens grow by elapsed times rate, capped at the capacity |
| Rate.Consumed | crates/rate/src/lib.rs:36-44 | after the refill, a consume is allowed exactly when enough tokens are there, and only an allowed one spends them |
| Rate.RefillBounded | crates/rate/src/lib.rs:26-33 | a refill never loses tokens and never goes past the capacity |
| Rate.ConsumeBounded | crates/rate/src/lib.rs:26-44 | a bucket between empty and full stays so after a consume |
| Rate.TokenBucket.constructor | crates/rate/src/lib.rs:17-24 | a new bucket is full and stamped with the current time |
| Rate.TokenBucket.Refill | crates/rate/src/lib.rs:26-33 | the bucket's new state is `Refilled` of its old one |
| Rate.TokenBucket.TryConsume | crates/rate/src/lib.rs:36-44 | the answer and the new state are `Consumed` of the old state |
| Rate.Step | crates/rate/src/lib.rs:65-71 | `allow` adds a bucket for the key when it has none and leaves every other key's bucket alone |
| Rate.StepBounded | crates/rate/src/lib.rs:65-71 | every bucket stays between empty and full |
| Rate.Answers | crates/rate/src/lib.rs:65-71 | a run of `allow` calls gives one answer per call |
| Rate.StepWithoutElapse | crates/rate/src/lib.rs:26-44 | with no time elapsed, one call is allowed exactly when a whole token is left, and spends it |
| Rate.FreshKeyAllowsFive | apps/gateway/src/main.rs:48 | with capacity 5 and no time passing, a new key is allowed five times and refused on the sixth |
| Rate.OneTokenPerInterval | crates/rate/src/lib.rs:28-30 | waiting `1 / rate` seconds refills at least one token |
| Rate.RecoversAfterDenial | crates/rate/src/lib.rs:26-71 | a key refused now is allowed again once `1 / rate` seconds have passed |
| Rate.RateLimiter.constructor | crates/rate/src/lib.rs:56-62 | a new limiter has no buckets, and its capacity is the given count |
| Rate.RateLimiter.Allow | crates/rate/src/lib.rs:65-71 | the answer and the new buckets are `Step` of the old buckets |
| Rate.RateLimiter.ClearBuckets | crates/rate/src/lib.rs:80-83 | afterwards no key has a bucket |
| Rooms.MessageIdInjective | crates/rooms/src/lib.rs:32 | for non-negative clock readings, the id `<now_ms>-<seq>` determines the time and the sequence number |
| Rooms.IdsRepeatAcrossRooms | crates/rooms/src/lib.rs:31-37 | two rooms' messages from the same millisecond and sequence number share an id but not a storage key |
| Rooms.MakeKeyRoom | crates/storage/src/lib.rs:90-97 | one timestamp and sequence number in two rooms give two keys unless the rooms are equal |
| Rooms.NewRecord | crates/rooms/src/lib.rs:31-37 | the record carries the room, the millisecond timestamp, the sequence number and the body |
| Rooms.SentRecord | crates/rooms/src/lib.rs:24-37 | with a clock in range and no counter wrap, the record's sequence number is the room's counter plus one |
| Rooms.RoomTopic | crates/rooms/src/lib.rs:43 | the topic is `room/` followed by the room |
| Rooms.SendMessage | crates/rooms/src/lib.rs:16-48 | a clock before the epoch fails before anything changes; a sequence failure fails with the counter unchanged; otherwise the counter is bumped, then the record is stored under its key, then published on `room/<room>`, each failure stopping the steps after it |
| Rooms.FetchHistory | crates/rooms/src/lib.rs:53-61 | a read fault is an error; otherwise `scan_messages` of the room |
| Rooms.AppendFresh | crates/rooms/src/lib.rs:40 | storing a record under a key no listed record holds adds exactly that record to the room's records |
| Rooms.ThreeStored | crates/rooms/src/lib.rs:16-48 | three sends to an empty room leave exactly those three records stored |
| Rooms.ThreeRecordsListed | crates/rooms/src/lib.rs:53-61 | those three records are listed in the order they were sent |
| Rooms.DistinctKeys | crates/storage/src/lib.rs:90-97 | two records of a room, one before the other, have different keys |
| Rooms.SendOk | crates/rooms/src/lib.rs:16-48 | a send that gets through returns the record numbered one past the old counter, which is the new counter, and stores it under its key |
| Rooms.SendThreeFetchTwo | crates/rooms/src/lib.rs:16-61 | three sends then `fetch_history(room, None, 2)` give the second and third records, oldest first, with consecutive sequence numbers |
| Presence.EmptyIdKept | crates/presence/src/lib.rs:66-70 | a given id is used as it is, even an empty one; only a missing id becomes `anon-<uuid>` |
| Presence.PresenceEvent | crates/presence/src/lib.rs:73 | the published event holds the user id and the `last_seen` time |
| Presence.DiagEvent | crates/presence/src/lib.rs:80 | the diagnostic event holds the event name, the user id and the time |
| Presence.OfflineEvents | crates/presence/src/lib.rs:39-45 | a sweep publishes at most one offline event per listed entry |
| Presence.SweepStep | crates/presence/src/lib.rs:39-45 | one more entry adds its user to the stale set, and its event to the published ones, exactly when `now - last_seen > timeout` |
| Presence.StaleUsersMember | crates/presence/src/lib.rs:39-44 | a user is swept exactly when one of its listed entries is stale |
| Presence.SweepRemovesStale | crates/presence/src/lib.rs:37-44 | a user is swept exactly when its stored `last_seen` is older than the timeout |
| Presence.SweepKeepsFresh | crates/presence/src/lib.rs:37-44 | after a sweep a fresh user reads as before, a stale one reads as absent, and an absent one stays absent |
| Presence.HeartbeatRefreshes | crates/presence/src/lib.rs:67-72 | two heartbeats leave one row, with the later time |
| Presence.PresenceManager.constructor | crates/presence/src/lib.rs:26-64 | the manager holds the storage, the publisher and the timeout |
| Presence.PresenceManager.Heartbeat | crates/presence/src/lib.rs:66-85 | a clock before the epoch or a failed presence write is an error with nothing written or published; otherwise the id's row holds the current second and `presence/online` then `presence/diag` are published, a publish failure being only logged |
| Presence.PresenceManager.MarkOffline | crates/presence/src/lib.rs:87-102 | a clock before the epoch or a failed presence write is an error with nothing changed; otherwise the row is removed and `presence/offline` then `presence/diag` are published, a publish failure being only logged |
| Presence.PresenceManager.SweepEntry | crates/presence/src/lib.rs:40-44 | a stale entry has its row removed, a failure ignored, and an offline event published with its old `last_seen`; a fresh entry changes nothing |
| Presence.PresenceManager.SweepTick | crates/presence/src/lib.rs:35-47 | one tick: when the listing can be read, every stale user's row goes and one offline event per stale user is published in key order; a clock before the epoch counts as time 0 |
| Presence.PresenceManager.SweepEntries | crates/presence/src/lib.rs:39-45 | the loop over the listing removes exactly the stale users' rows and publishes exactly their offline events, in order |
| Presence.PresenceManager.SweepNext | crates/presence/src/lib.rs:39-45 | one iteration of the loop extends the swept state by one entry |
| GatewayState.IsAdminEmailMeans | apps/gateway/src/state.rs:27-33 | an e-mail is the admin's exactly when its ASCII lower case is `admin@example.com`, so `Admin@Example.COM` is and `admin@example.org` is not |
| GatewayState.HeaderStr | apps/gateway/src/state.rs:50-52 | `get(name).and_then(to_str)` gives the header exactly when it is present and visible ASCII |
| GatewayState.BearerOf | apps/gateway/src/state.rs:53-60 | after trimming, a value longer than 7 characters whose first 7 are `bearer ` in any case gives the non-empty rest |
| GatewayState.HeaderBearerToken | apps/gateway/src/state.rs:49-61 | a token comes only from a readable `authorization` header, as `BearerOf` cuts it |
| GatewayState.SessionValue | apps/gateway/src/state.rs:70-76 | a trimmed cookie piece gives a value exactly when it starts `session=` or `session_token=`, `session=` taking precedence |
| GatewayState.FirstSession | apps/gateway/src/state.rs:68-77 | `find_map` finds nothing exactly when no piece carries a session value |
| GatewayState.CookieSessionToken | apps/gateway/src/state.rs:63-79 | the first session value among the `;`-separated pieces of a readable `cookie` header |
| GatewayState.EarlierSessionWins | apps/gateway/src/state.rs:68-77 | the first piece carrying a session value decides, whatever follows |
| GatewayState.ExtractToken | apps/gateway/src/state.rs:82-84 | a bearer header wins; without one the session cookie is used |
| GatewayState.RequireAdmin | apps/gateway/src/state.rs:94-114 | no token is 401 `missing authorization`, a token that does not verify 401 `invalid token`; the requester is accepted exactly when the stored user's `role` is the string `admin`, and every refusal is 401, 403 or 500 |
| GatewayState.RequireAdminStatuses | apps/gateway/src/state.rs:103-113 | an unknown user is 401 `user not found`, a storage error 500, and any role other than `admin` 403 `admin access required` |
| Middleware.RateKey | apps/gateway/src/middleware.rs:49-51 | the rate key is the verified `sub` of the extracted token, and `anon` when there is no token or it does not verify |
| Middleware.ExemptExamples | apps/gateway/src/middleware.rs:55-64 | exemption is by prefix: `/api/auth/login/extra`, `/ws` and `/healthz?probe` are all exempt |
| Middleware.RoomPathsNotExempt | apps/gateway/src/middleware.rs:55-64 | no `/rooms/...` path is exempt |
| Middleware.RateLimit | apps/gateway/src/middleware.rs:42-76 | an exempt path is forwarded without touching the limiter; any other path spends a token of its key and is refused with 429 `rate limit` when none is left |
| Middleware.FirstWithPrefix | apps/gateway/src/middleware.rs:103-110 | finds nothing exactly when no trimmed piece starts with the prefix; a found value follows the prefix in some trimmed piece |
| Middleware.Csrf | apps/gateway/src/middleware.rs:91-121 | GET, HEAD and OPTIONS pass; any other method passes exactly when there is no `csrfToken` cookie or the `x-csrf-token` header equals it, and is refused with 403 `csrf token mismatch` otherwise |
| Middleware.ForgedRequestRefused | apps/gateway/src/middleware.rs:113-118 | an unsafe request carrying the cookie but not the header is refused |
| Middleware.CookielessRequestsPass | apps/gateway/src/middleware.rs:83-85 | a request without cookies always passes |
| Middleware.LogEntryFor | apps/gateway/src/middleware.rs:145-154 | a body is logged with its full size, at most its first 64 KiB shown, marked truncated exactly when it is longer, and shown as `[binary body]` exactly when the shown bytes are not valid UTF-8 |
| Middleware.CharWidth | apps/gateway/src/middleware.rs:151 | the length of the well-formed UTF-8 sequence a byte string starts with is within the string, and zero for the empty string |
| Middleware.CharWidthExtends | apps/gateway/src/middleware.rs:151 | a well-formed UTF-8 sequence stays one whatever bytes follow it |
| Middleware.CutCharInvalid | apps/gateway/src/middleware.rs:151 | a UTF-8 sequence cut short of its length is not well formed |
| Middleware.ValidThenCut | apps/gateway/src/middleware.rs:146-153 | valid UTF-8 followed by a character cut short is not valid UTF-8 |
| Middleware.CutInsideCharIsBinary | apps/gateway/src/middleware.rs:146-153 | a body whose 64 KiB cut falls inside a multi-byte character is logged truncated and as `[binary body]`, even when the full body is text |
| Middleware.LogPostBody | apps/gateway/src/middleware.rs:135-190 | other methods go straight to the handler and log nothing; a POST logs the collected request then the collected response, the handler sees the collected request (empty if collecting it failed) and the client gets the collected response (empty if collecting it failed) |
| AuthRoutes.RoleFor | apps/gateway/src/routes/auth.rs:83 | the role is `admin` exactly when the email is an admin email, and `user` otherwise |
| AuthRoutes.UserRow | apps/gateway/src/routes/auth.rs:84 | the signup user document carries the id, email, username, creation time and role asked for |
| AuthRoutes.CredRow | apps/gateway/src/routes/auth.rs:93 | the credentials document carries the user id and hash, and links to that user |
| AuthRoutes.AnyNamed | apps/gateway/src/routes/auth.rs:74 | true exactly when some listed user's `username` string equals the name ignoring ASCII case |
| AuthRoutes.SignupCheck | apps/gateway/src/routes/auth.rs:62-79 | the refusals in source order: bad email or short password 400, registered email 409, lookup failure 500, short username 400, listing failure 500, taken username 409; no refusal exactly when every check passes |
| AuthRoutes.Signup | apps/gateway/src/routes/auth.rs:57-104 | a refused signup writes nothing; an accepted one is the account outcome for the normalised email, the trimmed username, the hash of the password and the token signed for the new id |
| AuthRoutes.CreateAccount | apps/gateway/src/routes/auth.rs:81-97 | the store and the answer are the account outcome for the given hash and signer |
| AuthRoutes.Account | apps/gateway/src/routes/auth.rs:82-97 | the user row is written first; a failed hash or credentials write is a 500 that leaves the user row in place; after both writes a failed signing is a 500 that keeps them; success needs both writes, the hash and the token, and answers the id, email and token |
| AuthRoutes.Availability | apps/gateway/src/routes/auth.rs:112-124 | an empty trimmed name is unavailable; otherwise available exactly when no stored username matches ignoring ASCII case; a listing failure is a 500 |
| AuthRoutes.CheckUsername | apps/gateway/src/routes/auth.rs:108-125 | the handler answers the availability of the query's `u` against the stored users |
| AuthRoutes.SignedUpNameTaken | apps/gateway/src/routes/auth.rs:74-120 | a name that some stored user has, in any ASCII case, is reported unavailable |
| AuthRoutes.IdentityFromJson | apps/gateway/src/routes/auth.rs:43-48 | untagged decoding tries `email`+`password` first, then `username`+`password`, and fails otherwise |
| AuthRoutes.JsonPayload | apps/gateway/src/routes/auth.rs:139-164 | a JSON body gives an identity exactly when it decodes to one; otherwise the error carries the status for that branch |
| AuthRoutes.Extract | apps/gateway/src/routes/auth.rs:149-158 | absent when `name="<name>"` or the blank line after it is missing; otherwise the text after that blank line up to the first CRLF or the end |
| AuthRoutes.ExtractField | apps/gateway/src/routes/auth.rs:149-158 | a multipart part written as marker, blank line, value and CRLF extracts to that value |
| AuthRoutes.FieldPayload | apps/gateway/src/routes/auth.rs:143-162 | a missing password is a 400; a username wins over an email; neither is a 400 |
| AuthRoutes.LoginPayload | apps/gateway/src/routes/auth.rs:137-165 | a body over 64 KiB is a 500 `length limit exceeded`; otherwise the lowercased content type picks the JSON, form, multipart or fallback JSON (415 on failure) decoding, in that order |
| AuthRoutes.IdentifierPreference | apps/gateway/src/routes/auth.rs:43-48 | for a body within the limit and with both identifiers present, a form logs in by username and a JSON body by email (the form rule is at lines 144-146 of the same file) |
| AuthRoutes.FindEmail | apps/gateway/src/routes/auth.rs:175-181 | the lowercased email of the first user whose username matches ignoring ASCII case and who has an email; absent when there is none |
| AuthRoutes.LoginEmail | apps/gateway/src/routes/auth.rs:170-187 | an email identity is trimmed and lowercased; an empty username is a 400; an unmatched username is `ADMIN_EMAIL` when it is `admin` in any case, and a 401 otherwise |
| AuthRoutes.UnknownUsername | apps/gateway/src/routes/auth.rs:184 | when no user carries the name, only `admin` logs in, as the admin email |
| AuthRoutes.Authenticate | apps/gateway/src/routes/auth.rs:191-200 | missing credentials are a 401 and a lookup failure a 500; success exactly when both fields are strings and the hash accepts the password, giving the stored user id; a rejected password is a 401 |
| AuthRoutes.SignupThenAuthenticate | apps/gateway/src/routes/auth.rs:191-200 | when hashing succeeds and both tables accept writes, the credentials the account outcome writes authenticate the password they were hashed from, as the new user (the hash is written at line 93 of the same file) |
| AuthRoutes.LoginOutcome | apps/gateway/src/routes/auth.rs:137-200 | a payload or identifier failure is returned as is; a success comes from a decoded payload, its resolved email and a credential check for that email |
| AuthRoutes.UsernameGuess | apps/gateway/src/routes/auth.rs:206 | the guess is the part of the email before its first `@`, or the whole email |
| AuthRoutes.Login | apps/gateway/src/routes/auth.rs:129-220 | a failed login outcome is returned with no write; a successful one for a user without a row writes that row with the guessed username and the email's role, then answers the id, email and signed token, or a 500 when signing fails; nothing else is written |
| AuthRoutes.SessionCookie | apps/gateway/src/routes/auth.rs:240 | the value after the `session=` prefixes of the first trimmed piece that starts `session=`; absent when no piece does |
| AuthRoutes.SessionCookieAgrees | apps/gateway/src/routes/auth.rs:240 | on a first piece with a single `session=` prefix, the `me` endpoint and the gateway's extractor see the same session (the extractor it is compared with is apps/gateway/src/state.rs lines 63-79) |
| AuthRoutes.MeToken | apps/gateway/src/routes/auth.rs:236-241 | an Authorization header gives the token after a `bearer ` prefix in any case or nothing; only without the header is the session cookie read |
| AuthRoutes.AuthMe | apps/gateway/src/routes/auth.rs:231-250 | no token or a rejected token is a 401, a missing user a 404; success exactly when the token's user is stored, returning that document |
| AuthRoutes.OtherSchemeHidesCookie | apps/gateway/src/routes/auth.rs:237-238 | an Authorization header of another scheme is "missing token" whatever the cookies say |
| Init.AssignmentOfLine | apps/gateway/src/init.rs:42-46 | blank and `#` lines assign nothing; any other trimmed line splits at its first `:` into a trimmed, lower-cased key and a trimmed value, and a line without `:` has the value `""` |
| Init.LastUsernameWins | apps/gateway/src/init.rs:41-53 | the username is the value of the last line with the key `username`, unset when no line has it |
| Init.LastEmailWins | apps/gateway/src/init.rs:41-53 | the email is the lower-cased value of the last line with the key `email`, unset when no line has it |
| Init.ParseSeed | apps/gateway/src/init.rs:35-58 | the parsing loop over the file's lines ends with the seed the lines' assignments give in order |
| Init.Fallbacks | apps/gateway/src/init.rs:61-68 | the username comes from the file or is `admin`; the email from the file, the environment or `<username>@example.com`, then lower-cased; the password from the file, the environment or `admin12345` |
| Init.DefaultConfig | apps/gateway/src/init.rs:61-68 | with no file and no environment the account is `admin` / `admin@example.com` / `admin12345` |
| Init.EnsuredAdmin | apps/gateway/src/init.rs:79-83 | the user is changed exactly when it is an object lacking the admin role or a string username; afterwards it has both, an existing username is kept, and every other field is unchanged |
| Init.EnsuredAdminIdempotent | apps/gateway/src/init.rs:79-83 | a second ensure-admin step changes nothing, so the row is not rewritten |
| Init.SeedOutcome | apps/gateway/src/init.rs:72-116 | a failed credentials read leaves the store alone and returns success; only the creation of a new account fails, on a store write or on hashing after the user is stored; only the users and credentials tables change |
| Init.SeedIdempotent | apps/gateway/src/init.rs:76-110 | a second seeding writes nothing, unless the first one stored the user but failed to hash or store the credentials |
| Init.ReseedLinked | apps/gateway/src/init.rs:73-94 | after a run that found credentials, another run writes nothing |
| Init.ReseedFresh | apps/gateway/src/init.rs:97-112 | after a run that created the account, another run writes nothing |
| Init.SeedCreatesLinkedAdmin | apps/gateway/src/init.rs:97-112 | with no credentials for the admin email, a fault-free run whose hashing succeeds stores an admin user and credentials that link to it |
| Init.SeedMakesLinkedUserAdmin | apps/gateway/src/init.rs:76-88 | with credentials that name a user, a missing user is created as an admin and an existing object user becomes an admin with a username; the credentials are untouched |
| Init.SeedAdmin | apps/gateway/src/init.rs:70-116 | the store's tables and the result are what the seeding outcome says for the settled configuration |
| Init.SeedAdminFrom | apps/gateway/src/init.rs:29-117 | `seed_admin` is the parsed file, the fallbacks, then the seeding with the hash of the chosen password, which may fail |
| AdminRoutes.ListUsers | apps/gateway/src/routes/admin.rs:24-34 | a failed admin guard returns its error, a listing failure is a 500, and otherwise the reply is the users listed in key order |
| AdminRoutes.Promotion | apps/gateway/src/routes/admin.rs:43-56 | a failed guard is returned with no write; a missing user is a 404; an admin is `already_admin` with no write; any other user is written back with the admin role and every other field unchanged |
| AdminRoutes.PromoteTwice | apps/gateway/src/routes/admin.rs:46-50 | promoting a promoted user again is `already_admin` and writes nothing |
| AdminRoutes.Promote | apps/gateway/src/routes/admin.rs:37-57 | the reply and the users table are what the promotion outcome says for the stored target |
| AdminRoutes.AdminCountAppend | apps/gateway/src/routes/admin.rs:75 | the admin count of two listings together is the sum of their counts |
| AdminRoutes.AdminCountEntries | crates/storage/src/lib.rs:289-305 | over entries with strictly increasing keys, the admin count of the listed documents is the number of admin keys (the count is taken at apps/gateway/src/routes/admin.rs line 75) |
| AdminRoutes.AdminKeysListed | crates/storage/src/lib.rs:289-305 | the admin keys of a table's ordered listing are the table's admin keys |
| AdminRoutes.AdminCountIsRows | apps/gateway/src/routes/admin.rs:74-76 | the count the handler computes from `list_users` is the number of admin rows in the users table |
| AdminRoutes.Demotion | apps/gateway/src/routes/admin.rs:65-84 | a failed guard or self-demotion is an error with no write; a non-admin is `already_user`; an admin is written back as `user` with every other field unchanged, unless the listing succeeds and counts at most one admin |
| AdminRoutes.DemotionKeepsAnAdmin | apps/gateway/src/routes/admin.rs:74-77 | when the listing comes from the users table, a demotion that writes leaves at least one admin in it |
| AdminRoutes.OtherAdminsStay | apps/gateway/src/routes/admin.rs:78-79 | rewriting one user's row keeps every other admin |
| AdminRoutes.Demote | apps/gateway/src/routes/admin.rs:60-85 | a failed guard or self-demotion writes nothing; otherwise the reply and the users table are the demotion outcome of the stored target and the listing |
| AdminRoutes.DemoteOther | apps/gateway/src/routes/admin.rs:68-84 | the demotion of another user, as the outcome says |
| AdminRoutes.DemoteAdmin | apps/gateway/src/routes/admin.rs:73-80 | an admin target is refused when the listing counts at most one admin; otherwise it is stored with role `user` |
| AdminRoutes.Deletion | apps/gateway/src/routes/admin.rs:93-105 | deletion is allowed exactly when the guard passes, the target is someone else, and it is a stored non-admin; self is a 400, an admin target a 400, a missing one a 404 |
| AdminRoutes.DeletionSparesAdmins | apps/gateway/src/routes/admin.rs:98-101 | an allowed deletion leaves the set of admins unchanged |
| AdminRoutes.Delete | apps/gateway/src/routes/admin.rs:88-107 | a refused deletion writes nothing; an allowed one removes the user row and the credentials that link to it, and answers 204 |
| DevRoutes.LinkedUser | apps/gateway/src/routes/dev.rs:68-69 | found exactly when the credentials for the email exist and carry a string `user_id`, which is the answer; missing credentials are a 404 and anything else a 500 |
| DevRoutes.UpdateUser | apps/gateway/src/routes/dev.rs:113-116 | a failed update writes nothing, and a missing user is a 404 |
| DevRoutes.UpdateLinked | apps/gateway/src/routes/dev.rs:68-73 | a success names the linked user, rewrites only that user's row with the one field set, and leaves every other table alone; a failure writes nothing |
| DevRoutes.InsertTwice | apps/gateway/src/routes/dev.rs:71 | setting the same field twice is setting it once |
| DevRoutes.UpdateLinkedIdempotent | apps/gateway/src/routes/dev.rs:66-75 | repeating a linked-user update gives the same tables and answer |
| DevRoutes.ResolveLinkedUser | apps/gateway/src/routes/dev.rs:68-69 | the credential lookup answers the linked user |
| DevRoutes.UpdateUserField | apps/gateway/src/routes/dev.rs:113-116 | the user lookup and write are the update outcome |
| DevRoutes.UpdateLinkedUser | apps/gateway/src/routes/dev.rs:68-73 | the credential lookup, user lookup and write are the linked-update outcome |
| DevRoutes.DevPromoteOutcome | apps/gateway/src/routes/dev.rs:62-106 | a missing email is a 400 and a non-admin email a 403, both with no write; a success needs an admin email with linked credentials; a failure writes nothing |
| DevRoutes.DevPromoteMakesAdmin | apps/gateway/src/routes/dev.rs:71 | after a successful promote the linked object user has role `admin` |
| DevRoutes.DevPromoteIdempotent | apps/gateway/src/routes/dev.rs:66-75 | promoting twice gives the same tables and answer as promoting once |
| DevRoutes.PromoteEmail | apps/gateway/src/routes/dev.rs:66-74 | the shared promote path is the promote outcome |
| DevRoutes.DevPromote | apps/gateway/src/routes/dev.rs:62-75 | `promote` takes the email from the JSON body |
| DevRoutes.DevPromoteGet | apps/gateway/src/routes/dev.rs:78-91 | `promote_get` takes the email from the query |
| DevRoutes.DevPromoteBy | apps/gateway/src/routes/dev.rs:94-106 | `promote_by` takes the email from the path |
| DevRoutes.PromoteUserById | apps/gateway/src/routes/dev.rs:109-118 | the user with that id gets role `admin`; a missing one is a 404 |
| DevRoutes.PromoteNow | apps/gateway/src/routes/dev.rs:175-186 | `ADMIN_EMAIL`'s linked user gets role `admin`, without the admin-email gate |
| DevRoutes.PromoteNowIsPromoteBy | apps/gateway/src/routes/dev.rs:175-186 | `promote_now` changes the tables exactly as `promote_by` with `ADMIN_EMAIL` (`promote_by` is at lines 94-106 of the same file) |
| DevRoutes.SetAdminUsername | apps/gateway/src/routes/dev.rs:246-261 | `ADMIN_EMAIL`'s linked user gets username `admin` |
| DevRoutes.ResetRateNow | apps/gateway/src/routes/dev.rs:189-198 | without linked credentials for `ADMIN_EMAIL` the limiter is untouched; otherwise every bucket is cleared and the stored counters are not touched |
| DevRoutes.ClearBuckets | apps/gateway/src/routes/dev.rs:201-206 | every in-memory bucket is cleared |
| DevRoutes.InspectToken | apps/gateway/src/routes/dev.rs:209-217 | a missing token or one that fails verification is a 400; otherwise the reply carries the token's five claims |
| DevRoutes.DevIdentity | apps/gateway/src/routes/dev.rs:47-48 | the user id is the payload's `user` or a fresh id; the email is the payload's `email` or `<user id>@example.com` |
| DevRoutes.DevLoginOutcome | apps/gateway/src/routes/dev.rs:42-59 | a success stores the user row with its email's role and a refresh token that expires in 30 days, and answers the signed access token, the refresh id and the user id; any failure is a 500 |
| DevRoutes.DevLogin | apps/gateway/src/routes/dev.rs:42-59 | the writes and the answer are the dev-login outcome |
| DevRoutes.SetPasswordOutcome | apps/gateway/src/routes/dev.rs:220-243 | a missing email or password or one shorter than 8 bytes is a 400 with no write; otherwise the password is stored for the trimmed, lower-cased email, and a failed hash is a 500 |
| DevRoutes.PasswordOwner | apps/gateway/src/routes/dev.rs:227-233 | existing credentials give their `user_id` (or `""`) with no write; otherwise a fresh user is stored with the email's role; a failed write is a 500 with no change |
| DevRoutes.SetPasswordStores | apps/gateway/src/routes/dev.rs:227-241 | after success the credentials hold the new hash and name the previous owner, or a freshly stored user when there were none |
| DevRoutes.HashFailureLeavesUser | apps/gateway/src/routes/dev.rs:226-239 | with no credentials, a failed hash is a 500 `password hashing failed` after the fresh user has been stored, and the credentials are untouched |
| DevRoutes.FindPasswordOwner | apps/gateway/src/routes/dev.rs:227-233 | the lookup and the fresh-user write are the password-owner outcome |
| DevRoutes.SetPassword | apps/gateway/src/routes/dev.rs:220-243 | the writes and the answer are the set-password outcome |
| Dedupe.GroupMembers | apps/gateway/src/routes/dev.rs:129-132 | a user is in an email's group exactly when it is listed with that `email` string (`""` when it has none) |
| Dedupe.GroupNonEmpty | apps/gateway/src/routes/dev.rs:129-132 | an email has a non-empty group exactly when some listed user has it |
| Dedupe.GroupByEmail | apps/gateway/src/routes/dev.rs:127-132 | the grouping loop builds a map whose keys are the listed emails and whose values are their groups in listing order |
| Dedupe.InsertByCreated | apps/gateway/src/routes/dev.rs:144 | inserting into a sorted group puts the new user first when its `created_at` is no later than the head's |
| Dedupe.InsertPermutes | apps/gateway/src/routes/dev.rs:144 | an insertion adds exactly the inserted user |
| Dedupe.InsertKeepsBound | apps/gateway/src/routes/dev.rs:144 | an insertion keeps every creation time above a common bound |
| Dedupe.InsertSorted | apps/gateway/src/routes/dev.rs:144 | inserting into a sorted group keeps it sorted by `created_at` |
| Dedupe.SortPermutes | apps/gateway/src/routes/dev.rs:144 | sorting a group permutes it |
| Dedupe.SortSorts | apps/gateway/src/routes/dev.rs:144 | a sorted group is in non-decreasing `created_at` order, with a missing value counted as 0 |
| Dedupe.SortHead | apps/gateway/src/routes/dev.rs:144 | the sort is stable at the head: the first sorted user is the first of the oldest |
| Dedupe.Keep | apps/gateway/src/routes/dev.rs:136-145 | the credentials' user is kept when it is in the group, which is then visited in listing order; otherwise the group is sorted and the first user's id, if any, is kept |
| Dedupe.KeepOldest | apps/gateway/src/routes/dev.rs:143-144 | without a usable credentials id the kept id is that of the first oldest member, and the visited group is a sorted permutation of the group |
| Dedupe.DoomedMembers | apps/gateway/src/routes/dev.rs:148-150 | a user is deleted exactly when it is in the group and has an id other than the kept one |
| Dedupe.KeptNotDeleted | apps/gateway/src/routes/dev.rs:149 | the kept id is never among the deleted ids |
| Dedupe.AfterDeletesUsers | crates/storage/src/lib.rs:307-350 | the deletions remove exactly the deleted ids from a writable users table and change no table but users and credentials (called from apps/gateway/src/routes/dev.rs line 149) |
| Dedupe.DedupeGroup | apps/gateway/src/routes/dev.rs:134-163 | a group of at most one user changes nothing; a group only ever changes the users and credentials tables |
| Dedupe.RepointedTables | apps/gateway/src/routes/dev.rs:154-160 | repointing writes the credentials table only |
| Dedupe.RepointedNamesKept | apps/gateway/src/routes/dev.rs:154-160 | after a fault-free repoint the email's object credentials name the kept id |
| Dedupe.DedupeGroupUsers | apps/gateway/src/routes/dev.rs:145-150 | with a kept id and a writable store, the users table loses exactly the deleted ids |
| Dedupe.DedupeGroupEffect | apps/gateway/src/routes/dev.rs:134-163 | without faults, the kept user's row is untouched, every other member with an id is gone, and a recorded group has the backup entry `{email, kept, deleted}` and credentials that name the kept id |
| Dedupe.DedupeGroupRemovesOthers | apps/gateway/src/routes/dev.rs:145-150 | without faults, the kept user's row is untouched and no other member with an id keeps a row |
| Dedupe.DedupeGroupRecordsKept | apps/gateway/src/routes/dev.rs:151-161 | without faults, a recorded group's backup entry lists the deleted members, and the email's object credentials name the kept id |
| Dedupe.DeleteMembers | apps/gateway/src/routes/dev.rs:147-150 | the deletion loop collects exactly the doomed members and deletes them in that order |
| Dedupe.ChooseKeep | apps/gateway/src/routes/dev.rs:136-145 | the credential lookup and sort give the kept id and visiting order |
| Dedupe.Repoint | apps/gateway/src/routes/dev.rs:154-160 | the credentials are rewritten to the kept id only when they name another |
| Dedupe.DedupeGroupStep | apps/gateway/src/routes/dev.rs:134-163 | one iteration of the group loop does what the group outcome says |
| Dedupe.RunGroups | apps/gateway/src/routes/dev.rs:134-163 | there is at most one backup entry per visited group |
| Dedupe.DedupeGroupShrinksUsers | apps/gateway/src/routes/dev.rs:149 | a group step only removes user rows: every remaining row was there before, unchanged |
| Dedupe.RunGroupsShrinksUsers | apps/gateway/src/routes/dev.rs:134-163 | a whole run only removes user rows and changes no table but users and credentials |
| Dedupe.DedupeAdmins | apps/gateway/src/routes/dev.rs:121-172 | a listing failure is a 500 with no write; otherwise every email group is visited exactly once, the tables are the run's outcome, and the reply counts the recorded groups and names the backup path |
| Dedupe.DedupeListed | apps/gateway/src/routes/dev.rs:127-163 | grouping and then the group loop visit every email once and give the run's outcome |
| Dedupe.DedupeNext | apps/gateway/src/routes/dev.rs:134-163 | one more group extends the run by that group |
| RoomsRoutes.HistoryParams | apps/gateway/src/routes/rooms.rs:28-29 | `after_ts` is the parsed i64 or absent; `limit` is the parsed unsigned value or 50 |
| RoomsRoutes.HistoryParamsRoundTrip | apps/gateway/src/routes/rooms.rs:28-29 | parameters written in decimal come back as the same values, and an empty query means the first 50 of everything |
| RoomsRoutes.History | apps/gateway/src/routes/rooms.rs:32-35 | the history reply is the scan of the room after the parsed time with the parsed limit, or a 500 when the messages table cannot be read |
| RoomsRoutes.PostRateKey | apps/gateway/src/routes/rooms.rs:48-60 | the verified subject of a `bearer ` Authorization header in any case, else `anon`; cookies are never read |
| RoomsRoutes.CookieOnlyPostsAsAnon | apps/gateway/src/routes/rooms.rs:48-60 | without an Authorization header the handler's key is `anon` |
| RoomsRoutes.PostMessage | apps/gateway/src/routes/rooms.rs:41-71 | the handler spends one token of its key; a denial is a 429 with nothing counted, stored or published; otherwise the key's counter goes up by one (a failure ignored), the message is stored and published, and a send failure is a 500 |
| RoomsRoutes.CountAndSend | apps/gateway/src/routes/rooms.rs:64-70 | the counter for the key goes up by one unless its table rejects writes, then the message is stored and published as `send_message` does |
| RoomsRoutes.Counted | apps/gateway/src/routes/rooms.rs:64 | a counted post raises the key's counter by one, wrapping at 2^64; a rejected write leaves the counters as they were |
| RoomsRoutes.PostThroughGateway | apps/gateway/src/routes/rooms.rs:63 | a message post spends a token at the global limiter and, if that admits it, another at the handler under the same key, and is refused if either denies it (the global limiter is apps/gateway/src/middleware.rs line 71) |
| RoomsRoutes.PostsAdmitted | apps/gateway/src/routes/rooms.rs:63 | one verdict per post, from the limiter answers taken in pairs |
| RoomsRoutes.BurstOfPosts | apps/gateway/src/routes/rooms.rs:63 | with capacity 5 and no time passing, a fresh key gets two messages through and the third is refused (the capacity is set at apps/gateway/src/main.rs line 48) |
| Webauthn.Utf8Char | crates/auth/src/webauthn.rs:41 | a character's UTF-8 encoding is as long as its UTF-8 width |
| Webauthn.Utf8Bytes | crates/auth/src/webauthn.rs:41 | a string's UTF-8 bytes are as many as its UTF-8 length |
| Webauthn.PublicKey | crates/auth/src/webauthn.rs:67 | the options are returned under `publicKey` (the same holds at line 135 of that file) |
| Webauthn.RegistrationOptions | crates/auth/src/webauthn.rs:33-51 | the registration options carry the challenge |
| Webauthn.RegistrationState | crates/auth/src/webauthn.rs:54-62 | the pending registration state carries the challenge, the user id and the registration id |
| Webauthn.BeginRegistrationIn | crates/auth/src/webauthn.rs:20-68 | fails exactly when the pending table rejects writes, writing nothing; otherwise returns the registration id, stores the state under `(user_id, reg_id)` with the encoded challenge, returns options whose challenge is the stored one, and touches no other table |
| Webauthn.FinishRegistrationIn | crates/auth/src/webauthn.rs:72-99 | no pending state is an error with no write; a success returns the client's `id` or a fresh one, stores the credential under `user_id/cred_id`, and removes the pending state |
| Webauthn.RegistrationLifecycle | crates/auth/src/webauthn.rs:20-99 | begin then finish, without faults, returns the client's credential id, stores that credential and leaves no pending state |
| Webauthn.BeginRegistration | crates/auth/src/webauthn.rs:20-68 | the write and the result are the begin-registration outcome |
| Webauthn.FinishRegistration | crates/auth/src/webauthn.rs:72-99 | the reads, writes and result are the finish-registration outcome |
| Webauthn.BeginAuthenticationIn | crates/auth/src/webauthn.rs:103-136 | fails exactly when the pending table rejects writes; otherwise returns the authentication id, stores the state under `(user_id, auth_id)` with the encoded challenge, returns options with the same challenge, and touches no other table |
| Webauthn.FinishAuthenticationIn | crates/auth/src/webauthn.rs:141-165 | no pending state, or an assertion without `id` or `response`, is an error that keeps the pending state; a success removes exactly that state |
| Webauthn.AuthenticationLifecycle | crates/auth/src/webauthn.rs:103-165 | begin then finish succeeds and removes the pending state, so finishing again fails for lack of it |
| Webauthn.BeginAuthentication | crates/auth/src/webauthn.rs:103-136 | the write and the result are the begin-authentication outcome |
| Webauthn.FinishAuthentication | crates/auth/src/webauthn.rs:141-165 | the reads, writes and result are the finish-authentication outcome |
| CheckBraces.BalanceIsCounts | scripts/check_braces.py:13-21 | the final balance is the number of `{` minus the number of `}` over all lines |
| CheckBraces.FirstNegativeOf | scripts/check_braces.py:14-23 | the first negative line, when there is one, is a line number of the file |
| CheckBraces.FirstNegativeIsFirst | scripts/check_braces.py:16-23 | there is no first negative line exactly when every end-of-line balance is non-negative; otherwise it is the first line whose end-of-line balance is below zero |
| CheckBraces.MidLineDipIgnored | scripts/check_braces.py:17-23 | a dip below zero inside a line that recovers by its end is not reported |
| CheckBraces.LastNegative | scripts/check_braces.py:24-25 | the last line contributes at most one report, for itself |
| CheckBraces.ReportsOfPrefix | scripts/check_braces.py:16-25 | adding a line does not change what the earlier lines report |
| CheckBraces.NegativesExactly | scripts/check_braces.py:24-25 | the reports are exactly the lines ending below zero, with that balance and the stripped line |
| CheckBraces.StripTrims | scripts/check_braces.py:25 | `strip` gives a slice of the line that starts and ends with neither Unicode whitespace nor the separators U+001C to U+001F |
| CheckBraces.NegativeStep | scripts/check_braces.py:24-25 | one more line keeps the earlier reports and adds a report exactly when the new line ends below zero |
| CheckBraces.LastNegativeExactly | scripts/check_braces.py:24-25 | the last line is reported exactly when it ends below zero |
| CheckBraces.NegativesBounded | scripts/check_braces.py:24-25 | every report names a line of the file |
| CheckBraces.NegativesInOrder | scripts/check_braces.py:16-25 | the reports are in increasing line order |
| CheckBraces.Scan | scripts/check_braces.py:13-25 | the first loop ends with the final balance, the first negative line and the list of negative lines |
| CheckBraces.StackLineSize | scripts/check_braces.py:39-44 | one line changes the stack size by its brace difference plus the closing braces it ignores |
| CheckBraces.StackSize | scripts/check_braces.py:37-44 | the stack's final size is the balance plus the number of ignored closing braces |
| CheckBraces.StackLineOrdered | scripts/check_braces.py:39-44 | a line keeps the stack's line numbers non-decreasing and at most the current line |
| CheckBraces.StackOrdered | scripts/check_braces.py:37-44 | the unclosed stack holds line numbers of the file in non-decreasing order |
| CheckBraces.UnclosedStack | scripts/check_braces.py:37-44 | the stack loop ends with the stack of unclosed opening lines |
| CheckBraces.Window | scripts/check_braces.py:48-49 | the window runs from `max(1, ln-3)` to `min(len, ln+3)`, contains `ln`, and spans at most seven lines |
| CheckBraces.Context | scripts/check_braces.py:48-53 | the context is the numbered window's lines, with only `ln` marked |
| CheckBraces.Last | scripts/check_braces.py:47 | `stack[-10:]`: the last `n` entries, or all of them |
| CheckBraces.First | scripts/check_braces.py:32 | `negatives[:20]`: the first `n` entries, or all of them |
| CheckBraces.Contexts | scripts/check_braces.py:47-53 | one context per reported line, in the same order |
| CheckBraces.Check | scripts/check_braces.py:13-53 | the report carries the balance, the first negative line and the first 20 negatives; the unclosed section is empty unless the balance is positive, and then holds the last 10 stack entries with their contexts |
| CheckBraces.OpenBracesReported | scripts/check_braces.py:35-47 | a positive balance always reports at least one unclosed line |

## Left out

- The database engine, its files and transactions.
  - `Storage::new`, `snapshot` and `Default` are not modelled.
  - Each table is a map, and a failed transaction is one of the two fault sets of the store.
- `link_oauth` and `find_user_by_oauth`, with the `oauth` table. They belong to the OAuth flow, which is not part of this model.
- serde_json's byte syntax. A stored value is either a JSON document or bytes that do not decode (`Json.Blob`). Reply serialization and pretty-printing are not modelled.
- Argon2, JWT signing and verification, UUID and random generation, and base64 encoding: these are foreign calls, taken as parameters.
  - The hash check answers `None` when the stored hash does not parse. That case is a 500, as in the source, but its error text is a fixed string.
  - Error texts that come from these libraries are fixed strings.
  - Salt encoding and hashing fail together: the hasher answers `None` for either failure.
- Session-cookie construction, the 7-day JWT lifetime, `api_logout`, the static text of `GET /auth/dev/login`, and every reply's HTTP framing. These are response construction only.
- The backup file of `dedupe_admins`. Only its path is modelled. The file system write is I/O.
- The presence background task, the watch-channel shutdown and the `tokio::select!` loop. One sweep tick is modelled, with the clock reading as a parameter.
- The broadcast and mpsc forwarding tasks of the in-memory bus, channel capacities and lag drops. Delivery is modelled as a synchronous append to every subscriber queue of the topic.
- The threading and runtime bridging of the interprocess and nng/zmq transports (`bind_server_interprocess`, `req_once_interprocess`, sockets, `spawn_blocking`).
  - Only the framing functions and a send-failure flag of the hub are modelled.
  - A stream is the bytes left to read, or the bytes written.
- The routes for WebSockets, OAuth, logs and push, the router wiring, and the desktop shell. These are I/O or wiring outside the modelled core.
- The brace checker's file reading, its `splitlines` and its printed formatting. The model starts from the list of lines and ends with the report that would be printed.
- Rate.TokenBucket.Refill: token counts are exact reals, and `f64` rounding is not modelled.
- Rate.RateLimiter.Allow: `Instant::now()` is the parameter `now`, in seconds.
- Text.Lower: `to_lowercase` is modelled as ASCII lowering, because Unicode case mapping is not modelled. `NormalEmail` and the content-type test inherit this.
- AuthRoutes.MeToken: `s[7..]` is taken on characters. The source slices bytes, and the two agree whenever the first seven characters are ASCII.
- RoomsRoutes.PostRateKey: the `s[7..]` slice is taken on characters, as in `AuthRoutes.MeToken`.
- DevRoutes.DevLoginOutcome: requires the clock plus 30 days to fit in an `i64`. Beyond that the source's `unwrap` on chrono's addition panics.
- Dedupe.DedupeAdmins: the groups are visited in an order the method chooses and reports (the ghost `order`). Rust's `HashMap` order is unspecified, so the contract holds for any visiting order that covers each email group exactly once.
- AuthRoutes.Signup: one clock reading serves both `created_at` fields. The source reads the clock twice.
- AuthRoutes.LoginPayload: of the ways `to_bytes` can fail, only the 64 KiB limit is modelled. A body stream that breaks for another reason is not, since it is I/O.
- Middleware.LogPostBody: a log entry holds the body's size, the bytes shown and the two flags. The path, the response status and the message wording are not modelled, since they are `tracing` output.
- Init.ParseSeed: the password key has no lemma of its own. Its last-line-wins rule is the same `Apply` case as the username's, and `Init.LastUsernameWins` proves that rule for the username.

## Findings

| source | as written | input that shows it | evidently intended | confidence | as-written member | corrected member |
|---|---|---|---|---|---|---|
| crates/storage/src/lib.rs:187-190 | the retention cutoff is `now` in seconds minus `keep_days * 86400`, compared with `server_ts`, which `send_message` writes in milliseconds | now = 1 700 000 000 s and a message stored two days earlier (server_ts = 1 699 827 200 000 ms); `retention_sweep(1)` keeps it, and no well-formed message written after 1970-01-20 is ever removed | the cutoff in milliseconds, `now_ms - keep_days * 86 400 000`, so that messages older than `keep_days` are removed | high (not executed) | Storage.Store.RetentionSweep, MessageLog.AsWrittenSweepMissesOldMessage | Storage.Store.RetentionSweepMillis, MessageLog.MillisSweepKeepsRecent |
