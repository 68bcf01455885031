# habits, modelled in Dafny

`habits` is a small habit tracker. A Go server stores timestamped habit entries
per user in bbolt (or, in its tests, in an in-memory store) and authenticates
users through OpenID Connect providers or API keys. A command-line client posts
entries. A nudge job reminds a user whose streak is about to lapse. A TypeScript
web client draws the entries as a heatmap.

This project models the parts of that system whose behaviour the code states
outright, and proves what they promise:

- entry validation, in both server revisions and in the command-line client;
- the key layout of the bbolt store (`name/time`), listing by the text before
  the first `/`, and prefix get and delete. The cursor loops are proved against
  sorted-bucket specifications;
- the in-memory store, the API-key bucket, and key ownership in the API-key
  routes;
- the provider token `provider:jwt`, the credential choice and the reject rule
  of the authentication middleware, and the single-use, expiring OAuth state
  store with its sweep;
- the nudge filter;
- configuration defaulting, the log-level switch, and the TLS and provider
  checks;
- the web client's counting aggregation, string helpers, percentage rounding,
  month names and theme switch.

Each module follows one source file: `bolt_store.dfy` models
`internal/storage/bolt/bolt_store.go`, `theme.dfy` models
`frontend/src/theme.ts`, and so on. Six modules are shared:

- `Wrappers`: `Option` and `Result`;
- `Habits`: the entry record;
- `Strings`: the string primitives of Go and JavaScript that the code calls;
- `Bucket`: a bbolt bucket as a sequence of entries sorted by key bytes;
- `OAuthState`: the state store, which both server revisions declare line for
  line;
- `AuthMiddleware`: also holds `acceptsHTML` and `strClaim`, which both server
  revisions declare identically.

Conventions:

- Time is an `int` of Unix seconds, and the current time is a parameter.
- Strings are `seq<char>` with one character per byte, so Go's `len` is `|s|`.
- Foreign calls are parameters: ID-token verification, SHA-256, random bytes,
  the file system and the API client.
- An HTTP handler becomes a method that returns the status and body it writes.
  A JSON body that does not decode is `None`. On the web client's side a reply
  body is either not JSON, JSON without entries, or the entries.

## Model

| member | source | states |
|---|---|---|
| Strings.BeforeFirst | internal/storage/bolt/bolt_store.go:141 | the text before the first separator is a prefix of the key, holds no separator, and is followed by one unless it is the whole key |
| Strings.SplitHead | cmd/server.go:140 | `strings.Split(k, "/")[0]` is the text before the first '/', the same as `SplitN(k, "/", 2)[0]` |
| Strings.SplitJoin | frontend/src/utils.ts:6 | splitting a separator-free segment, a separator and a rest gives the segment followed by the rest's segments |
| Strings.TrimSpaceSlice | cmd/track.go:28-29 | `strings.TrimSpace` cuts only white space from either end and leaves a string that neither starts nor ends with white space |
| Strings.TrimSpaceIdempotent | cmd/track.go:28-29 | trimming a trimmed string changes nothing |
| Strings.ToLower | internal/config/config.go:123 | `strings.ToLower` on ASCII: the same length, each letter A-Z lowered and every other character kept |
| Strings.ToLowerIdempotent | internal/config/config.go:123 | lowering a lowered text changes nothing |
| Strings.NatToStringLength | internal/storage/bolt/bolt_store.go:120 | a number below 10^k is written with at most k digits |
| Strings.IntToStringRoundTrip | internal/storage/bolt/bolt_store.go:120 | the time rendered into a key reads back as the same second |
| Strings.IntToStringInjective | internal/storage/bolt/bolt_store.go:120 | distinct seconds render differently, so keys of different seconds differ |
| Bucket.Get | internal/storage/bolt/bolt_store.go:241-245 | `Get` is nil exactly for a key the bucket lacks, and otherwise returns that key's stored value |
| Bucket.Put | internal/storage/bolt/bolt_store.go:121 | `Put` keeps the bucket sorted, adds the key, maps it to the new value and leaves every other key's value alone |
| Bucket.Delete | internal/storage/bolt/bolt_store.go:286 | `Delete` keeps the bucket sorted, removes the key and leaves every other key's value alone |
| Bucket.Seek | internal/storage/bolt/bolt_store.go:168 | `Seek(p)` stops at the first key that does not sort before `p` |
| Bucket.ValuesWithPrefixMembers | internal/storage/bolt/bolt_store.go:166-175 | a value is returned for a prefix exactly when some key with that prefix holds it |
| Bucket.WithoutPrefixGet | internal/storage/bolt/bolt_store.go:192-199 | deleting a prefix removes exactly the keys with it; other keys keep their values |
| Bucket.KeysWithValueGet | internal/storage/bolt/bolt_store.go:264-270 | a hash is listed for a user exactly when the bucket maps it to that user |
| BoltStore.HabitKey | internal/storage/bolt/bolt_store.go:120 | stated by `HabitKeyReadsBack`, `HabitKeyInjective` and `ListedNameOfKey` |
| BoltStore.HabitKeyReadsBack | internal/storage/bolt/bolt_store.go:120 | a key is the entry's name, '/', and text that reads back as the entry's second |
| BoltStore.NameSetMember | internal/storage/bolt/bolt_store.go:140-143 | a name is listed exactly when some key of the bucket yields it before its first '/' |
| BoltStore.ListedNameOfKey | internal/storage/bolt/bolt_store.go:120-141 | a key lists its habit's name up to the first '/', which is the whole name when it holds none |
| BoltStore.HabitKeyInjective | internal/storage/bolt/bolt_store.go:120 | two entries share a key if and only if they share name and second |
| BoltStore.NameSetPut | internal/storage/bolt/bolt_store.go:120-143 | putting an entry adds its listed name and no other |
| BoltStore.PutPut | internal/storage/bolt/bolt_store.go:121 | a second put of the same key keeps only the later value |
| BoltStore.SameSecondOverwrites | internal/storage/bolt/bolt_store.go:120-121 | a second entry with the same name and second replaces the first |
| BoltStore.DifferentSecondsKept | internal/storage/bolt/bolt_store.go:120-121 | entries of one habit in different seconds are both kept |
| BoltStore.PutThenGetHabit | internal/storage/bolt/bolt_store.go:120-174 | an entry just put is among those `GetHabit` returns for its name |
| BoltStore.SlashInNameSharesPrefix | internal/storage/bolt/bolt_store.go:120-168 | an entry named "a/b" falls under the prefix scan for "a" and is listed as "a" |
| BoltStore.DeleteThenGetHabit | internal/storage/bolt/bolt_store.go:192-199 | after a delete, `GetHabit` of that name finds nothing and every other key keeps its value |
| BoltStore.PutListsName | internal/storage/bolt/bolt_store.go:120-143 | putting an entry whose name has no '/' adds exactly that name to the listing |
| BoltStore.NamesAfterThreePuts | internal/storage/bolt/bolt_store.go:120-143 | three puts of names without '/' add exactly those names to a bucket's listing, however many of them coincide |
| BoltStore.RepeatedNameListedOnce | internal/storage/bolt/bolt_store_test.go:52-88 | a fresh bucket with one habit logged twice (guitar) and another once (exercise) lists exactly the two names |
| BoltStore.CollectNames | internal/storage/bolt/bolt_store.go:134-153 | the `ForEach` into `uniq` and the range loop into `out` list every name once |
| BoltStore.CollectWithPrefix | internal/storage/bolt/bolt_store.go:166-174 | the seek-and-scan loop returns the values of exactly the keys with the prefix, in key order |
| BoltStore.BlockEndValues | internal/storage/bolt/bolt_store.go:168 | the scan may stop at the first key past the block: it has then seen every match |
| BoltStore.RemovePrefix | internal/storage/bolt/bolt_store.go:192-198 | the seek-and-delete loop leaves exactly the entries whose keys lack the prefix |
| BoltStore.RemovedBlock | internal/storage/bolt/bolt_store.go:192-198 | cutting out the contiguous block after `Seek` is filtering the prefix out |
| BoltStore.CollectHashesOf | internal/storage/bolt/bolt_store.go:264-270 | the `ForEach` collects the hashes whose stored user ID is the caller's, in key order |
| BoltStore.ForEachViewGet | internal/storage/bolt/bolt_store.go:264-265 | the pairs `ForEach` yields keep the bucket's key order, and a nested bucket's nil value reads as user ID "" |
| BoltStore.ListedHash | internal/storage/bolt/bolt_store.go:264-269 | a key is listed for a user exactly when it holds that user ID, or holds a nested bucket and the user ID is "" |
| BoltStore.Store.constructor | internal/storage/bolt/bolt_store.go:22-44 | a fresh database has no user bucket and no API key |
| BoltStore.Store.EnsureUserHabitsBucket | internal/storage/bolt/bolt_store.go:47-62 | an empty user ID is refused as a bucket name; for user "api_keys" a hash stored under "habits" is an incompatible value; otherwise a missing user bucket is created empty, an existing one is left alone, and user "api_keys" gets its `habits` bucket nested in the API-key bucket; on an error nothing changes |
| BoltStore.Store.PutHabit | internal/storage/bolt/bolt_store.go:105-128 | the bucket error of `ensureUserHabitsBucketExists` is returned with nothing changed; after that a key over bbolt's 32768 bytes is KeyTooLarge, leaving the newly made bucket empty; otherwise the entry is put under `name/time` in its user's bucket only, other users are untouched, and the API keys change only by user "api_keys"'s nested bucket |
| BoltStore.Store.ListHabitNames | internal/storage/bolt/bolt_store.go:130-154 | the bucket error is returned with no names; otherwise the names listed for a user are exactly the distinct texts before the first '/' of that user's keys, each once |
| BoltStore.Store.GetHabit | internal/storage/bolt/bolt_store.go:156-181 | the bucket error is returned with no entries; otherwise the entries returned are the values under `name + "/"` in that user's bucket, in key order |
| BoltStore.Store.DeleteHabit | internal/storage/bolt/bolt_store.go:183-201 | the bucket error is returned with nothing changed; otherwise the keys under `name + "/"` leave that user's bucket and no other user's |
| BoltStore.Store.PutAPIKey | internal/storage/bolt/bolt_store.go:203-226 | an empty hash is refused (key required), one over 32768 bytes is too large, and the key "habits" holding a nested bucket is an incompatible value, all changing nothing; otherwise the hash maps to the user afterwards; the habits are untouched |
| BoltStore.Store.GetAPIKey | internal/storage/bolt/bolt_store.go:228-250 | found exactly when the hash holds a user ID, with that user; otherwise, a nested bucket included, ("", false) |
| BoltStore.Store.ListAPIKeyHashes | internal/storage/bolt/bolt_store.go:252-274 | the hashes listed, in key order, are exactly those mapped to the user, plus the key "habits" for user "" once user "api_keys" has a habits bucket |
| BoltStore.Store.DeleteAPIKey | internal/storage/bolt/bolt_store.go:276-288 | a hash holding a nested bucket is an incompatible value and nothing changes; otherwise the hash is gone afterwards, and other hashes and the habits are untouched |
| BoltStore.FreshUserListsNothing | internal/storage/bolt/bolt_store_test.go:38-50 | a new user lists no habits; the empty user ID is refused as a bucket name |
| BoltStore.UserIsolation | internal/storage/bolt/bolt_store_test.go:90-117 | after alice logs guitar at a present-day time she lists exactly guitar and bob lists nothing |
| BoltStore.APIKeyRoundTrip | internal/storage/bolt/bolt_store.go:203-288 | a stored hash of 1 to 32768 bytes is found with its owner, an empty or longer one is never stored, an unknown one is ("", false), and a deleted one is not found |
| BoltStore.APIKeysUserAliasing | internal/storage/bolt/bolt_store.go:54-71 | after user "api_keys" logs an entry, `ListAPIKeyHashes("")` lists "habits" (even when the entry's key was too long) and storing a hash "habits" fails as an incompatible value |
| BoltStore.HabitsHashBlocksAPIKeysUser | internal/storage/bolt/bolt_store.go:54-71 | once a hash "habits" is stored, user "api_keys" cannot log an entry: incompatible value |
| MemStore.KeysInSomeOrder | internal/server/memstore_test.go:39-42 | a range over a map yields each key exactly once |
| MemStore.MemStore.constructor | internal/server/memstore_test.go:18-24 | all three maps start empty |
| MemStore.MemStore.PutHabit | internal/server/memstore_test.go:26-33 | the entry is appended to its name's list; the user ID plays no part; the other maps are untouched |
| MemStore.MemStore.ListHabitNames | internal/server/memstore_test.go:35-45 | every name that has entries is listed exactly once |
| MemStore.MemStore.GetHabit | internal/server/memstore_test.go:47-52 | the name's entries in insertion order; empty for an unknown name |
| MemStore.MemStore.DeleteHabit | internal/server/memstore_test.go:64-70 | only that name's list is removed |
| MemStore.MemStore.PutAPIKey | internal/server/memstore_test.go:72-78 | the hash maps to the user afterwards, replacing any earlier owner |
| MemStore.MemStore.GetAPIKey | internal/server/memstore_test.go:80-86 | found exactly when the hash is present, with its user; "" otherwise |
| MemStore.MemStore.ListAPIKeyHashes | internal/server/memstore_test.go:88-99 | the hashes mapped to the user, each once |
| MemStore.MemStore.DeleteAPIKey | internal/server/memstore_test.go:101-107 | the hash is removed; nothing else changes |
| MemStore.MemStore.PutRefreshToken | internal/server/memstore_test.go:109-115 | the user's token is set |
| MemStore.MemStore.GetRefreshToken | internal/server/memstore_test.go:117-123 | found exactly when the user has a token, with that token |
| MemStore.MemStore.DeleteRefreshToken | internal/server/memstore_test.go:125-131 | the user's token is removed |
| MemStore.UserIDIgnored | internal/server/memstore_test.go:26-52 | a habit put under one user ID is read and listed under any other |
| MemStore.PutOrderAndDelete | internal/server/memstore_test.go:26-70 | two entries of a name come back in put order; a delete empties that name only |
| MemStore.RefreshTokenRoundTrip | internal/server/memstore_test.go:109-131 | put then get finds the token; after delete it is not found |
| MemStore.APIKeyListing | internal/server/memstore_test.go:72-107 | the hashes listed for a user are those put for the user and not deleted since |
| OAuthState.Expired | internal/server/server.go:541 | stated by `Lookup` and `Swept`: `now.After(ExpireAt)`, so an entry at exactly its expiry is still live |
| OAuthState.Lookup | internal/server/server.go:557-567 | a lookup succeeds exactly for a present, unexpired key and returns its state; otherwise it returns the zero state and false |
| OAuthState.Swept | internal/server/server.go:538-545 | a sweep at `now` keeps exactly the entries with `now` not after their expiry, unchanged |
| OAuthState.SweepPreservesLookup | internal/server/server.go:538-567 | a sweep never changes what a lookup at the same time reports |
| OAuthState.SweepIdempotent | internal/server/server.go:538-545 | sweeping twice at the same time is sweeping once |
| OAuthState.SweepMonotone | internal/server/server.go:538-545 | a later sweep keeps no more entries than an earlier one |
| OAuthState.SingleUse | internal/server/server.go:559-563 | once a key has been looked up, a lookup at any later time fails |
| OAuthState.StateStore.constructor | internal/server/auth_middleware.go:37-54 | a new store is empty |
| OAuthState.StateStore.Put | internal/server/auth_middleware.go:388-392 | the key maps to the new state, replacing any earlier one |
| OAuthState.StateStore.GetAndDelete | internal/server/auth_middleware.go:394-405 | the key is removed, expired or not; the state and true are returned only when it was present and unexpired |
| OAuthState.StateStore.Sweep | internal/server/auth_middleware.go:41-50 | the janitor pass deletes exactly the expired entries |
| OAuthState.PutThenGetOnce | internal/server/server.go:551-567 | a state put before its expiry is read back once; a second read fails |
| OAuthState.PutOverwrites | internal/server/server.go:551-567 | a second put under the same key is what is read back |
| AuthMiddleware.ParseProviderToken | internal/server/auth_middleware.go:243-262 | an empty token, a token without ':' and an empty provider are refused; on success the provider has no ':', both parts are non-empty and provider + ":" + jwt is the token |
| AuthMiddleware.ParseProviderTokenRoundTrip | internal/server/auth_middleware.go:243-262 | `id + ":" + raw` parses back to (id, raw) for a non-empty id without ':' and a non-empty raw token |
| AuthMiddleware.EmptyJWTRejected | internal/server/auth_middleware.go:257-259 | a token ending at its first ':' has an empty jwt and is refused |
| AuthMiddleware.FirstColonSplits | internal/server/auth_middleware.go:248-253 | "google:a:b" splits into "google" and "a:b" |
| AuthMiddleware.AcceptsHTML | internal/server/auth_middleware.go:237-239 | stated by `AcceptsHTMLMeans` |
| AuthMiddleware.AcceptsHTMLMeans | internal/server/auth_middleware.go:237-239 | true exactly when the Accept header is empty or "text/html" occurs in it |
| AuthMiddleware.StrClaim | internal/server/server.go:405-410 | the claim when it is a string; "" when it is missing or of another type |
| AuthMiddleware.Credential | internal/server/auth_middleware.go:166-195 | a well-formed session cookie wins; with no cookie, or one whose value does not parse, the Bearer header decides; a provider is chosen exactly when a token is |
| AuthMiddleware.BearerCredential | internal/server/auth_middleware.go:179-192 | a Bearer header gives a credential only for a configured provider, and then the header is `Bearer provider:token` |
| AuthMiddleware.BearerTokenAccepted | internal/server/auth_middleware.go:166-195 | with no session cookie, or one whose value does not parse, `Bearer id:raw` for a configured provider is the credential |
| AuthMiddleware.UnknownProviderIgnored | internal/server/auth_middleware.go:166-195 | with no session cookie, or one whose value does not parse, a Bearer token naming an unconfigured provider is ignored |
| AuthMiddleware.StatusCode | internal/server/auth_middleware.go:197-206 | a redirect is 302 and a rejection is 401 |
| AuthMiddleware.Reject | internal/server/auth_middleware.go:197-220 | a GET that accepts HTML is redirected to the login page; anything else is a 401 with the challenge |
| AuthMiddleware.Authenticate | internal/server/auth_middleware.go:161-234 | no token: reject with the realm challenge; failed verification: reject and clear the cookie; success: proceed with the subject, the email claim and the claims |
| AuthMiddleware.NoCredentialAPIRequest | internal/server/auth_middleware.go:197-206 | a POST with no cookie and no header gets a 401 with the realm challenge |
| AuthRoutes.CallbackChecks | internal/server/auth_routes.go:62-79 | missing state or code gives 400 before the store is touched; a looked-up state is consumed; only a present, unexpired state with a verifier reaches the code exchange |
| AuthRoutes.CallbackReplay | internal/server/auth_routes.go:75-79 | replaying a callback with the same state is refused with 400 |
| AuthRoutes.SessionToken | internal/server/auth_routes.go:127 | the session value is as long as the provider ID, one separator and the raw token together |
| AuthRoutes.SessionTokenParses | internal/server/auth_routes.go:127 | the middleware parses the session value back into the provider ID and raw token |
| AuthRoutes.GenerateAPIKey | internal/server/auth_routes.go:187-224 | no user gives 401; failed randomness gives 500; otherwise the key starts with "hab_live_", its hash is stored for the caller, and the reply is 200; the digest is always 64 hex digits, so the log line's 16-character slice cannot fail |
| AuthRoutes.GeneratedKeyIsStored | internal/server/apikey_test.go:51-67 | a generated key's hash is found, owned by the caller |
| AuthRoutes.KeyID | internal/server/auth_routes.go:249 | a key ID is 19 characters starting with the hash's first 16 |
| AuthRoutes.KeyIDVersusTruncateHash | internal/server/auth_routes.go:249 | the key ID equals `truncateHash` except for a hash of exactly 16 characters |
| AuthRoutes.ListAPIKeys | internal/server/auth_routes.go:227-257 | no user gives 401; otherwise one key ID per hash mapped to the caller, and a panic exactly when some hash is shorter than 16 characters |
| AuthRoutes.ListTwoOfThree | internal/server/apikey_test.go:141-191 | two keys of the caller and one of another user: the caller sees two |
| AuthRoutes.DeleteAPIKey | internal/server/auth_routes.go:260-300 | 401 without a user, 400 for an empty hash, 404 for an unknown one, 403 for another user's key (all leaving the store as it was); the owner's key is deleted with 204 |
| AuthRoutes.ForeignKeySurvives | internal/server/auth_routes.go:286-290 | another user's delete attempt gets 403 and the key keeps its owner |
| AuthHelpers.TruncateHash | internal/server/auth_helpers.go:18-23 | a hash of at most 16 characters is returned unchanged; a longer one becomes its first 16 characters and "...", 19 in all |
| AuthHelpers.TruncateHashPrefix | internal/server/auth_helpers.go:18-23 | the result starts with the first min(16, len) characters and is at most 19 long |
| AuthHelpers.TruncateHashIdempotent | internal/server/auth_helpers.go:18-23 | truncating twice is truncating once |
| AuthHelpers.TruncateHashSeparates | internal/server/auth_helpers.go:22 | long hashes that differ in their first 16 characters stay apart |
| AuthHelpers.WholeSeconds | internal/server/auth_helpers.go:34 | the duration's whole seconds, the fraction dropped toward zero |
| AuthHelpers.CreateSessionCookie | internal/server/auth_helpers.go:26-36 | the given name and value, path "/", HttpOnly, Secure, SameSite Lax, and MaxAge the whole seconds of the duration |
| ServerRoutes.ValidateHabit | internal/server/server_routes.go:220-237 | nil exactly when the name is 1 to 20 bytes, the note at most 1024 and the timestamp in [946684800, 4102444800]; otherwise the error of the first check that fails, in the order name, note, timestamp |
| ServerRoutes.ValidateHabitBoundaries | internal/server/server_routes.go:223-234 | a 20-byte name, an empty or 1024-byte note and either timestamp bound pass |
| ServerRoutes.ValidateHabitJustOutside | internal/server/server_routes.go:226-234 | one byte or one second past a limit fails with that check's error |
| ServerRoutes.TrackHabit | internal/server/server_routes.go:122-160 | 400 for an empty user ID, bad JSON or an invalid entry, and 500 when the store refuses the user's bucket, with the store unchanged; otherwise 201 and the entry put in the user's bucket, a validated key never being too long |
| ServerRoutes.ValidatedKeyFits | internal/server/server_routes.go:226-234 | an entry that passes validation has a key of at most 31 bytes, under bbolt's 32768-byte limit |
| ServerRoutes.ListHabits | internal/server/server_routes.go:100-120 | 400 without a user ID; 500 when the store refuses the user's bucket; otherwise 200 with the user's names, each once |
| ServerRoutes.GetHabit | internal/server/server_routes.go:162-190 | 400 when the user or habit ID is empty; 500 when the store refuses the user's bucket; otherwise the entries under `id/`, with 404 exactly when there are none |
| ServerRoutes.DeleteHabit | internal/server/server_routes.go:192-218 | 400 when an ID is empty and 500 when the store refuses the user's bucket, both deleting nothing; otherwise 204 and the habit's keys removed from that user's bucket only |
| ServerRoutes.TrackThenGet | internal/server/server_routes.go:122-190 | a valid entry is accepted with 201 and `getHabit` then serves exactly it |
| ServerLegacy.ValidateHabit | internal/server/server.go:292-309 | nil exactly when the name is 1 to 20 bytes, the note at most 1024 and the timestamp within the window |
| ServerLegacy.SameRuleAsServerRoutes | internal/server/server.go:292-309 | this revision's check gives the same result as the multi-user revision's for every entry |
| ServerLegacy.TrackHabit | internal/server/server.go:222-244 | 400 for bad JSON or an invalid entry with the store unchanged; otherwise 201 and the entry appended under its name |
| ServerLegacy.ListHabits | internal/server/server.go:210-220 | 200 with every stored name once |
| ServerLegacy.GetHabit | internal/server/server.go:246-271 | 400 without an ID; otherwise the name's entries, 404 exactly when there are none |
| ServerLegacy.DeleteHabit | internal/server/server.go:273-290 | 400 without an ID; otherwise 204 with that name removed |
| ServerLegacy.TrackThenGet | internal/server/server.go:222-271 | a valid entry is accepted with 201 and then served with 200 |
| ServerLegacy.ListEmpty | internal/server/server.go:210-220 | a fresh server lists no habits |
| CmdServer.GetVersionInfo | cmd/server.go:115-130 | 200 with the version and build date stamped at link time |
| CmdServer.TrackKey | cmd/server.go:180 | stated by `TrackKeyIsHabitKey`: the bolt store's key layout with the request time |
| CmdServer.TrackKeyIsHabitKey | cmd/server.go:180 | the command's key is the bolt store's layout, with the request time |
| CmdServer.SplitFirstIsListedName | cmd/server.go:140 | the command's listing takes the same name from a key as the bolt store's |
| CmdServer.Server.constructor | cmd/server.go:55-71 | the bucket starts empty |
| CmdServer.Server.TrackHabit | cmd/server.go:162-193 | 400 for bad JSON or an empty name and nothing written; 500 "database write failed" with nothing written when `name/now` is over bbolt's 32768-byte key limit; otherwise 201 and the entry put under `name/now` |
| CmdServer.Server.ListHabits | cmd/server.go:132-160 | every distinct text before a key's first '/', each once |
| CmdServer.Server.GetHabit | cmd/server.go:195-238 | 400 without an ID; otherwise the values under `id/`, with 404 exactly when there are none |
| CmdServer.EmptyNameRejected | cmd/server_logic_test.go:13-28 | an entry without a name gets 400 and nothing is stored |
| CmdServer.TrackThenGet | cmd/server.go:162-226 | a tracked entry whose key fits bbolt's limit is served back under its name |
| CmdServer.SameSecondOverwrites | cmd/server.go:180-182 | two requests for one name in the same second share a key, and the second replaces the first |
| Nudge.Expiring | internal/nudge/nudge.go:39-40 | stated by `CutoffEdges` and `ExpiringInMembers` |
| Nudge.ExpiringIn | internal/nudge/nudge.go:33-45 | the result is never longer than the list of names |
| Nudge.ExpiringInError | internal/nudge/nudge.go:35-38 | the job fails exactly when some summary lookup fails, and then with the first failure's error |
| Nudge.ExpiringInMembers | internal/nudge/nudge.go:39-42 | a name is returned exactly when some listed habit's summary carries it with an active streak and a cutoff ahead of `now` and at most `in` away |
| Nudge.ExpiringInIsFilter | internal/nudge/nudge.go:33-43 | when each summary carries its own name, the result is the subsequence of the listed names that are expiring, in list order |
| Nudge.ExpiringInErrorSticks | internal/nudge/nudge.go:36-38 | once a lookup fails, the loop returns that error |
| Nudge.GetHabitsExpiringIn | internal/nudge/nudge.go:27-46 | a listing error is returned as is; otherwise the loop computes `ExpiringIn` |
| Nudge.CutoffEdges | internal/nudge/nudge.go:40 | a cutoff exactly at `now` is excluded; one exactly `in` ahead is included |
| Nudge.NothingExpiringYet | internal/nudge/nudge_test.go:38-63 | a write 2 hours ago with a 2-hour window gives no expiring habit |
| Nudge.Nudge | internal/nudge/nudge.go:13-25 | the notifier is called, with the names and the threshold, exactly when the expiring list is non-empty |
| Config.OrDefaultMeans | internal/config/config.go:88-110 | a set field is kept, an empty one gets its non-empty default, and defaulting twice changes nothing |
| Config.WithDefaultScopes | internal/config/config.go:112-117 | nil scopes become ["openid", "profile", "offline_access"]; set scopes are untouched |
| Config.AllWithDefaultScopes | internal/config/config.go:112-117 | every provider gets its scopes filled in place |
| Config.AllWithDefaultScopesIdempotent | internal/config/config.go:112-117 | filling the scopes twice is filling them once |
| Config.FillScopes | internal/config/config.go:112-117 | the loop fills every provider's scopes and no provider is left without |
| Config.ParseLevel | internal/config/config.go:123-134 | a level exactly for "debug", "info", "warn" or "error" in any case |
| Config.ParseLevelIgnoresCase | internal/config/config.go:123 | the case of the level does not matter |
| Config.ParseLevelExamples | internal/config/config.go:123-134 | the default "debug" and "WARN" parse; "verbose" is refused |
| Config.FinalizeProviderError | internal/config/config.go:153-162 | no error exactly when every provider has a name and an ID |
| Config.ProviderError | internal/config/config.go:234-264 | no error exactly when the provider is complete and its name unseen; a seen name is a duplicate error |
| Config.ValidateProvidersError | internal/config/config.go:232-265 | stated by `ValidateProvidersErrorMeans` and `ValidateProvidersErrorSticks` |
| Config.ValidateProvidersErrorMeans | internal/config/config.go:232-265 | the loop accepts exactly the lists of complete providers with distinct names |
| Config.FinalizeProviderErrorSticks | internal/config/config.go:153-162 | the first failing provider decides `finalize`'s error |
| Config.ValidateProvidersErrorSticks | internal/config/config.go:232-265 | the first failing provider decides `validate`'s error |
| Config.DuplicateNameRejected | internal/config/config.go:241-243 | two providers under one name are refused |
| Config.TooPermissiveExamples | internal/config/config.go:213-216 | modes 0600 and 0400 pass the mask; 0640 and 0644 do not |
| Config.TLSError | internal/config/config.go:185-222 | TLS off passes; with TLS on it passes exactly when both names are given, both files stat and open and the key has no group or other bits; otherwise the first failing step gives its error: missing name, cert stat, cert unreadable, key stat, key too permissive, key unreadable |
| Config.Config.constructor | internal/config/config.go:71 | a configuration without fields starts at zero values |
| Config.Config.ApplyDefaults | internal/config/config.go:88-118 | each empty field gets its default, a set one keeps its value, and providers get the default scopes |
| Config.Config.Finalize | internal/config/config.go:120-182 | an unknown level is an error and leaves the level unset; otherwise the level is set and the first provider missing a name or ID is the error |
| Config.Config.Validate | internal/config/config.go:184-267 | the TLS error first, then auth without providers, then the provider loop |
| Config.AuthWithoutProviders | internal/config/config.go:224-226 | auth on with no provider is refused |
| Config.DefaultsThenFinalize | internal/config/config_test.go:39-46 | an empty configuration loads with host 0.0.0.0, debug logging and port 3000, or the port that was set |
| Track.TrackEntry | cmd/track.go:26-50 | two arguments are required; after trimming, an empty name and a name over 24 bytes are refused; otherwise the trimmed name and note with the current time |
| Track.TrackEntryIsTrimmed | cmd/track.go:28-29 | an accepted name neither starts nor ends with white space, and tracking the entry again gives the same entry |
| Track.LongerThanServerAllows | cmd/track.go:36-39 | a 24-byte name passes the command and fails the server's 20-byte check |
| Track.VeryLongNameRefused | cmd/cli_validation_test.go:8-14 | the 42-byte name of the command's test is refused |
| Api.Millis | frontend/src/api.ts:15 | each entry's second becomes its millisecond key, times 1000 |
| Api.Distinct | frontend/src/api.ts:13-17 | the record's keys are every timestamp once, none repeated |
| Api.DataFor | frontend/src/api.ts:19-23 | one datum per key with its count and the habit name |
| Api.CountLoop | frontend/src/api.ts:13-17 | the loop creates each distinct timestamp once, in first-occurrence order, counting its occurrences |
| Api.CountEntries | frontend/src/api.ts:13-25 | the loop and the map give the aggregate of the entries |
| Api.FetchHabit | frontend/src/api.ts:9-26 | a body that is not JSON throws the SyntaxError of `res.json()`; JSON without entries throws the TypeError of the loop; otherwise the aggregate, whatever the status |
| Api.CountedShape | frontend/src/api.ts:13-23 | over any keys, the loop's data has one datum per distinct key, in first-occurrence order, each count at least 1 and each naming the habit |
| Api.AggregateShape | frontend/src/api.ts:13-23 | one datum per distinct millisecond value, each count at least 1, each naming the habit; no entries give no data |
| Api.AggregateSum | frontend/src/api.ts:16-23 | the counts add up to the number of entries |
| Api.AggregateCountsAll | frontend/src/api.ts:16-23 | over any timestamps, the counts add up to their number |
| Api.SameSecondCountsTwice | frontend/src/api.ts:15-16 | two entries in the same second make one datum with count 2 |
| Api.Checked | frontend/src/api.ts:30-32 | a response that is not ok throws, naming its status text; an ok one yields its body |
| Api.FetchHabitSummary | frontend/src/api.ts:28-34 | not ok throws "Failed to fetch summary for habit <habit>: <status text>"; ok yields the body |
| Api.FetchHabits | frontend/src/api.ts:36-43 | not ok throws "Failed to fetch habits: <status text>"; ok yields the habits |
| Api.FetchVersionInfo | frontend/src/api.ts:45-51 | not ok throws "Failed to fetch version info: <status text>"; ok yields the body |
| Api.OnlyFetchHabitIgnoresStatus | frontend/src/api.ts:9-51 | on one failed response carrying entries, `fetchHabit` returns their aggregate while the three checked fetchers all throw |
| MainPage.CountStamps | frontend/src/main.ts:23-27 | the page's loop keys each distinct `TimeStamp * 1000` once, in first-occurrence order, counting its occurrences |
| MainPage.FetchHabitData | frontend/src/main.ts:17-36 | a body without entries throws; otherwise one datum per distinct `TimeStamp * 1000`, with its count and the habit name |
| MainPage.MinOf | frontend/src/main.ts:43 | `Math.min` returns an element no greater than any other |
| MainPage.HeatmapStart | frontend/src/main.ts:42-44 | the start is the least `t` of the data; no data, or a NaN among them, gives an invalid date and no start |
| MainPage.HeatmapStartsAtEarliestEntry | frontend/src/main.ts:17-44 | with numeric timestamps the heatmap starts at the earliest entry's second, in milliseconds |
| MainPage.AllNaNCounted | frontend/src/main.ts:23-27 | timestamps that are all NaN make one key, counted once per entry |
| MainPage.ServedEntriesGiveNaN | cmd/server.go:28-31 | the stand-alone server's RFC 3339 timestamps give the page one NaN datum counting every entry, and no start date |
| MainPage.TitleOfGuitar | frontend/src/main.ts:82-87 | the page's title is "Guitar" |
| Utils.ToTitleCase | frontend/src/utils.ts:1-3 | the first character is upper-cased and the rest kept; "" stays "" |
| Utils.ToTitleCaseIdempotent | frontend/src/utils.ts:1-3 | title-casing twice is title-casing once |
| Utils.SplitPartsHaveNoSeparator | frontend/src/utils.ts:6 | no segment of a split holds the separator |
| Utils.SplitThree | frontend/src/utils.ts:6 | three separator-free segments joined by '/' split back into the three |
| Utils.HabitFromPath | frontend/src/utils.ts:5-11 | a named habit never contains '/'; which path names which habit is stated by `HabitFromPathNamesHabit`, `HabitFromPathIgnoresRest` and `ShortPathsNameNothing` |
| Utils.HabitFromPathNamesHabit | frontend/src/utils.ts:5-11 | "/habits/x" gives x, and "/habits/" gives ""; any other first segment gives null |
| Utils.HabitFromPathIgnoresRest | frontend/src/utils.ts:5-11 | segments after the habit's name do not change it |
| Utils.ShortPathsNameNothing | frontend/src/utils.ts:7-10 | a path of fewer than three segments gives null |
| Utils.RoundedPercent | frontend/src/utils.ts:16-17 | the percentage is within half a unit of 100 days / total, with halves rounded up |
| Utils.RoundedPercentUnique | frontend/src/utils.ts:16-17 | it is the only integer within half a unit |
| Utils.DaysThisMonthAsPercentage | frontend/src/utils.ts:13-18 | the text is the rounded percentage in decimal followed by "%", and reads back as that number |
| Utils.PercentageEnds | frontend/src/utils.ts:13-18 | no days is "0%" and every day is "100%" |
| Utils.IntToMonth | frontend/src/utils.ts:20-26 | a three-letter name exactly for months 1 to 12; undefined otherwise |
| Utils.IntToMonthTable | frontend/src/utils.ts:21-25 | 1 is "Jan", 12 is "Dec", 0 is undefined, and no two months share a name |
| Theme.StoredOrAuto | frontend/src/theme.ts:2-4 | a stored non-empty value, or "auto" when unset or empty |
| Theme.Icon | frontend/src/theme.ts:34-38 | an icon exactly for "light", "dark" and "auto" |
| Theme.Page.constructor | frontend/src/theme.ts:40-62 | the menu and its label start hidden |
| Theme.Page.GetStoredTheme | frontend/src/theme.ts:2-4 | never empty; the stored value when it is non-empty |
| Theme.Page.SetStoredTheme | frontend/src/theme.ts:6-8 | the theme is stored |
| Theme.Page.ApplyTheme | frontend/src/theme.ts:10-26 | dark is set for "dark", cleared for "light", and follows the system for anything else |
| Theme.Page.GetCurrentTheme | frontend/src/theme.ts:28-30 | "dark" exactly when the dark class is set, else "light" |
| Theme.Page.ToggleClick | frontend/src/theme.ts:77-92 | the menu's hidden state flips, the label follows it and the chevron turns with it |
| Theme.Page.DocumentClick | frontend/src/theme.ts:95-99 | any other click hides the menu and label and resets the chevron |
| Theme.Page.MenuListener | frontend/src/theme.ts:102-121 | outside a theme button the listener changes nothing; on one, the theme is stored and applied, icon and label set, the menu closed and the callback run once if given |
| Theme.Page.MenuClick | frontend/src/theme.ts:95-121 | a click inside the menu runs the menu listener and then bubbles to the document listener, so the menu and label end hidden and the chevron reset in every case; off a theme button the theme, icon, label and callbacks stay as they were; on one, as the menu listener sets them |
| Theme.ClickInsideMenuCloses | frontend/src/theme.ts:77-121 | opening the menu and clicking inside it off the buttons closes it and keeps the stored theme |
| Theme.ApplyTwice | frontend/src/theme.ts:13-25 | the result depends only on the theme and the system preference, so applying twice equals applying once |
| Theme.StoreThenRead | frontend/src/theme.ts:2-8 | before any choice the theme reads "auto"; a stored non-empty theme reads back as itself |
| Theme.AutoFollowsSystem | frontend/src/theme.ts:20-30 | choosing "auto" shows the system's preference while "auto" stays stored |
| Theme.ToggleTwice | frontend/src/theme.ts:77-92 | two toggle clicks open the menu and close it again |

## Left out

- OpenID Connect discovery, code exchange and ID-token verification are foreign calls. `Authenticate` takes verification as a function parameter. `callback` is modelled only up to the code exchange (`CallbackChecks`). `login`, `logout`, `simpleLogin`, `getAPIToken` and `ConfigureOIDCProviders` are not modelled.
- Session-cookie encoding and decoding, `crypto/rand`, SHA-256 (`hashAPIKey`), base64 and the PKCE S256 transform (`codeChallengeS256`, section 4.2 of RFC 7636) are foreign. The decoded cookie, the encoded random text and the digest function are parameters.
- The return-path sanitising in `login` depends on `url.Parse` and is not modelled.
- bbolt's internals are not modelled: transactions, files, I/O errors, and JSON (un)marshalling of stored entries. A value is the `Habit` it encodes. The bucket errors the code can meet are modelled: an empty bucket name or key, a key over bbolt's 32768 bytes, a value where a bucket is wanted and the reverse. A failing update changes nothing.
- BoltStore.HabitKey: the RFC 3339 time in the key is rendered as a decimal second count. Both renderings are injective and contain no '/', so listing, prefix get and delete are the same. Key order differs: RFC 3339 keys of one habit sort by time within one time zone and year range, while decimal keys sort by time only among seconds with the same number of digits (a 9-digit second before 2001-09-09 sorts after a 10-digit one). `GetHabit`'s entry order is therefore the model's key order, not the chronological order the RFC 3339 keys give.
- BoltStore.Store.PutHabit: bbolt's key limit is checked on the model's key, whose time is decimal rather than RFC 3339. The name length at which a key passes 32768 bytes is therefore off by the difference between the two time texts. The same holds for `CmdServer.Server.TrackHabit`. bbolt's value limit (`MaxValueSize`, 2^31 - 2 bytes) is not modelled, because entries are not encoded to JSON.
- BoltStore.RemovePrefix: it removes every key in the block. bbolt's cursor can skip the key after a `Delete` before `Next`; that quirk is not modelled.
- Go's map iteration order is modelled as an unspecified order (`MemStore.KeysInSomeOrder`, `BoltStore.CollectNames`). The listing contracts state membership and absence of repetition, not order.
- Concurrency is not modelled: the janitor goroutine and its ticker, the `StateStore` mutexes and the `memStore` `RWMutex`. Only the sweep body and the map operations are.
- `memStore.GetHabitSummary` (internal/server/memstore_test.go:54-62) is not modelled. It only returns a summary carrying the name, and no modelled operation uses it.
- Not modelled: `getHabitSummary`, `getVersionInfo` and routing in the server revisions, `stats_compute.go`, Prometheus metrics, logging, the API client, the e-mail notifiers, and the cobra wiring of the other commands.
- Storage failures other than bbolt's bucket errors are not modelled. The multi-user handlers answer 500 for those; the in-memory store and the legacy server do not fail.
- The configuration file's reading, YAML decoding, `resolvePath` and the URL checks in `finalize` are not modelled. `Config.Config.Finalize` checks the log level and each provider's name and ID. `Config.TLSError` receives `fileStat` and `canOpenFile` as functions.
- Config.Config.Validate: the warning logged when providers are configured but auth is off is not modelled.
- Track: loading the configuration and posting the entry are I/O and are not modelled.
- Floats and dates are not modelled. `computeDaysThisMonthAsPercentage` reads the month's length from `Date`; here it is a parameter between 28 and 31, and `Math.round` of a float is exact integer rounding. `new Date(...)` in the heatmap start is the millisecond number itself.
- Unicode is not modelled. `strings.TrimSpace`, `strings.ToLower` and `toUpperCase` are modelled on ASCII. Go's `len` counts bytes, as `|s|` does for one-byte characters.
- frontend/src/heatmap.ts (rendering), vite.config.ts and the markup of `createThemeToggle` are not modelled. `setupThemeToggle`'s early return when an element is missing is not modelled: the `Page` always has its elements.
- main.ts repeats `fetchHabit`'s loop on `TimeStamp` and a different URL; `MainPage.CountStamps` is that copy, proved with the API layer's loop invariant. The stand-alone server (cmd/server.go:28-31) sends `TimeStamp` as RFC 3339 text, so every key the page computes is NaN (`MainPage.ServedEntriesGiveNaN`). The fetch itself and the heatmap drawing are not modelled.
- JavaScript numbers are integers or NaN here; `Number` of a text is NaN for every RFC 3339 text, which is all the model needs of it.
- Object key order: `Object.entries` lists integer-like keys (0 to 2^32 - 2) first, in ascending order, and other keys in creation order. Millisecond timestamps since 1970 are far above 2^32, so every real key is in creation order, which is the order `Api.Distinct` states; keys that would be array indices are not ordered separately.
- CmdServer.EmptyNameRejected: cmd/server_logic_test.go:17 assigns an `int64` to the `time.Time` field and so does not compile as written; the model states the case the test means, an entry with an empty name.
- Api.FetchHabit: the messages of the thrown SyntaxError and TypeError depend on the JavaScript engine; the model fixes one text for each and states which of the two is thrown.
- The first nudge test (internal/nudge/nudge_test.go:11-36) expects "guitar" to be expiring. With the rule at internal/nudge/nudge.go:39-40 its cutoff has already passed, so it is not encoded.
- AuthMiddleware.Authenticate: a provider ID that parses from the cookie but is not configured is a nil dereference, modelled as `Panic` with no further outcome.
- Nudge.ExpiringIn: its own contract states only the length bound; what it returns is stated by `Nudge.ExpiringInMembers`, `Nudge.ExpiringInIsFilter` and `Nudge.ExpiringInError`.
- Nudge.Nudge: `Nudge` prints the error and the list; printing is I/O and not modelled.
