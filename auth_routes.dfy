/** The authentication routes of the multi-provider server that can be modelled
    without the identity provider: the early rejections of the OAuth callback and
    the API key endpoints (generate, list, delete) over the key store. The random
    key material and its SHA-256 hex digest are foreign and arrive as parameters. */
module AuthRoutes {
  import opened Wrappers
  import opened Strings
  import opened AuthHelpers
  import MemStore
  import OAuthState
  import AuthMiddleware

  /** A handler's reply: an HTTP status, or a run-time panic (a slice past the end
      of a string), after which no response is written. */
  datatype Reply = Status(code: int) | Panic

  /** The user the middleware put in the request context, `None` when there is none. */
  type ContextUser = Option<string>

  // ---------------------------------------------------------------- callback

  datatype CallbackStep =
    | Reject(code: int, message: string)
    | Exchange(Verifier: string, Return: string)
    | CallbackPanic

  /** The checks `callback` makes before it exchanges the code: `state` and `code`
      must be present, and the saved state must exist, be unexpired and carry a
      verifier. `states` is the provider's state store, `null` for an unknown
      provider ID. The state is consumed as soon as it is looked up. */
  method CallbackChecks(states: OAuthState.StateStore?, state: string, code: string, now: int)
    returns (step: CallbackStep)
    modifies states
    ensures state == "" ==> step == Reject(400, "missing state")
    ensures state != "" && code == "" ==> step == Reject(400, "missing code")
    ensures state != "" && code != "" && states == null ==> step == CallbackPanic
    ensures state == "" || code == "" || states == null ==> states == null || states.m == old(states.m)
    ensures state != "" && code != "" && states != null ==>
              var (saved, ok) := OAuthState.Lookup(old(states.m), state, now);
              && states.m == old(states.m) - {state}
              && (if ok && saved.Verifier != "" then step == Exchange(saved.Verifier, saved.Return)
                  else step == Reject(400, "invalid or expired state"))
  {
    if state == "" {
      return Reject(400, "missing state");
    }
    if code == "" {
      return Reject(400, "missing code");
    }
    if states == null {
      return CallbackPanic;
    }
    var saved, ok := states.GetAndDelete(state, now);
    if !ok || saved.Verifier == "" {
      return Reject(400, "invalid or expired state");
    }
    step := Exchange(saved.Verifier, saved.Return);
  }

  /** A replayed callback is refused: the second use of the same state fails. */
  method CallbackReplay(state: string, code: string, saved: OAuthState.AuthState, now: int)
    returns (first: CallbackStep, second: CallbackStep)
    requires state != "" && code != "" && saved.Verifier != "" && now <= saved.ExpireAt
    ensures first == Exchange(saved.Verifier, saved.Return)
    ensures second == Reject(400, "invalid or expired state")
  {
    var states := new OAuthState.StateStore(300);
    states.Put(state, saved);
    first := CallbackChecks(states, state, code, now);
    second := CallbackChecks(states, state, code, now);
  }

  /** The value `callback` puts in the session cookie. */
  function SessionToken(id: string, rawIDToken: string): (t: string)
    ensures |t| == |id| + 1 + |rawIDToken|
  {
    id + ":" + rawIDToken
  }

  /** The middleware reads the session token back as the provider and raw token
      it names, for a provider ID without ':'. */
  lemma SessionTokenParses(id: string, rawIDToken: string)
    requires id != "" && ':' !in id && rawIDToken != ""
    ensures AuthMiddleware.ParseProviderToken(SessionToken(id, rawIDToken)) == Ok((id, rawIDToken))
  {
    AuthMiddleware.ParseProviderTokenRoundTrip(id, rawIDToken);
  }

  // ---------------------------------------------------------------- API keys

  const KeyPrefix := "hab_live_"

  /** `fmt.Sprintf("%x", sha256.Sum256(...))`: 32 bytes as 64 lower-case hex digits. */
  type HexDigest = s: string | |s| == 64 && forall i :: 0 <= i < |s| ==> s[i] in "0123456789abcdef"
    witness seq(64, i => '0')

  /** `generateAPIKey`: with a user and working randomness, the key is
      "hab_live_" plus the encoded random bytes, and its hash is stored mapped to
      the user. `encoded` is the base64 text of the random bytes, `randomOK`
      whether reading them succeeded, `sha256Hex` the digest function. The
      digest is always 64 characters, so logging its first 16 never fails. */
  method GenerateAPIKey(store: MemStore.MemStore, user: ContextUser, randomOK: bool, encoded: string,
                        sha256Hex: string -> HexDigest)
    returns (reply: Reply, plainKey: string)
    modifies store
    ensures user.None? ==> reply == Status(401) && plainKey == ""
    ensures user.Some? && !randomOK ==> reply == Status(500) && plainKey == ""
    ensures user.None? || !randomOK ==> store.apiKeys == old(store.apiKeys)
    ensures user.Some? && randomOK ==>
              && plainKey == KeyPrefix + encoded
              && HasPrefix(plainKey, KeyPrefix)
              && store.apiKeys == old(store.apiKeys)[sha256Hex(plainKey) := user.value]
              && reply == Status(200)
    ensures store.habits == old(store.habits) && store.refreshTokens == old(store.refreshTokens)
  {
    plainKey := "";
    if user.None? {
      return Status(401), plainKey;
    }
    if !randomOK {
      return Status(500), plainKey;
    }
    plainKey := KeyPrefix + encoded;
    var keyHash := sha256Hex(plainKey);
    store.PutAPIKey(keyHash, user.value);
    reply := Status(200);
  }

  /** A freshly generated key is found in the store, mapped to its owner. */
  method GeneratedKeyIsStored(userID: string, encoded: string, sha256Hex: string -> HexDigest)
    returns (owner: string, found: bool)
    ensures found && owner == userID
  {
    var store := new MemStore.MemStore();
    var reply, plainKey := GenerateAPIKey(store, Some(userID), true, encoded, sha256Hex);
    owner, found := store.GetAPIKey(sha256Hex(plainKey));
  }

  /** What `listAPIKeys` shows for a hash: its first 16 characters and "...". */
  function KeyID(hash: string): (r: string)
    requires |hash| >= DisplayPrefix
    ensures |r| == DisplayPrefix + 3 && HasPrefix(r, hash[..DisplayPrefix])
  {
    hash[..DisplayPrefix] + "..."
  }

  /** `KeyID` agrees with `TruncateHash` except on a hash of exactly 16 characters,
      which `TruncateHash` leaves alone and `KeyID` still suffixes. */
  lemma KeyIDVersusTruncateHash(hash: string)
    requires |hash| >= DisplayPrefix
    ensures |hash| > DisplayPrefix ==> KeyID(hash) == TruncateHash(hash)
    ensures |hash| == DisplayPrefix ==> KeyID(hash) == hash + "..." && TruncateHash(hash) == hash
  {
    assert |hash| == DisplayPrefix ==> hash[..DisplayPrefix] == hash;
  }

  /** `listAPIKeys`: the caller's key hashes as the store lists them, and one key ID
      per hash. A hash shorter than 16 characters makes the slice panic. */
  method ListAPIKeys(store: MemStore.MemStore, user: ContextUser)
    returns (reply: Reply, hashes: seq<string>, keys: seq<string>)
    ensures user.None? ==> reply == Status(401) && hashes == [] && keys == []
    ensures user.Some? ==>
              && MemStore.NoDuplicates(hashes)
              && (forall h :: h in hashes <==> h in store.apiKeys && store.apiKeys[h] == user.value)
              && (reply == Panic <==> exists i :: 0 <= i < |hashes| && |hashes[i]| < DisplayPrefix)
              && (reply != Panic ==> reply == Status(200))
    ensures reply == Status(200) ==>
              |keys| == |hashes| && forall i :: 0 <= i < |hashes| ==> |hashes[i]| >= DisplayPrefix && keys[i] == KeyID(hashes[i])
  {
    hashes, keys := [], [];
    if user.None? {
      return Status(401), hashes, keys;
    }
    hashes := store.ListAPIKeyHashes(user.value);
    var i := 0;
    while i < |hashes|
      invariant 0 <= i <= |hashes| && |keys| == i
      invariant forall j :: 0 <= j < i ==> |hashes[j]| >= DisplayPrefix && keys[j] == KeyID(hashes[j])
    {
      if |hashes[i]| < DisplayPrefix {
        return Panic, hashes, keys;
      }
      keys := keys + [KeyID(hashes[i])];
      i := i + 1;
    }
    reply := Status(200);
  }

  /** A list without repetition has as many elements as distinct values. */
  lemma {:induction false} DistinctCount(s: seq<string>)
    requires MemStore.NoDuplicates(s)
    ensures |set x | x in s| == |s|
  {
    if |s| > 0 {
      var init := s[..|s| - 1];
      assert MemStore.NoDuplicates(init);
      DistinctCount(init);
      assert (set x | x in s) == (set x | x in init) + {s[|s| - 1]};
      assert s[|s| - 1] !in init;
    }
  }

  /** Exactly two distinct values, listed without repetition, make a list of two. */
  lemma NoDuplicatesOfTwo(s: seq<string>, a: string, b: string)
    requires a != b && MemStore.NoDuplicates(s)
    requires forall h :: h in s <==> h == a || h == b
    ensures |s| == 2
  {
    DistinctCount(s);
    assert (set x | x in s) == {a, b};
  }

  /** Two keys of the caller and one of another user: the caller sees two. */
  method ListTwoOfThree(k1: string, k2: string, k3: string, userID: string, otherUserID: string)
    returns (reply: Reply, keys: seq<string>)
    requires |k1| == 64 && |k2| == 64 && |k3| == 64
    requires k1 != k2 && k1 != k3 && k2 != k3 && userID != otherUserID
    ensures reply == Status(200) && |keys| == 2
  {
    var store := new MemStore.MemStore();
    store.PutAPIKey(k1, userID);
    store.PutAPIKey(k2, userID);
    store.PutAPIKey(k3, otherUserID);
    var hashes;
    reply, hashes, keys := ListAPIKeys(store, Some(userID));
    NoDuplicatesOfTwo(hashes, k1, k2);
    assert hashes[0] in hashes && hashes[1] in hashes;
  }

  /** `deleteAPIKey`: only the key's owner may delete it. */
  method DeleteAPIKey(store: MemStore.MemStore, user: ContextUser, keyHash: string) returns (reply: Reply)
    modifies store
    ensures user.None? ==> reply == Status(401)
    ensures user.Some? && keyHash == "" ==> reply == Status(400)
    ensures user.Some? && keyHash != "" && keyHash !in old(store.apiKeys) ==> reply == Status(404)
    ensures user.Some? && keyHash != "" && keyHash in old(store.apiKeys) && old(store.apiKeys)[keyHash] != user.value ==>
              reply == Status(403)
    ensures user.Some? && keyHash != "" && keyHash in old(store.apiKeys) && old(store.apiKeys)[keyHash] == user.value ==>
              && store.apiKeys == old(store.apiKeys) - {keyHash}
              && reply == (if |keyHash| < DisplayPrefix then Panic else Status(204))
    ensures store.apiKeys == old(store.apiKeys) ||
              (user.Some? && keyHash in old(store.apiKeys) && old(store.apiKeys)[keyHash] == user.value &&
               store.apiKeys == old(store.apiKeys) - {keyHash})
    ensures reply == Status(204) || reply == Panic || store.apiKeys == old(store.apiKeys)
    ensures store.habits == old(store.habits) && store.refreshTokens == old(store.refreshTokens)
  {
    if user.None? {
      return Status(401);
    }
    if keyHash == "" {
      return Status(400);
    }
    var owner, found := store.GetAPIKey(keyHash);
    if !found {
      return Status(404);
    }
    if owner != user.value {
      return Status(403);
    }
    store.DeleteAPIKey(keyHash);
    // the log line slices keyHash[:16]
    if |keyHash| < DisplayPrefix {
      return Panic;
    }
    reply := Status(204);
  }

  /** Another user's key survives a delete attempt. */
  method ForeignKeySurvives(keyHash: string, owner: string, intruder: string)
    returns (reply: Reply, stillOwner: string, found: bool)
    requires keyHash != "" && owner != intruder
    ensures reply == Status(403) && found && stillOwner == owner
  {
    var store := new MemStore.MemStore();
    store.PutAPIKey(keyHash, owner);
    reply := DeleteAPIKey(store, Some(intruder), keyHash);
    stillOwner, found := store.GetAPIKey(keyHash);
  }
}
