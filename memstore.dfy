/** The in-memory store the server tests run against: habit entries listed per
    habit name (the user ID is accepted and ignored), API key hashes mapped to user
    IDs, and one refresh token per user. */
module MemStore {
  import opened Wrappers
  import opened Habits

  /** An OAuth2 token as the store holds it, passed through unchanged. */
  datatype Token = Token(AccessToken: string, RefreshToken: string, Expiry: int)

  predicate NoDuplicates(s: seq<string>) {
    forall i, j :: 0 <= i < j < |s| ==> s[i] != s[j]
  }

  /** Go's `range` over a map's keys, in whatever order it visits them. */
  method KeysInSomeOrder<V>(m: map<string, V>) returns (out: seq<string>)
    ensures NoDuplicates(out) && |out| == |m.Keys|
    ensures forall k :: k in out <==> k in m
  {
    out := [];
    var rest := m.Keys;
    while rest != {}
      invariant rest <= m.Keys
      invariant forall k :: k in out <==> k in m && k !in rest
      invariant NoDuplicates(out)
      invariant |out| + |rest| == |m.Keys|
      decreases |rest|
    {
      var k :| k in rest;
      out := out + [k];
      rest := rest - {k};
    }
  }

  class MemStore {
    var habits: map<string, seq<Habit>>
    var apiKeys: map<string, string>
    var refreshTokens: map<string, Token>

    constructor ()
      ensures habits == map[] && apiKeys == map[] && refreshTokens == map[]
    {
      habits := map[];
      apiKeys := map[];
      refreshTokens := map[];
    }

    /** The entries kept under `name`; Go's nil slice for an unknown name. */
    function Entries(name: string): seq<Habit>
      reads this
    {
      if name in habits then habits[name] else []
    }

    method PutHabit(userID: string, h: Habit)
      modifies this
      ensures habits == old(habits)[h.Name := old(Entries(h.Name)) + [h]]
      ensures apiKeys == old(apiKeys) && refreshTokens == old(refreshTokens)
    {
      habits := habits[h.Name := Entries(h.Name) + [h]];
    }

    method ListHabitNames(userID: string) returns (out: seq<string>)
      ensures NoDuplicates(out) && |out| == |habits.Keys|
      ensures forall n :: n in out <==> n in habits
    {
      out := KeysInSomeOrder(habits);
    }

    /** A copy of the entries under `name`, in the order they were put. */
    method GetHabit(userID: string, name: string) returns (out: seq<Habit>)
      ensures out == Entries(name)
      ensures name !in habits ==> out == []
    {
      out := [] + Entries(name);
    }

    method DeleteHabit(userID: string, name: string)
      modifies this
      ensures habits == old(habits) - {name}
      ensures apiKeys == old(apiKeys) && refreshTokens == old(refreshTokens)
    {
      habits := habits - {name};
    }

    method PutAPIKey(keyHash: string, userID: string)
      modifies this
      ensures apiKeys == old(apiKeys)[keyHash := userID]
      ensures habits == old(habits) && refreshTokens == old(refreshTokens)
    {
      apiKeys := apiKeys[keyHash := userID];
    }

    /** The owner of `keyHash` and whether there is one; "" when there is not. */
    method GetAPIKey(keyHash: string) returns (userID: string, found: bool)
      ensures found <==> keyHash in apiKeys
      ensures userID == if found then apiKeys[keyHash] else ""
    {
      if keyHash in apiKeys {
        userID, found := apiKeys[keyHash], true;
      } else {
        userID, found := "", false;
      }
    }

    /** Every hash mapped to `userID`, in map order. */
    method ListAPIKeyHashes(userID: string) returns (hashes: seq<string>)
      ensures NoDuplicates(hashes)
      ensures forall h :: h in hashes <==> h in apiKeys && apiKeys[h] == userID
    {
      var all := KeysInSomeOrder(apiKeys);
      hashes := [];
      var i := 0;
      while i < |all|
        invariant 0 <= i <= |all|
        invariant forall h :: h in hashes <==> h in all[..i] && apiKeys[h] == userID
        invariant NoDuplicates(hashes)
      {
        assert all[..i + 1] == all[..i] + [all[i]];
        if apiKeys[all[i]] == userID {
          assert all[i] !in all[..i];
          hashes := hashes + [all[i]];
        }
        i := i + 1;
      }
      assert all[..i] == all;
    }

    method DeleteAPIKey(keyHash: string)
      modifies this
      ensures apiKeys == old(apiKeys) - {keyHash}
      ensures habits == old(habits) && refreshTokens == old(refreshTokens)
    {
      apiKeys := apiKeys - {keyHash};
    }

    method PutRefreshToken(userID: string, token: Token)
      modifies this
      ensures refreshTokens == old(refreshTokens)[userID := token]
      ensures habits == old(habits) && apiKeys == old(apiKeys)
    {
      refreshTokens := refreshTokens[userID := token];
    }

    /** The user's token and whether there is one; `None` stands for Go's nil. */
    method GetRefreshToken(userID: string) returns (token: Option<Token>, found: bool)
      ensures found <==> userID in refreshTokens
      ensures token == if found then Some(refreshTokens[userID]) else None
    {
      if userID in refreshTokens {
        token, found := Some(refreshTokens[userID]), true;
      } else {
        token, found := None, false;
      }
    }

    method DeleteRefreshToken(userID: string)
      modifies this
      ensures refreshTokens == old(refreshTokens) - {userID}
      ensures habits == old(habits) && apiKeys == old(apiKeys)
    {
      refreshTokens := refreshTokens - {userID};
    }
  }

  /** Habits written under one user ID are read back under any other: the store
      keys them by habit name alone. */
  method UserIDIgnored(h: Habit, writer: string, reader: string) returns (seen: seq<Habit>, names: seq<string>)
    ensures seen == [h]
    ensures names == [h.Name]
  {
    var m := new MemStore();
    m.PutHabit(writer, h);
    seen := m.GetHabit(reader, h.Name);
    names := m.ListHabitNames(reader);
    assert m.habits.Keys == {h.Name};
    assert |names| == 1 && names[0] in names;
  }

  /** Entries of one name come back in the order they were put, and a delete
      empties that name only. */
  method PutOrderAndDelete(a: Habit, b: Habit, other: Habit) returns (before: seq<Habit>, after: seq<Habit>, kept: seq<Habit>)
    requires a.Name == b.Name && other.Name != a.Name
    ensures before == [a, b]
    ensures after == [] && kept == [other]
  {
    var m := new MemStore();
    m.PutHabit("u", a);
    m.PutHabit("u", other);
    m.PutHabit("u", b);
    before := m.GetHabit("u", a.Name);
    m.DeleteHabit("u", a.Name);
    after := m.GetHabit("u", a.Name);
    kept := m.GetHabit("u", other.Name);
  }

  /** A refresh token put for a user is found with its value; after a delete it is
      not found. */
  method RefreshTokenRoundTrip(userID: string, t: Token) returns (got: Option<Token>, foundBefore: bool, foundAfter: bool)
    ensures got == Some(t) && foundBefore && !foundAfter
  {
    var m := new MemStore();
    m.PutRefreshToken(userID, t);
    got, foundBefore := m.GetRefreshToken(userID);
    m.DeleteRefreshToken(userID);
    var _, f := m.GetRefreshToken(userID);
    foundAfter := f;
  }

  /** The API key hashes listed for a user are exactly the keys put for that user and
      not deleted since. */
  method APIKeyListing(k1: string, k2: string, k3: string, u: string, v: string) returns (listed: seq<string>)
    requires k1 != k2 && k1 != k3 && k2 != k3 && u != v
    ensures forall h :: h in listed <==> h == k1
  {
    var m := new MemStore();
    m.PutAPIKey(k1, u);
    m.PutAPIKey(k2, u);
    m.PutAPIKey(k3, v);
    m.DeleteAPIKey(k2);
    listed := m.ListAPIKeyHashes(u);
  }
}
