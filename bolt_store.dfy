/** The bbolt-backed store: one `habits` bucket per user under the `users` root,
    holding each entry under `name/time`, and an `api_keys` bucket mapping key
    hashes to user IDs. Buckets are the sorted entry sequences of module Bucket. */
module BoltStore {
  import opened Wrappers
  import opened Strings
  import opened Habits
  import opened Bucket

  /** The key `PutHabit` writes: the name, a slash, the entry's time. The time is
      rendered in decimal, standing for the RFC 3339 text of the source: both are
      injective renderings of a second count and neither contains a '/'. */
  function HabitKey(h: Habit): string {
    h.Name + "/" + IntToString(h.TimeStamp)
  }

  /** A key reads back as its entry's name, the separator and its second. */
  lemma HabitKeyReadsBack(h: Habit)
    ensures var k := HabitKey(h);
      && |k| > |h.Name| && k[..|h.Name|] == h.Name && k[|h.Name|] == '/'
      && ParseInt(k[|h.Name| + 1..]) == Some(h.TimeStamp)
  {
    KeyReadsBack(h.Name, h.TimeStamp);
  }

  /** What `ListHabitNames` takes from a key: the text before its first '/'. */
  function ListedName(k: string): string {
    BeforeFirst(k, '/')
  }

  /** The names a habits bucket lists, gathered in `ForEach` order. */
  function NameSet<V>(b: seq<Entry<V>>): set<string> {
    if |b| == 0 then {} else NameSet(b[..|b| - 1]) + {ListedName(b[|b| - 1].key)}
  }

  /** A name is listed exactly when some key of the bucket yields it. */
  lemma {:induction false} NameSetMember<V>(b: seq<Entry<V>>, x: string)
    ensures x in NameSet(b) <==> exists k :: k in KeySet(b) && ListedName(k) == x
  {
    if |b| > 0 {
      var a := b[..|b| - 1];
      NameSetMember(a, x);
      KeySetSnoc(a, b[|b| - 1]);
      assert b == a + [b[|b| - 1]];
    }
  }

  predicate NoDuplicates(s: seq<string>) {
    forall i, j :: 0 <= i < j < |s| ==> s[i] != s[j]
  }

  /** A key names its own habit: the listed name is the habit's name up to its first
      '/', which is the whole name when it has none. */
  lemma ListedNameOfKey(h: Habit)
    ensures ListedName(HabitKey(h)) == BeforeFirst(h.Name, '/')
    ensures '/' !in h.Name ==> ListedName(HabitKey(h)) == h.Name
  {
    BeforeFirstConcat(h.Name, "/" + IntToString(h.TimeStamp), '/');
    assert h.Name + "/" + IntToString(h.TimeStamp) == h.Name + ("/" + IntToString(h.TimeStamp));
  }

  /** Two entries share a key exactly when they share name and second. */
  lemma HabitKeyInjective(h1: Habit, h2: Habit)
    ensures HabitKey(h1) == HabitKey(h2) <==> (h1.Name == h2.Name && h1.TimeStamp == h2.TimeStamp)
  {
    if HabitKey(h1) == HabitKey(h2) {
      var k := HabitKey(h1);
      BeforeLastOfJoin(h1.Name, '/', IntToString(h1.TimeStamp));
      BeforeLastOfJoin(h2.Name, '/', IntToString(h2.TimeStamp));
      assert k == h1.Name + ['/'] + IntToString(h1.TimeStamp);
      assert k == h2.Name + ['/'] + IntToString(h2.TimeStamp);
      assert IntToString(h1.TimeStamp) == k[|h1.Name| + 1..] == IntToString(h2.TimeStamp);
      IntToStringInjective(h1.TimeStamp, h2.TimeStamp);
    }
  }

  /** Putting an entry adds its listed name and no other. */
  lemma NameSetPut(b: seq<Entry<Habit>>, h: Habit)
    requires Sorted(b)
    ensures NameSet(Put(b, HabitKey(h), h)) == NameSet(b) + {BeforeFirst(h.Name, '/')}
  {
    ListedNameOfKey(h);
    var r := Put(b, HabitKey(h), h);
    forall x ensures x in NameSet(r) <==> x in NameSet(b) + {BeforeFirst(h.Name, '/')} {
      NameSetMember(r, x);
      NameSetMember(b, x);
    }
  }

  /** Two puts of the same key keep only the later value. */
  lemma {:induction false} PutPut<V>(b: seq<Entry<V>>, k: string, v1: V, v2: V)
    requires Sorted(b)
    ensures Put(Put(b, k, v1), k, v2) == Put(b, k, v2)
    decreases |b|
  {
    if |b| > 0 && b[0].key != k && !Less(k, b[0].key) {
      PutPut(b[1..], k, v1, v2);
    }
  }

  /** A second entry for the same habit in the same second overwrites the first. */
  lemma SameSecondOverwrites(b: seq<Entry<Habit>>, h1: Habit, h2: Habit)
    requires Sorted(b) && h1.Name == h2.Name && h1.TimeStamp == h2.TimeStamp
    ensures Put(Put(b, HabitKey(h1), h1), HabitKey(h2), h2) == Put(b, HabitKey(h2), h2)
  {
    PutPut(b, HabitKey(h1), h1, h2);
  }

  /** Entries of one habit in different seconds are both kept. */
  lemma DifferentSecondsKept(b: seq<Entry<Habit>>, h1: Habit, h2: Habit)
    requires Sorted(b) && h1.TimeStamp != h2.TimeStamp
    ensures Get(Put(Put(b, HabitKey(h1), h1), HabitKey(h2), h2), HabitKey(h1)) == Some(h1)
    ensures Get(Put(Put(b, HabitKey(h1), h1), HabitKey(h2), h2), HabitKey(h2)) == Some(h2)
  {
    HabitKeyInjective(h1, h2);
  }

  /** An entry just put is among those `GetHabit` returns for its name. */
  lemma PutThenGetHabit(b: seq<Entry<Habit>>, h: Habit)
    requires Sorted(b)
    ensures h in ValuesWithPrefix(Put(b, HabitKey(h), h), h.Name + "/")
  {
    var r := Put(b, HabitKey(h), h);
    var i :| 0 <= i < |r| && r[i] == Entry(HabitKey(h), h);
    assert HasPrefix(HabitKey(h), h.Name + "/") by {
      assert HabitKey(h) == (h.Name + "/") + IntToString(h.TimeStamp);
    }
    ValuesWithPrefixMembers(r, h.Name + "/", h);
  }

  /** The prefix scan also returns the entries of a habit whose name extends `name`
      past a '/': "a/b" is found by `GetHabit("a")` and listed as "a". */
  lemma SlashInNameSharesPrefix(name: string, rest: string, note: string, t: int)
    ensures HasPrefix(HabitKey(Habit(name + "/" + rest, note, t)), name + "/")
    ensures '/' !in name ==> ListedName(HabitKey(Habit(name + "/" + rest, note, t))) == name
  {
    var h := Habit(name + "/" + rest, note, t);
    assert HabitKey(h) == (name + "/") + (rest + "/" + IntToString(t));
    ListedNameOfKey(h);
    if '/' !in name {
      BeforeFirstOfJoin(name, '/', rest);
      assert name + "/" + rest == name + ['/'] + rest;
    }
  }

  /** After the delete loop, `GetHabit` for the same name finds nothing, and every
      other key keeps its value. */
  lemma DeleteThenGetHabit(b: seq<Entry<Habit>>, name: string, k: string)
    requires Sorted(b)
    ensures ValuesWithPrefix(WithoutPrefix(b, name + "/"), name + "/") == []
    ensures !HasPrefix(k, name + "/") ==> Get(WithoutPrefix(b, name + "/"), k) == Get(b, k)
  {
    WithoutPrefixEntries(b, name + "/");
    var w := WithoutPrefix(b, name + "/");
    forall j | 0 <= j < |w| ensures !HasPrefix(w[j].key, name + "/") {
      assert w[j] in w;
    }
    NoPrefixFilters(w, name + "/");
    WithoutPrefixGet(b, name + "/", k);
  }

  /** `NameSetPut` for a name without '/', handing back the new bucket. */
  lemma PutListsName(b: seq<Entry<Habit>>, h: Habit) returns (r: seq<Entry<Habit>>)
    requires Sorted(b) && '/' !in h.Name
    ensures r == Put(b, HabitKey(h), h)
    ensures Sorted(r) && NameSet(r) == NameSet(b) + {h.Name}
  {
    NoSlashBeforeFirst(h.Name);
    NameSetPut(b, h);
    r := Put(b, HabitKey(h), h);
  }

  /** Three puts add exactly their three names to a bucket's listing, as many as
      are distinct. */
  lemma NamesAfterThreePuts(b: seq<Entry<Habit>>, h1: Habit, h2: Habit, h3: Habit) returns (r: seq<Entry<Habit>>)
    requires Sorted(b) && '/' !in h1.Name && '/' !in h2.Name && '/' !in h3.Name
    ensures r == Put(Put(Put(b, HabitKey(h1), h1), HabitKey(h2), h2), HabitKey(h3), h3)
    ensures NameSet(r) == NameSet(b) + {h1.Name, h2.Name, h3.Name}
  {
    var b1 := PutListsName(b, h1);
    var b2 := PutListsName(b1, h2);
    r := PutListsName(b2, h3);
  }

  lemma NoSlashBeforeFirst(n: string)
    requires '/' !in n
    ensures BeforeFirst(n, '/') == n
  {
  }

  /** The bolt store test's listing: a habit logged twice (guitar) and another once
      (exercise) list as exactly the two names. */
  lemma RepeatedNameListedOnce(g1: Habit, g2: Habit, e: Habit)
    requires g1.Name == g2.Name && '/' !in g1.Name && '/' !in e.Name
    ensures NameSet(Put(Put(Put([], HabitKey(g1), g1), HabitKey(g2), g2), HabitKey(e), e))
            == {g1.Name, e.Name}
  {
    var empty: seq<Entry<Habit>> := [];
    var r := NamesAfterThreePuts(empty, g1, g2, e);
    assert NameSet(empty) == {};
  }

  /** The `ForEach` over a habits bucket into the `uniq` set, then the range loop
      over `uniq` into `out` (Go's map order, chosen here by `:|`). */
  method CollectNames<V>(b: seq<Entry<V>>) returns (out: seq<string>)
    ensures NoDuplicates(out) && |out| == |NameSet(b)|
    ensures forall n :: n in out <==> n in NameSet(b)
  {
    var uniq: set<string> := {};
    var i := 0;
    while i < |b|
      invariant 0 <= i <= |b|
      invariant uniq == NameSet(b[..i])
    {
      assert b[..i + 1][..i] == b[..i];
      uniq := uniq + {ListedName(b[i].key)};
      i := i + 1;
    }
    assert b[..i] == b;
    out := [];
    var rest := uniq;
    while rest != {}
      invariant rest <= uniq
      invariant forall n :: n in out <==> n in uniq && n !in rest
      invariant |out| + |rest| == |uniq|
      invariant NoDuplicates(out)
      decreases |rest|
    {
      var n :| n in rest;
      out := out + [n];
      rest := rest - {n};
    }
  }

  /** The cursor loop of `GetHabit`: seek to `p`, then take values while keys
      start with `p`. */
  method CollectWithPrefix<V>(b: seq<Entry<V>>, p: string) returns (out: seq<V>)
    requires Sorted(b)
    ensures out == ValuesWithPrefix(b, p)
  {
    var s := Seek(b, p);
    NoneBeforeSeek(b, p);
    var i := s;
    out := [];
    while i < |b| && HasPrefix(b[i].key, p)
      invariant s <= i <= |b|
      invariant out == ValuesWithPrefix(b[..i], p)
    {
      ScanOneMore(b, p, i);
      out := out + [b[i].value];
      i := i + 1;
    }
    BlockEndValues(b, p, i);
  }

  /** A key with the prefix adds its value to what the scan has gathered. */
  lemma ScanOneMore<V>(b: seq<Entry<V>>, p: string, i: nat)
    requires i < |b| && HasPrefix(b[i].key, p)
    ensures ValuesWithPrefix(b[..i + 1], p) == ValuesWithPrefix(b[..i], p) + [b[i].value]
  {
    assert b[..i + 1][..i] == b[..i];
  }

  /** Once the scan stops at the end of the block, it has seen every match. */
  lemma BlockEndValues<V>(b: seq<Entry<V>>, p: string, i: nat)
    requires Sorted(b) && Seek(b, p) <= i <= |b|
    requires i < |b| ==> !HasPrefix(b[i].key, p)
    ensures ValuesWithPrefix(b[..i], p) == ValuesWithPrefix(b, p)
  {
    var front, back := b[..i], b[i..];
    assert front + back == b;
    calc {
      ValuesWithPrefix(b, p);
      ValuesWithPrefix(front + back, p);
      { ValuesWithPrefixAppend(front, back, p); }
      ValuesWithPrefix(front, p) + ValuesWithPrefix(back, p);
      { NoneAfterBlock(b, p, i); }
      ValuesWithPrefix(front, p) + [];
      ValuesWithPrefix(front, p);
    }
  }

  /** The cursor loop of `DeleteHabit`: seek to `p`, then delete while the key under
      the cursor starts with `p`; after a delete the cursor rests on the next key. */
  method RemovePrefix(b: seq<Entry<Habit>>, p: string) returns (r: seq<Entry<Habit>>)
    requires Sorted(b)
    ensures r == WithoutPrefix(b, p)
  {
    var s := Seek(b, p);
    r := b;
    ghost var e := s;
    while s < |r| && HasPrefix(r[s].key, p)
      invariant s <= e <= |b|
      invariant r == b[..s] + b[e..]
      invariant forall j :: s <= j < e ==> HasPrefix(b[j].key, p)
      decreases |r|
    {
      DeleteUnderCursor(b, r, s, e);
      r := r[..s] + r[s + 1..];
      e := e + 1;
    }
    if e < |b| {
      assert r[s] == b[e];
    }
    RemovedBlock(b, p, s, e);
  }

  /** Deleting the key under the cursor, which is the first key past the removed
      block, widens the block by one. */
  lemma DeleteUnderCursor(b: seq<Entry<Habit>>, r: seq<Entry<Habit>>, s: nat, e: nat)
    requires s <= e <= |b| && r == b[..s] + b[e..] && s < |r|
    ensures e < |b| && r[s] == b[e]
    ensures r[..s] + r[s + 1..] == b[..s] + b[e + 1..]
  {
    assert r[..s] == b[..s];
    assert r[s + 1..] == b[e + 1..];
  }

  /** Cutting out the block of keys that start with `p` is filtering them out. */
  lemma RemovedBlock(b: seq<Entry<Habit>>, p: string, s: nat, e: nat)
    requires Sorted(b) && s == Seek(b, p) && s <= e <= |b|
    requires forall j :: s <= j < e ==> HasPrefix(b[j].key, p)
    requires e < |b| ==> !HasPrefix(b[e].key, p)
    ensures b[..s] + b[e..] == WithoutPrefix(b, p)
  {
    NoneBeforeSeek(b, p);
    InBlock(b, p, s, e);
    NoneAfterBlock(b, p, e);
    FilterAroundBlock(b[..s], b[s..e], b[e..], p);
    SplitThree(b, s, e);
  }

  lemma InBlock(b: seq<Entry<Habit>>, p: string, s: nat, e: nat)
    requires s <= e <= |b|
    requires forall j :: s <= j < e ==> HasPrefix(b[j].key, p)
    ensures WithoutPrefix(b[s..e], p) == []
  {
    forall j | 0 <= j < |b[s..e]| ensures HasPrefix(b[s..e][j].key, p) {
      assert b[s..e][j] == b[s + j];
    }
    AllPrefixFilters(b[s..e], p);
  }

  lemma FilterAroundBlock(x: seq<Entry<Habit>>, y: seq<Entry<Habit>>, z: seq<Entry<Habit>>, p: string)
    requires WithoutPrefix(x, p) == x && WithoutPrefix(y, p) == [] && WithoutPrefix(z, p) == z
    ensures WithoutPrefix(x + y + z, p) == x + z
  {
    WithoutPrefixAppend(x + y, z, p);
    WithoutPrefixAppend(x, y, p);
    assert x + [] == x;
  }

  lemma SplitThree<T>(b: seq<T>, s: nat, e: nat)
    requires s <= e <= |b|
    ensures b[..s] + b[s..e] + b[e..] == b
  {
    assert b[..s] + b[s..e] == b[..e];
  }

  /** The `ForEach` of `ListAPIKeyHashes`: every hash whose stored user ID is `userID`. */
  method CollectHashesOf(b: seq<Entry<string>>, userID: string) returns (hashes: seq<string>)
    ensures hashes == KeysWithValue(b, userID)
  {
    hashes := [];
    var i := 0;
    while i < |b|
      invariant 0 <= i <= |b|
      invariant hashes == KeysWithValue(b[..i], userID)
    {
      assert b[..i + 1][..i] == b[..i];
      if b[i].value == userID {
        hashes := hashes + [b[i].key];
      }
      i := i + 1;
    }
    assert b[..i] == b;
  }

  /** What the `users/api_keys` bucket holds under a key: the user ID a key hash
      belongs to, or a nested `habits` bucket. User buckets and the API-key bucket
      share the `users` root, so user ID "api_keys" names the API-key bucket itself,
      and making sure that user has a habits bucket nests one inside it. */
  datatype Slot = Owner(userID: string) | NestedBucket

  const APIKeysBucket := "api_keys"
  const HabitsBucket := "habits"

  /** `string(v)` for a value `ForEach` yields: a nested bucket's value is nil,
      which converts to "". */
  function StoredUserID(s: Slot): string {
    if s.Owner? then s.userID else ""
  }

  /** The pairs `ForEach` hands to the callback of `ListAPIKeyHashes`, each value
      converted by `StoredUserID`. */
  function ForEachView(b: seq<Entry<Slot>>): seq<Entry<string>> {
    if |b| == 0 then [] else [Entry(b[0].key, StoredUserID(b[0].value))] + ForEachView(b[1..])
  }

  lemma {:induction false} ForEachViewKeys(b: seq<Entry<Slot>>)
    ensures |ForEachView(b)| == |b|
    ensures forall i :: 0 <= i < |b| ==> ForEachView(b)[i].key == b[i].key
  {
    if |b| > 0 {
      ForEachViewKeys(b[1..]);
      forall i | 0 < i < |b| ensures ForEachView(b)[i].key == b[i].key {
        assert ForEachView(b)[i] == ForEachView(b[1..])[i - 1];
      }
    }
  }

  /** The view keeps the key order and converts what `Get` finds. */
  lemma {:induction false} ForEachViewGet(b: seq<Entry<Slot>>, k: string)
    ensures Sorted(b) ==> Sorted(ForEachView(b))
    ensures Get(ForEachView(b), k) == if Get(b, k).Some? then Some(StoredUserID(Get(b, k).value)) else None
  {
    ForEachViewKeys(b);
    if |b| > 0 {
      ForEachViewGet(b[1..], k);
      assert ForEachView(b)[1..] == ForEachView(b[1..]);
    }
  }

  /** A key is listed for `userID` when it holds that user ID, or when it holds a
      nested bucket and the user ID is "". */
  lemma ListedHash(b: seq<Entry<Slot>>, userID: string, k: string)
    requires Sorted(b)
    ensures Sorted(ForEachView(b))
    ensures k in KeysWithValue(ForEachView(b), userID) <==>
              || Get(b, k) == Some(Owner(userID))
              || (userID == "" && Get(b, k) == Some(NestedBucket))
  {
    ForEachViewGet(b, k);
    KeysWithValueGet(ForEachView(b), userID, k);
  }

  /** The bbolt errors the store can meet: an empty bucket name, an empty key, a
      key longer than bbolt allows, and a key that holds a value where a bucket is
      wanted or a bucket where a value is wanted. */
  datatype StoreError = BucketNameRequired | KeyRequired | KeyTooLarge | IncompatibleValue

  /** bbolt's `MaxKeySize`, in bytes. */
  const MaxKeySize: nat := 32768

  /** The key checks bbolt's `Put` makes before it looks at the bucket: an empty
      key, then one over `MaxKeySize` bytes. */
  function KeyError(k: string): Option<StoreError> {
    if k == "" then Some(KeyRequired) else if |k| > MaxKeySize then Some(KeyTooLarge) else None
  }

  /** The bucket map after a user's bucket has been made sure of. */
  function WithBucket(habits: map<string, seq<Entry<Habit>>>, userID: string): map<string, seq<Entry<Habit>>> {
    if userID in habits then habits else habits[userID := []]
  }

  class Store {
    /** The `users/<id>/habits` bucket of every user that has one. */
    var habits: map<string, seq<Entry<Habit>>>
    /** The `users/api_keys` bucket. */
    var apiKeys: seq<Entry<Slot>>

    /** Buckets are sorted; the only nested bucket in the API-key bucket is the
        `habits` bucket of user "api_keys", present exactly when that user has one. */
    ghost predicate Valid()
      reads this
    {
      && (forall u :: u in habits ==> Sorted(habits[u]))
      && Sorted(apiKeys)
      && (forall k :: Get(apiKeys, k) == Some(NestedBucket) ==> k == HabitsBucket)
      && (APIKeysBucket in habits <==> Get(apiKeys, HabitsBucket) == Some(NestedBucket))
    }

    /** A user's habits bucket, empty when it has not been created yet. */
    function UserBucket(userID: string): seq<Entry<Habit>>
      reads this
    {
      if userID in habits then habits[userID] else []
    }

    /** The error `ensureUserHabitsBucketExists` meets: bbolt refuses an empty
        bucket name, and for user "api_keys" a hash stored under the key "habits"
        is a value where the habits bucket should go. */
    function EnsureError(userID: string): Option<StoreError>
      reads this
    {
      if userID == "" then Some(BucketNameRequired)
      else if userID == APIKeysBucket && Get(apiKeys, HabitsBucket).Some? && Get(apiKeys, HabitsBucket).value.Owner?
      then Some(IncompatibleValue)
      else None
    }

    /** The API-key bucket after a successful `ensureUserHabitsBucketExists`: it
        gains the nested `habits` bucket when the user is "api_keys". */
    function EnsuredAPIKeys(userID: string): seq<Entry<Slot>>
      requires Valid()
      reads this
    {
      if userID == APIKeysBucket && userID !in habits then Put(apiKeys, HabitsBucket, NestedBucket) else apiKeys
    }

    /** `Open` on a fresh database: only the `users` root, holding no user yet. */
    constructor ()
      ensures Valid() && habits == map[] && apiKeys == []
    {
      habits := map[];
      apiKeys := [];
    }

    /** `ensureUserHabitsBucketExists`: create the user's bucket when missing. On
        an error the transaction is rolled back. */
    method EnsureUserHabitsBucket(userID: string) returns (err: Option<StoreError>)
      requires Valid()
      modifies this
      ensures Valid()
      ensures err == old(EnsureError(userID))
      ensures err.Some? ==> habits == old(habits) && apiKeys == old(apiKeys)
      ensures err.None? ==> habits == WithBucket(old(habits), userID) && apiKeys == old(EnsuredAPIKeys(userID))
    {
      err := EnsureError(userID);
      if err.Some? {
        return;
      }
      if userID !in habits {
        if userID == APIKeysBucket {
          apiKeys := Put(apiKeys, HabitsBucket, NestedBucket);
        }
        habits := habits[userID := []];
      }
    }

    /** `PutHabit`: the user's bucket is made sure of in one transaction and the
        entry written in a second, so a key bbolt refuses as too long leaves the
        new bucket behind with nothing in it. */
    method PutHabit(userID: string, h: Habit) returns (err: Option<StoreError>)
      requires Valid()
      modifies this
      ensures Valid()
      ensures old(EnsureError(userID)).Some? ==>
                err == old(EnsureError(userID)) && habits == old(habits) && apiKeys == old(apiKeys)
      ensures old(EnsureError(userID)).None? ==>
                && err == (if |HabitKey(h)| > MaxKeySize then Some(KeyTooLarge) else None)
                && apiKeys == old(EnsuredAPIKeys(userID))
      ensures err == Some(KeyTooLarge) ==> habits == WithBucket(old(habits), userID)
      ensures err.None? ==> habits == old(habits)[userID := Put(old(UserBucket(userID)), HabitKey(h), h)]
    {
      err := EnsureUserHabitsBucket(userID);
      if err.Some? {
        return;
      }
      err := KeyError(HabitKey(h));
      if err.Some? {
        return;
      }
      habits := habits[userID := Put(habits[userID], HabitKey(h), h)];
    }

    method ListHabitNames(userID: string) returns (names: seq<string>, err: Option<StoreError>)
      requires Valid()
      modifies this
      ensures Valid()
      ensures err == old(EnsureError(userID))
      ensures err.Some? ==> names == [] && habits == old(habits) && apiKeys == old(apiKeys)
      ensures err.None? ==> habits == WithBucket(old(habits), userID) && apiKeys == old(EnsuredAPIKeys(userID))
      ensures NoDuplicates(names)
      ensures err.None? ==> |names| == |NameSet(old(UserBucket(userID)))|
      ensures err.None? ==> forall n :: n in names <==> n in NameSet(old(UserBucket(userID)))
    {
      names := [];
      err := EnsureUserHabitsBucket(userID);
      if err.Some? {
        return;
      }
      names := CollectNames(habits[userID]);
    }

    method GetHabit(userID: string, name: string) returns (out: seq<Habit>, err: Option<StoreError>)
      requires Valid()
      modifies this
      ensures Valid()
      ensures err == old(EnsureError(userID))
      ensures err.Some? ==> out == [] && habits == old(habits) && apiKeys == old(apiKeys)
      ensures err.None? ==> habits == WithBucket(old(habits), userID) && apiKeys == old(EnsuredAPIKeys(userID))
      ensures err.None? ==> out == ValuesWithPrefix(old(UserBucket(userID)), name + "/")
    {
      out := [];
      err := EnsureUserHabitsBucket(userID);
      if err.Some? {
        return;
      }
      out := CollectWithPrefix(habits[userID], name + "/");
    }

    method DeleteHabit(userID: string, name: string) returns (err: Option<StoreError>)
      requires Valid()
      modifies this
      ensures Valid()
      ensures err == old(EnsureError(userID))
      ensures err.Some? ==> habits == old(habits) && apiKeys == old(apiKeys)
      ensures err.None? ==> && habits == old(habits)[userID := WithoutPrefix(old(UserBucket(userID)), name + "/")]
                            && apiKeys == old(EnsuredAPIKeys(userID))
    {
      err := EnsureUserHabitsBucket(userID);
      if err.Some? {
        return;
      }
      WithoutPrefixSorted(habits[userID], name + "/");
      var r := RemovePrefix(habits[userID], name + "/");
      habits := habits[userID := r];
    }

    /** bbolt's `Put` refuses an empty key, a key over `MaxKeySize` bytes, and a
        key that holds a nested bucket. */
    method PutAPIKey(keyHash: string, userID: string) returns (err: Option<StoreError>)
      requires Valid()
      modifies this
      ensures Valid()
      ensures err == if keyHash == "" then Some(KeyRequired)
                     else if |keyHash| > MaxKeySize then Some(KeyTooLarge)
                     else if old(Get(apiKeys, keyHash)) == Some(NestedBucket) then Some(IncompatibleValue)
                     else None
      ensures err.Some? ==> apiKeys == old(apiKeys)
      ensures err.None? ==> apiKeys == Put(old(apiKeys), keyHash, Owner(userID))
      ensures habits == old(habits)
    {
      err := KeyError(keyHash);
      if err.Some? {
        return;
      }
      if Get(apiKeys, keyHash) == Some(NestedBucket) {
        return Some(IncompatibleValue);
      }
      apiKeys := Put(apiKeys, keyHash, Owner(userID));
      err := None;
    }

    /** The owner of `keyHash`, and whether there is one; "" when there is not.
        bbolt's `Get` gives nil for a key that holds a nested bucket. */
    method GetAPIKey(keyHash: string) returns (userID: string, found: bool)
      requires Valid()
      ensures found <==> Get(apiKeys, keyHash).Some? && Get(apiKeys, keyHash).value.Owner?
      ensures found ==> Get(apiKeys, keyHash) == Some(Owner(userID))
      ensures !found ==> userID == ""
    {
      var v := Get(apiKeys, keyHash);
      if v.Some? && v.value.Owner? {
        userID, found := v.value.userID, true;
      } else {
        userID, found := "", false;
      }
    }

    /** Every hash whose stored user ID converts to `userID`: the caller's own
        hashes, and for the user ID "" also the nested `habits` bucket when user
        "api_keys" has one. */
    method ListAPIKeyHashes(userID: string) returns (hashes: seq<string>)
      requires Valid()
      ensures hashes == KeysWithValue(ForEachView(apiKeys), userID)
      ensures forall k :: k in hashes <==> || Get(apiKeys, k) == Some(Owner(userID))
                                           || (userID == "" && k == HabitsBucket && APIKeysBucket in habits)
    {
      ForEachViewGet(apiKeys, "");
      hashes := CollectHashesOf(ForEachView(apiKeys), userID);
      forall k ensures k in hashes <==> || Get(apiKeys, k) == Some(Owner(userID))
                                        || (userID == "" && k == HabitsBucket && APIKeysBucket in habits)
      {
        ListedHash(apiKeys, userID, k);
      }
    }

    /** bbolt's `Delete` refuses a key that holds a nested bucket; a missing key is
        no error. */
    method DeleteAPIKey(keyHash: string) returns (err: Option<StoreError>)
      requires Valid()
      modifies this
      ensures Valid()
      ensures err == if old(Get(apiKeys, keyHash)) == Some(NestedBucket) then Some(IncompatibleValue) else None
      ensures err.Some? ==> apiKeys == old(apiKeys)
      ensures err.None? ==> apiKeys == Delete(old(apiKeys), keyHash)
      ensures habits == old(habits)
    {
      if Get(apiKeys, keyHash) == Some(NestedBucket) {
        return Some(IncompatibleValue);
      }
      apiKeys := Delete(apiKeys, keyHash);
      err := None;
    }
  }

  /** The API-key round trip of the bolt store tests: a stored hash is found with
      its owner, a hash never stored is not, and a deleted hash is gone. An empty
      hash, or one longer than bbolt's key limit, is refused and never stored. */
  method APIKeyRoundTrip(keyHash: string, other: string, userID: string)
    returns (owner: string, found: bool, otherOwner: string, otherFound: bool, foundAfter: bool)
    requires other != keyHash
    ensures found == (keyHash != "" && |keyHash| <= MaxKeySize)
    ensures owner == (if found then userID else "")
    ensures otherOwner == "" && !otherFound
    ensures !foundAfter
  {
    var store := new Store();
    var _ := store.PutAPIKey(keyHash, userID);
    owner, found := store.GetAPIKey(keyHash);
    otherOwner, otherFound := store.GetAPIKey(other);
    var _ := store.DeleteAPIKey(keyHash);
    var _, f := store.GetAPIKey(keyHash);
    foundAfter := f;
  }

  /** The bolt store test on a fresh database: a new user lists nothing, and the
      empty user ID is refused as a bucket name. */
  method FreshUserListsNothing(userID: string) returns (names: seq<string>, err: Option<StoreError>)
    ensures names == []
    ensures err == if userID == "" then Some(BucketNameRequired) else None
  {
    var store := new Store();
    names, err := store.ListHabitNames(userID);
    assert NameSet<Habit>([]) == {};
  }

  /** The bolt store isolation test: after alice logs guitar she lists exactly
      guitar, and bob still lists nothing. */
  method UserIsolation(h: Habit) returns (alice: seq<string>, bob: seq<string>)
    requires h.Name == "guitar" && 0 <= h.TimeStamp < 10000000000
    ensures alice == ["guitar"] && bob == []
  {
    var store := new Store();
    TenDigitSeconds(h.TimeStamp);
    var _ := store.PutHabit("alice", h);
    var _ := PutListsName([], h);
    var aliceErr, bobErr;
    alice, aliceErr := store.ListHabitNames("alice");
    assert NameSet<Habit>([]) == {};
    assert |alice| == 1 && alice[0] in alice;
    bob, bobErr := store.ListHabitNames("bob");
  }

  /** The shared root seen from user "api_keys": once that user has logged an
      entry, the API-key bucket holds its nested `habits` bucket, which
      `ListAPIKeyHashes` lists as a hash of user "" and `PutAPIKey` cannot
      overwrite. The bucket stays even when the entry's key is too long. */
  method APIKeysUserAliasing(h: Habit, owner: string)
    returns (putErr: Option<StoreError>, listed: seq<string>, keyErr: Option<StoreError>)
    ensures putErr == if |HabitKey(h)| > MaxKeySize then Some(KeyTooLarge) else None
    ensures listed == [HabitsBucket]
    ensures keyErr == Some(IncompatibleValue)
  {
    var store := new Store();
    putErr := store.PutHabit(APIKeysBucket, h);
    assert store.apiKeys == [Entry(HabitsBucket, NestedBucket)];
    listed := store.ListAPIKeyHashes("");
    assert ForEachView(store.apiKeys) == [Entry(HabitsBucket, "")];
    keyErr := store.PutAPIKey(HabitsBucket, owner);
  }

  /** The other way round: a hash stored under the key "habits" leaves no room for
      user "api_keys"'s habits bucket, so that user's writes fail. */
  method HabitsHashBlocksAPIKeysUser(owner: string, h: Habit)
    returns (keyErr: Option<StoreError>, putErr: Option<StoreError>)
    ensures keyErr == None
    ensures putErr == Some(IncompatibleValue)
  {
    var store := new Store();
    keyErr := store.PutAPIKey(HabitsBucket, owner);
    putErr := store.PutHabit(APIKeysBucket, h);
  }
}
