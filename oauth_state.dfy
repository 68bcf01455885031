/** The short-lived store of OAuth login state: each random `state` value handed to
    the identity provider maps to the PKCE verifier, the path to return to and an
    expiry time. An entry is usable once and only before it expires; a periodic
    sweep drops expired entries. The server keeps one such store (one per provider
    in the multi-provider revision); both revisions share this model. */
module OAuthState {

  /** Go's zero `time.Time` (0001-01-01 00:00:00 UTC) in Unix seconds. */
  const ZeroTime: int := -62135596800

  datatype AuthState = AuthState(Verifier: string, Return: string, ExpireAt: int)

  /** The zero value `authState{}` that an expired lookup returns. */
  const ZeroState := AuthState("", "", ZeroTime)

  /** `now.After(ExpireAt)`: strictly later than the expiry. */
  predicate Expired(v: AuthState, now: int) {
    now > v.ExpireAt
  }

  /** What `GetAndDelete(key)` reports at time `now`. */
  function Lookup(m: map<string, AuthState>, key: string, now: int): (r: (AuthState, bool))
    ensures r.1 <==> key in m && !Expired(m[key], now)
    ensures r.1 ==> r.0 == m[key]
    ensures !r.1 ==> r.0 == ZeroState
  {
    if key in m && !Expired(m[key], now) then (m[key], true) else (ZeroState, false)
  }

  /** The entries one janitor pass at time `now` keeps. */
  function Swept(m: map<string, AuthState>, now: int): (r: map<string, AuthState>)
    ensures forall k :: k in r <==> k in m && !Expired(m[k], now)
    ensures forall k :: k in r ==> r[k] == m[k]
  {
    map k | k in m && !Expired(m[k], now) :: m[k]
  }

  /** A sweep never changes what a lookup at the same time reports. */
  lemma SweepPreservesLookup(m: map<string, AuthState>, now: int, key: string)
    ensures Lookup(Swept(m, now), key, now) == Lookup(m, key, now)
  {
  }

  /** Sweeping twice at the same time is sweeping once. */
  lemma SweepIdempotent(m: map<string, AuthState>, now: int)
    ensures Swept(Swept(m, now), now) == Swept(m, now)
  {
  }

  /** A sweep at a later time keeps no more than one at an earlier time. */
  lemma SweepMonotone(m: map<string, AuthState>, t1: int, t2: int)
    requires t1 <= t2
    ensures Swept(m, t2).Keys <= Swept(m, t1).Keys
  {
  }

  /** Once looked up, a key is gone, so any later lookup fails: each state is
      single-use, whether or not it had expired. */
  lemma SingleUse(m: map<string, AuthState>, key: string, now: int, later: int)
    ensures !Lookup(m - {key}, key, later).1
  {
  }

  class StateStore {
    /** Kept as given; no operation reads it. */
    var ttl: int
    var m: map<string, AuthState>

    constructor (ttl: int)
      ensures this.ttl == ttl && m == map[]
    {
      this.ttl := ttl;
      m := map[];
    }

    method Put(key: string, v: AuthState)
      modifies this
      ensures m == old(m)[key := v] && ttl == old(ttl)
    {
      m := m[key := v];
    }

    /** Removes `key` whether or not it has expired and reports the stored state
        only when it has not. */
    method GetAndDelete(key: string, now: int) returns (v: AuthState, ok: bool)
      modifies this
      ensures m == old(m) - {key} && ttl == old(ttl)
      ensures (v, ok) == Lookup(old(m), key, now)
    {
      ok := key in m;
      if ok {
        v := m[key];
        m := m - {key};
      } else {
        v := ZeroState;
      }
      if ok && now > v.ExpireAt {
        v, ok := ZeroState, false;
      }
    }

    /** One pass of the janitor: delete every entry expired at `now`, visiting the
        keys in any order. */
    method Sweep(now: int)
      modifies this
      ensures m == Swept(old(m), now) && ttl == old(ttl)
    {
      var rest := m.Keys;
      while rest != {}
        invariant ttl == old(ttl) && rest <= old(m).Keys
        invariant m.Keys <= old(m).Keys
        invariant forall k :: k in m ==> m[k] == old(m)[k]
        invariant forall k :: k in old(m) ==> (k in m <==> k in rest || !Expired(old(m)[k], now))
        decreases |rest|
      {
        var k :| k in rest;
        if now > m[k].ExpireAt {
          m := m - {k};
        }
        rest := rest - {k};
      }
      assert m.Keys == Swept(old(m), now).Keys;
    }
  }

  /** A state put before its expiry is read back exactly once. */
  method PutThenGetOnce(key: string, v: AuthState, now: int) returns (first: AuthState, ok1: bool, ok2: bool)
    requires now <= v.ExpireAt
    ensures first == v && ok1 && !ok2
  {
    var s := new StateStore(300);
    s.Put(key, v);
    first, ok1 := s.GetAndDelete(key, now);
    var _, o := s.GetAndDelete(key, now);
    ok2 := o;
  }

  /** A second put under the same key replaces the first. */
  method PutOverwrites(key: string, v1: AuthState, v2: AuthState, now: int) returns (got: AuthState, ok: bool)
    requires now <= v2.ExpireAt
    ensures got == v2 && ok
  {
    var s := new StateStore(300);
    s.Put(key, v1);
    s.Put(key, v2);
    got, ok := s.GetAndDelete(key, now);
  }
}
