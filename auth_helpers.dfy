/** Small helpers of the authentication layer: shortening a key hash for display and
    building the session cookie. */
module AuthHelpers {
  import opened Strings

  /** Length kept by `TruncateHash` before the ellipsis. */
  const DisplayPrefix: nat := 16

  /** A hash of at most 16 characters is returned unchanged; a longer one is cut to
      its first 16 characters followed by "...". */
  function TruncateHash(hash: string): (r: string)
    ensures |hash| <= DisplayPrefix ==> r == hash
    ensures |hash| > DisplayPrefix ==> |r| == DisplayPrefix + 3 && r == hash[..DisplayPrefix] + "..."
  {
    if |hash| <= DisplayPrefix then hash else hash[..DisplayPrefix] + "..."
  }

  function Min(a: nat, b: nat): nat {
    if a <= b then a else b
  }

  /** Whatever the length, the result starts with the first min(16, |hash|)
      characters of the hash, and is never longer than 19. */
  lemma TruncateHashPrefix(hash: string)
    ensures HasPrefix(TruncateHash(hash), hash[..Min(DisplayPrefix, |hash|)])
    ensures |TruncateHash(hash)| <= DisplayPrefix + 3
  {
  }

  lemma TruncateHashIdempotent(hash: string)
    ensures TruncateHash(TruncateHash(hash)) == TruncateHash(hash)
  {
    if |hash| > DisplayPrefix {
      var r := hash[..DisplayPrefix] + "...";
      assert r[..DisplayPrefix] == hash[..DisplayPrefix];
    }
  }

  /** Two long hashes that differ within their first 16 characters stay apart. */
  lemma TruncateHashSeparates(h1: string, h2: string)
    requires |h1| > DisplayPrefix && |h2| > DisplayPrefix
    requires h1[..DisplayPrefix] != h2[..DisplayPrefix]
    ensures TruncateHash(h1) != TruncateHash(h2)
  {
    assert TruncateHash(h1)[..DisplayPrefix] == h1[..DisplayPrefix];
    assert TruncateHash(h2)[..DisplayPrefix] == h2[..DisplayPrefix];
  }

  datatype SameSite = SameSiteDefault | SameSiteLax | SameSiteStrict | SameSiteNone

  datatype Cookie = Cookie(Name: string, Value: string, Path: string, HttpOnly: bool,
                           Secure: bool, SameSite: SameSite, MaxAge: int)

  /** Nanoseconds in a second: Go's `time.Duration` counts nanoseconds. */
  const NanosPerSecond: int := 1000000000

  /** `int(d.Seconds())`: whole seconds of a duration, the fraction dropped toward
      zero as Go's float-to-int conversion does. */
  function WholeSeconds(nanos: int): (r: int)
    ensures nanos >= 0 ==> r >= 0 && r * NanosPerSecond <= nanos < (r + 1) * NanosPerSecond
    ensures nanos < 0 ==> r <= 0 && (r - 1) * NanosPerSecond < nanos <= r * NanosPerSecond
  {
    if nanos >= 0 then nanos / NanosPerSecond else -((-nanos) / NanosPerSecond)
  }

  /** The session cookie: the given name and value, path "/", HttpOnly, Secure,
      SameSite=Lax, and a lifetime of the duration's whole seconds. */
  function CreateSessionCookie(name: string, value: string, maxAgeNanos: int): (c: Cookie)
    ensures c.Name == name && c.Value == value && c.Path == "/"
    ensures c.HttpOnly && c.Secure && c.SameSite == SameSiteLax
    ensures maxAgeNanos >= 0 ==> c.MaxAge * NanosPerSecond <= maxAgeNanos < (c.MaxAge + 1) * NanosPerSecond
  {
    Cookie(name, value, "/", true, true, SameSiteLax, WholeSeconds(maxAgeNanos))
  }
}
