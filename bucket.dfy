/** A bbolt bucket as the store code sees it: key/value entries kept in ascending
    byte order of their keys, which is the order `ForEach` and a cursor visit them.
    `Put`, `Delete`, `Get` and `Seek` are the library's own operations and are
    modelled as functions; the loops the store writes over them live in BoltStore. */
module Bucket {
  import opened Wrappers
  import opened Strings

  datatype Entry<V> = Entry(key: string, value: V)

  /** Byte-wise lexicographic order, as `bytes.Compare` orders keys. */
  predicate Less(a: string, b: string)
    decreases |a|
  {
    |b| > 0 && (|a| == 0 || a[0] < b[0] || (a[0] == b[0] && Less(a[1..], b[1..])))
  }

  lemma LessIrreflexive(a: string)
    ensures !Less(a, a)
  {
  }

  lemma {:induction false} LessTransitive(a: string, b: string, c: string)
    requires Less(a, b) && Less(b, c)
    ensures Less(a, c)
    decreases |a|
  {
    if |a| > 0 && a[0] == b[0] && b[0] == c[0] {
      LessTransitive(a[1..], b[1..], c[1..]);
    }
  }

  lemma {:induction false} LessTotal(a: string, b: string)
    requires a != b
    ensures Less(a, b) || Less(b, a)
    decreases |a|
  {
    if |a| > 0 && |b| > 0 && a[0] == b[0] {
      assert a == [a[0]] + a[1..] && b == [b[0]] + b[1..];
      LessTotal(a[1..], b[1..]);
    }
  }

  lemma {:induction false} LessAsymmetric(a: string, b: string)
    requires Less(a, b)
    ensures !Less(b, a)
    decreases |a|
  {
    if |a| > 0 && a[0] == b[0] {
      LessAsymmetric(a[1..], b[1..]);
    }
  }

  /** A key that starts with `p` never sorts before `p`. */
  lemma {:induction false} PrefixNotLess(y: string, p: string)
    requires HasPrefix(y, p)
    ensures !Less(y, p)
    decreases |p|
  {
    if |p| > 0 {
      assert HasPrefix(y[1..], p[1..]) by {
        assert y[1..][..|p| - 1] == y[..|p|][1..];
      }
      PrefixNotLess(y[1..], p[1..]);
    }
  }

  /** Keys starting with `p` form one contiguous block: a key at or after `p` that
      sorts before a key starting with `p` starts with `p` itself. */
  lemma {:induction false} PrefixBlock(x: string, y: string, p: string)
    requires !Less(x, p) && Less(x, y) && HasPrefix(y, p)
    ensures HasPrefix(x, p)
    decreases |p|
  {
    if |p| > 0 {
      assert y[0] == p[0];
      assert |x| > 0;
      if x[0] == p[0] {
        assert HasPrefix(y[1..], p[1..]) by {
          assert y[1..][..|p| - 1] == y[..|p|][1..];
        }
        PrefixBlock(x[1..], y[1..], p[1..]);
        assert x[..|p|] == [x[0]] + x[1..][..|p| - 1];
      }
    }
  }

  /** Strictly ascending keys, hence no key twice. */
  predicate Sorted<V>(b: seq<Entry<V>>) {
    forall i, j {:trigger Less(b[i].key, b[j].key)} :: 0 <= i < j < |b| ==> Less(b[i].key, b[j].key)
  }

  function KeySet<V>(b: seq<Entry<V>>): set<string> {
    set i | 0 <= i < |b| :: b[i].key
  }

  lemma KeySetCons<V>(e: Entry<V>, t: seq<Entry<V>>)
    ensures KeySet([e] + t) == {e.key} + KeySet(t)
  {
    var r := [e] + t;
    forall x | x in KeySet(r) ensures x in {e.key} + KeySet(t) {
      var i :| 0 <= i < |r| && r[i].key == x;
      if i > 0 { assert t[i - 1].key == x; }
    }
    forall x | x in KeySet(t) ensures x in KeySet(r) {
      var i :| 0 <= i < |t| && t[i].key == x;
      assert r[i + 1].key == x;
    }
    assert r[0].key == e.key;
  }

  lemma KeySetSnoc<V>(a: seq<Entry<V>>, e: Entry<V>)
    ensures KeySet(a + [e]) == KeySet(a) + {e.key}
  {
    var r := a + [e];
    forall x | x in KeySet(r) ensures x in KeySet(a) + {e.key} {
      var i :| 0 <= i < |r| && r[i].key == x;
      if i < |a| { assert a[i].key == x; }
    }
    forall x | x in KeySet(a) ensures x in KeySet(r) {
      var i :| 0 <= i < |a| && a[i].key == x;
      assert r[i].key == x;
    }
    assert r[|a|].key == e.key;
  }

  /** `Bucket.Get`: the value under `k`, `None` (Go's nil) when there is none. */
  function Get<V>(b: seq<Entry<V>>, k: string): (r: Option<V>)
    ensures r.None? <==> k !in KeySet(b)
    ensures r.Some? ==> exists i :: 0 <= i < |b| && b[i] == Entry(k, r.value)
  {
    if |b| == 0 then None
    else if b[0].key == k then
      assert b[0].key in KeySet(b);
      Some(b[0].value)
    else
      var r := Get(b[1..], k);
      KeySetCons(b[0], b[1..]);
      assert b == [b[0]] + b[1..];
      r
  }

  /** In a sorted bucket the entry at index `i` is the one `Get` finds for its key. */
  lemma {:induction false} GetAt<V>(b: seq<Entry<V>>, i: nat)
    requires Sorted(b) && i < |b|
    ensures Get(b, b[i].key) == Some(b[i].value)
  {
    if i > 0 {
      LessIrreflexive(b[i].key);
      assert b[1..][i - 1] == b[i];
      GetAt(b[1..], i - 1);
    }
  }

  /** Every key of a sorted bucket sorts after its first key, except that key. */
  lemma FirstIsLeast<V>(b: seq<Entry<V>>, x: string)
    requires Sorted(b) && |b| > 0 && x in KeySet(b[1..])
    ensures Less(b[0].key, x)
  {
    var i :| 0 <= i < |b[1..]| && b[1..][i].key == x;
    assert b[i + 1].key == x;
  }

  /** Putting an entry in front of a sorted bucket whose keys all come after it. */
  lemma SortedCons<V>(e: Entry<V>, t: seq<Entry<V>>)
    requires Sorted(t) && forall x :: x in KeySet(t) ==> Less(e.key, x)
    ensures Sorted([e] + t)
  {
    var r := [e] + t;
    forall j | 0 < j < |r| ensures Less(e.key, r[j].key) {
      assert r[j].key == t[j - 1].key;
      assert t[j - 1].key in KeySet(t);
    }
  }

  /** `Bucket.Put`: insert `k` in key order, or overwrite the value already under it. */
  function Put<V>(b: seq<Entry<V>>, k: string, v: V): (r: seq<Entry<V>>)
    requires Sorted(b)
    ensures Sorted(r)
    ensures KeySet(r) == KeySet(b) + {k}
    ensures Get(r, k) == Some(v)
    ensures forall k' :: k' != k ==> Get(r, k') == Get(b, k')
    decreases |b|
  {
    if |b| == 0 then
      KeySetCons(Entry(k, v), []);
      [Entry(k, v)]
    else
      var e := Entry(k, v);
      KeySetCons(b[0], b[1..]);
      assert b == [b[0]] + b[1..];
      if b[0].key == k then
        KeySetCons(e, b[1..]);
        forall x | x in KeySet(b[1..]) ensures Less(k, x) { FirstIsLeast(b, x); }
        SortedCons(e, b[1..]);
        [e] + b[1..]
      else if Less(k, b[0].key) then
        KeySetCons(e, b);
        forall x | x in KeySet(b) ensures Less(k, x) {
          if x != b[0].key { FirstIsLeast(b, x); LessTransitive(k, b[0].key, x); }
        }
        SortedCons(e, b);
        [e] + b
      else
        LessTotal(k, b[0].key);
        var t := Put(b[1..], k, v);
        KeySetCons(b[0], t);
        forall x | x in KeySet(t) ensures Less(b[0].key, x) {
          if x != k { FirstIsLeast(b, x); }
        }
        SortedCons(b[0], t);
        [b[0]] + t
  }

  /** `Bucket.Delete`: remove the entry under `k`, if any. */
  function Delete<V>(b: seq<Entry<V>>, k: string): (r: seq<Entry<V>>)
    requires Sorted(b)
    ensures Sorted(r)
    ensures KeySet(r) == KeySet(b) - {k}
    ensures Get(r, k) == None
    ensures forall k' :: k' != k ==> Get(r, k') == Get(b, k')
    decreases |b|
  {
    if |b| == 0 then []
    else
      KeySetCons(b[0], b[1..]);
      assert b == [b[0]] + b[1..];
      if b[0].key == k then
        assert k !in KeySet(b[1..]) by {
          LessIrreflexive(k);
          if k in KeySet(b[1..]) { FirstIsLeast(b, k); }
        }
        b[1..]
      else
        var t := Delete(b[1..], k);
        KeySetCons(b[0], t);
        forall x | x in KeySet(t) ensures Less(b[0].key, x) { FirstIsLeast(b, x); }
        SortedCons(b[0], t);
        [b[0]] + t
  }

  /** `Cursor.Seek(p)`: the position of the first key at or after `p`. */
  function Seek<V>(b: seq<Entry<V>>, p: string): (r: nat)
    ensures r <= |b|
    ensures forall j :: 0 <= j < r ==> Less(b[j].key, p)
    ensures r < |b| ==> !Less(b[r].key, p)
  {
    if |b| == 0 || !Less(b[0].key, p) then 0 else 1 + Seek(b[1..], p)
  }

  /** In a sorted bucket, no key from the sought position on sorts before `p`. */
  lemma SeekAfter<V>(b: seq<Entry<V>>, p: string, j: nat)
    requires Sorted(b) && Seek(b, p) <= j < |b|
    ensures !Less(b[j].key, p)
  {
    var s := Seek(b, p);
    if j > s && Less(b[j].key, p) {
      LessTransitive(b[s].key, b[j].key, p);
    }
  }

  /** A key at or after `p` that does not start with `p` ends the block of keys
      with that prefix: no later key starts with `p`. */
  lemma PrefixBlockEnds<V>(b: seq<Entry<V>>, p: string, i: nat)
    requires Sorted(b) && Seek(b, p) <= i < |b| && !HasPrefix(b[i].key, p)
    ensures forall j :: i <= j < |b| ==> !HasPrefix(b[j].key, p)
  {
    SeekAfter(b, p, i);
    forall j | i < j < |b| ensures !HasPrefix(b[j].key, p) {
      if HasPrefix(b[j].key, p) {
        PrefixBlock(b[i].key, b[j].key, p);
      }
    }
  }

  /** No key before the sought position starts with `p`. */
  lemma NoneBeforeSeek<V>(b: seq<Entry<V>>, p: string)
    ensures ValuesWithPrefix(b[..Seek(b, p)], p) == []
    ensures WithoutPrefix(b[..Seek(b, p)], p) == b[..Seek(b, p)]
  {
    var s := Seek(b, p);
    forall j | 0 <= j < s ensures !HasPrefix(b[..s][j].key, p) {
      if HasPrefix(b[j].key, p) { PrefixNotLess(b[j].key, p); }
    }
    NoPrefixFilters(b[..s], p);
  }

  /** No key from the end of the block on starts with `p`. */
  lemma NoneAfterBlock<V>(b: seq<Entry<V>>, p: string, e: nat)
    requires Sorted(b) && Seek(b, p) <= e <= |b|
    requires e < |b| ==> !HasPrefix(b[e].key, p)
    ensures ValuesWithPrefix(b[e..], p) == []
    ensures WithoutPrefix(b[e..], p) == b[e..]
  {
    if e < |b| {
      PrefixBlockEnds(b, p, e);
    }
    forall j | 0 <= j < |b[e..]| ensures !HasPrefix(b[e..][j].key, p) {
      assert b[e..][j] == b[e + j];
    }
    NoPrefixFilters(b[e..], p);
  }

  /** The values whose keys start with `p`, in key order. */
  function ValuesWithPrefix<V>(b: seq<Entry<V>>, p: string): seq<V> {
    if |b| == 0 then []
    else
      ValuesWithPrefix(b[..|b| - 1], p)
        + (if HasPrefix(b[|b| - 1].key, p) then [b[|b| - 1].value] else [])
  }

  /** The entries whose keys do not start with `p`, in key order. */
  function WithoutPrefix<V>(b: seq<Entry<V>>, p: string): seq<Entry<V>> {
    if |b| == 0 then []
    else
      WithoutPrefix(b[..|b| - 1], p)
        + (if HasPrefix(b[|b| - 1].key, p) then [] else [b[|b| - 1]])
  }

  lemma {:induction false} ValuesWithPrefixAppend<V>(a: seq<Entry<V>>, c: seq<Entry<V>>, p: string)
    ensures ValuesWithPrefix(a + c, p) == ValuesWithPrefix(a, p) + ValuesWithPrefix(c, p)
    decreases |c|
  {
    if |c| > 0 {
      assert (a + c)[..|a + c| - 1] == a + c[..|c| - 1];
      ValuesWithPrefixAppend(a, c[..|c| - 1], p);
    } else {
      assert a + c == a;
    }
  }

  lemma {:induction false} WithoutPrefixAppend<V>(a: seq<Entry<V>>, c: seq<Entry<V>>, p: string)
    ensures WithoutPrefix(a + c, p) == WithoutPrefix(a, p) + WithoutPrefix(c, p)
    decreases |c|
  {
    if |c| > 0 {
      assert (a + c)[..|a + c| - 1] == a + c[..|c| - 1];
      WithoutPrefixAppend(a, c[..|c| - 1], p);
    } else {
      assert a + c == a;
    }
  }

  lemma {:induction false} NoPrefixFilters<V>(b: seq<Entry<V>>, p: string)
    requires forall j :: 0 <= j < |b| ==> !HasPrefix(b[j].key, p)
    ensures ValuesWithPrefix(b, p) == [] && WithoutPrefix(b, p) == b
  {
    if |b| > 0 {
      NoPrefixFilters(b[..|b| - 1], p);
    }
  }

  lemma {:induction false} AllPrefixFilters<V>(b: seq<Entry<V>>, p: string)
    requires forall j :: 0 <= j < |b| ==> HasPrefix(b[j].key, p)
    ensures WithoutPrefix(b, p) == []
  {
    if |b| > 0 {
      AllPrefixFilters(b[..|b| - 1], p);
    }
  }

  /** Every value whose key starts with `p`, and nothing else, in key order. */
  lemma {:induction false} ValuesWithPrefixMembers<V>(b: seq<Entry<V>>, p: string, v: V)
    ensures v in ValuesWithPrefix(b, p) <==>
      exists i :: 0 <= i < |b| && HasPrefix(b[i].key, p) && b[i].value == v
  {
    if |b| > 0 {
      var a := b[..|b| - 1];
      var e := b[|b| - 1];
      ValuesWithPrefixMembers(a, p, v);
      assert ValuesWithPrefix(b, p) == ValuesWithPrefix(a, p) + (if HasPrefix(e.key, p) then [e.value] else []);
      if exists i :: 0 <= i < |b| && HasPrefix(b[i].key, p) && b[i].value == v {
        var i :| 0 <= i < |b| && HasPrefix(b[i].key, p) && b[i].value == v;
        if i < |a| { assert a[i] == b[i]; }
      }
      if v in ValuesWithPrefix(a, p) {
        var i :| 0 <= i < |a| && HasPrefix(a[i].key, p) && a[i].value == v;
        assert b[i] == a[i];
      }
    }
  }

  /** A filtered bucket holds only entries of the original, none with prefix `p`. */
  lemma {:induction false} WithoutPrefixEntries<V>(b: seq<Entry<V>>, p: string)
    ensures forall x :: x in WithoutPrefix(b, p) ==> x in b && !HasPrefix(x.key, p)
  {
    if |b| > 0 {
      WithoutPrefixEntries(b[..|b| - 1], p);
      assert b == b[..|b| - 1] + [b[|b| - 1]];
    }
  }

  /** Appending an entry whose key sorts after every key keeps a bucket sorted. */
  lemma SortedSnoc<V>(a: seq<Entry<V>>, e: Entry<V>)
    requires Sorted(a) && forall x :: x in a ==> Less(x.key, e.key)
    ensures Sorted(a + [e])
  {
    var r := a + [e];
    forall i | 0 <= i < |a| ensures Less(r[i].key, e.key) {
      assert r[i] == a[i] && a[i] in a;
    }
  }

  lemma LastIsGreatest<V>(b: seq<Entry<V>>, x: Entry<V>)
    requires Sorted(b) && |b| > 0 && x in b[..|b| - 1]
    ensures Less(x.key, b[|b| - 1].key)
  {
    var i :| 0 <= i < |b| - 1 && b[..|b| - 1][i] == x;
    assert b[i] == x;
  }

  /** The entries of a sorted bucket whose keys do not start with `p` are sorted. */
  lemma {:induction false} WithoutPrefixSorted<V>(b: seq<Entry<V>>, p: string)
    requires Sorted(b)
    ensures Sorted(WithoutPrefix(b, p))
  {
    if |b| > 0 {
      var a := b[..|b| - 1];
      var e := b[|b| - 1];
      WithoutPrefixSorted(a, p);
      WithoutPrefixEntries(a, p);
      if !HasPrefix(e.key, p) {
        forall x | x in WithoutPrefix(a, p) ensures Less(x.key, e.key) { LastIsGreatest(b, x); }
        SortedSnoc(WithoutPrefix(a, p), e);
      }
    }
  }

  /** Filtering out prefix `p` removes exactly the keys starting with `p`. */
  lemma {:induction false} WithoutPrefixGet<V>(b: seq<Entry<V>>, p: string, k: string)
    requires Sorted(b)
    ensures Get(WithoutPrefix(b, p), k) == if HasPrefix(k, p) then None else Get(b, k)
  {
    if |b| > 0 {
      var a := b[..|b| - 1];
      var e := b[|b| - 1];
      WithoutPrefixGet(a, p, k);
      assert b == a + [e];
      GetSnoc(a, e, k);
      if !HasPrefix(e.key, p) {
        assert WithoutPrefix(b, p) == WithoutPrefix(a, p) + [e];
        GetSnoc(WithoutPrefix(a, p), e, k);
      } else {
        assert WithoutPrefix(b, p) == WithoutPrefix(a, p);
      }
    }
  }

  /** `Get` on a bucket extended at the end. */
  lemma {:induction false} GetSnoc<V>(a: seq<Entry<V>>, e: Entry<V>, k: string)
    ensures Get(a + [e], k) == if Get(a, k).Some? then Get(a, k) else if k == e.key then Some(e.value) else None
  {
    if |a| > 0 {
      assert (a + [e])[1..] == a[1..] + [e];
      GetSnoc(a[1..], e, k);
    }
  }

  /** The keys whose value is `u`, in key order. */
  function KeysWithValue<V(==)>(b: seq<Entry<V>>, u: V): seq<string> {
    if |b| == 0 then []
    else
      KeysWithValue(b[..|b| - 1], u) + (if b[|b| - 1].value == u then [b[|b| - 1].key] else [])
  }

  lemma {:induction false} KeysWithValueKeys<V>(b: seq<Entry<V>>, u: V)
    ensures forall k :: k in KeysWithValue(b, u) ==> k in KeySet(b)
  {
    if |b| > 0 {
      KeysWithValueKeys(b[..|b| - 1], u);
      KeySetSnoc(b[..|b| - 1], b[|b| - 1]);
      assert b == b[..|b| - 1] + [b[|b| - 1]];
    }
  }

  /** In a sorted bucket, the keys listed for `u` are exactly those `Get` maps to `u`. */
  lemma {:induction false} KeysWithValueGet<V>(b: seq<Entry<V>>, u: V, k: string)
    requires Sorted(b)
    ensures k in KeysWithValue(b, u) <==> Get(b, k) == Some(u)
  {
    if |b| > 0 {
      var a := b[..|b| - 1];
      var e := b[|b| - 1];
      KeysWithValueGet(a, u, k);
      assert b == a + [e];
      GetSnoc(a, e, k);
      if k == e.key && k in KeySet(a) {
        var j :| 0 <= j < |a| && a[j].key == k;
        assert a[j] in a;
        LastIsGreatest(b, a[j]);
        LessIrreflexive(k);
      }
    }
  }
}
