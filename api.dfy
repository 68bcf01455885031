/** The web client's API layer: `fetchHabit` turns a habit's entries into heatmap
    data, one datum per distinct millisecond timestamp with the number of entries
    at it; the other fetchers refuse a response whose status is not ok. The HTTP
    requests and JSON decoding are I/O and arrive as values. */
module Api {
  import opened Wrappers
  import opened Habits

  /** `t` the time in milliseconds, `p` the count, `v` the habit name. The time is
      an `int` here; the early page of module MainPage also meets NaN. */
  datatype Datum<T> = Datum(t: T, p: nat, v: string)

  /** The entries' second timestamps as milliseconds. */
  function Millis(entries: seq<Habit>): (ms: seq<int>)
    ensures |ms| == |entries| && forall i :: 0 <= i < |entries| ==> ms[i] == entries[i].TimeStamp * 1000
  {
    seq(|entries|, i requires 0 <= i < |entries| => entries[i].TimeStamp * 1000)
  }

  /** The values of `s` without repetition, in order of first occurrence: the
      order in which the counting loop creates the record's keys. */
  function Distinct<K(==,!new)>(s: seq<K>): (r: seq<K>)
    ensures forall x :: x in r <==> x in s
    ensures forall i, j :: 0 <= i < j < |r| ==> r[i] != r[j]
    ensures |r| <= |s|
    decreases |s|
  {
    if |s| == 0 then []
    else
      var init := s[..|s| - 1];
      assert s == init + [s[|s| - 1]];
      var d := Distinct(init);
      if s[|s| - 1] in d then d else d + [s[|s| - 1]]
  }

  lemma DistinctSnoc<K(!new)>(s: seq<K>, e: K)
    ensures Distinct(s + [e]) == if e in Distinct(s) then Distinct(s) else Distinct(s) + [e]
  {
    assert (s + [e])[..|s|] == s;
  }

  /** One datum per key, with the key's count and the habit name. */
  function DataFor<K(==,!new)>(keys: seq<K>, counts: multiset<K>, habit: string): (r: seq<Datum<K>>)
    ensures |r| == |keys| && forall i :: 0 <= i < |keys| ==> r[i] == Datum(keys[i], counts[keys[i]], habit)
    decreases |keys|
  {
    if |keys| == 0 then []
    else
      var last := keys[|keys| - 1];
      DataFor(keys[..|keys| - 1], counts, habit) + [Datum(last, counts[last], habit)]
  }

  /** What `fetchHabit` returns for these entries. */
  function Aggregate(entries: seq<Habit>, habit: string): seq<Datum<int>> {
    DataFor(Distinct(Millis(entries)), multiset(Millis(entries)), habit)
  }

  /** The record after counting `prefix`: its keys in creation order and each
      key's number of occurrences. */
  ghost predicate Counted<K(!new)>(prefix: seq<K>, keys: seq<K>, counts: map<K, nat>) {
    && keys == Distinct(prefix)
    && (forall k :: k in counts <==> k in prefix)
    && (forall k :: k in counts ==> counts[k] == multiset(prefix)[k])
  }

  /** One more timestamp: a new key is appended, and its count goes up by one. */
  lemma CountStep<K(!new)>(prefix: seq<K>, x: K, keys: seq<K>, counts: map<K, nat>)
    requires Counted(prefix, keys, counts)
    ensures Counted(prefix + [x], if x in counts then keys else keys + [x],
                    counts[x := (if x in counts then counts[x] else 0) + 1])
  {
    DistinctSnoc(prefix, x);
    var counts' := counts[x := (if x in counts then counts[x] else 0) + 1];
    var m := multiset(prefix + [x]);
    assert m == multiset(prefix) + multiset{x};
    forall k ensures k in counts' <==> k in prefix + [x] {
      assert k in prefix + [x] <==> k in prefix || k == x;
    }
    forall k | k in counts' ensures counts'[k] == m[k] {
      if k == x {
        assert x !in counts ==> multiset(prefix)[x] == 0;
      }
    }
  }

  /** The counting loop: the record's keys in creation order and their counts. */
  method CountLoop(entries: seq<Habit>) returns (keys: seq<int>, counts: map<int, nat>)
    ensures keys == Distinct(Millis(entries))
    ensures forall k :: k in counts <==> k in Millis(entries)
    ensures forall k :: k in counts ==> counts[k] == multiset(Millis(entries))[k]
  {
    ghost var ms := Millis(entries);
    keys, counts := [], map[];
    for i := 0 to |entries|
      invariant Counted(ms[..i], keys, counts)
    {
      var timestamp := entries[i].TimeStamp * 1000;
      assert ms[..i + 1] == ms[..i] + [timestamp];
      CountStep(ms[..i], timestamp, keys, counts);
      if timestamp !in counts {
        keys := keys + [timestamp];
      }
      counts := counts[timestamp := (if timestamp in counts then counts[timestamp] else 0) + 1];
    }
    assert ms[..|entries|] == ms;
  }

  /** The counting loop, then the map over the record's entries. */
  method CountEntries(entries: seq<Habit>, habit: string) returns (data: seq<Datum<int>>)
    ensures data == Aggregate(entries, habit)
  {
    var keys, counts := CountLoop(entries);
    assert forall k :: k in keys ==> k in counts;
    data := seq(|keys|, i requires 0 <= i < |keys| => Datum(keys[i], counts[keys[i]], habit));
  }

  /** A reply body as `res.json()` and `json.entries` see it: text that is not
      JSON (the middleware's plain-text "unauthorized"), JSON without an
      iterable `entries` (an error object), or the entries. */
  datatype Body<T> = NotJson | NoEntries | Entries(entries: seq<T>)

  const NotJsonError := "SyntaxError: response body is not valid JSON"
  const NoEntriesError := "TypeError: json.entries is not iterable"

  /** `fetchHabit` decodes the body and reads `json.entries` without looking at
      the status: a body that is not JSON makes `res.json()` throw, and one
      without entries makes the loop throw. The engine's wording of the two
      errors is not modelled, only which one is thrown. */
  method FetchHabit(body: Body<Habit>, habit: string) returns (r: Result<seq<Datum<int>>, string>)
    ensures body.NotJson? ==> r == Err(NotJsonError)
    ensures body.NoEntries? ==> r == Err(NoEntriesError)
    ensures body.Entries? ==> r == Ok(Aggregate(body.entries, habit))
  {
    match body
    case NotJson => return Err(NotJsonError);
    case NoEntries => return Err(NoEntriesError);
    case Entries(entries) =>
      var data := CountEntries(entries, habit);
      r := Ok(data);
  }

  /** Counting `ms` gives one datum per distinct key, in first-occurrence order;
      each count is positive and each datum names the habit; no keys, no data. */
  lemma CountedShape<K(!new)>(ms: seq<K>, habit: string)
    ensures var data := DataFor(Distinct(ms), multiset(ms), habit);
      && (forall t :: (exists i :: 0 <= i < |data| && data[i].t == t) <==> t in ms)
      && (forall i, j :: 0 <= i < j < |data| ==> data[i].t != data[j].t)
      && (forall i :: 0 <= i < |data| ==> data[i].p >= 1 && data[i].v == habit)
      && (ms == [] ==> data == [])
  {
    var keys := Distinct(ms);
    var data := DataFor(keys, multiset(ms), habit);
    forall t ensures (exists i :: 0 <= i < |data| && data[i].t == t) <==> t in ms {
      if t in ms {
        var i :| 0 <= i < |keys| && keys[i] == t;
        assert data[i].t == t;
      }
      if i :| 0 <= i < |data| && data[i].t == t {
        assert keys[i] in keys;
      }
    }
    assert data == DataFor(Distinct(ms), multiset(ms), habit);
    forall i | 0 <= i < |data| ensures data[i].p >= 1 {
      assert keys[i] in ms;
    }
  }

  /** One datum per distinct millisecond value, in first-occurrence order; each
      count is positive and each datum names the habit; no entries, no data. The
      order is the record's key order only because these keys are not array
      indices: JavaScript lists the keys 0 to 2^32 - 2 first, in ascending order,
      and the smallest time a server accepts is far above that in milliseconds. */
  lemma AggregateShape(entries: seq<Habit>, habit: string)
    ensures var data := Aggregate(entries, habit);
      && (forall t :: (exists i :: 0 <= i < |data| && data[i].t == t) <==> t in Millis(entries))
      && (forall i, j :: 0 <= i < j < |data| ==> data[i].t != data[j].t)
      && (forall i :: 0 <= i < |data| ==> data[i].p >= 1 && data[i].v == habit)
      && (entries == [] ==> data == [])
  {
    CountedShape(Millis(entries), habit);
    assert Aggregate(entries, habit) == DataFor(Distinct(Millis(entries)), multiset(Millis(entries)), habit);
  }

  function SumP<K>(data: seq<Datum<K>>): nat
    decreases |data|
  {
    if |data| == 0 then 0 else SumP(data[..|data| - 1]) + data[|data| - 1].p
  }

  /** One more occurrence of `e` adds one to the tally when `e` is a key. */
  lemma {:induction false} SumPOneMore<K(!new)>(keys: seq<K>, counts: multiset<K>, e: K, habit: string)
    requires forall i, j :: 0 <= i < j < |keys| ==> keys[i] != keys[j]
    ensures SumP(DataFor(keys, counts + multiset{e}, habit)) ==
            SumP(DataFor(keys, counts, habit)) + (if e in keys then 1 else 0)
    decreases |keys|
  {
    if |keys| > 0 {
      var init := keys[..|keys| - 1];
      SumPOneMore(init, counts, e, habit);
      var a := DataFor(keys, counts + multiset{e}, habit);
      var b := DataFor(keys, counts, habit);
      assert a[..|a| - 1] == DataFor(init, counts + multiset{e}, habit);
      assert b[..|b| - 1] == DataFor(init, counts, habit);
      assert e in keys <==> e in init || e == keys[|keys| - 1];
      assert e == keys[|keys| - 1] ==> e !in init;
    }
  }

  /** The counts add up to the number of entries. */
  lemma {:induction false} AggregateCountsAll<K(!new)>(ms: seq<K>, habit: string)
    ensures SumP(DataFor(Distinct(ms), multiset(ms), habit)) == |ms|
    decreases |ms|
  {
    if |ms| > 0 {
      var init, e := ms[..|ms| - 1], ms[|ms| - 1];
      assert ms == init + [e];
      var m0 := multiset(init);
      assert multiset(ms) == m0 + multiset{e};
      AggregateCountsAll(init, habit);
      var d := Distinct(init);
      DistinctSnoc(init, e);
      SumPOneMore(d, m0, e, habit);
      if e !in d {
        var data := DataFor(d + [e], multiset(ms), habit);
        assert (d + [e])[..|d|] == d;
        assert data[..|data| - 1] == DataFor(d, multiset(ms), habit);
        assert m0[e] == 0;
        assert SumP(data) == SumP(DataFor(d, multiset(ms), habit)) + 1;
      }
    }
  }

  lemma AggregateSum(entries: seq<Habit>, habit: string)
    ensures SumP(Aggregate(entries, habit)) == |entries|
  {
    AggregateCountsAll(Millis(entries), habit);
  }

  /** Two entries in the same second make one datum with count 2. */
  lemma SameSecondCountsTwice(a: Habit, b: Habit, habit: string)
    requires a.TimeStamp == b.TimeStamp
    ensures Aggregate([a, b], habit) == [Datum(a.TimeStamp * 1000, 2, habit)]
  {
    var ms := Millis([a, b]);
    assert ms == [a.TimeStamp * 1000, a.TimeStamp * 1000];
    assert ms[..1] == [a.TimeStamp * 1000] && ms[..1][..0] == [];
  }

  // ---------------------------------------------------------------- status checks

  /** A response: whether its status is ok, its status text, and the decoded body. */
  datatype Response<T> = Response(ok: bool, statusText: string, body: T)

  /** The guard of `fetchHabitSummary`, `fetchHabits` and `fetchVersionInfo`: a
      response that is not ok throws an error naming the status text. */
  function Checked<T>(res: Response<T>, failure: string): (r: Result<T, string>)
    ensures r.Ok? <==> res.ok
    ensures r.Ok? ==> r.value == res.body
    ensures r.Err? ==> r.error == failure + ": " + res.statusText
  {
    if !res.ok then Err(failure + ": " + res.statusText) else Ok(res.body)
  }

  function FetchHabitSummary<T>(habit: string, res: Response<T>): (r: Result<T, string>)
    ensures r.Ok? <==> res.ok
    ensures r.Ok? ==> r.value == res.body
    ensures r.Err? ==> r.error == "Failed to fetch summary for habit " + habit + ": " + res.statusText
  {
    Checked(res, "Failed to fetch summary for habit " + habit)
  }

  /** `res.body` stands for the decoded `data.habits`. */
  function FetchHabits(res: Response<seq<string>>): (r: Result<seq<string>, string>)
    ensures r.Ok? <==> res.ok
    ensures r.Ok? ==> r.value == res.body
    ensures r.Err? ==> r.error == "Failed to fetch habits: " + res.statusText
  {
    Checked(res, "Failed to fetch habits")
  }

  function FetchVersionInfo<T>(res: Response<T>): (r: Result<T, string>)
    ensures r.Ok? <==> res.ok
    ensures r.Ok? ==> r.value == res.body
    ensures r.Err? ==> r.error == "Failed to fetch version info: " + res.statusText
  {
    Checked(res, "Failed to fetch version info")
  }

  /** Unlike the three checked fetchers, `fetchHabit` accepts the body of a
      response that is not ok when it carries entries: the same failed response
      gives data there and an error from each of the others. */
  method OnlyFetchHabitIgnoresStatus(res: Response<seq<Habit>>, habit: string)
    returns (data: Result<seq<Datum<int>>, string>, summary: Result<seq<Habit>, string>,
             habits: Result<seq<string>, string>, version: Result<seq<Habit>, string>)
    requires !res.ok
    ensures data == Ok(Aggregate(res.body, habit))
    ensures summary.Err? && habits.Err? && version.Err?
  {
    data := FetchHabit(Entries(res.body), habit);
    summary := FetchHabitSummary(habit, res);
    habits := FetchHabits(Response(res.ok, res.statusText, []));
    version := FetchVersionInfo(res);
  }
}
