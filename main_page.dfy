/** The early single-page client: it fetches one habit's entries from the
    stand-alone server at localhost:8080, counts them per millisecond timestamp
    with its own copy of the API layer's loop, and starts the heatmap at the
    earliest datum. The page title is the habit's name in title case.

    That server writes each entry's `TimeStamp` as RFC 3339 text, which the
    page's arithmetic turns into NaN; the page draws nothing useful from it.
    Numbers are modelled as integers or NaN. */
module MainPage {
  import opened Wrappers
  import Api
  import Utils
  import CmdServer

  /** A JavaScript number as the page's arithmetic produces it: an integer, or
      NaN. As a record key NaN is the one property "NaN", so all NaNs count
      together, as they do here. */
  datatype Num = Finite(value: int) | NaN

  /** The `TimeStamp` field of an entry in the fetched JSON: a number of seconds,
      or the RFC 3339 text of a Go `time.Time`, held here by its Unix second. */
  datatype JsonTime = Seconds(n: int) | TimeText(unixSeconds: int)

  /** `entry.TimeStamp * 1000`. Text is converted by `Number` first. JavaScript's
      numeric string grammar (white space, digits, signs, '.', exponents,
      "Infinity", and hexadecimal digits after "0x") has no letter 'T', and an
      RFC 3339 time always has one between date and time, so the product is NaN. */
  function Millis(t: JsonTime): Num {
    match t
    case Seconds(n) => Finite(n * 1000)
    case TimeText(_) => NaN
  }

  function AllMillis(stamps: seq<JsonTime>): (ms: seq<Num>)
    ensures |ms| == |stamps| && forall i :: 0 <= i < |stamps| ==> ms[i] == Millis(stamps[i])
  {
    seq(|stamps|, i requires 0 <= i < |stamps| => Millis(stamps[i]))
  }

  /** What `fetchHabitData` returns for entries with these timestamps. */
  function PageData(stamps: seq<JsonTime>, habit: string): seq<Api.Datum<Num>> {
    Api.DataFor(Api.Distinct(AllMillis(stamps)), multiset(AllMillis(stamps)), habit)
  }

  /** The counting loop of `fetchHabitData`: the record's keys in creation order
      and their counts. */
  method CountStamps(stamps: seq<JsonTime>) returns (keys: seq<Num>, counts: map<Num, nat>)
    ensures keys == Api.Distinct(AllMillis(stamps))
    ensures forall k :: k in counts <==> k in AllMillis(stamps)
    ensures forall k :: k in counts ==> counts[k] == multiset(AllMillis(stamps))[k]
  {
    ghost var ms := AllMillis(stamps);
    keys, counts := [], map[];
    for i := 0 to |stamps|
      invariant Api.Counted(ms[..i], keys, counts)
    {
      var timestamp := Millis(stamps[i]);
      assert ms[..i + 1] == ms[..i] + [timestamp];
      Api.CountStep(ms[..i], timestamp, keys, counts);
      if timestamp !in counts {
        keys := keys + [timestamp];
      }
      counts := counts[timestamp := (if timestamp in counts then counts[timestamp] else 0) + 1];
    }
    assert ms[..|stamps|] == ms;
  }

  /** `fetchHabitData`: the counting loop on `TimeStamp * 1000` and the map over the
      record, as in the API layer. `body` holds the entries' `TimeStamp` fields,
      the only ones the loop reads; `None` is a body without entries, on which
      the loop throws. */
  method FetchHabitData(body: Option<seq<JsonTime>>, habit: string) returns (r: Result<seq<Api.Datum<Num>>, string>)
    ensures body.None? ==> r == Err(Api.NoEntriesError)
    ensures body.Some? ==> r == Ok(PageData(body.value, habit))
  {
    if body.None? {
      return Err(Api.NoEntriesError);
    }
    var keys, counts := CountStamps(body.value);
    ghost var ms := AllMillis(body.value);
    assert forall k :: k in keys ==> k in counts;
    var data := seq(|keys|, i requires 0 <= i < |keys| => Api.Datum(keys[i], counts[keys[i]], habit));
    ghost var spec := Api.DataFor(keys, multiset(ms), habit);
    assert |data| == |spec|;
    forall i | 0 <= i < |keys| ensures data[i] == spec[i] {
      assert keys[i] in counts;
    }
    assert data == PageData(body.value, habit);
    r := Ok(data);
  }

  /** The smallest element of a non-empty sequence. */
  function MinOf(s: seq<int>): (m: int)
    requires |s| > 0
    ensures m in s && forall x :: x in s ==> m <= x
    decreases |s|
  {
    if |s| == 1 then s[0]
    else
      var rest := MinOf(s[1..]);
      assert forall x :: x in s ==> x == s[0] || x in s[1..];
      if s[0] <= rest then s[0] else rest
  }

  /** The minimum depends only on which values occur. */
  lemma MinOfSameElements(s: seq<int>, u: seq<int>)
    requires |s| > 0 && |u| > 0
    requires forall x :: x in s <==> x in u
    ensures MinOf(s) == MinOf(u)
  {
    var a, b := MinOf(s), MinOf(u);
    assert a <= b && b <= a;
  }

  predicate AllFinite(data: seq<Api.Datum<Num>>) {
    forall i :: 0 <= i < |data| ==> data[i].t.Finite?
  }

  function Times(data: seq<Api.Datum<Num>>): (ts: seq<int>)
    requires AllFinite(data)
    ensures |ts| == |data| && forall i :: 0 <= i < |data| ==> ts[i] == data[i].t.value
  {
    seq(|data|, i requires 0 <= i < |data| => data[i].t.value)
  }

  /** `new Date(Math.min(...timestamps)).toISOString()`: the earliest datum's time.
      `Math.min` is NaN when any argument is, and `Infinity` when there is none;
      both make an invalid date, whose `toISOString` throws a RangeError, here
      `None`. */
  function HeatmapStart(data: seq<Api.Datum<Num>>): (r: Option<int>)
    ensures r.None? <==> data == [] || !AllFinite(data)
    ensures r.Some? ==> (exists i :: 0 <= i < |data| && data[i].t == Finite(r.value))
                        && forall i :: 0 <= i < |data| ==> r.value <= data[i].t.value
  {
    if data == [] || !AllFinite(data) then None
    else
      var ts := Times(data);
      var m := MinOf(ts);
      assert forall i :: 0 <= i < |data| ==> ts[i] in ts;
      Some(m)
  }

  /** The milliseconds of timestamps that are all numbers. */
  function NumericMillis(stamps: seq<JsonTime>): (ms: seq<int>)
    requires forall i :: 0 <= i < |stamps| ==> stamps[i].Seconds?
    ensures |ms| == |stamps| && forall i :: 0 <= i < |stamps| ==> ms[i] == stamps[i].n * 1000
  {
    seq(|stamps|, i requires 0 <= i < |stamps| => stamps[i].n * 1000)
  }

  /** Numeric timestamps give finite keys, and exactly their milliseconds. */
  lemma NumericKeys(stamps: seq<JsonTime>)
    requires forall i :: 0 <= i < |stamps| ==> stamps[i].Seconds?
    ensures forall k :: k in AllMillis(stamps) ==> k.Finite?
    ensures forall x :: Finite(x) in AllMillis(stamps) <==> x in NumericMillis(stamps)
  {
    var ms, ns := AllMillis(stamps), NumericMillis(stamps);
    forall x ensures Finite(x) in ms <==> x in ns {
      if Finite(x) in ms {
        var j :| 0 <= j < |ms| && ms[j] == Finite(x);
        assert ns[j] == x;
      }
      if x in ns {
        var j :| 0 <= j < |ns| && ns[j] == x;
        assert ms[j] == Finite(x);
      }
    }
  }

  /** With numeric timestamps every datum is finite, and the data's times are
      exactly the entries' milliseconds. */
  lemma NumericPageTimes(stamps: seq<JsonTime>, habit: string)
    requires forall i :: 0 <= i < |stamps| ==> stamps[i].Seconds?
    ensures AllFinite(PageData(stamps, habit))
    ensures forall x :: x in Times(PageData(stamps, habit)) <==> x in NumericMillis(stamps)
  {
    var data := PageData(stamps, habit);
    var ms := AllMillis(stamps);
    Api.CountedShape(ms, habit);
    NumericKeys(stamps);
    assert AllFinite(data) by {
      forall i | 0 <= i < |data| ensures data[i].t.Finite? {
        assert data[i].t in ms;
      }
    }
    var ts := Times(data);
    forall x ensures x in ts <==> Finite(x) in ms {
      if x in ts {
        var i :| 0 <= i < |ts| && ts[i] == x;
        assert data[i].t == Finite(x);
      }
      if Finite(x) in ms {
        var i :| 0 <= i < |data| && data[i].t == Finite(x);
        assert ts[i] == x;
      }
    }
  }

  /** With numeric timestamps the heatmap starts at the earliest entry's second,
      in milliseconds. */
  lemma HeatmapStartsAtEarliestEntry(stamps: seq<JsonTime>, habit: string)
    requires |stamps| > 0 && forall i :: 0 <= i < |stamps| ==> stamps[i].Seconds?
    ensures HeatmapStart(PageData(stamps, habit)) == Some(MinOf(NumericMillis(stamps)))
  {
    NumericPageTimes(stamps, habit);
    var ns := NumericMillis(stamps);
    assert ns[0] in ns;
    var ts := Times(PageData(stamps, habit));
    assert ts != [] by {
      assert ns[0] in ts;
    }
    MinOfSameElements(ts, ns);
  }

  /** The timestamps the page receives from the stand-alone server: each entry's
      `time.Time`, encoded as text. */
  function ServedStamps(entries: seq<CmdServer.CmdHabit>): (stamps: seq<JsonTime>)
    ensures |stamps| == |entries|
    ensures forall i :: 0 <= i < |entries| ==> stamps[i] == TimeText(entries[i].TimeStamp.unixSeconds)
  {
    seq(|entries|, i requires 0 <= i < |entries| => TimeText(entries[i].TimeStamp.unixSeconds))
  }

  /** Every key NaN: one key, counted once per entry. */
  lemma AllNaNCounted(ms: seq<Num>)
    requires |ms| > 0 && forall i :: 0 <= i < |ms| ==> ms[i] == NaN
    ensures Api.Distinct(ms) == [NaN]
    ensures multiset(ms)[NaN] == |ms|
  {
    NaNDistinct(ms);
    NaNCount(ms);
  }

  lemma {:induction false} NaNDistinct(ms: seq<Num>)
    requires |ms| > 0 && forall i :: 0 <= i < |ms| ==> ms[i] == NaN
    ensures Api.Distinct(ms) == [NaN]
    decreases |ms|
  {
    var init := ms[..|ms| - 1];
    assert ms == init + [NaN];
    Api.DistinctSnoc(init, NaN);
    if |init| > 0 {
      NaNDistinct(init);
    }
  }

  lemma {:induction false} NaNCount(ms: seq<Num>)
    requires forall i :: 0 <= i < |ms| ==> ms[i] == NaN
    ensures multiset(ms)[NaN] == |ms|
    decreases |ms|
  {
    if |ms| > 0 {
      var init := ms[..|ms| - 1];
      assert ms == init + [NaN];
      NaNCount(init);
    }
  }

  /** What the page makes of any entries the stand-alone server returns: one
      datum at NaN counting them all, and no start date, so drawing the heatmap
      throws. */
  lemma ServedEntriesGiveNaN(entries: seq<CmdServer.CmdHabit>, habit: string)
    requires |entries| > 0
    ensures PageData(ServedStamps(entries), habit) == [Api.Datum(NaN, |entries|, habit)]
    ensures HeatmapStart(PageData(ServedStamps(entries), habit)) == None
  {
    var ms := AllMillis(ServedStamps(entries));
    AllNaNCounted(ms);
  }

  /** The page's title for the habit it draws. */
  lemma TitleOfGuitar()
    ensures Utils.ToTitleCase("guitar") == "Guitar"
  {
  }
}
