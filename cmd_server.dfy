/** The original stand-alone server command: one `habits` bucket for everybody, an
    entry stored under `name/now` with the server's clock, names listed as the
    distinct text before a key's first '/', and entries read back by a prefix scan.
    The clock is a parameter; the JSON encoding of stored values is taken to
    round-trip, so a value is modelled as the `CmdHabit` it encodes. */
module CmdServer {
  import opened Wrappers
  import opened Strings
  import opened Habits
  import opened Bucket
  import BoltStore

  /** The command's own entry record. Its `TimeStamp` is a Go `time.Time`, kept
      here as its Unix second; JSON carries it as RFC 3339 text, not as a number,
      which is what the early page of module MainPage trips over. */
  datatype Time = Time(unixSeconds: int)
  datatype CmdHabit = CmdHabit(Name: string, Note: string, TimeStamp: Time)

  datatype VersionInfo = VersionInfo(Version: string, BuildDate: string)

  /** `GetVersionInfo` always answers 200 with the build stamps, which are set at
      link time ("dev" and "unknown" otherwise) and so arrive as parameters. */
  function GetVersionInfo(version: string, buildDate: string): (r: (int, VersionInfo))
    ensures r.0 == 200 && r.1.Version == version && r.1.BuildDate == buildDate
  {
    (200, VersionInfo(version, buildDate))
  }

  /** The key `TrackHabit` writes: the name, '/', and the time of the request (not
      the entry's own timestamp). */
  function TrackKey(name: string, now: int): string {
    name + "/" + IntToString(now)
  }

  /** This layout is the bolt store's, with the request time in place of the
      entry's time. */
  lemma TrackKeyIsHabitKey(h: CmdHabit, now: int)
    ensures TrackKey(h.Name, now) == BoltStore.HabitKey(Habit(h.Name, h.Note, now))
  {
  }

  /** `strings.Split(k, "/")[0]` is the bolt store's listed name. */
  lemma SplitFirstIsListedName(k: string)
    ensures Split(k, '/')[0] == BoltStore.ListedName(k)
  {
    SplitHead(k, '/');
  }

  datatype Response = Response(status: int, body: string)

  class Server {
    /** The one `habits` bucket. */
    var bucket: seq<Entry<CmdHabit>>

    predicate Valid()
      reads this
    {
      Sorted(bucket)
    }

    constructor ()
      ensures Valid() && bucket == []
    {
      bucket := [];
    }

    /** A `None` body is JSON that does not decode. A name long enough to push the
        key past bbolt's limit makes the write fail with 500. */
    method TrackHabit(body: Option<CmdHabit>, now: int) returns (resp: Response)
      requires Valid()
      modifies this
      ensures Valid()
      ensures body.None? ==> resp == Response(400, "{\"error\":\"invalid JSON\"}")
      ensures body.Some? && body.value.Name == "" ==> resp == Response(400, "{\"error\":\"habit name is required\"}")
      ensures resp.status == 400 <==> body.None? || body.value.Name == ""
      ensures resp.status == 400 || resp.status == 500 ==> bucket == old(bucket)
      ensures resp.status != 400 && |TrackKey(body.value.Name, now)| > BoltStore.MaxKeySize ==>
                resp == Response(500, "{\"error\":\"database write failed\"}")
      ensures resp.status != 400 && |TrackKey(body.value.Name, now)| <= BoltStore.MaxKeySize ==>
                resp.status == 201 && bucket == Put(old(bucket), TrackKey(body.value.Name, now), body.value)
    {
      if body.None? {
        return Response(400, "{\"error\":\"invalid JSON\"}");
      }
      var h := body.value;
      if h.Name == "" {
        return Response(400, "{\"error\":\"habit name is required\"}");
      }
      var k := TrackKey(h.Name, now);
      // bbolt's Put refuses a key over MaxKeySize bytes and the update rolls back
      if |k| > BoltStore.MaxKeySize {
        return Response(500, "{\"error\":\"database write failed\"}");
      }
      bucket := Put(bucket, k, h);
      resp := Response(201, "");
    }

    method ListHabits() returns (resp: Response, names: seq<string>)
      requires Valid()
      ensures resp.status == 200
      ensures BoltStore.NoDuplicates(names) && |names| == |BoltStore.NameSet(bucket)|
      ensures forall n :: n in names <==> n in BoltStore.NameSet(bucket)
    {
      names := BoltStore.CollectNames(bucket);
      resp := Response(200, "");
    }

    method GetHabit(habitID: string) returns (resp: Response, entries: seq<CmdHabit>)
      requires Valid()
      ensures habitID == "" ==> resp == Response(400, "{\"error\":\"habit id is required\"}") && entries == []
      ensures habitID != "" ==> entries == ValuesWithPrefix(bucket, habitID + "/")
      ensures habitID != "" ==> (entries == [] <==> resp == Response(404, "{\"error\":\"habit not found\"}"))
      ensures habitID != "" ==> (entries != [] <==> resp.status == 200)
    {
      entries := [];
      if habitID == "" {
        return Response(400, "{\"error\":\"habit id is required\"}"), entries;
      }
      entries := BoltStore.CollectWithPrefix(bucket, habitID + "/");
      if |entries| == 0 {
        return Response(404, "{\"error\":\"habit not found\"}"), entries;
      }
      resp := Response(200, "");
    }
  }

  /** An entry without a name is refused and nothing is written. */
  method EmptyNameRejected(note: string, ts: Time, now: int) returns (resp: Response, stored: seq<Entry<CmdHabit>>)
    ensures resp.status == 400 && stored == []
  {
    var s := new Server();
    resp := s.TrackHabit(Some(CmdHabit("", note, ts)), now);
    stored := s.bucket;
  }

  /** A tracked entry whose key fits bbolt's limit is found by `GetHabit` under
      its name. */
  method TrackThenGet(h: CmdHabit, now: int) returns (got: Response, entries: seq<CmdHabit>)
    requires h.Name != "" && |TrackKey(h.Name, now)| <= BoltStore.MaxKeySize
    ensures got.status == 200 && entries == [h]
  {
    var s := new Server();
    var _ := s.TrackHabit(Some(h), now);
    got, entries := s.GetHabit(h.Name);
    var k := TrackKey(h.Name, now);
    assert k == (h.Name + "/") + IntToString(now);
    assert Put([], k, h) == [Entry(k, h)];
    assert ValuesWithPrefix([Entry(k, h)], h.Name + "/") == [h];
  }

  /** Two requests for the same name within the same second share a key: the
      second entry replaces the first. */
  method SameSecondOverwrites(h1: CmdHabit, h2: CmdHabit, now: int) returns (entries: seq<CmdHabit>)
    requires h1.Name == h2.Name && h1.Name != "" && |TrackKey(h1.Name, now)| <= BoltStore.MaxKeySize
    ensures entries == [h2]
  {
    var s := new Server();
    var _ := s.TrackHabit(Some(h1), now);
    var _ := s.TrackHabit(Some(h2), now);
    var _, got := s.GetHabit(h1.Name);
    entries := got;
    var k := TrackKey(h1.Name, now);
    assert k == (h1.Name + "/") + IntToString(now);
    assert Put([], k, h1) == [Entry(k, h1)];
    assert Put([Entry(k, h1)], k, h2) == [Entry(k, h2)];
    assert ValuesWithPrefix([Entry(k, h2)], h1.Name + "/") == [h2];
  }
}
