/** The habit handlers of the multi-user server over the bolt store: each checks its
    parameters and returns early with 400 before touching the store, `trackHabit`
    validates the entry before it writes, and `getHabit` answers 404 when the store
    has no entries. The user ID arrives already taken from the request context; a
    JSON body that does not decode is `None`. */
module ServerRoutes {
  import opened Wrappers
  import opened Habits
  import opened Bucket
  import BoltStore
  import Strings

  const MaxNameLength: nat := 20
  const MaxNoteLength: nat := 1024
  /** 2000-01-01T00:00:00Z and 2100-01-01T00:00:00Z. */
  const MinTS: int := 946684800
  const MaxTS: int := 4102444800

  datatype HabitError = BadName | BadNote | BadTimestamp

  function ErrorMessage(e: HabitError): string {
    match e
    case BadName => "bad habit name: must be 1-20 characters"
    case BadNote => "bad habit note: must be 0-1024 characters"
    case BadTimestamp => "invalid timestamp"
  }

  predicate NameOK(h: Habit) { 1 <= |h.Name| <= MaxNameLength }
  predicate NoteOK(h: Habit) { |h.Note| <= MaxNoteLength }
  predicate TimeStampOK(h: Habit) { MinTS <= h.TimeStamp <= MaxTS }

  /** `validateHabit`: `None` is a nil error. The name is checked first, then the
      note, then the timestamp, and the error names the first check that fails. */
  function ValidateHabit(h: Habit): (r: Option<HabitError>)
    ensures r.None? <==> NameOK(h) && NoteOK(h) && TimeStampOK(h)
    ensures r == Some(BadName) <==> !NameOK(h)
    ensures r == Some(BadNote) <==> NameOK(h) && !NoteOK(h)
    ensures r == Some(BadTimestamp) <==> NameOK(h) && NoteOK(h) && !TimeStampOK(h)
  {
    if |h.Name| == 0 || |h.Name| > MaxNameLength then Some(BadName)
    else if |h.Note| > MaxNoteLength then Some(BadNote)
    else if h.TimeStamp < MinTS || h.TimeStamp > MaxTS then Some(BadTimestamp)
    else None
  }

  /** The edges of every window are inside it: a 20-byte name, a 1024-byte note
      and both timestamp bounds; an empty note is fine. */
  lemma ValidateHabitBoundaries(h: Habit)
    requires |h.Name| == MaxNameLength && (|h.Note| == MaxNoteLength || h.Note == "")
    requires h.TimeStamp == MinTS || h.TimeStamp == MaxTS
    ensures ValidateHabit(h).None?
  {
  }

  /** One byte, or one second, past an edge is out. */
  lemma ValidateHabitJustOutside(h: Habit)
    ensures |h.Name| == MaxNameLength + 1 ==> ValidateHabit(h) == Some(BadName)
    ensures NameOK(h) && |h.Note| == MaxNoteLength + 1 ==> ValidateHabit(h) == Some(BadNote)
    ensures NameOK(h) && NoteOK(h) && (h.TimeStamp == MinTS - 1 || h.TimeStamp == MaxTS + 1) ==>
              ValidateHabit(h) == Some(BadTimestamp)
  {
  }

  /** An entry that passes validation has a key well inside bbolt's limit, so the
      store never refuses it as too long. */
  lemma ValidatedKeyFits(h: Habit)
    requires ValidateHabit(h).None?
    ensures |BoltStore.HabitKey(h)| <= 31 < BoltStore.MaxKeySize
  {
    Strings.TenDigitSeconds(h.TimeStamp);
  }

  /** A handler's answer: the status code and, for errors, the JSON error text. */
  datatype Response = Response(status: int, body: string)

  function ErrorBody(message: string): string {
    "{\"error\":\"" + message + "\"}"
  }

  method TrackHabit(store: BoltStore.Store, userID: string, body: Option<Habit>) returns (resp: Response)
    requires store.Valid()
    modifies store
    ensures store.Valid()
    ensures userID == "" ==> resp == Response(400, ErrorBody("user id is required"))
    ensures userID != "" && body.None? ==> resp == Response(400, ErrorBody("invalid JSON"))
    ensures userID != "" && body.Some? && ValidateHabit(body.value).Some? ==>
              resp == Response(400, ErrorBody(ErrorMessage(ValidateHabit(body.value).value)))
    ensures resp.status == 400 || resp.status == 500 ==> store.habits == old(store.habits) && store.apiKeys == old(store.apiKeys)
    ensures resp.status != 400 <==> userID != "" && body.Some? && ValidateHabit(body.value).None?
    ensures resp.status != 400 ==>
              && (old(store.EnsureError(userID)).Some? ==> resp == Response(500, ErrorBody("database write failed")))
              && (old(store.EnsureError(userID)).None? ==>
                    && resp.status == 201
                    && store.habits == old(store.habits)[userID := Put(old(store.UserBucket(userID)),
                                                                       BoltStore.HabitKey(body.value), body.value)]
                    && store.apiKeys == old(store.EnsuredAPIKeys(userID)))
  {
    if userID == "" {
      return Response(400, ErrorBody("user id is required"));
    }
    if body.None? {
      return Response(400, ErrorBody("invalid JSON"));
    }
    var h := body.value;
    var err := ValidateHabit(h);
    if err.Some? {
      return Response(400, ErrorBody(ErrorMessage(err.value)));
    }
    ValidatedKeyFits(h);
    var putErr := store.PutHabit(userID, h);
    if putErr.Some? {
      return Response(500, ErrorBody("database write failed"));
    }
    // the active-habits gauge reads the names back; a failure there is only logged
    var _, _ := store.ListHabitNames(userID);
    resp := Response(201, "");
  }

  method ListHabits(store: BoltStore.Store, userID: string) returns (resp: Response, names: seq<string>)
    requires store.Valid()
    modifies store
    ensures store.Valid()
    ensures userID == "" ==> resp == Response(400, ErrorBody("user id is required")) && names == []
    ensures resp.status == 400 || resp.status == 500 ==> store.habits == old(store.habits) && store.apiKeys == old(store.apiKeys)
    ensures userID != "" ==>
              && (old(store.EnsureError(userID)).Some? ==> resp == Response(500, ErrorBody("storage error")))
              && (old(store.EnsureError(userID)).None? ==>
                    && resp.status == 200
                    && store.habits == BoltStore.WithBucket(old(store.habits), userID)
                    && store.apiKeys == old(store.EnsuredAPIKeys(userID))
                    && BoltStore.NoDuplicates(names)
                    && forall n :: n in names <==> n in BoltStore.NameSet(old(store.UserBucket(userID))))
  {
    names := [];
    if userID == "" {
      return Response(400, ErrorBody("user id is required")), names;
    }
    var err;
    names, err := store.ListHabitNames(userID);
    if err.Some? {
      return Response(500, ErrorBody("storage error")), names;
    }
    resp := Response(200, "");
  }

  method GetHabit(store: BoltStore.Store, userID: string, habitID: string) returns (resp: Response, entries: seq<Habit>)
    requires store.Valid()
    modifies store
    ensures store.Valid()
    ensures userID == "" || habitID == "" ==>
              resp == Response(400, ErrorBody("user id and habit id are required")) && entries == []
    ensures resp.status == 400 || resp.status == 500 ==> store.habits == old(store.habits) && store.apiKeys == old(store.apiKeys)
    ensures userID != "" && habitID != "" ==>
              && (old(store.EnsureError(userID)).Some? ==> resp == Response(500, ErrorBody("storage error")))
              && (old(store.EnsureError(userID)).None? ==>
                    && store.habits == BoltStore.WithBucket(old(store.habits), userID)
                    && store.apiKeys == old(store.EnsuredAPIKeys(userID))
                    && entries == ValuesWithPrefix(old(store.UserBucket(userID)), habitID + "/")
                    && (entries == [] <==> resp == Response(404, ErrorBody("habit not found")))
                    && (entries != [] <==> resp.status == 200))
  {
    entries := [];
    if userID == "" || habitID == "" {
      return Response(400, ErrorBody("user id and habit id are required")), entries;
    }
    var err;
    entries, err := store.GetHabit(userID, habitID);
    if err.Some? {
      return Response(500, ErrorBody("storage error")), entries;
    }
    if |entries| == 0 {
      return Response(404, ErrorBody("habit not found")), entries;
    }
    resp := Response(200, "");
  }

  method DeleteHabit(store: BoltStore.Store, userID: string, habitID: string) returns (resp: Response)
    requires store.Valid()
    modifies store
    ensures store.Valid()
    ensures userID == "" || habitID == "" ==>
              resp == Response(400, ErrorBody("user id and habit id are required"))
    ensures resp.status == 400 || resp.status == 500 ==> store.habits == old(store.habits) && store.apiKeys == old(store.apiKeys)
    ensures userID != "" && habitID != "" ==>
              && (old(store.EnsureError(userID)).Some? ==> resp == Response(500, ErrorBody("storage error")))
              && (old(store.EnsureError(userID)).None? ==>
                    && resp.status == 204
                    && store.habits == old(store.habits)[userID := WithoutPrefix(old(store.UserBucket(userID)), habitID + "/")]
                    && store.apiKeys == old(store.EnsuredAPIKeys(userID)))
  {
    if userID == "" || habitID == "" {
      return Response(400, ErrorBody("user id and habit id are required"));
    }
    var err := store.DeleteHabit(userID, habitID);
    if err.Some? {
      return Response(500, ErrorBody("storage error"));
    }
    var _, _ := store.ListHabitNames(userID);
    resp := Response(204, "");
  }

  /** A tracked entry is served back by `getHabit` under its own name. */
  method TrackThenGet(h: Habit) returns (tracked: Response, got: Response, entries: seq<Habit>)
    requires ValidateHabit(h).None?
    ensures tracked.status == 201 && got.status == 200 && entries == [h]
  {
    var store := new BoltStore.Store();
    assert |"alice"| != |BoltStore.APIKeysBucket|;
    tracked := TrackHabit(store, "alice", Some(h));
    got, entries := GetHabit(store, "alice", h.Name);
    var k := BoltStore.HabitKey(h);
    assert k == (h.Name + "/") + Strings.IntToString(h.TimeStamp);
    assert Put([], k, h) == [Entry(k, h)];
    assert ValuesWithPrefix([Entry(k, h)], h.Name + "/") == [h];
  }
}
