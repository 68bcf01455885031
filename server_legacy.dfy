/** The single-user revision of the server: its own copy of `validateHabit`, and
    habit handlers that always act for the fixed user "XXX". Its tests run it over
    the in-memory store, as here. Its state store and middleware helpers
    (`acceptsHTML`, `strClaim`) are line for line those of the multi-provider
    revision and are modelled once, in OAuthState and AuthMiddleware. */
module ServerLegacy {
  import opened Wrappers
  import opened Habits
  import MemStore
  import ServerRoutes

  /** The user every handler of this revision acts for. */
  const UserID := "XXX"

  /** This revision's `validateHabit`, with its own constants. */
  function ValidateHabit(h: Habit): (r: Option<ServerRoutes.HabitError>)
    ensures r.None? <==> 1 <= |h.Name| <= 20 && |h.Note| <= 1024 && 946684800 <= h.TimeStamp <= 4102444800
  {
    if |h.Name| == 0 || |h.Name| > 20 then Some(ServerRoutes.BadName)
    else if |h.Note| > 1024 then Some(ServerRoutes.BadNote)
    else if h.TimeStamp < 946684800 || h.TimeStamp > 4102444800 then Some(ServerRoutes.BadTimestamp)
    else None
  }

  /** Both revisions reject the same entries with the same error. */
  lemma SameRuleAsServerRoutes(h: Habit)
    ensures ValidateHabit(h) == ServerRoutes.ValidateHabit(h)
  {
  }

  datatype Response = Response(status: int, body: string)

  method TrackHabit(store: MemStore.MemStore, body: Option<Habit>) returns (resp: Response)
    modifies store
    ensures body.None? ==> resp == Response(400, ServerRoutes.ErrorBody("invalid JSON"))
    ensures body.Some? && ValidateHabit(body.value).Some? ==>
              resp == Response(400, ServerRoutes.ErrorBody(ServerRoutes.ErrorMessage(ValidateHabit(body.value).value)))
    ensures resp.status != 400 <==> body.Some? && ValidateHabit(body.value).None?
    ensures resp.status == 400 ==> store.habits == old(store.habits)
    ensures resp.status != 400 ==>
              resp.status == 201 &&
              store.habits == old(store.habits)[body.value.Name := old(store.Entries(body.value.Name)) + [body.value]]
    ensures store.apiKeys == old(store.apiKeys) && store.refreshTokens == old(store.refreshTokens)
  {
    if body.None? {
      return Response(400, ServerRoutes.ErrorBody("invalid JSON"));
    }
    var h := body.value;
    var err := ValidateHabit(h);
    if err.Some? {
      return Response(400, ServerRoutes.ErrorBody(ServerRoutes.ErrorMessage(err.value)));
    }
    store.PutHabit(UserID, h);
    var _ := store.ListHabitNames(UserID);
    resp := Response(201, "");
  }

  method ListHabits(store: MemStore.MemStore) returns (resp: Response, names: seq<string>)
    ensures resp.status == 200
    ensures MemStore.NoDuplicates(names) && |names| == |store.habits.Keys|
    ensures forall n :: n in names <==> n in store.habits
  {
    names := store.ListHabitNames(UserID);
    resp := Response(200, "");
  }

  /** `getHabit`: 400 without an ID, 404 when the store has no entries for it. */
  method GetHabit(store: MemStore.MemStore, id: string) returns (resp: Response, entries: seq<Habit>)
    ensures id == "" ==> resp == Response(400, ServerRoutes.ErrorBody("habit id is required")) && entries == []
    ensures id != "" ==> entries == store.Entries(id)
    ensures id != "" ==> (resp == Response(404, ServerRoutes.ErrorBody("habit not found")) <==> entries == [])
    ensures id != "" ==> (resp.status == 200 <==> entries != [])
    ensures id != "" && id !in store.habits ==> resp.status == 404
  {
    entries := [];
    if id == "" {
      return Response(400, ServerRoutes.ErrorBody("habit id is required")), entries;
    }
    entries := store.GetHabit(UserID, id);
    if |entries| == 0 {
      return Response(404, ServerRoutes.ErrorBody("habit not found")), entries;
    }
    resp := Response(200, "");
  }

  method DeleteHabit(store: MemStore.MemStore, id: string) returns (resp: Response)
    modifies store
    ensures id == "" ==> resp == Response(400, ServerRoutes.ErrorBody("habit id is required")) &&
                         store.habits == old(store.habits)
    ensures id != "" ==> resp.status == 204 && store.habits == old(store.habits) - {id}
    ensures store.apiKeys == old(store.apiKeys) && store.refreshTokens == old(store.refreshTokens)
  {
    if id == "" {
      return Response(400, ServerRoutes.ErrorBody("habit id is required"));
    }
    store.DeleteHabit(UserID, id);
    var _ := store.ListHabitNames(UserID);
    resp := Response(204, "");
  }

  /** A valid entry is accepted with 201 and is what `getHabit` then serves. */
  method TrackThenGet(h: Habit) returns (tracked: Response, got: Response, entries: seq<Habit>)
    requires ValidateHabit(h).None?
    ensures tracked.status == 201 && got.status == 200 && entries == [h]
  {
    var store := new MemStore.MemStore();
    tracked := TrackHabit(store, Some(h));
    got, entries := GetHabit(store, h.Name);
  }

  /** A fresh server lists no habits. */
  method ListEmpty() returns (resp: Response, names: seq<string>)
    ensures resp.status == 200 && names == []
  {
    var store := new MemStore.MemStore();
    resp, names := ListHabits(store);
    assert store.habits.Keys == {};
  }
}
