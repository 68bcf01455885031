/** The nudge job: ask the API for the habit names and each habit's summary, keep
    the habits whose streak is about to lapse, and send a reminder only when there
    is at least one. A streak lapses 24 hours after the last write. The API client,
    the clock and the notifier are parameters; times are Unix seconds. */
module Nudge {
  import opened Wrappers

  /** The summary fields the job reads. */
  datatype Summary = Summary(Name: string, CurrentStreak: int, LastWrite: int)

  const Day: int := 86400
  const Hour: int := 3600

  /** Active streak, cutoff still ahead of `now`, and no more than `within` away. */
  predicate Expiring(s: Summary, now: int, within: int) {
    var cutoff := s.LastWrite + Day;
    s.CurrentStreak > 0 && now < cutoff && cutoff - now <= within
  }

  /** What the loop computes over the listed names: the names of the expiring
      summaries in list order, or the first error a summary lookup returns. */
  function ExpiringIn(names: seq<string>, summary: string -> Result<Summary, string>, now: int, within: int)
    : (r: Result<seq<string>, string>)
    ensures r.Ok? ==> |r.value| <= |names|
    decreases |names|
  {
    if |names| == 0 then Ok([])
    else
      match ExpiringIn(names[..|names| - 1], summary, now, within)
      case Err(e) => Err(e)
      case Ok(acc) =>
        match summary(names[|names| - 1])
        case Err(e) => Err(e)
        case Ok(s) => Ok(if Expiring(s, now, within) then acc + [s.Name] else acc)
  }

  /** The job fails exactly when some summary lookup fails, and then with the
      error of the first one. */
  lemma {:induction false} ExpiringInError(names: seq<string>, summary: string -> Result<Summary, string>, now: int, within: int)
    ensures ExpiringIn(names, summary, now, within).Err? <==> exists i :: 0 <= i < |names| && summary(names[i]).Err?
    ensures ExpiringIn(names, summary, now, within).Err? ==>
              exists i :: 0 <= i < |names| && summary(names[i]) == Err(ExpiringIn(names, summary, now, within).error) &&
                          forall j :: 0 <= j < i ==> summary(names[j]).Ok?
    decreases |names|
  {
    if |names| > 0 {
      var init := names[..|names| - 1];
      ExpiringInError(init, summary, now, within);
      assert forall i :: 0 <= i < |init| ==> init[i] == names[i];
      if ExpiringIn(init, summary, now, within).Err? {
        var i :| 0 <= i < |init| && summary(init[i]) == Err(ExpiringIn(init, summary, now, within).error) &&
                 forall j :: 0 <= j < i ==> summary(init[j]).Ok?;
        assert summary(names[i]) == summary(init[i]);
      } else if summary(names[|names| - 1]).Err? {
        assert forall j :: 0 <= j < |names| - 1 ==> summary(names[j]).Ok?;
      }
    }
  }

  /** Without errors, a name is in the result exactly when some listed habit's
      summary carries it and is expiring. */
  lemma {:induction false} ExpiringInMembers(names: seq<string>, summary: string -> Result<Summary, string>, now: int,
                                             within: int, x: string)
    requires ExpiringIn(names, summary, now, within).Ok?
    ensures x in ExpiringIn(names, summary, now, within).value <==>
              exists i :: 0 <= i < |names| && summary(names[i]).Ok? && summary(names[i]).value.Name == x &&
                          Expiring(summary(names[i]).value, now, within)
    decreases |names|
  {
    if |names| > 0 {
      var init := names[..|names| - 1];
      assert ExpiringIn(init, summary, now, within).Ok?;
      ExpiringInMembers(init, summary, now, within, x);
      assert forall i :: 0 <= i < |init| ==> init[i] == names[i];
      var last := |names| - 1;
      if exists i :: 0 <= i < |names| && summary(names[i]).Ok? && summary(names[i]).value.Name == x &&
                     Expiring(summary(names[i]).value, now, within) {
        var i :| 0 <= i < |names| && summary(names[i]).Ok? && summary(names[i]).value.Name == x &&
                 Expiring(summary(names[i]).value, now, within);
        if i < last {
          assert init[i] == names[i];
        }
      }
    }
  }

  /** When every summary is found under its own name, the result is the
      subsequence of the listed names that are expiring. */
  function Filtered(names: seq<string>, summary: string -> Result<Summary, string>, now: int, within: int): seq<string>
    decreases |names|
  {
    if |names| == 0 then []
    else
      var s := summary(names[|names| - 1]);
      Filtered(names[..|names| - 1], summary, now, within) +
        (if s.Ok? && Expiring(s.value, now, within) then [names[|names| - 1]] else [])
  }

  lemma {:induction false} ExpiringInIsFilter(names: seq<string>, summary: string -> Result<Summary, string>, now: int, within: int)
    requires forall i :: 0 <= i < |names| ==> summary(names[i]).Ok? && summary(names[i]).value.Name == names[i]
    ensures ExpiringIn(names, summary, now, within) == Ok(Filtered(names, summary, now, within))
    decreases |names|
  {
    if |names| > 0 {
      var init := names[..|names| - 1];
      assert forall i :: 0 <= i < |init| ==> init[i] == names[i];
      ExpiringInIsFilter(init, summary, now, within);
      var s := summary(names[|names| - 1]);
      assert s.Ok? && s.value.Name == names[|names| - 1];
      var tail := if Expiring(s.value, now, within) then [names[|names| - 1]] else [];
      assert Filtered(names, summary, now, within) == Filtered(init, summary, now, within) + tail;
      var acc := Filtered(init, summary, now, within);
      assert ExpiringIn(init, summary, now, within) == Ok(acc);
      assert ExpiringIn(names, summary, now, within) ==
             Ok(if Expiring(s.value, now, within) then acc + [s.value.Name] else acc);
      if !Expiring(s.value, now, within) {
        assert acc + tail == acc;
      }
    }
  }

  /** Once a prefix of the names fails, the whole run fails with the same error. */
  lemma {:induction false} ExpiringInErrorSticks(names: seq<string>, k: nat, summary: string -> Result<Summary, string>,
                                                 now: int, within: int)
    requires k <= |names| && ExpiringIn(names[..k], summary, now, within).Err?
    ensures ExpiringIn(names, summary, now, within) == ExpiringIn(names[..k], summary, now, within)
    decreases |names|
  {
    if k < |names| {
      var init := names[..|names| - 1];
      assert init[..k] == names[..k];
      ExpiringInErrorSticks(init, k, summary, now, within);
    } else {
      assert names[..k] == names;
    }
  }

  /** `GetHabitsExpiringIn`: a listing error or the first summary error aborts
      with that error; otherwise the loop appends each expiring summary's name. */
  method GetHabitsExpiringIn(listed: Result<seq<string>, string>, summary: string -> Result<Summary, string>,
                             now: int, within: int)
    returns (r: Result<seq<string>, string>)
    ensures listed.Err? ==> r == Err(listed.error)
    ensures listed.Ok? ==> r == ExpiringIn(listed.value, summary, now, within)
  {
    if listed.Err? {
      return Err(listed.error);
    }
    var habits := listed.value;
    var expiring: seq<string> := [];
    var i := 0;
    while i < |habits|
      invariant 0 <= i <= |habits|
      invariant ExpiringIn(habits[..i], summary, now, within) == Ok(expiring)
    {
      assert habits[..i + 1][..i] == habits[..i];
      var h := summary(habits[i]);
      if h.Err? {
        assert ExpiringIn(habits[..i + 1], summary, now, within) == Err(h.error);
        ExpiringInErrorSticks(habits, i + 1, summary, now, within);
        return Err(h.error);
      }
      var cutoff := h.value.LastWrite + Day;
      if h.value.CurrentStreak > 0 && now < cutoff && cutoff - now <= within {
        expiring := expiring + [h.value.Name];
      }
      i := i + 1;
    }
    assert habits[..i] == habits;
    r := Ok(expiring);
  }

  /** The strict `Before`: a cutoff exactly at `now` has passed; one exactly
      `within` ahead is still in. */
  lemma CutoffEdges(s: Summary, now: int, within: int)
    requires s.CurrentStreak > 0
    ensures s.LastWrite + Day == now ==> !Expiring(s, now, within)
    ensures s.LastWrite + Day - now == within && within > 0 ==> Expiring(s, now, within)
  {
  }

  /** A write 2 hours before `now` (2024-01-02 22:00 UTC) with a 2-hour window
      lapses in 22 hours, so nothing is expiring yet. */
  lemma NothingExpiringYet(summary: string -> Result<Summary, string>)
    requires summary("guitar") == Ok(Summary("guitar", 3, 1704225600))
    requires summary("coding") == Ok(Summary("coding", 0, 1704225600))
    ensures ExpiringIn(["guitar", "coding"], summary, 1704232800, 2 * Hour) == Ok([])
  {
    var names := ["guitar", "coding"];
    assert names[..1] == ["guitar"] && names[..1][..0] == [];
  }

  /** What `Nudge` hands the notifier: the expiring names and the threshold in
      hours, or nothing. */
  method Nudge(listed: Result<seq<string>, string>, summary: string -> Result<Summary, string>, now: int,
               thresholdHours: int)
    returns (sent: Option<(seq<string>, int)>)
    ensures var r := if listed.Err? then Err(listed.error) else ExpiringIn(listed.value, summary, now, thresholdHours * Hour);
      && (sent.Some? <==> r.Ok? && r.value != [])
      && (sent.Some? ==> sent.value == (r.value, thresholdHours))
  {
    var r := GetHabitsExpiringIn(listed, summary, now, thresholdHours * Hour);
    // on an error the job reports it and carries on with no names
    var expiring := if r.Ok? then r.value else [];
    if |expiring| > 0 {
      sent := Some((expiring, thresholdHours));
    } else {
      sent := None;
    }
  }
}
