/** The `track` command of the command-line client: exactly two arguments, the name
    and the note, both trimmed of surrounding white space before any check; an
    empty or over-long name is refused, and an accepted entry is stamped with the
    current time. Loading the configuration and posting the entry are I/O and not
    part of this model; the clock is a parameter. */
module Track {
  import opened Wrappers
  import opened Strings
  import opened Habits
  import ServerRoutes

  /** The command's own limit, looser than the server's. */
  const MaxNameLength: nat := 24

  datatype TrackError = WrongArgCount(count: nat) | EmptyName | NameTooLong

  function Message(e: TrackError): string {
    match e
    case WrongArgCount(n) => "accepts 2 arg(s), received " + NatToString(n)
    case EmptyName => "Error: habit name cannot be empty"
    case NameTooLong => "Error: habit name too long (max 24 characters)"
  }

  /** The entry `track` would post for these arguments at time `now`, or why the
      command exits first. */
  function TrackEntry(args: seq<string>, now: int): (r: Result<Habit, TrackError>)
    ensures |args| != 2 ==> r == Err(WrongArgCount(|args|))
    ensures |args| == 2 ==> (r == Err(EmptyName) <==> TrimSpace(args[0]) == "")
    ensures |args| == 2 ==> (r == Err(NameTooLong) <==> |TrimSpace(args[0])| > MaxNameLength)
    ensures r.Ok? <==> |args| == 2 && 1 <= |TrimSpace(args[0])| <= MaxNameLength
    ensures r.Ok? ==> r.value == Habit(TrimSpace(args[0]), TrimSpace(args[1]), now)
  {
    if |args| != 2 then Err(WrongArgCount(|args|))
    else
      var name := TrimSpace(args[0]);
      var note := TrimSpace(args[1]);
      if name == "" then Err(EmptyName)
      else if |name| > MaxNameLength then Err(NameTooLong)
      else Ok(Habit(name, note, now))
  }

  /** An accepted entry's name and note neither start nor end with white space, and
      tracking them again gives the same entry. */
  lemma TrackEntryIsTrimmed(args: seq<string>, now: int)
    requires TrackEntry(args, now).Ok?
    ensures var h := TrackEntry(args, now).value;
      && !IsSpace(h.Name[0]) && !IsSpace(h.Name[|h.Name| - 1])
      && TrackEntry([h.Name, h.Note], now) == Ok(h)
  {
    var _, _ := TrimSpaceSlice(args[0]);
    TrimSpaceIdempotent(args[0]);
    TrimSpaceIdempotent(args[1]);
  }

  /** A name the command accepts can still be refused by the server: 21 to 24
      characters pass here and fail the server's 20-character limit. */
  lemma LongerThanServerAllows(name: string, note: string, now: int)
    requires |name| == MaxNameLength && !IsSpace(name[0]) && !IsSpace(name[|name| - 1])
    ensures TrackEntry([name, note], now).Ok?
    ensures ServerRoutes.ValidateHabit(TrackEntry([name, note], now).value) == Some(ServerRoutes.BadName)
  {
    TrimLeftNoSpace(name);
    TrimRightNoSpace(name);
  }

  /** The 42-character name of the command's test is refused. */
  lemma VeryLongNameRefused(now: int)
    ensures TrackEntry(["averyveryverylonghabitnamethatexceedslimit", "note"], now) == Err(NameTooLong)
  {
    var name := "averyveryverylonghabitnamethatexceedslimit";
    TrimLeftNoSpace(name);
    TrimRightNoSpace(name);
  }
}
