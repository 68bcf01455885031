/** The web client's string and number helpers: title case, the habit named by a
    page path, this month's share of days as a rounded percentage, and month
    abbreviations. The number of days in the current month, which the client reads
    from the clock, is a parameter. */
module Utils {
  import opened Wrappers
  import opened Strings

  /** `toTitleCase`: the first character upper-cased, the rest as it was. */
  function ToTitleCase(s: string): (r: string)
    ensures |r| == |s|
    ensures s != "" ==> r[0] == UpperChar(s[0]) && r[1..] == s[1..]
  {
    if s == "" then "" else [UpperChar(s[0])] + s[1..]
  }

  lemma ToTitleCaseIdempotent(s: string)
    ensures ToTitleCase(ToTitleCase(s)) == ToTitleCase(s)
  {
  }

  /** `getHabitFromURL`: the third '/'-separated segment of the path when the second
      is "habits", else `None` (JavaScript's `null`). */
  function HabitFromPath(path: string): (r: Option<string>)
    ensures r.Some? ==> '/' !in r.value
  {
    var parts := Split(path, '/');
    SplitPartsHaveNoSeparator(path, '/');
    if |parts| >= 3 && parts[1] == "habits" then Some(parts[2]) else None
  }

  /** No segment contains the separator. */
  lemma {:induction false} SplitPartsHaveNoSeparator(s: string, c: char)
    ensures forall i :: 0 <= i < |Split(s, c)| ==> c !in Split(s, c)[i]
    decreases |s|
  {
    match IndexOf(s, c)
    case None =>
    case Some(i) =>
      SplitPartsHaveNoSeparator(s[i + 1..], c);
  }

  /** Three separator-free segments joined by separators split back into them. */
  lemma SplitThree(a: string, b: string, c: string)
    requires '/' !in a && '/' !in b && '/' !in c
    ensures Split(a + ['/'] + b + ['/'] + c, '/') == [a, b, c]
  {
    var tail := b + ['/'] + c;
    assert a + ['/'] + b + ['/'] + c == a + ['/'] + tail;
    SplitJoin(a, '/', tail);
    SplitJoin(b, '/', c);
    assert Split(c, '/') == [c];
    assert Split(tail, '/') == [b, c];
  }

  /** A two-segment path names a habit exactly when its first segment is "habits":
      "/habits/guitar" gives "guitar", "/habits/" gives "" and "/about/x" gives
      nothing. */
  lemma HabitFromPathNamesHabit(segment: string, name: string)
    requires '/' !in segment && '/' !in name
    ensures HabitFromPath("/" + segment + "/" + name) == if segment == "habits" then Some(name) else None
  {
    assert "/" + segment + "/" + name == "" + ['/'] + segment + ['/'] + name;
    SplitThree("", segment, name);
  }

  /** Two separator-free segments in front come off as the first two parts. */
  lemma SplitTwoFront(a: string, b: string, rest: string)
    requires '/' !in a && '/' !in b
    ensures Split(a + ['/'] + b + ['/'] + rest, '/') == [a, b] + Split(rest, '/')
  {
    var tail := b + ['/'] + rest;
    assert a + ['/'] + b + ['/'] + rest == a + ['/'] + tail;
    SplitJoin(b, '/', rest);
    var parts := Split(rest, '/');
    assert Split(tail, '/') == [b] + parts;
    SplitJoin(a, '/', tail);
    assert [a] + ([b] + parts) == [a, b] + parts;
  }

  /** Further segments after the habit's name do not change it. */
  lemma HabitFromPathIgnoresRest(segment: string, name: string, rest: string)
    requires '/' !in segment && '/' !in name
    ensures HabitFromPath("/" + segment + "/" + name + "/" + rest) == if segment == "habits" then Some(name) else None
  {
    var tail := segment + ['/'] + name + ['/'] + rest;
    assert "/" + segment + "/" + name + "/" + rest == "" + ['/'] + tail;
    SplitJoin("", '/', tail);
    SplitTwoFront(segment, name, rest);
  }

  /** A path with fewer than three segments names nothing: "/" and "/habits" give
      `None`. */
  lemma ShortPathsNameNothing(segment: string)
    requires '/' !in segment
    ensures HabitFromPath("/" + segment).None?
  {
    assert "/" + segment == "" + ['/'] + segment;
    SplitJoin("", '/', segment);
  }

  /** `Math.round(100 * days / total)`: the nearest integer, halves rounded up. */
  function RoundedPercent(days: nat, total: int): (p: int)
    requires total > 0
    ensures 2 * total * p - total <= 200 * days < 2 * total * p + total
  {
    (200 * days + total) / (2 * total)
  }

  /** `computeDaysThisMonthAsPercentage`, for a month of `total` days. */
  function DaysThisMonthAsPercentage(days: nat, total: int): (r: string)
    requires 28 <= total <= 31
    ensures |r| >= 2 && r[|r| - 1] == '%'
    ensures ParseInt(r[..|r| - 1]) == Some(RoundedPercent(days, total))
  {
    var p := RoundedPercent(days, total);
    IntToStringRoundTrip(p);
    assert (IntToString(p) + "%")[..|IntToString(p)|] == IntToString(p);
    IntToString(p) + "%"
  }

  /** With `t > 0`, a smaller multiplier gives a product at least `t` smaller. */
  lemma {:induction false} MulStep(t: int, a: int, b: int)
    requires t > 0 && a < b
    ensures t * a + t <= t * b
    decreases b - a
  {
    if b - a > 1 {
      MulStep(t, a, b - 1);
      assert t * b == t * (b - 1) + t;
    } else {
      assert t * b == t * a + t;
    }
  }

  /** Rounding picks the one integer within half a unit (halves going up). */
  lemma RoundedPercentUnique(days: nat, total: int, q: int)
    requires total > 0
    requires 2 * total * q - total <= 200 * days < 2 * total * q + total
    ensures q == RoundedPercent(days, total)
  {
    var p := RoundedPercent(days, total);
    assert 2 * total * q == 2 * (total * q) && 2 * total * p == 2 * (total * p);
    if q < p {
      MulStep(total, q, p);
    } else if q > p {
      MulStep(total, p, q);
    }
  }

  /** No days is 0%, every day is 100%. */
  lemma PercentageEnds(total: int)
    requires 28 <= total <= 31
    ensures DaysThisMonthAsPercentage(0, total) == "0%"
    ensures DaysThisMonthAsPercentage(total, total) == "100%"
  {
    RoundedPercentUnique(0, total, 0);
    assert 2 * total * 100 == 200 * total;
    RoundedPercentUnique(total, total, 100);
    assert NatToString(10) == "10";
    assert NatToString(100) == "100";
  }

  const Months := ["Jan", "Feb", "Mar", "Apr", "May", "Jun", "Jul", "Aug", "Sep", "Oct", "Nov", "Dec"]

  /** `intToMonth`: the abbreviation of month 1 to 12; outside that range the table
      lookup is `undefined`, here `None`. */
  function IntToMonth(month: int): (r: Option<string>)
    ensures r.Some? <==> 1 <= month <= 12
    ensures r.Some? ==> |r.value| == 3
  {
    if 1 <= month <= 12 then Some(Months[month - 1]) else None
  }

  /** The table's ends, and no two months share a name. */
  lemma IntToMonthTable()
    ensures IntToMonth(1) == Some("Jan") && IntToMonth(12) == Some("Dec") && IntToMonth(0).None?
    ensures forall m, n :: 1 <= m < n <= 12 ==> IntToMonth(m) != IntToMonth(n)
  {
  }
}
