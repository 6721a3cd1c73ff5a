/** `getRelativeTime`, identical on the notes and files pages: an age in milliseconds shown
    as "Just now" or a whole number of minutes, hours, days, weeks, months (30 days) or
    years (365 days), each rounded down. */
module RelativeTime {
  import opened Text

  const MinuteMs := 60000
  const HourMs := 3600000
  const DayMs := 86400000

  /** The unit the age is shown in, with the count shown. */
  datatype Age =
    | JustNow
    | Minutes(n: nat)
    | Hours(n: nat)
    | Days(n: nat)
    | Weeks(n: nat)
    | Months(n: nat)
    | Years(n: nat)

  /** The branch `getRelativeTime` takes for a difference of `diffMs` milliseconds. Every
      `Math.floor` divides by a positive constant, where floor division and Dafny's
      Euclidean division agree, also for a negative difference (a date in the future). */
  function AgeOf(diffMs: int): Age {
    var mins := diffMs / MinuteMs;
    var hours := diffMs / HourMs;
    var days := diffMs / DayMs;
    if mins < 1 then JustNow
    else if mins < 60 then Minutes(mins)
    else if hours < 24 then Hours(hours)
    else if days < 7 then Days(days)
    else if days < 30 then Weeks(days / 7)
    else if days < 365 then Months(days / 30)
    else Years(days / 365)
  }

  function Render(a: Age): string {
    match a
    case JustNow => "Just now"
    case Minutes(n) => DecimalString(n) + "m ago"
    case Hours(n) => DecimalString(n) + "h ago"
    case Days(n) => DecimalString(n) + "d ago"
    case Weeks(n) => DecimalString(n) + "w ago"
    case Months(n) => DecimalString(n) + "mo ago"
    case Years(n) => DecimalString(n) + "y ago"
  }

  function RelativeTimeText(diffMs: int): string {
    Render(AgeOf(diffMs))
  }

  /** Each unit covers exactly one interval of ages, and shows the age rounded down in
      that unit. */
  lemma Buckets(d: int)
    ensures AgeOf(d).JustNow? <==> d < MinuteMs
    ensures AgeOf(d).Minutes? <==> MinuteMs <= d < HourMs
    ensures AgeOf(d).Hours? <==> HourMs <= d < DayMs
    ensures AgeOf(d).Days? <==> DayMs <= d < 7 * DayMs
    ensures AgeOf(d).Weeks? <==> 7 * DayMs <= d < 30 * DayMs
    ensures AgeOf(d).Months? <==> 30 * DayMs <= d < 365 * DayMs
    ensures AgeOf(d).Years? <==> 365 * DayMs <= d
    ensures AgeOf(d).Minutes? ==> AgeOf(d).n == d / MinuteMs && 1 <= AgeOf(d).n < 60
    ensures AgeOf(d).Hours? ==> AgeOf(d).n == d / HourMs && 1 <= AgeOf(d).n < 24
    ensures AgeOf(d).Days? ==> AgeOf(d).n == d / DayMs && 1 <= AgeOf(d).n < 7
    ensures AgeOf(d).Weeks? ==> AgeOf(d).n == d / (7 * DayMs) && 1 <= AgeOf(d).n <= 4
    ensures AgeOf(d).Months? ==> AgeOf(d).n == d / (30 * DayMs) && 1 <= AgeOf(d).n <= 12
    ensures AgeOf(d).Years? ==> AgeOf(d).n == d / (365 * DayMs) && AgeOf(d).n >= 1
  {
  }

  /** The units from the smallest to the largest. */
  function UnitRank(a: Age): nat {
    match a
    case JustNow => 0
    case Minutes(_) => 1
    case Hours(_) => 2
    case Days(_) => 3
    case Weeks(_) => 4
    case Months(_) => 5
    case Years(_) => 6
  }

  /** An older item never shows a smaller unit. */
  lemma UnitsGrowWithAge(d1: int, d2: int)
    requires d1 <= d2
    ensures UnitRank(AgeOf(d1)) <= UnitRank(AgeOf(d2))
  {
    Buckets(d1);
    Buckets(d2);
  }

  /** "Just now" is shown exactly for ages under a minute (a counted age starts with a
      digit), and the counted texts carry the age rounded down in their unit. */
  lemma RenderNamesUnit(d: int)
    ensures RelativeTimeText(d) == "Just now" <==> d < MinuteMs
    ensures AgeOf(d).Minutes? ==> RelativeTimeText(d) == DecimalString(d / MinuteMs) + "m ago"
    ensures AgeOf(d).Months? ==> RelativeTimeText(d) == DecimalString(d / (30 * DayMs)) + "mo ago"
  {
    Buckets(d);
    var t := RelativeTimeText(d);
    if !AgeOf(d).JustNow? {
      var n := DecimalString(AgeOf(d).n);
      assert t[|n|] != 'J';
    }
  }
}
