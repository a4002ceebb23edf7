/**
 * The post card's text: the relative age of a post and the author's avatar
 * initial and handle. The age is computed from the millisecond difference
 * between now and the post's creation time (a parameter here), floored to whole
 * minutes, hours and days; a week or more shows the locale date, an opaque
 * string here.
 */
module PostCard {
  import opened Common
  import opened Types

  const MsPerMinute: int := 60000
  const MsPerHour: int := 60 * MsPerMinute
  const MsPerDay: int := 24 * MsPerHour
  const MsPerWeek: int := 7 * MsPerDay

  /** `Math.floor(a / b)` for a positive divisor. */
  function FloorDiv(a: int, b: int): (q: int)
    requires b > 0
    ensures q * b <= a < q * b + b
  {
    a / b
  }

  /** The bucket `formatDate` picks for a difference. */
  datatype Age = JustNow | MinutesAgo(minutes: int) | HoursAgo(hours: int) | DaysAgo(days: int) | OnDate

  /** The if-chain of `formatDate` over `diffMins`, `diffHours` and `diffDays`. */
  function AgeOf(diffMs: int): (age: Age)
    ensures age.MinutesAgo? ==> 1 <= age.minutes < 60
    ensures age.HoursAgo? ==> 1 <= age.hours < 24
    ensures age.DaysAgo? ==> 1 <= age.days < 7
  {
    var diffMins := FloorDiv(diffMs, 60000);
    var diffHours := FloorDiv(diffMins, 60);
    var diffDays := FloorDiv(diffHours, 24);
    if diffMins < 1 then JustNow
    else if diffMins < 60 then MinutesAgo(diffMins)
    else if diffHours < 24 then HoursAgo(diffHours)
    else if diffDays < 7 then DaysAgo(diffDays)
    else OnDate
  }

  /**
   * The buckets in milliseconds: under a minute (future times included) is
   * "just now", then whole minutes up to an hour, whole hours up to a day,
   * whole days up to a week, and the date from a week on. Each number shown is
   * the difference floored to its unit, so the buckets cover every difference
   * and never overlap.
   */
  lemma AgeThresholds(diffMs: int)
    ensures AgeOf(diffMs) == JustNow <==> diffMs < MsPerMinute
    ensures AgeOf(diffMs).MinutesAgo? <==> MsPerMinute <= diffMs < MsPerHour
    ensures AgeOf(diffMs).HoursAgo? <==> MsPerHour <= diffMs < MsPerDay
    ensures AgeOf(diffMs).DaysAgo? <==> MsPerDay <= diffMs < MsPerWeek
    ensures AgeOf(diffMs) == OnDate <==> MsPerWeek <= diffMs
    ensures AgeOf(diffMs).MinutesAgo? ==> var m := AgeOf(diffMs).minutes;
              1 <= m < 60 && m * MsPerMinute <= diffMs < (m + 1) * MsPerMinute
    ensures AgeOf(diffMs).HoursAgo? ==> var h := AgeOf(diffMs).hours;
              1 <= h < 24 && h * MsPerHour <= diffMs < (h + 1) * MsPerHour
    ensures AgeOf(diffMs).DaysAgo? ==> var d := AgeOf(diffMs).days;
              1 <= d < 7 && d * MsPerDay <= diffMs < (d + 1) * MsPerDay
  {
  }

  /** `formatDate`: the text of a bucket; `localeDate` is `date.toLocaleDateString()`. */
  function FormatDate(diffMs: int, localeDate: string): (r: string)
    ensures diffMs < MsPerMinute ==> r == "Just now"
    ensures MsPerWeek <= diffMs ==> r == localeDate
  {
    AgeThresholds(diffMs);
    match AgeOf(diffMs)
    case JustNow => "Just now"
    case MinutesAgo(m) => DecimalString(m) + "m ago"
    case HoursAgo(h) => DecimalString(h) + "h ago"
    case DaysAgo(d) => DecimalString(d) + "d ago"
    case OnDate => localeDate
  }

  /** A number followed by a unit, the number bracketing the difference in that unit. */
  ghost predicate ReadsAs(r: string, diffMs: int, n: nat, unit: string, unitMs: int) {
    r == DecimalString(n) + unit && n * unitMs <= diffMs < (n + 1) * unitMs
  }

  /**
   * Between a minute and a week the text is a number followed by the unit of
   * the difference's range (minutes under an hour, hours under a day, days
   * under a week), and the number is the difference floored to that unit.
   */
  lemma FormatDateReadsBack(diffMs: int, localeDate: string)
    ensures var r := FormatDate(diffMs, localeDate);
      && (MsPerMinute <= diffMs < MsPerHour ==> exists n: nat :: ReadsAs(r, diffMs, n, "m ago", MsPerMinute))
      && (MsPerHour <= diffMs < MsPerDay ==> exists n: nat :: ReadsAs(r, diffMs, n, "h ago", MsPerHour))
      && (MsPerDay <= diffMs < MsPerWeek ==> exists n: nat :: ReadsAs(r, diffMs, n, "d ago", MsPerDay))
  {
    AgeThresholds(diffMs);
    var r := FormatDate(diffMs, localeDate);
    match AgeOf(diffMs)
    case JustNow =>
    case OnDate =>
    case MinutesAgo(m) =>
      assert ReadsAs(r, diffMs, m, "m ago", MsPerMinute);
    case HoursAgo(h) =>
      assert ReadsAs(r, diffMs, h, "h ago", MsPerHour);
    case DaysAgo(d) =>
      assert ReadsAs(r, diffMs, d, "d ago", MsPerDay);
  }

  /**
   * The avatar letter: the author's username's first character upper-cased,
   * or "U" when there is no profile or the username is empty (ASCII case
   * mapping, one character per code unit).
   */
  function AvatarInitial(profile: Option<Profile>): (r: string)
    ensures |r| == 1 && !IsAsciiLower(r[0])
    ensures profile.None? || profile.value.username == "" ==> r == "U"
    ensures profile.Some? && profile.value.username != "" ==> r == [UpperChar(profile.value.username[0])]
  {
    if profile.Some? && profile.value.username != "" then [UpperChar(profile.value.username[0])]
    else "U"
  }

  /** The handle line: "@" and the username, or "@user" when there is none. */
  function Handle(profile: Option<Profile>): (r: string)
    ensures |r| >= 2 && r[0] == '@'
    ensures profile.Some? && profile.value.username != "" ==> r[1..] == profile.value.username
    ensures profile.None? || profile.value.username == "" ==> r == "@user"
  {
    if profile.Some? && profile.value.username != "" then "@" + profile.value.username else "@user"
  }
}
