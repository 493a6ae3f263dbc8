/**
 * "Time ago" labels. Two families exist in the dashboard:
 *  - minute buckets (notification centre, announcement card, recent activity): whole minutes
 *    below an hour, whole hours below a day, otherwise whole days, written either long
 *    ("5 minutes ago", "1 hour ago", "3 days ago") or compact ("5m ago", "1h ago", "3d ago");
 *  - hour buckets (user table, activity tracker): "Just now" below an hour, "Nh ago" below a day,
 *    "Nd ago" below a week, otherwise a locale date.
 * Timestamps are integer milliseconds; `now` is a parameter.
 */
module TimeAgo {
  import opened Optional
  import opened Text
  import Dates

  // ---------------------------------------------------------------------
  // Elapsed time, rounded down

  /** `Math.floor((now - at) / 60000)`: the largest whole number of minutes not after the gap. */
  function ElapsedMinutes(now: int, at: int): (m: int)
    ensures m * Dates.MillisPerMinute <= now - at < (m + 1) * Dates.MillisPerMinute
  {
    (now - at) / Dates.MillisPerMinute
  }

  /** `Math.floor((now - at) / 3600000)`: the largest whole number of hours not after the gap. */
  function ElapsedHours(now: int, at: int): (h: int)
    ensures h * Dates.MillisPerHour <= now - at < (h + 1) * Dates.MillisPerHour
  {
    (now - at) / Dates.MillisPerHour
  }

  // ---------------------------------------------------------------------
  // Minute buckets

  datatype Span = Minutes(count: int) | Hours(count: int) | Days(count: int)

  /** The bucket for `m` elapsed minutes; hours and days are rounded down. */
  function MinuteSpan(m: int): (sp: Span)
    ensures sp.Minutes? <==> m < 60
    ensures sp.Hours? <==> 60 <= m < 1440
    ensures sp.Days? <==> 1440 <= m
    ensures sp.Minutes? ==> sp.count == m
    ensures sp.Hours? ==> 1 <= sp.count <= 23 && sp.count * 60 <= m < sp.count * 60 + 60
    ensures sp.Days? ==> 1 <= sp.count && sp.count * 1440 <= m < sp.count * 1440 + 1440
  {
    if m < 60 then Minutes(m) else if m < 1440 then Hours(m / 60) else Days(m / 1440)
  }

  /** 'hour' and 'day' take an 's' only above one. */
  function Plural(n: int): string {
    if n > 1 then "s" else ""
  }

  /** The long label: "N minutes ago" (always plural), "N hour(s) ago", "N day(s) ago". */
  function LongText(sp: Span): string {
    match sp
    case Minutes(n) => IntToString(n) + " minutes ago"
    case Hours(n) => IntToString(n) + " hour" + Plural(n) + " ago"
    case Days(n) => IntToString(n) + " day" + Plural(n) + " ago"
  }

  /** The compact label: "Nm ago", "Nh ago", "Nd ago". */
  function CompactText(sp: Span): string {
    match sp
    case Minutes(n) => IntToString(n) + "m ago"
    case Hours(n) => IntToString(n) + "h ago"
    case Days(n) => IntToString(n) + "d ago"
  }

  /** The notification centre's and the dashboard announcement card's `formatTimeAgo`. */
  function FormatLong(now: int, at: int): string {
    LongText(MinuteSpan(ElapsedMinutes(now, at)))
  }

  /** The recent-activity item's `formatTimeAgo`. */
  function FormatCompact(now: int, at: int): string {
    CompactText(MinuteSpan(ElapsedMinutes(now, at)))
  }

  // ---------------------------------------------------------------------
  // Reading a label back

  predicate IsDigit(c: char) {
    '0' <= c <= '9'
  }

  /** The number of leading decimal digits of `s`. */
  function DigitRun(s: string): (k: nat)
    ensures k <= |s|
    ensures forall i :: 0 <= i < k ==> IsDigit(s[i])
    ensures k < |s| ==> !IsDigit(s[k])
  {
    if s != [] && IsDigit(s[0]) then 1 + DigitRun(s[1..]) else 0
  }

  /** A label split into its leading count and the text after it. */
  function SplitCount(s: string): Option<(nat, string)> {
    var k := DigitRun(s);
    if k == 0 then None else Some((DigitsValue(s[..k]), s[k..]))
  }

  /** Reads a compact label back into its bucket. */
  function ParseCompact(s: string): (r: Option<Span>)
    ensures r.Some? ==> r.value.count >= 0
  {
    match SplitCount(s)
    case None => None
    case Some((n, rest)) =>
      if rest == "m ago" then Some(Minutes(n))
      else if rest == "h ago" then Some(Hours(n))
      else if rest == "d ago" then Some(Days(n))
      else None
  }

  /** Reads a long label back into its bucket; the plural 's' must agree with the count. */
  function ParseLong(s: string): (r: Option<Span>)
    ensures r.Some? ==> r.value.count >= 0
  {
    match SplitCount(s)
    case None => None
    case Some((n, rest)) =>
      if rest == " minutes ago" then Some(Minutes(n))
      else if rest == " hour" + Plural(n) + " ago" then Some(Hours(n))
      else if rest == " day" + Plural(n) + " ago" then Some(Days(n))
      else None
  }

  lemma {:induction false} DigitRunOfDigits(d: string, rest: string)
    requires forall i :: 0 <= i < |d| ==> IsDigit(d[i])
    requires rest != [] && !IsDigit(rest[0])
    ensures DigitRun(d + rest) == |d|
  {
    if d != [] {
      assert (d + rest)[1..] == d[1..] + rest;
      DigitRunOfDigits(d[1..], rest);
    } else {
      assert d + rest == rest;
    }
  }

  /** A natural number followed by a non-digit splits back into the number and the rest. */
  lemma SplitNumber(n: nat, rest: string)
    requires rest != [] && !IsDigit(rest[0])
    ensures SplitCount(NatToString(n) + rest) == Some((n, rest))
  {
    var d := NatToString(n);
    DigitRunOfDigits(d, rest);
    assert (d + rest)[..|d|] == d;
    assert (d + rest)[|d|..] == rest;
    NatToStringRoundTrip(n);
  }

  /** The compact label loses nothing: its bucket and count can be read back. */
  lemma CompactRoundTrip(sp: Span)
    requires sp.count >= 0
    ensures ParseCompact(CompactText(sp)) == Some(sp)
  {
    var n := sp.count;
    var rest := if sp.Minutes? then "m ago" else if sp.Hours? then "h ago" else "d ago";
    assert CompactText(sp) == NatToString(n) + rest;
    SplitNumber(n, rest);
    if !sp.Minutes? {
      assert rest[0] != "m ago"[0];
    }
    if sp.Days? {
      assert rest[0] != "h ago"[0];
    }
  }

  /** The long label loses nothing either. */
  lemma LongRoundTrip(sp: Span)
    requires sp.count >= 0
    ensures ParseLong(LongText(sp)) == Some(sp)
  {
    match sp
    case Minutes(n) =>
      SplitNumber(n, " minutes ago");
    case Hours(n) =>
      LongHoursRoundTrip(n);
    case Days(n) =>
      LongDaysRoundTrip(n);
  }

  lemma LongHoursRoundTrip(n: nat)
    ensures ParseLong(LongText(Hours(n))) == Some(Hours(n))
  {
    var rest := " hour" + Plural(n) + " ago";
    assert rest == " hour" + (Plural(n) + " ago");
    assert rest[1] == 'h' && rest[1] != " minutes ago"[1];
    assert LongText(Hours(n)) == NatToString(n) + rest;
    SplitNumber(n, rest);
  }

  lemma LongDaysRoundTrip(n: nat)
    ensures ParseLong(LongText(Days(n))) == Some(Days(n))
  {
    var rest := " day" + Plural(n) + " ago";
    assert rest == " day" + (Plural(n) + " ago");
    assert rest[1] == 'd' && rest[1] != " minutes ago"[1];
    var hourText := " hour" + Plural(n) + " ago";
    assert hourText[1] == 'h';
    assert rest != hourText;
    assert LongText(Days(n)) == NatToString(n) + rest;
    SplitNumber(n, rest);
  }

  /**
   * For a timestamp that is not in the future, the long and the compact label name the same
   * bucket and count: the buckets of elapsed minutes, read back.
   */
  lemma LabelsAgree(now: int, at: int)
    ensures at <= now ==> ParseLong(FormatLong(now, at)) == Some(MinuteSpan(ElapsedMinutes(now, at)))
    ensures at <= now ==> ParseCompact(FormatCompact(now, at)) == Some(MinuteSpan(ElapsedMinutes(now, at)))
  {
    if at <= now {
      var sp := MinuteSpan(ElapsedMinutes(now, at));
      LongRoundTrip(sp);
      CompactRoundTrip(sp);
    }
  }

  /** Bucket edges of the compact label: 59 minutes, one hour, one day. */
  lemma CompactEdges()
    ensures CompactText(MinuteSpan(59)) == "59m ago"
    ensures CompactText(MinuteSpan(60)) == "1h ago"
    ensures CompactText(MinuteSpan(1440)) == "1d ago"
  {
    CompactAt59();
    assert MinuteSpan(60) == Hours(1) && MinuteSpan(1440) == Days(1);
    assert IntToString(1) == "1";
  }

  lemma CompactAt59()
    ensures CompactText(MinuteSpan(59)) == "59m ago"
  {
    assert MinuteSpan(59) == Minutes(59);
    assert NatToString(5) == "5" && NatToString(9) == "9";
    assert IntToString(59) == NatToString(5) + [DigitChar(9)] == "59";
  }

  /** 'minutes' is always plural, even for one minute. */
  lemma MinutesAlwaysPlural()
    ensures LongText(MinuteSpan(1)) == "1 minutes ago"
  {
    assert IntToString(1) == "1";
  }

  /** One hour is singular, two hours plural. */
  lemma HourPlural()
    ensures LongText(MinuteSpan(60)) == "1 hour ago"
    ensures LongText(MinuteSpan(120)) == "2 hours ago"
  {
    assert IntToString(1) == "1" && IntToString(2) == "2";
    assert MinuteSpan(60) == Hours(1);
    assert MinuteSpan(120) == Hours(2);
  }

  /** One day is singular, two days plural. */
  lemma DayPlural()
    ensures LongText(MinuteSpan(1440)) == "1 day ago"
    ensures LongText(MinuteSpan(2880)) == "2 days ago"
  {
    assert IntToString(1) == "1" && IntToString(2) == "2";
    assert MinuteSpan(1440) == Days(1);
    assert MinuteSpan(2880) == Days(2);
  }

  // ---------------------------------------------------------------------
  // Hour buckets

  /** `OnDate` is shown with the locale date formatter; the others are fixed texts. */
  datatype Recency = JustNow | HoursAgo(hours: int) | DaysAgo(days: int) | OnDate

  /** The bucket for `h` elapsed hours. */
  function HourRecency(h: int): (r: Recency)
    ensures r.JustNow? <==> h < 1
    ensures r.HoursAgo? <==> 1 <= h < 24
    ensures r.DaysAgo? <==> 24 <= h < 168
    ensures r.OnDate? <==> 168 <= h
    ensures r.HoursAgo? ==> r.hours == h
    ensures r.DaysAgo? ==> 1 <= r.days <= 6 && r.days * 24 <= h < r.days * 24 + 24
  {
    if h < 1 then JustNow
    else if h < 24 then HoursAgo(h)
    else if h < 168 then DaysAgo(h / 24)
    else OnDate
  }

  /** The label of a bucket; `None` where the locale date is shown instead. */
  function RecencyText(r: Recency): Option<string> {
    match r
    case JustNow => Some("Just now")
    case HoursAgo(h) => Some(IntToString(h) + "h ago")
    case DaysAgo(d) => Some(IntToString(d) + "d ago")
    case OnDate => None
  }

  /** The user table's `formatLastActivity` and the activity tracker's `formatTimestamp`. */
  function FormatRecency(now: int, at: int): Option<string> {
    RecencyText(HourRecency(ElapsedHours(now, at)))
  }

  /** A fixed label is shown exactly for gaps under a week; a future time reads 'Just now'. */
  lemma RecencyLabels(now: int, at: int)
    ensures FormatRecency(now, at).Some? <==> now - at < 168 * Dates.MillisPerHour
    ensures now - at < Dates.MillisPerHour ==> FormatRecency(now, at) == Some("Just now")
  {
    var h := ElapsedHours(now, at);
    if h >= 168 {
      assert now - at >= 168 * Dates.MillisPerHour;
    }
    if now - at < Dates.MillisPerHour {
      assert h < 1;
    }
  }

  /** The hour label reads back too: "Nh ago" shows the exact number of whole hours. */
  lemma RecencyHoursReadBack(now: int, at: int)
    requires Dates.MillisPerHour <= now - at < 24 * Dates.MillisPerHour
    ensures FormatRecency(now, at).Some?
    ensures SplitCount(FormatRecency(now, at).value) == Some((ElapsedHours(now, at), "h ago"))
  {
    var h := ElapsedHours(now, at);
    assert 1 <= h < 24;
    SplitNumber(h, "h ago");
  }
}
