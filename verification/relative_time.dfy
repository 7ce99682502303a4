/**
 The relative-time label printed beside each announcement ("5 minutes ago").
 Two copies of the helper exist: the current feed floors the millisecond
 difference straight to minutes, the older feed floors to seconds first.
 Both read the clock; here the clock reading `now` is a parameter, and
 `toLocaleDateString` is kept as an opaque token carrying the timestamp.
 */
module RelativeTime {
  import Strings

  const SecondMs: int := 1000
  const MinuteMs: int := 60 * SecondMs
  const HourMs: int := 60 * MinuteMs
  const DayMs: int := 24 * HourMs
  const WeekMs: int := 7 * DayMs

  datatype Unit = Minute | Hour | Day | Week

  /** What `timeAgo` returns, before it is turned into text. */
  datatype Label =
    | JustNow
    | Ago(count: nat, unit: Unit)
    | LocaleDate(time: int)    // `new Date(time).toLocaleDateString()`, locale-dependent

  function UnitName(u: Unit): string {
    match u
    case Minute => "minute"
    case Hour => "hour"
    case Day => "day"
    case Week => "week"
  }

  /** The text of a label; the locale's date text is supplied by the caller. */
  function Render(l: Label, localeDate: string): string {
    match l
    case JustNow => "just now"
    case Ago(n, u) => Strings.NatToString(n) + " " + UnitName(u) + (if n != 1 then "s" else "") + " ago"
    case LocaleDate(_) => localeDate
  }

  /** The plural "s" is printed exactly when the count is not 1. */
  lemma PluralUnlessOne(n: nat, u: Unit, d: string)
    ensures var t := Render(Ago(n, u), d);
            |t| >= 5 && (t[|t| - 5..] == "s ago" <==> n != 1)
  {
    var t := Render(Ago(n, u), d);
    var head := Strings.NatToString(n) + " " + UnitName(u);
    var name := UnitName(u);
    assert name[|name| - 1] != 's';
    if n != 1 {
      assert t == head + "s ago";
    } else {
      assert t == head + " ago";
      assert t[|t| - 5] == head[|head| - 1] == name[|name| - 1];
    }
  }

  /**
   `timeAgo` of src/MainContent/MainContent.jsx: floor the difference to
   minutes, then cascade through hours, days and weeks.
   */
  function TimeAgoMinutes(now: int, time: int): (r: Label)
    ensures r == JustNow <==> now - time < MinuteMs
    ensures r.Ago? ==> 1 <= r.count
    ensures r.Ago? && r.unit == Minute ==> r.count < 60
    ensures r.Ago? && r.unit == Hour ==> r.count < 24
    ensures r.Ago? && r.unit == Day ==> r.count < 7
    ensures r.Ago? && r.unit == Week ==> r.count < 4
    ensures r.LocaleDate? ==> r.time == time
  {
    var diff := now - time;
    if diff < 0 then JustNow
    else
      var minutes := diff / 60000;
      if minutes < 1 then JustNow
      else if minutes < 60 then Ago(minutes, Minute)
      else
        var hours := minutes / 60;
        if hours < 24 then Ago(hours, Hour)
        else
          var days := hours / 24;
          if days < 7 then Ago(days, Day)
          else
            var weeks := days / 7;
            if weeks < 4 then Ago(weeks, Week)
            else LocaleDate(time)
  }

  /**
   `timeAgo` of src/MainContent.jsx: floor the difference to seconds first,
   treat under 60 seconds as "just now", then the same cascade.
   */
  function TimeAgoSeconds(now: int, time: int): (r: Label)
    ensures r == JustNow <==> now - time < MinuteMs
    ensures r.LocaleDate? ==> r.time == time
  {
    var diff := now - time;
    if diff < 0 then JustNow
    else
      var seconds := diff / 1000;
      if seconds < 60 then JustNow
      else
        var minutes := seconds / 60;
        if minutes < 60 then Ago(minutes, Minute)
        else
          var hours := minutes / 60;
          if hours < 24 then Ago(hours, Hour)
          else
            var days := hours / 24;
            if days < 7 then Ago(days, Day)
            else
              var weeks := days / 7;
              if weeks < 4 then Ago(weeks, Week)
              else LocaleDate(time)
  }

  /**
   Reference definition: the bucket read off the raw millisecond difference
   with flat thresholds, each count the difference floored to its unit.
   */
  function Bucket(now: int, time: int): Label {
    var diff := now - time;
    if diff < MinuteMs then JustNow
    else if diff < HourMs then Ago(diff / MinuteMs, Minute)
    else if diff < DayMs then Ago(diff / HourMs, Hour)
    else if diff < WeekMs then Ago(diff / DayMs, Day)
    else if diff < 4 * WeekMs then Ago(diff / WeekMs, Week)
    else LocaleDate(time)
  }

  /** The minutes-first cascade agrees with the flat thresholds for every difference. */
  lemma MinutesMatchesBucket(now: int, time: int)
    ensures TimeAgoMinutes(now, time) == Bucket(now, time)
  {
  }

  /** The seconds-first cascade agrees with the flat thresholds for every difference. */
  lemma SecondsMatchesBucket(now: int, time: int)
    ensures TimeAgoSeconds(now, time) == Bucket(now, time)
  {
  }

  /**
   The two copies of `timeAgo` produce the same label, hence the same text,
   for every integer millisecond difference.
   */
  lemma VariantsAgree(now: int, time: int, localeDate: string)
    ensures TimeAgoSeconds(now, time) == TimeAgoMinutes(now, time)
    ensures Render(TimeAgoSeconds(now, time), localeDate) == Render(TimeAgoMinutes(now, time), localeDate)
  {
    MinutesMatchesBucket(now, time);
    SecondsMatchesBucket(now, time);
  }
}
