/** The two ways the route view turns an upstream "YYYYMMDDHHmm" stamp into a
    clock time. */
module TimeFormat {
  import opened Text

  /** `fmtDateStr`: "" for an absent or empty stamp and for one shorter than
      twelve characters, otherwise the hour and minute digits around a colon. */
  function FmtDateStr(s: Option<string>): (r: string)
    ensures r == "" <==> !Truthy(s) || |s.value| < 12
    ensures r != "" ==> |r| == 5 && r[2] == ':' && r[..2] == s.value[8..10] && r[3..] == s.value[10..12]
  {
    if !Truthy(s) || |s.value| < 12 then "" else s.value[8..10] + ":" + s.value[10..12]
  }

  /** `formatTime`: an absent, empty or shorter-than-eight stamp is shown as
      given (absent as ""); otherwise the slices [8,10) and [10,12), clamped
      to the stamp's length, around a colon. */
  function FormatTime(time: Option<string>): (r: string)
    ensures !Truthy(time) || |time.value| < 8 ==> r == time.GetOr("")
    ensures Truthy(time) && |time.value| >= 12 ==> r == FmtDateStr(time)
    ensures Truthy(time) && |time.value| >= 8 ==> 1 <= |r| <= 5 && ':' in r
  {
    if !Truthy(time) || |time.value| < 8 then time.GetOr("")
    else Slice(time.value, 8, 10) + ":" + Slice(time.value, 10, 12)
  }

  /** Formatting a stamp built from a date, an hour and a minute gives back
      the hour and the minute. */
  lemma FmtDateStrOfStamp(date: string, hh: string, mm: string)
    requires |date| == 8 && |hh| == 2 && |mm| == 2
    ensures FmtDateStr(Some(date + hh + mm)) == hh + ":" + mm
  {
    var s := date + hh + mm;
    assert s[8..10] == hh && s[10..12] == mm;
  }

  /** The two formatters agree on every full stamp; a stamp shorter than eight
      characters is kept by `formatTime` and dropped by `fmtDateStr`. */
  lemma FormatTimeAgrees(time: Option<string>)
    ensures time.Some? && |time.value| >= 12 ==> FormatTime(time) == FmtDateStr(time)
    ensures time.Some? && |time.value| < 8 ==> FormatTime(time) == time.value && FmtDateStr(time) == ""
    ensures time.None? ==> FormatTime(time) == "" == FmtDateStr(time)
  {
  }

  /** A stamp of eight to eleven characters is sliced past its end: the
      minutes are cut short or the result is a bare colon. */
  lemma FormatTimeOfDateOnly(date: string)
    requires |date| == 8
    ensures FormatTime(Some(date)) == ":"
  {
  }
}
