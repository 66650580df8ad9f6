/** The duration text shown on a game card and on the game page: whole hours, then the
    remaining minutes. */
module Duration {
  import opened Js

  /** `formatDuration(minutes)`: hours are `Math.floor(minutes / 60)` (Dafny's `/` by a
      positive number rounds down too); minutes are JavaScript's `minutes % 60`.
      The text names the duration exactly: reading it back gives the minutes again, for every
      duration above -60 (the whole hours of a more negative duration are not shown). */
  function FormatDuration(minutes: int): (r: string)
    ensures minutes > -60 ==> ParseDuration(r) == Some(minutes)
  {
    SplitAddsUp(minutes);
    DurationText(minutes / 60, JsRemainder(minutes, 60))
  }

  /** The template: "H uur en M minuten", "H uur" when no minutes remain, or "M minuten" when
      there is no whole hour. Reading the text back gives the hours and minutes it shows. */
  function DurationText(hrs: int, mins: int): (r: string)
    ensures ParseDuration(r) == Some(if hrs > 0 then hrs * 60 + (if mins > 0 then mins else 0) else mins)
  {
    if hrs > 0 then
      if mins > 0 then
        ParseHoursAndMinutes(hrs, mins);
        IntToString(hrs) + " uur" + (" en " + IntToString(mins) + " minuten")
      else
        ParseHours(hrs);
        IntToString(hrs) + " uur"
    else
      ParseMinutes(mins);
      IntToString(mins) + " minuten"
  }

  /** Reads a duration text back into minutes: a number, then the units that follow it. */
  function ParseDuration(s: string): Option<int> {
    var head := Before(s, ' ');
    match ParseInt(head)
    case None => None
    case Some(n) => ParseUnits(n, s[|head|..])
  }

  /** The minutes that `n` followed by `tail` stands for. */
  function ParseUnits(n: int, tail: string): Option<int> {
    if tail == " minuten" then Some(n)
    else if tail == " uur" then Some(n * 60)
    else if |tail| >= 16 && tail[..8] == " uur en " && tail[|tail| - 8..] == " minuten" then
      match ParseInt(tail[8..|tail| - 8])
      case None => None
      case Some(m) => Some(n * 60 + m)
    else None
  }

  /** A number written without spaces, then `tail`, is read as that number followed by `tail`. */
  lemma ParseNumberThen(n: int, tail: string)
    requires |tail| > 0 && tail[0] == ' '
    ensures ParseDuration(IntToString(n) + tail) == ParseUnits(n, tail)
  {
    var ns := IntToString(n);
    NoSpaceInNumber(n);
    ParseIntOfIntToString(n);
    assert ns + tail == ns + [' '] + tail[1..];
    BeforeConcat(ns, ' ', tail[1..]);
    assert (ns + tail)[|ns|..] == tail;
  }

  lemma NoSpaceInNumber(n: int)
    ensures ' ' !in IntToString(n)
  {
    if ' ' in IntToString(n) {
      IntToStringChars(n, ' ');
    }
  }

  /** The units "uur en M minuten" are read as `n` hours and `M` minutes. */
  lemma ParseHoursAndMinuteUnits(n: int, ms: string)
    requires |ms| > 0
    ensures ParseUnits(n, " uur" + (" en " + ms + " minuten"))
         == match ParseInt(ms) case None => None case Some(m) => Some(n * 60 + m)
  {
    var tail := " uur" + (" en " + ms + " minuten");
    assert |tail| == 16 + |ms|;
    assert tail != " minuten" && tail != " uur";
    assert tail[..8] == " uur en ";
    assert tail[|tail| - 8..] == " minuten";
    assert tail[8..|tail| - 8] == ms;
  }

  lemma ParseHoursAndMinutes(h: int, m: int)
    ensures ParseDuration(IntToString(h) + " uur" + (" en " + IntToString(m) + " minuten")) == Some(h * 60 + m)
  {
    var ms := IntToString(m);
    var tail := " uur" + (" en " + ms + " minuten");
    assert tail[0] == ' ';
    assert IntToString(h) + " uur" + (" en " + ms + " minuten") == IntToString(h) + tail;
    ParseNumberThen(h, tail);
    ParseHoursAndMinuteUnits(h, ms);
    ParseIntOfIntToString(m);
    assert ParseUnits(h, tail) == Some(h * 60 + m);
  }

  lemma ParseHours(h: int)
    ensures ParseDuration(IntToString(h) + " uur") == Some(h * 60)
  {
    ParseNumberThen(h, " uur");
  }

  lemma ParseMinutes(m: int)
    ensures ParseDuration(IntToString(m) + " minuten") == Some(m)
  {
    ParseNumberThen(m, " minuten");
  }

  /** The hours and minutes the text shows add up to the duration, above -60. */
  lemma SplitAddsUp(minutes: int)
    ensures minutes / 60 > 0 ==> (minutes / 60) * 60 + JsRemainder(minutes, 60) == minutes
    ensures minutes > -60 && minutes / 60 <= 0 ==> JsRemainder(minutes, 60) == minutes
  {
    if -60 < minutes < 0 {
      assert (-minutes) % 60 == -minutes;
    } else if 0 <= minutes < 60 {
      assert minutes / 60 == 0;
    }
  }

  /** Below -60 the whole hours are lost: the text only shows what JavaScript's remainder
      leaves, a number of minutes between -59 and 0. */
  lemma NegativeHoursDropped(minutes: int)
    requires minutes < 0
    ensures FormatDuration(minutes) == FormatDuration(JsRemainder(minutes, 60))
    ensures -60 < JsRemainder(minutes, 60) <= 0
  {
    var r := JsRemainder(minutes, 60);
    assert r / 60 <= 0 && JsRemainder(r, 60) == r;
    assert FormatDuration(minutes) == DurationText(minutes / 60, r);
    assert FormatDuration(r) == DurationText(r / 60, r);
  }
}
