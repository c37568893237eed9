/** The time record the time service returns, and `convert_time`, which
    turns its 24-hour hour into a 12-hour hour and a meridiem label. */
module TimeConvert {

  /** A `struct_time`. Python indexes it by position: `[3]` is the hour,
      `[4]` the minute and `[5]` the second. */
  datatype TimeTuple = TimeTuple(
    year: int,     // [0]
    month: int,    // [1]
    mday: int,     // [2]
    hour: int,     // [3]
    minute: int,   // [4]
    second: int,   // [5]
    weekday: int,  // [6]
    yearday: int,  // [7]
    isdst: int)    // [8]

  const AM: string := "AM"
  const PM: string := "PM"

  predicate IsMeridiem(a: string)
  {
    a == AM || a == PM
  }

  /** `convert_time(the_time)`: from the hour field `h`, subtract 12 and say
      "PM" when `h >= 12`, else say "AM"; an hour that is then 0 shows as 12.
      Any integer is accepted, as in the source; the 12-hour hour is the
      24-hour one modulo 12, and lies in 1..12 for a real hour 0..23. */
  function ConvertTime(t: TimeTuple): (r: (int, string))
    ensures r.1 == PM <==> t.hour >= 12
    ensures r.1 == AM <==> t.hour < 12
    ensures r.0 % 12 == t.hour % 12
    ensures 0 <= t.hour < 24 ==> 1 <= r.0 <= 12
  {
    var h := if t.hour >= 12 then t.hour - 12 else t.hour;
    var a := if t.hour >= 12 then PM else AM;
    (if h == 0 then 12 else h, a)
  }

  /** The four cases of the 12-hour clock, for a real hour. */
  lemma ConvertTimeCases(t: TimeTuple)
    requires 0 <= t.hour < 24
    ensures t.hour == 0 ==> ConvertTime(t) == (12, AM)
    ensures 1 <= t.hour <= 11 ==> ConvertTime(t) == (t.hour, AM)
    ensures t.hour == 12 ==> ConvertTime(t) == (12, PM)
    ensures 13 <= t.hour <= 23 ==> ConvertTime(t) == (t.hour - 12, PM)
  {
  }

  /** `convert_time` reads field `[3]` of the tuple and nothing else. */
  lemma ConvertTimeReadsHourOnly(t: TimeTuple, u: TimeTuple)
    requires t.hour == u.hour
    ensures ConvertTime(t) == ConvertTime(u)
  {
  }

  /** The inverse of `convert_time`: the 24-hour hour a 12-hour hour and a
      meridiem label stand for. */
  function To24Hour(h: int, a: string): (r: int)
    requires 1 <= h <= 12 && IsMeridiem(a)
    ensures 0 <= r < 24
    ensures r >= 12 <==> a == PM
    ensures r % 12 == h % 12
  {
    if a == PM then (if h == 12 then 12 else h + 12)
    else (if h == 12 then 0 else h)
  }

  /** Reading back the 12-hour form of a real hour gives that hour. */
  lemma ConvertTimeRoundTrip(t: TimeTuple)
    requires 0 <= t.hour < 24
    ensures IsMeridiem(ConvertTime(t).1)
    ensures To24Hour(ConvertTime(t).0, ConvertTime(t).1) == t.hour
  {
  }

  /** Every 12-hour reading is produced by exactly one real hour, so
      `convert_time` is a bijection from 0..23 onto 1..12 x {AM, PM}. */
  lemma ConvertTimeOnto(h: int, a: string, t: TimeTuple)
    requires 1 <= h <= 12 && IsMeridiem(a)
    requires t.hour == To24Hour(h, a)
    ensures ConvertTime(t) == (h, a)
  {
  }
}
