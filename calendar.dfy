/**
 * The calendar collaborator of the exclusion rule, kept abstract: an instant is a count
 * of seconds from a midnight that began a Thursday, days are 86400 seconds long, and
 * Sunday is weekday 0.
 */
module Calendar {

  type Datetime = int

  const SecondsPerDay: int := 86400

  /** Weekday of day number 0. */
  const EpochWeekday: int := 4

  /** Day number of an instant. */
  function Day(t: Datetime): int {
    t / SecondsPerDay
  }

  /** Seconds since the midnight that began the instant's day. */
  function TimeOfDay(t: Datetime): (s: int)
    ensures 0 <= s < SecondsPerDay
  {
    t % SecondsPerDay
  }

  /** Weekday of an instant, 0 (Sunday) to 6 (Saturday). */
  function DayOfWeek(t: Datetime): (w: int)
    ensures 0 <= w < 7
  {
    (Day(t) + EpochWeekday) % 7
  }

  /** Midnight that begins day number `n`. */
  function StartOfDay(n: int): (t: Datetime)
    ensures Day(t) == n && TimeOfDay(t) == 0
  {
    n * SecondsPerDay
  }

  /** The `++` of an instant: the same clock time on the next calendar day. */
  function NextDay(t: Datetime): (r: Datetime)
    ensures t < r
    ensures Day(r) == Day(t) + 1 && TimeOfDay(r) == TimeOfDay(t)
    ensures DayOfWeek(r) == (DayOfWeek(t) + 1) % 7
  {
    t + SecondsPerDay
  }

  function ClockSeconds(hours: int, minutes: int, seconds: int): int {
    hours * 3600 + minutes * 60 + seconds
  }

  /**
   * The clock time hh:mm:ss on the date of `t`, as the instant that day's midnight plus the
   * clock seconds; in this model an out-of-day clock time lands on a neighbouring day.
   */
  function AtTime(t: Datetime, hours: int, minutes: int, seconds: int): (r: Datetime)
    ensures r - StartOfDay(Day(t)) == ClockSeconds(hours, minutes, seconds)
    ensures 0 <= ClockSeconds(hours, minutes, seconds) < SecondsPerDay ==>
              Day(r) == Day(t) && TimeOfDay(r) == ClockSeconds(hours, minutes, seconds)
  {
    StartOfDay(Day(t)) + ClockSeconds(hours, minutes, seconds)
  }

  const WeekdayNames: seq<string> :=
    ["sunday", "monday", "tuesday", "wednesday", "thursday", "friday", "saturday"]

  function Lower(c: char): char {
    if 'A' <= c <= 'Z' then (c as int + 32) as char else c
  }

  /** `name` is `full` or an abbreviation of at least three letters of it, ignoring ASCII case. */
  predicate Abbreviates(name: string, full: string) {
    3 <= |name| <= |full| && forall k :: 0 <= k < |name| ==> Lower(name[k]) == full[k]
  }

  /** Datetime::dayOfWeek of a name: the weekday it names, or -1 when it names none. */
  function WeekdayIndex(name: string): (r: int)
    ensures -1 <= r < 7
    ensures r != -1 ==> Abbreviates(name, WeekdayNames[r])
    ensures r == -1 <==> forall i :: 0 <= i < 7 ==> !Abbreviates(name, WeekdayNames[i])
  {
    if Abbreviates(name, WeekdayNames[0]) then 0
    else if Abbreviates(name, WeekdayNames[1]) then 1
    else if Abbreviates(name, WeekdayNames[2]) then 2
    else if Abbreviates(name, WeekdayNames[3]) then 3
    else if Abbreviates(name, WeekdayNames[4]) then 4
    else if Abbreviates(name, WeekdayNames[5]) then 5
    else if Abbreviates(name, WeekdayNames[6]) then 6
    else -1
  }

  /** No name abbreviates two weekdays, so the lookup's answer is the only one. */
  lemma WeekdayNameUnique(name: string, i: int)
    requires 0 <= i < 7 && Abbreviates(name, WeekdayNames[i])
    ensures WeekdayIndex(name) == i
  {
    var p := [Lower(name[0]), Lower(name[1]), Lower(name[2])];
    assert p == WeekdayNames[i][..3];
    var j := WeekdayIndex(name);
    assert p == WeekdayNames[j][..3];
  }

  /** The keyword of single-day rules names no weekday. */
  lemma DayIsNoWeekday()
    ensures WeekdayIndex("day") == -1
  {
    forall i | 0 <= i < 7 ensures !Abbreviates("day", WeekdayNames[i]) {
      assert Lower("day"[0]) == 'd';
    }
  }
}
