/**
 * An exclusion rule of the time tracker: one configuration line naming time that is never
 * trackable, either a single calendar day marked on or off, or time blocks on every
 * occurrence of a weekday.
 *
 *   exc <weekday> <block> [<block> ...]
 *   exc day on <date>
 *   exc day off <date>
 */
module Exclusions {
  import opened Failures
  import opened Text
  import opened Calendar
  import opened Intervals
  import opened TimeBlocks
  import opened Expansion

  /** The date collaborator: the instant a date token names, if it names one. */
  type DateParser = string -> Option<Datetime>

  /** The line shapes initialize accepts. */
  predicate WellFormed(t: seq<string>) {
    && |t| >= 2
    && t[0] == "exc"
    && ((|t| == 4 && t[1] == "day" && (t[2] == "on" || t[2] == "off")) || WeekdayIndex(t[1]) != -1)
  }

  /** The one shape that adds trackable time back. */
  predicate IsDayOn(t: seq<string>) {
    |t| == 4 && t[1] == "day" && t[2] == "on"
  }

  /** A rule whose second word is `day` is a single-day rule of exactly four words. */
  lemma DayRuleShape(t: seq<string>)
    requires WellFormed(t) && t[1] == "day"
    ensures |t| == 4 && (t[2] == "on" || t[2] == "off")
  {
    DayIsNoWeekday();
  }

  /** A weekday name makes a line acceptable whatever follows it, blocks or not, and never additive. */
  lemma WeekdayRulesArePermissive(name: string, blocks: seq<string>)
    requires WeekdayIndex(name) != -1
    ensures WellFormed(["exc", name] + blocks)
    ensures !IsDayOn(["exc", name] + blocks)
  {
    DayIsNoWeekday();
    assert (["exc", name] + blocks)[1] == name;
  }

  /**
   * The day that begins at instant `t`: from `t` to the same time of day on the next day.
   * When `t` is a midnight this is one whole calendar day.
   */
  function DayRange(t: Datetime): (r: Range)
    ensures r.start == t && r.end - r.start == SecondsPerDay
    ensures Day(r.end) == Day(t) + 1 && TimeOfDay(r.end) == TimeOfDay(t)
    ensures TimeOfDay(t) == 0 ==> r == Range(StartOfDay(Day(t)), StartOfDay(Day(t) + 1))
  {
    Range(t, NextDay(t))
  }

  /** What ranges yields for the rule `t` inside `window`: a pure function of the two. */
  function Expand(t: seq<string>, window: Range, parseDate: DateParser): (r: Result<seq<Range>>)
    requires WellFormed(t)
    ensures r.Err? && t[1] == "day" ==> |t| == 4 && r.error == InvalidDate(t[3])
    ensures r.Err? && t[1] != "day" ==> r.error.MalformedTimeBlock? && r.error.block in t[2..]
  {
    DayIsNoWeekday();
    WeekdayScanErrorIsBlock(t[2..], WeekdayIndex(t[1]), ScannedDays(window.start, window.end));
    if t[1] == "day" && (t[2] == "on" || t[2] == "off") then
      match parseDate(t[3])
      case None => Err(InvalidDate(t[3]))
      case Some(d) => if Overlaps(window, DayRange(d)) then Ok([DayRange(d)]) else Ok([])
    else if WeekdayIndex(t[1]) != -1 then
      WeekdayScan(t[2..], WeekdayIndex(t[1]), ScannedDays(window.start, window.end))
    else
      Ok([])
  }

  /**
   * A single-day rule yields at most one interval, the day that begins at the instant its
   * date names, and yields it exactly when that day overlaps the window; a date that does
   * not parse raises.
   */
  lemma SingleDayExpansion(t: seq<string>, window: Range, parseDate: DateParser)
    requires WellFormed(t) && t[1] == "day"
    ensures |t| == 4
    ensures parseDate(t[3]).None? ==> Expand(t, window, parseDate) == Err(InvalidDate(t[3]))
    ensures parseDate(t[3]).Some? ==>
              && Expand(t, window, parseDate).Ok?
              && |Expand(t, window, parseDate).value| <= 1
              && (Overlaps(window, DayRange(parseDate(t[3]).value)) <==>
                    Expand(t, window, parseDate).value == [DayRange(parseDate(t[3]).value)])
              && (!Overlaps(window, DayRange(parseDate(t[3]).value)) <==>
                    Expand(t, window, parseDate).value == [])
  {
    DayRuleShape(t);
  }

  /**
   * A weekday rule scans the window day by day from its start and yields |t| - 2 intervals,
   * one per block, for each scanned instant on its weekday.
   */
  lemma WeekdayExpansion(t: seq<string>, window: Range, parseDate: DateParser)
    requires WellFormed(t) && t[1] != "day"
    ensures 0 <= WeekdayIndex(t[1]) < 7
    ensures Expand(t, window, parseDate).Ok? ==>
              Grouped(Expand(t, window, parseDate).value,
                      Matching(ScannedDays(window.start, window.end), WeekdayIndex(t[1])), t[2..])
    ensures Expand(t, window, parseDate).Ok? ==>
              |Expand(t, window, parseDate).value|
                == |Matching(ScannedDays(window.start, window.end), WeekdayIndex(t[1]))| * (|t| - 2)
  {
    var blocks := t[2..];
    var weekday := WeekdayIndex(t[1]);
    var days := ScannedDays(window.start, window.end);
    if WeekdayScan(blocks, weekday, days).Ok? {
      WeekdayScanLayout(blocks, weekday, days);
      GroupedLength(WeekdayScan(blocks, weekday, days).value, Matching(days, weekday), blocks);
    }
  }

  /**
   * A weekday rule raises exactly when the window meets its weekday, that is when some
   * scanned instant lies on its weekday, and some block is malformed.
   */
  lemma WeekdayExpansionFails(t: seq<string>, window: Range, parseDate: DateParser)
    requires WellFormed(t) && t[1] != "day"
    ensures Expand(t, window, parseDate).Err? <==>
              && |Matching(ScannedDays(window.start, window.end), WeekdayIndex(t[1]))| > 0
              && exists k :: 2 <= k < |t| && !HasBlockShape(t[k])
  {
    var blocks := t[2..];
    var weekday := WeekdayIndex(t[1]);
    var days := ScannedDays(window.start, window.end);
    WeekdayScanFails(blocks, weekday, days);
    if exists k :: 0 <= k < |blocks| && !HasBlockShape(blocks[k]) {
      var k :| 0 <= k < |blocks| && !HasBlockShape(blocks[k]);
      assert t[k + 2] == blocks[k];
    }
    if exists k :: 2 <= k < |t| && !HasBlockShape(t[k]) {
      var k :| 2 <= k < |t| && !HasBlockShape(t[k]);
      assert blocks[k - 2] == t[k];
    }
  }

  /**
   * What a weekday rule raises: MalformedTimeBlock carrying its first malformed block, once
   * the window meets its weekday.
   */
  lemma WeekdayExpansionError(t: seq<string>, window: Range, parseDate: DateParser, k: nat)
    requires WellFormed(t) && t[1] != "day"
    requires 2 <= k < |t| && !HasBlockShape(t[k])
    requires forall j :: 2 <= j < k ==> HasBlockShape(t[j])
    requires |Matching(ScannedDays(window.start, window.end), WeekdayIndex(t[1]))| > 0
    ensures Expand(t, window, parseDate) == Err(MalformedTimeBlock(t[k]))
  {
    var blocks := t[2..];
    assert blocks[k - 2] == t[k];
    assert forall j :: 0 <= j < k - 2 ==> blocks[j] == t[j + 2];
    WeekdayScanFirstError(blocks, WeekdayIndex(t[1]), ScannedDays(window.start, window.end), k - 2);
  }

  /** Over a window of exactly one week, a weekday rule yields one interval per block. */
  lemma OneWeekExpansion(t: seq<string>, window: Range, parseDate: DateParser)
    requires WellFormed(t) && t[1] != "day" && window.end == window.start + 7 * SecondsPerDay
    ensures Expand(t, window, parseDate).Ok? ==> |Expand(t, window, parseDate).value| == |t| - 2
  {
    WeekdayExpansion(t, window, parseDate);
    var matching := Matching(ScannedDays(window.start, window.end), WeekdayIndex(t[1]));
    WeekMeetsWeekdayOnce(window.start, WeekdayIndex(t[1]));
    assert |matching| * (|t| - 2) == |t| - 2;
  }

  /** Lines of each accepted shape, and which of them are additive. */
  lemma AcceptedExamples()
    ensures WellFormed(["exc", "day", "on", "2024-03-15"]) && IsDayOn(["exc", "day", "on", "2024-03-15"])
    ensures WellFormed(["exc", "day", "off", "2024-03-15"]) && !IsDayOn(["exc", "day", "off", "2024-03-15"])
    ensures WellFormed(["exc", "Mon", "<09:00:00", ">17:00:00"])
    ensures WellFormed(["exc", "friday"])
  {
    assert Abbreviates("Mon", WeekdayNames[1]);
    WeekdayNameUnique("Mon", 1);
    assert Abbreviates("friday", WeekdayNames[5]);
    WeekdayNameUnique("friday", 5);
  }

  /** Lines initialize rejects: a missing keyword, a short day rule, a name of no weekday. */
  lemma RejectedExamples()
    ensures !WellFormed(["exc"])
    ensures !WellFormed(["exclude", "monday", "<09:00:00"])
    ensures !WellFormed(["exc", "day", "on"])
    ensures !WellFormed(["exc", "day", "maybe", "2024-03-15"])
    ensures !WellFormed(["exc", "mo", "<09:00:00"])
  {
    DayIsNoWeekday();
    assert WeekdayIndex("mo") == -1;
  }

  /** serialize as written: its first word is "excexc", so initialize rejects what it returns. */
  lemma SerializeIsNotReparsed(e: Exclusion)
    requires e.Valid() && e.initialized
    ensures Split(e.Serialize())[0] == "excexc"
    ensures !WellFormed(Split(e.Serialize()))
  {
    assert e.tokens[0] == "exc";
  }

  /** The corrected serialization reads back as an accepted line with the same additivity. */
  lemma LineReparses(e: Exclusion)
    requires e.Valid() && e.initialized
    ensures WellFormed(Split(e.Line()))
    ensures IsDayOn(Split(e.Line())) == e.additive
  {
  }

  /** Exclusion: the words of a rule line and whether the rule is additive. */
  class Exclusion {
    var tokens: seq<string>
    var additive: bool
    /** Whether the last Initialize accepted its line. */
    ghost var initialized: bool

    ghost predicate Valid()
      reads this
    {
      && AllWords(tokens)
      && (initialized ==> WellFormed(tokens) && additive == IsDayOn(tokens))
    }

    constructor ()
      ensures Valid() && tokens == [] && !additive && !initialized
    {
      tokens := [];
      additive := false;
      initialized := false;
    }

    /**
     * initialize: replaces the words by those of `line`, then accepts the line when it has
     * one of the three shapes and sets `additive`, or raises UnrecognizedSyntax with
     * `additive` left as it was.
     */
    method Initialize(line: string) returns (outcome: Outcome)
      modifies this
      ensures Valid()
      ensures tokens == Split(line)
      ensures outcome.Pass? <==> WellFormed(tokens)
      ensures outcome.Pass? ==> initialized && (additive <==> IsDayOn(tokens))
      ensures outcome.Fail? ==> outcome.error == UnrecognizedSyntax(line) && !initialized && additive == old(additive)
    {
      DayIsNoWeekday();
      tokens := Split(line);
      if |tokens| >= 2 && tokens[0] == "exc" {
        if |tokens| == 4 && tokens[1] == "day" && tokens[2] == "on" {
          additive := true;
          initialized := true;
          return Pass;
        }
        if |tokens| == 4 && tokens[1] == "day" && tokens[2] == "off" {
          additive := false;
          initialized := true;
          return Pass;
        } else if WeekdayIndex(tokens[1]) != -1 {
          additive := false;
          initialized := true;
          return Pass;
        }
      }
      initialized := false;
      return Fail(UnrecognizedSyntax(line));
    }

    /** tokens: the words of the rule line; after an accepted line, one of its shapes. */
    function Tokens(): (ts: seq<string>)
      reads this
      requires Valid()
      ensures AllWords(ts)
      ensures initialized ==> WellFormed(ts)
    {
      tokens
    }

    /** additive: after an accepted line, true exactly for `exc day on <date>`. */
    function Additive(): (a: bool)
      reads this
      requires Valid()
      ensures initialized ==> (a <==> |tokens| == 4 && tokens[1] == "day" && tokens[2] == "on")
    {
      additive
    }

    /**
     * serialize: "exc" glued to the joined words. The words already begin with "exc", so
     * the first word of the result reads "excexc".
     */
    function Serialize(): (line: string)
      reads this
      requires Valid()
      ensures |tokens| > 0 ==> Split(line) == ["exc" + tokens[0]] + tokens[1..]
    {
      if |tokens| > 0 then SplitGluedJoin("exc", tokens); "exc" + Join(" ", tokens)
      else "exc" + Join(" ", tokens)
    }

    /** The line serialize is meant to give back: the words joined by single spaces. */
    function Line(): (line: string)
      reads this
      requires Valid()
      ensures Split(line) == tokens
    {
      SplitJoinRoundTrip(tokens);
      Join(" ", tokens)
    }

    /** dump: a diagnostic line "Exclusion <words>" ended by a newline. */
    function Dump(): (text: string)
      reads this
      requires Valid()
      ensures |text| > 0 && text[|text| - 1] == '\n'
      ensures Split(text) == ["Exclusion"] + tokens
    {
      SplitLabelledLine("Exclusion", tokens);
      assert "Exclusion " == "Exclusion" + " ";
      "Exclusion " + Join(" ", tokens) + "\n"
    }

    /** rangeFromTimeBlock: scans `block` with a Pig cursor and anchors it to the day [start, end). */
    method RangeFromTimeBlock(block: string, start: Datetime, end: Datetime) returns (r: Result<Range>)
      ensures r == TimeBlockRange(block, start, end)
    {
      var pig := new Pig(block);
      var before := pig.Skip('<');
      if before {
        var ok, hh, mm, ss := pig.GetHms();
        if ok {
          return Ok(Range(start, AtTime(start, hh, mm, ss)));
        }
        return Err(MalformedTimeBlock(block));
      } else {
        var after := pig.Skip('>');
        if after {
          var ok, hh, mm, ss := pig.GetHms();
          if ok {
            return Ok(Range(AtTime(start, hh, mm, ss), end));
          }
          return Err(MalformedTimeBlock(block));
        }
      }
      var ok1, hh1, mm1, ss1 := pig.GetHms();
      if ok1 {
        var dash := pig.Skip('-');
        if dash {
          var ok2, hh2, mm2, ss2 := pig.GetHms();
          if ok2 {
            return Ok(Range(AtTime(start, hh1, mm1, ss1), AtTime(start, hh2, mm2, ss2)));
          }
        }
      }
      return Err(MalformedTimeBlock(block));
    }

    /**
     * The inner loop of ranges: the intervals of the rule's blocks, in order, for the day
     * [start, end) that begins at `start`; the first malformed block raises.
     */
    method DayBlockRanges(start: Datetime, end: Datetime) returns (result: Result<seq<Range>>)
      requires |tokens| >= 2 && end == NextDay(start)
      ensures result == DayRanges(tokens[2..], start)
    {
      ghost var blocks := tokens[2..];
      var results: seq<Range> := [];
      for b := 2 to |tokens|
        invariant DayRanges(blocks[..b - 2], start) == Ok(results)
      {
        var r := RangeFromTimeBlock(tokens[b], start, end);
        assert tokens[b] == blocks[b - 2];
        DayRangesStep(blocks, b - 2, start);
        if r.Err? {
          DayRangesErrorPersists(blocks, b - 1, start);
          return Err(r.error);
        }
        results := results + [r.value];
      }
      assert blocks[..|tokens| - 2] == blocks;
      return Ok(results);
    }

    /**
     * The day loop of ranges for a weekday rule: every day of the window from its start,
     * the blocks of each one on `weekday`, in order; the first error raises.
     */
    method WeekdayRanges(window: Range, weekday: int) returns (result: Result<seq<Range>>)
      requires |tokens| >= 2
      ensures result == WeekdayScan(tokens[2..], weekday, ScannedDays(window.start, window.end))
    {
      ghost var blocks := tokens[2..];
      ghost var days := ScannedDays(window.start, window.end);
      ghost var i := 0;
      var results: seq<Range> := [];
      var start := window.start;
      while start < window.end
        invariant 0 <= i <= |days|
        invariant start == window.start + i * SecondsPerDay
        invariant WeekdayScan(blocks, weekday, days[..i]) == Ok(results)
        decreases window.end - start
      {
        ScannedDayAt(window.start, window.end, i);
        assert i < |days| && days[i] == start;
        WeekdayScanStep(blocks, weekday, days, i);
        if DayOfWeek(start) == weekday {
          var end := start;
          end := NextDay(end);
          var today := DayBlockRanges(start, end);
          if today.Err? {
            WeekdayScanErrorPersists(blocks, weekday, days, i + 1);
            return Err(today.error);
          }
          results := results + today.value;
        }
        start := NextDay(start);
        i := i + 1;
      }
      ScannedDayAt(window.start, window.end, i);
      assert days[..i] == days;
      return Ok(results);
    }

    /** ranges: the intervals of this rule inside `window`, or the first error met. */
    method Ranges(window: Range, parseDate: DateParser) returns (result: Result<seq<Range>>)
      requires Valid() && initialized
      ensures result == Expand(tokens, window, parseDate)
    {
      DayIsNoWeekday();
      if tokens[1] == "day" && (tokens[2] == "on" || tokens[2] == "off") {
        var results: seq<Range> := [];
        var date := parseDate(tokens[3]);
        if date.None? {
          return Err(InvalidDate(tokens[3]));
        }
        var start := date.value;
        var end := start;
        end := NextDay(end);
        var day := Range(start, end);
        if Overlaps(window, day) {
          results := results + [day];
          assert results == [DayRange(date.value)];
        }
        return Ok(results);
      }
      var weekday := WeekdayIndex(tokens[1]);
      if weekday != -1 {
        result := WeekdayRanges(window, weekday);
        return;
      }
      return Ok([]);
    }
  }
}
