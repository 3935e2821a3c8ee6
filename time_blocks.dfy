/**
 * The time-block micro-grammar of an exclusion rule: `<HH:MM:SS`, `>HH:MM:SS` and
 * `HH:MM:SS-HH:MM:SS`, read by a cursor scanner (Pig) and anchored to one day.
 */
module TimeBlocks {
  import opened Failures
  import opened Calendar
  import opened Intervals

  /** A clock reading as getHMS yields it. */
  datatype Hms = Hms(hours: nat, minutes: nat, seconds: nat) {
    predicate TwoDigitFields() {
      hours < 100 && minutes < 100 && seconds < 100
    }
  }

  predicate IsDigit(c: char) {
    '0' <= c <= '9'
  }

  function DigitValue(c: char): (n: nat)
    requires IsDigit(c)
    ensures n < 10
  {
    c as int - '0' as int
  }

  function DigitChar(n: nat): (c: char)
    requires n < 10
    ensures IsDigit(c) && DigitValue(c) == n
  {
    ('0' as int + n) as char
  }

  function TwoDigits(n: nat): (s: string)
    requires n < 100
  {
    [DigitChar(n / 10), DigitChar(n % 10)]
  }

  /** The text `HH:MM:SS` of a clock reading. */
  function FormatHms(t: Hms): (s: string)
    requires t.TwoDigitFields()
    ensures |s| == 8
  {
    TwoDigits(t.hours) + ":" + TwoDigits(t.minutes) + ":" + TwoDigits(t.seconds)
  }

  predicate TwoDigitsAt(s: string, i: nat) {
    i + 2 <= |s| && IsDigit(s[i]) && IsDigit(s[i + 1])
  }

  function ValueAt(s: string, i: nat): nat
    requires TwoDigitsAt(s, i)
  {
    10 * DigitValue(s[i]) + DigitValue(s[i + 1])
  }

  predicate HmsAt(s: string, i: nat) {
    && i + 8 <= |s|
    && TwoDigitsAt(s, i) && s[i + 2] == ':'
    && TwoDigitsAt(s, i + 3) && s[i + 5] == ':'
    && TwoDigitsAt(s, i + 6)
  }

  /** What getHMS reads at position `i`: the clock reading written there, if any. */
  function ReadHms(s: string, i: nat): (r: Option<Hms>)
    ensures r.Some? ==> i + 8 <= |s| && r.value.TwoDigitFields()
  {
    if HmsAt(s, i) then Some(Hms(ValueAt(s, i), ValueAt(s, i + 3), ValueAt(s, i + 6))) else None
  }

  lemma TwoDigitsRoundTrip(s: string, i: nat, n: nat)
    requires n < 100 && i + 2 <= |s|
    requires s[i] == DigitChar(n / 10) && s[i + 1] == DigitChar(n % 10)
    ensures TwoDigitsAt(s, i) && ValueAt(s, i) == n
  {
  }

  lemma FormatHmsParts(t: Hms)
    requires t.TwoDigitFields()
    ensures var f := FormatHms(t);
      && f[0] == DigitChar(t.hours / 10) && f[1] == DigitChar(t.hours % 10) && f[2] == ':'
      && f[3] == DigitChar(t.minutes / 10) && f[4] == DigitChar(t.minutes % 10) && f[5] == ':'
      && f[6] == DigitChar(t.seconds / 10) && f[7] == DigitChar(t.seconds % 10)
  {
  }

  /** A formatted clock reading is read back, whatever follows it. */
  lemma ReadFormattedHms(s: string, i: nat, t: Hms)
    requires t.TwoDigitFields() && i + 8 <= |s| && s[i..i + 8] == FormatHms(t)
    ensures ReadHms(s, i) == Some(t)
  {
    var f := FormatHms(t);
    FormatHmsParts(t);
    var w := s[i..i + 8];
    assert s[i] == w[0] == f[0] && s[i + 1] == w[1] == f[1] && s[i + 2] == w[2] == f[2];
    assert s[i + 3] == w[3] == f[3] && s[i + 4] == w[4] == f[4] && s[i + 5] == w[5] == f[5];
    assert s[i + 6] == w[6] == f[6] && s[i + 7] == w[7] == f[7];
    TwoDigitsRoundTrip(s, i, t.hours);
    TwoDigitsRoundTrip(s, i + 3, t.minutes);
    TwoDigitsRoundTrip(s, i + 6, t.seconds);
  }

  lemma DigitCharOfValue(c: char)
    requires IsDigit(c)
    ensures DigitChar(DigitValue(c)) == c
  {
  }

  lemma ValueAtFormats(s: string, i: nat)
    requires TwoDigitsAt(s, i)
    ensures ValueAt(s, i) < 100 && s[i..i + 2] == TwoDigits(ValueAt(s, i))
  {
    var n := ValueAt(s, i);
    assert n / 10 == DigitValue(s[i]) && n % 10 == DigitValue(s[i + 1]);
    DigitCharOfValue(s[i]);
    DigitCharOfValue(s[i + 1]);
  }

  /** The reader accepts only the formatted text of the reading it returns. */
  lemma ReadHmsIsFormatted(s: string, i: nat)
    requires ReadHms(s, i).Some?
    ensures s[i..i + 8] == FormatHms(ReadHms(s, i).value)
  {
    var t := ReadHms(s, i).value;
    ValueAtFormats(s, i);
    ValueAtFormats(s, i + 3);
    ValueAtFormats(s, i + 6);
    assert s[i..i + 8] == s[i..i + 2] + [s[i + 2]] + s[i + 3..i + 5] + [s[i + 5]] + s[i + 6..i + 8];
  }

  /** Pig: a string with a read cursor. */
  class Pig {
    const text: string
    var cursor: nat

    constructor (text: string)
      ensures this.text == text && cursor == 0
    {
      this.text := text;
      cursor := 0;
    }

    /** Steps over `c` when it is the next character. */
    method Skip(c: char) returns (skipped: bool)
      modifies this
      ensures skipped <==> old(cursor) < |text| && text[old(cursor)] == c
      ensures cursor == if skipped then old(cursor) + 1 else old(cursor)
    {
      skipped := cursor < |text| && text[cursor] == c;
      if skipped {
        cursor := cursor + 1;
      }
    }

    /** Reads `HH:MM:SS` at the cursor and steps over it; on failure the cursor stays. */
    method GetHms() returns (ok: bool, hours: nat, minutes: nat, seconds: nat)
      modifies this
      ensures ok <==> ReadHms(text, old(cursor)).Some?
      ensures ok ==> ReadHms(text, old(cursor)) == Some(Hms(hours, minutes, seconds))
      ensures cursor == if ok then old(cursor) + 8 else old(cursor)
    {
      match ReadHms(text, cursor)
      case Some(t) =>
        ok, hours, minutes, seconds := true, t.hours, t.minutes, t.seconds;
        cursor := cursor + 8;
      case None =>
        ok, hours, minutes, seconds := false, 0, 0, 0;
    }
  }

  /** The clock reading `t` on the calendar day of `day`. */
  function Anchor(day: Datetime, t: Hms): Datetime {
    AtTime(day, t.hours, t.minutes, t.seconds)
  }

  /**
   * The interval a time block denotes within the day [start, end), or the error it raises.
   * Only the prefix is examined: characters after a complete block are ignored.
   */
  function TimeBlockRange(block: string, start: Datetime, end: Datetime): (r: Result<Range>)
    ensures r.Err? ==> r.error == MalformedTimeBlock(block)
    ensures r.Ok? && |block| > 0 && block[0] == '<' ==> r.value.start == start
    ensures r.Ok? && |block| > 0 && block[0] == '>' ==> r.value.end == end
  {
    if |block| > 0 && block[0] == '<' then
      match ReadHms(block, 1)
      case Some(t) => Ok(Range(start, Anchor(start, t)))
      case None => Err(MalformedTimeBlock(block))
    else if |block| > 0 && block[0] == '>' then
      match ReadHms(block, 1)
      case Some(t) => Ok(Range(Anchor(start, t), end))
      case None => Err(MalformedTimeBlock(block))
    else
      match ReadHms(block, 0)
      case None => Err(MalformedTimeBlock(block))
      case Some(t1) =>
        if |block| > 8 && block[8] == '-' then
          match ReadHms(block, 9)
          case Some(t2) => Ok(Range(Anchor(start, t1), Anchor(start, t2)))
          case None => Err(MalformedTimeBlock(block))
        else
          Err(MalformedTimeBlock(block))
  }

  predicate StartsWith(s: string, prefix: string) {
    |prefix| <= |s| && s[..|prefix|] == prefix
  }

  ghost predicate BeforeShape(block: string) {
    exists t: Hms :: t.TwoDigitFields() && StartsWith(block, "<" + FormatHms(t))
  }

  ghost predicate AfterShape(block: string) {
    exists t: Hms :: t.TwoDigitFields() && StartsWith(block, ">" + FormatHms(t))
  }

  ghost predicate SpanShape(block: string) {
    exists t1: Hms, t2: Hms :: t1.TwoDigitFields() && t2.TwoDigitFields() &&
      StartsWith(block, FormatHms(t1) + "-" + FormatHms(t2))
  }

  /** The accepted shapes, as text: a block begins with one of them. */
  ghost predicate HasBlockShape(block: string) {
    BeforeShape(block) || AfterShape(block) || SpanShape(block)
  }

  /** `<HH:MM:SS` ends the interval at that time; it starts at the day's start. */
  lemma BeforeBlock(t: Hms, rest: string, start: Datetime, end: Datetime)
    requires t.TwoDigitFields()
    ensures TimeBlockRange("<" + FormatHms(t) + rest, start, end) == Ok(Range(start, Anchor(start, t)))
  {
    var b := "<" + FormatHms(t) + rest;
    assert b[1..9] == FormatHms(t);
    ReadFormattedHms(b, 1, t);
  }

  /** `>HH:MM:SS` starts the interval at that time; it ends at the day's end. */
  lemma AfterBlock(t: Hms, rest: string, start: Datetime, end: Datetime)
    requires t.TwoDigitFields()
    ensures TimeBlockRange(">" + FormatHms(t) + rest, start, end) == Ok(Range(Anchor(start, t), end))
  {
    var b := ">" + FormatHms(t) + rest;
    assert b[1..9] == FormatHms(t);
    ReadFormattedHms(b, 1, t);
  }

  /** `HH:MM:SS-HH:MM:SS` anchors both times to the day of `start`, in either order. */
  lemma SpanBlock(t1: Hms, t2: Hms, rest: string, start: Datetime, end: Datetime)
    requires t1.TwoDigitFields() && t2.TwoDigitFields()
    ensures TimeBlockRange(FormatHms(t1) + "-" + FormatHms(t2) + rest, start, end)
            == Ok(Range(Anchor(start, t1), Anchor(start, t2)))
  {
    var b := FormatHms(t1) + "-" + FormatHms(t2) + rest;
    assert b[0..8] == FormatHms(t1);
    assert b[9..17] == FormatHms(t2);
    assert b[8] == '-';
    assert b[0] == FormatHms(t1)[0];
    ReadFormattedHms(b, 0, t1);
    ReadFormattedHms(b, 9, t2);
  }

  /** A span may end before it starts: nothing compares its two times. */
  lemma SpanOrderUnchecked(start: Datetime, end: Datetime)
    ensures TimeBlockRange("17:00:00-09:00:00", start, end).Ok?
    ensures TimeBlockRange("17:00:00-09:00:00", start, end).value.end
            < TimeBlockRange("17:00:00-09:00:00", start, end).value.start
  {
    var late, early := Hms(17, 0, 0), Hms(9, 0, 0);
    assert FormatHms(late) + "-" + FormatHms(early) + "" == "17:00:00-09:00:00";
    SpanBlock(late, early, "", start, end);
  }

  /** Text after a complete block is ignored: `<12:00:00pm` reads as `<12:00:00`. */
  lemma TrailingTextIgnored(start: Datetime, end: Datetime)
    ensures TimeBlockRange("<12:00:00pm", start, end) == TimeBlockRange("<12:00:00", start, end)
    ensures TimeBlockRange("<12:00:00", start, end) == Ok(Range(start, Anchor(start, Hms(12, 0, 0))))
  {
    var noon := Hms(12, 0, 0);
    assert "<" + FormatHms(noon) + "pm" == "<12:00:00pm";
    assert "<" + FormatHms(noon) + "" == "<12:00:00";
    BeforeBlock(noon, "pm", start, end);
    BeforeBlock(noon, "", start, end);
  }

  /** One-digit hours are not a clock reading: `9:00:00-17:00:00` is malformed. */
  lemma OneDigitHourMalformed(start: Datetime, end: Datetime)
    ensures TimeBlockRange("9:00:00-17:00:00", start, end) == Err(MalformedTimeBlock("9:00:00-17:00:00"))
  {
    assert !IsDigit("9:00:00-17:00:00"[1]);
  }

  /** A resolved block begins with one of the three shapes. */
  lemma ResolvedHasShape(block: string, start: Datetime, end: Datetime)
    requires TimeBlockRange(block, start, end).Ok?
    ensures HasBlockShape(block)
  {
    if block[0] == '<' || block[0] == '>' {
      var t := ReadHms(block, 1).value;
      ReadHmsIsFormatted(block, 1);
      assert block[..9] == [block[0]] + block[1..9];
      if block[0] == '<' {
        assert StartsWith(block, "<" + FormatHms(t));
      } else {
        assert StartsWith(block, ">" + FormatHms(t));
      }
    } else {
      var t1 := ReadHms(block, 0).value;
      var t2 := ReadHms(block, 9).value;
      ReadHmsIsFormatted(block, 0);
      ReadHmsIsFormatted(block, 9);
      assert block[..17] == block[0..8] + [block[8]] + block[9..17];
      assert StartsWith(block, FormatHms(t1) + "-" + FormatHms(t2));
    }
  }

  lemma BeforeShapeResolves(block: string, start: Datetime, end: Datetime)
    requires BeforeShape(block)
    ensures TimeBlockRange(block, start, end).Ok?
  {
    var t: Hms :| t.TwoDigitFields() && StartsWith(block, "<" + FormatHms(t));
    assert block == "<" + FormatHms(t) + block[9..];
    BeforeBlock(t, block[9..], start, end);
  }

  lemma AfterShapeResolves(block: string, start: Datetime, end: Datetime)
    requires AfterShape(block)
    ensures TimeBlockRange(block, start, end).Ok?
  {
    var t: Hms :| t.TwoDigitFields() && StartsWith(block, ">" + FormatHms(t));
    assert block == ">" + FormatHms(t) + block[9..];
    AfterBlock(t, block[9..], start, end);
  }

  lemma SpanShapeResolves(block: string, start: Datetime, end: Datetime)
    requires SpanShape(block)
    ensures TimeBlockRange(block, start, end).Ok?
  {
    var t1: Hms, t2: Hms :| t1.TwoDigitFields() && t2.TwoDigitFields() &&
      StartsWith(block, FormatHms(t1) + "-" + FormatHms(t2));
    assert block == FormatHms(t1) + "-" + FormatHms(t2) + block[17..];
    SpanBlock(t1, t2, block[17..], start, end);
  }

  /** A block that begins with one of the three shapes is resolved. */
  lemma ShapeIsResolved(block: string, start: Datetime, end: Datetime)
    requires HasBlockShape(block)
    ensures TimeBlockRange(block, start, end).Ok?
  {
    if BeforeShape(block) {
      BeforeShapeResolves(block, start, end);
    } else if AfterShape(block) {
      AfterShapeResolves(block, start, end);
    } else {
      SpanShapeResolves(block, start, end);
    }
  }

  /**
   * A block is resolved exactly when it begins with one of the three shapes; otherwise it
   * raises MalformedTimeBlock carrying the block, whatever the day.
   */
  lemma TimeBlockAcceptance(block: string, start: Datetime, end: Datetime)
    ensures TimeBlockRange(block, start, end).Ok? <==> HasBlockShape(block)
    ensures TimeBlockRange(block, start, end).Err? ==>
              TimeBlockRange(block, start, end).error == MalformedTimeBlock(block)
  {
    if TimeBlockRange(block, start, end).Ok? {
      ResolvedHasShape(block, start, end);
    }
    if HasBlockShape(block) {
      ShapeIsResolved(block, start, end);
    }
  }
}
