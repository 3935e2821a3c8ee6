/**
 * What a recurring-weekday rule expands to inside a query window, stated on values: the
 * instants the day-by-day scan visits, those on the rule's weekday, and the intervals the
 * time blocks give for each of them, first error first.
 */
module Expansion {
  import opened Failures
  import opened Calendar
  import opened Intervals
  import opened TimeBlocks

  /** The instants visited by a scan that starts at `from` and steps one day while before `limit`. */
  function ScannedDays(from: Datetime, limit: Datetime): seq<Datetime>
    decreases limit - from
  {
    if from < limit then [from] + ScannedDays(NextDay(from), limit) else []
  }

  /** The scan visits exactly the instants `from + i` days that lie before `limit`, all at `from`'s clock time. */
  lemma {:induction false} ScannedDaysExact(from: Datetime, limit: Datetime)
    ensures forall i :: 0 <= i < |ScannedDays(from, limit)| ==>
              && ScannedDays(from, limit)[i] == from + i * SecondsPerDay
              && ScannedDays(from, limit)[i] < limit
              && TimeOfDay(ScannedDays(from, limit)[i]) == TimeOfDay(from)
              && DayOfWeek(ScannedDays(from, limit)[i]) == (DayOfWeek(from) + i) % 7
    ensures from + |ScannedDays(from, limit)| * SecondsPerDay >= limit
    decreases limit - from
  {
    if from < limit {
      var days := ScannedDays(from, limit);
      var next := NextDay(from);
      assert next == from + SecondsPerDay;
      var rest := ScannedDays(next, limit);
      ScannedDaysExact(next, limit);
      assert days == [from] + rest;
      assert from + |days| * SecondsPerDay == next + |rest| * SecondsPerDay;
      forall i | 0 < i < |days|
        ensures days[i] == from + i * SecondsPerDay
        ensures DayOfWeek(days[i]) == (DayOfWeek(from) + i) % 7
      {
        assert days[i] == rest[i - 1];
      }
    }
  }

  /** The scan's i-th step: the instant visited, or the end of the scan. */
  lemma ScannedDayAt(from: Datetime, limit: Datetime, i: nat)
    requires i <= |ScannedDays(from, limit)|
    ensures i < |ScannedDays(from, limit)| ==>
              ScannedDays(from, limit)[i] == from + i * SecondsPerDay && from + i * SecondsPerDay < limit
    ensures i == |ScannedDays(from, limit)| ==> from + i * SecondsPerDay >= limit
  {
    ScannedDaysExact(from, limit);
  }

  /** The days of `days` that fall on `weekday`, in order. */
  function Matching(days: seq<Datetime>, weekday: int): (m: seq<Datetime>)
    ensures |m| <= |days|
    ensures forall j :: 0 <= j < |m| ==> m[j] in days && DayOfWeek(m[j]) == weekday
    ensures forall d :: d in days && DayOfWeek(d) == weekday ==> d in m
    decreases |days|
  {
    if days == [] then []
    else
      var last := days[|days| - 1];
      assert days == days[..|days| - 1] + [last];
      Matching(days[..|days| - 1], weekday) + (if DayOfWeek(last) == weekday then [last] else [])
  }

  /** A scan over k whole days from `from` visits k instants. */
  lemma {:induction false} ScanLength(from: Datetime, k: nat)
    ensures |ScannedDays(from, from + k * SecondsPerDay)| == k
    decreases k
  {
    if k > 0 {
      var next := NextDay(from);
      ScanLength(next, k - 1);
      assert from + k * SecondsPerDay == next + (k - 1) * SecondsPerDay;
    }
  }

  /** Step m of a week that begins on `first` falls on `weekday` exactly at one offset. */
  lemma WeekOffset(first: int, weekday: int, m: int)
    requires 0 <= first < 7 && 0 <= weekday < 7 && 0 <= m < 7
    ensures (first + m) % 7 == weekday <==> (weekday - first) % 7 == m
  {
    if first + m < 7 {
      assert (first + m) % 7 == first + m;
    } else {
      assert (first + m) % 7 == first + m - 7;
    }
    if weekday >= first {
      assert (weekday - first) % 7 == weekday - first;
    } else {
      assert (weekday - first) % 7 == weekday - first + 7;
    }
  }

  /** Among at most seven days on consecutive weekdays, a weekday is met at most once. */
  lemma {:induction false} MatchingConsecutive(days: seq<Datetime>, first: int, weekday: int, n: nat)
    requires n <= |days| <= 7 && 0 <= first < 7 && 0 <= weekday < 7
    requires forall i :: 0 <= i < |days| ==> DayOfWeek(days[i]) == (first + i) % 7
    ensures |Matching(days[..n], weekday)| == if (weekday - first) % 7 < n then 1 else 0
    decreases n
  {
    if n > 0 {
      var front, last := days[..n - 1], days[n - 1];
      MatchingConsecutive(days, first, weekday, n - 1);
      assert days[..n][..n - 1] == front;
      assert days[..n][n - 1] == last;
      WeekOffset(first, weekday, n - 1);
      assert DayOfWeek(last) == weekday <==> (weekday - first) % 7 == n - 1;
      var step := if DayOfWeek(last) == weekday then [last] else [];
      assert Matching(days[..n], weekday) == Matching(front, weekday) + step;
      assert |step| == if (weekday - first) % 7 == n - 1 then 1 else 0;
    }
  }

  /** A window of exactly one week meets every weekday once. */
  lemma WeekMeetsWeekdayOnce(from: Datetime, weekday: int)
    requires 0 <= weekday < 7
    ensures |Matching(ScannedDays(from, from + 7 * SecondsPerDay), weekday)| == 1
  {
    var days := ScannedDays(from, from + 7 * SecondsPerDay);
    ScanLength(from, 7);
    ScannedDaysExact(from, from + 7 * SecondsPerDay);
    MatchingConsecutive(days, DayOfWeek(from), weekday, 7);
    assert days[..7] == days;
  }

  /** The intervals of one day's blocks, in block order; the first malformed block raises. */
  function DayRanges(blocks: seq<string>, day: Datetime): Result<seq<Range>>
    decreases |blocks|
  {
    if blocks == [] then Ok([])
    else
      match DayRanges(blocks[..|blocks| - 1], day)
      case Err(e) => Err(e)
      case Ok(rs) =>
        match TimeBlockRange(blocks[|blocks| - 1], day, NextDay(day))
        case Err(e) => Err(e)
        case Ok(r) => Ok(rs + [r])
  }

  /** The intervals of every day of `days` on `weekday`, day after day; the first error raises. */
  function WeekdayScan(blocks: seq<string>, weekday: int, days: seq<Datetime>): Result<seq<Range>>
    decreases |days|
  {
    if days == [] then Ok([])
    else
      match WeekdayScan(blocks, weekday, days[..|days| - 1])
      case Err(e) => Err(e)
      case Ok(rs) =>
        var day := days[|days| - 1];
        if DayOfWeek(day) == weekday then
          match DayRanges(blocks, day)
          case Err(e) => Err(e)
          case Ok(xs) => Ok(rs + xs)
        else
          Ok(rs)
  }

  /** The blocks up to `k` and block `k` give the blocks up to `k + 1`. */
  lemma DayRangesStep(blocks: seq<string>, k: nat, day: Datetime)
    requires k < |blocks|
    ensures DayRanges(blocks[..k + 1], day) ==
              match DayRanges(blocks[..k], day)
              case Err(e) => Err(e)
              case Ok(rs) =>
                match TimeBlockRange(blocks[k], day, NextDay(day))
                case Err(e) => Err(e)
                case Ok(r) => Ok(rs + [r])
  {
    assert blocks[..k + 1][..k] == blocks[..k];
  }

  /** The days up to `i` and day `i` give the days up to `i + 1`. */
  lemma WeekdayScanStep(blocks: seq<string>, weekday: int, days: seq<Datetime>, i: nat)
    requires i < |days|
    ensures WeekdayScan(blocks, weekday, days[..i + 1]) ==
              match WeekdayScan(blocks, weekday, days[..i])
              case Err(e) => Err(e)
              case Ok(rs) =>
                if DayOfWeek(days[i]) == weekday then
                  match DayRanges(blocks, days[i])
                  case Err(e) => Err(e)
                  case Ok(xs) => Ok(rs + xs)
                else
                  Ok(rs)
  {
    assert days[..i + 1][..i] == days[..i];
  }

  /** An error raised by a prefix of the blocks is the error of all of them. */
  lemma {:induction false} DayRangesErrorPersists(blocks: seq<string>, j: nat, day: Datetime)
    requires j <= |blocks| && DayRanges(blocks[..j], day).Err?
    ensures DayRanges(blocks, day) == DayRanges(blocks[..j], day)
    decreases |blocks|
  {
    if j < |blocks| {
      var prefix := blocks[..|blocks| - 1];
      assert prefix[..j] == blocks[..j];
      DayRangesErrorPersists(prefix, j, day);
    } else {
      assert blocks[..j] == blocks;
    }
  }

  /** An error raised on a prefix of the scanned days is the error of the whole scan. */
  lemma {:induction false} WeekdayScanErrorPersists(blocks: seq<string>, weekday: int, days: seq<Datetime>, i: nat)
    requires i <= |days| && WeekdayScan(blocks, weekday, days[..i]).Err?
    ensures WeekdayScan(blocks, weekday, days) == WeekdayScan(blocks, weekday, days[..i])
    decreases |days|
  {
    if i < |days| {
      var prefix := days[..|days| - 1];
      assert prefix[..i] == days[..i];
      WeekdayScanErrorPersists(blocks, weekday, prefix, i);
    } else {
      assert days[..i] == days;
    }
  }

  /** A successful day gives one interval per block, the k-th from the k-th block. */
  lemma {:induction false} DayRangesValues(blocks: seq<string>, day: Datetime)
    requires DayRanges(blocks, day).Ok?
    ensures |DayRanges(blocks, day).value| == |blocks|
    ensures forall k :: 0 <= k < |blocks| ==>
              TimeBlockRange(blocks[k], day, NextDay(day)) == Ok(DayRanges(blocks, day).value[k])
    decreases |blocks|
  {
    if blocks != [] {
      var n := |blocks| - 1;
      var prefix := blocks[..n];
      DayRangesValues(prefix, day);
      var rs := DayRanges(prefix, day).value;
      assert DayRanges(blocks, day).value == rs + [TimeBlockRange(blocks[n], day, NextDay(day)).value];
      assert forall k :: 0 <= k < n ==> prefix[k] == blocks[k];
    }
  }

  /** A day succeeds exactly when every one of its blocks resolves. */
  lemma {:induction false} DayRangesResolve(blocks: seq<string>, day: Datetime)
    ensures DayRanges(blocks, day).Ok? <==>
              forall k :: 0 <= k < |blocks| ==> TimeBlockRange(blocks[k], day, NextDay(day)).Ok?
    decreases |blocks|
  {
    if blocks != [] {
      var n := |blocks| - 1;
      var prefix := blocks[..n];
      DayRangesResolve(prefix, day);
      assert forall k :: 0 <= k < n ==> prefix[k] == blocks[k];
    }
  }

  /** A day succeeds exactly when every one of its blocks is well shaped. */
  lemma DayRangesFails(blocks: seq<string>, day: Datetime)
    ensures DayRanges(blocks, day).Ok? <==> forall k :: 0 <= k < |blocks| ==> HasBlockShape(blocks[k])
  {
    DayRangesResolve(blocks, day);
    forall k | 0 <= k < |blocks|
      ensures TimeBlockRange(blocks[k], day, NextDay(day)).Ok? <==> HasBlockShape(blocks[k])
    {
      TimeBlockAcceptance(blocks[k], day, NextDay(day));
    }
  }

  /** The error of a day names its first malformed block. */
  lemma DayRangesFirstError(blocks: seq<string>, day: Datetime, k: nat)
    requires k < |blocks| && !HasBlockShape(blocks[k])
    requires forall j :: 0 <= j < k ==> HasBlockShape(blocks[j])
    ensures DayRanges(blocks, day) == Err(MalformedTimeBlock(blocks[k]))
  {
    var prefix := blocks[..k];
    assert forall j :: 0 <= j < k ==> prefix[j] == blocks[j];
    DayRangesFails(prefix, day);
    TimeBlockAcceptance(blocks[k], day, NextDay(day));
    DayRangesStep(blocks, k, day);
    DayRangesErrorPersists(blocks, k + 1, day);
  }

  /** `xs` holds one interval per block on `day`, in block order. */
  predicate DayGroup(xs: seq<Range>, day: Datetime, blocks: seq<string>) {
    && |xs| == |blocks|
    && forall k :: 0 <= k < |blocks| ==> TimeBlockRange(blocks[k], day, NextDay(day)) == Ok(xs[k])
  }

  /** `rs` is the day groups of `days`, one after another in the order of `days`. */
  predicate Grouped(rs: seq<Range>, days: seq<Datetime>, blocks: seq<string>)
    decreases |days|
  {
    if days == [] then rs == []
    else
      && |blocks| <= |rs|
      && Grouped(rs[..|rs| - |blocks|], days[..|days| - 1], blocks)
      && DayGroup(rs[|rs| - |blocks|..], days[|days| - 1], blocks)
  }

  /** Grouped intervals number |blocks| per day. */
  lemma {:induction false} GroupedLength(rs: seq<Range>, days: seq<Datetime>, blocks: seq<string>)
    requires Grouped(rs, days, blocks)
    ensures |rs| == |days| * |blocks|
    decreases |days|
  {
    if days != [] {
      GroupedLength(rs[..|rs| - |blocks|], days[..|days| - 1], blocks);
      assert |days| * |blocks| == (|days| - 1) * |blocks| + |blocks|;
    }
  }

  /** In grouped intervals, position p = j * |blocks| + k holds block k on day j. */
  lemma {:induction false} GroupedAt(rs: seq<Range>, days: seq<Datetime>, blocks: seq<string>, j: nat, k: nat, p: nat)
    requires Grouped(rs, days, blocks) && j < |days| && k < |blocks| && p == j * |blocks| + k
    ensures p < |rs| && TimeBlockRange(blocks[k], days[j], NextDay(days[j])) == Ok(rs[p])
    decreases |days|
  {
    var n := |blocks|;
    var front := rs[..|rs| - n];
    var earlier := days[..|days| - 1];
    GroupedLength(front, earlier, blocks);
    if j == |days| - 1 {
      assert p - k == |front|;
      assert rs[p] == rs[|rs| - n..][k];
    } else {
      GroupedAt(front, earlier, blocks, j, k, p);
      assert front[p] == rs[p];
      assert earlier[j] == days[j];
    }
  }

  /** Appending one day's intervals to grouped intervals groups the extended day list. */
  lemma GroupedAppend(rs: seq<Range>, days: seq<Datetime>, blocks: seq<string>, xs: seq<Range>, day: Datetime)
    requires Grouped(rs, days, blocks) && DayGroup(xs, day, blocks)
    ensures Grouped(rs + xs, days + [day], blocks)
  {
    var all := rs + xs;
    assert all[..|all| - |blocks|] == rs;
    assert all[|all| - |blocks|..] == xs;
    assert (days + [day])[..|days|] == days;
  }

  /**
   * A successful weekday scan gives |blocks| intervals for every matching day, grouped by
   * day in scan order and, within a day, in block order.
   */
  lemma {:induction false} WeekdayScanLayout(blocks: seq<string>, weekday: int, days: seq<Datetime>)
    requires WeekdayScan(blocks, weekday, days).Ok?
    ensures Grouped(WeekdayScan(blocks, weekday, days).value, Matching(days, weekday), blocks)
    decreases |days|
  {
    if days != [] {
      var i := |days| - 1;
      var prefix := days[..i];
      var day := days[i];
      WeekdayScanLayout(blocks, weekday, prefix);
      var rs := WeekdayScan(blocks, weekday, prefix).value;
      if DayOfWeek(day) == weekday {
        DayRangesValues(blocks, day);
        assert Matching(days, weekday) == Matching(prefix, weekday) + [day];
        GroupedAppend(rs, Matching(prefix, weekday), blocks, DayRanges(blocks, day).value, day);
      } else {
        assert Matching(days, weekday) == Matching(prefix, weekday);
      }
    }
  }

  /**
   * A weekday scan raises exactly when some scanned day matches and some block is
   * malformed: a malformed block on a weekday the window does not meet raises nothing.
   */
  lemma {:induction false} WeekdayScanFails(blocks: seq<string>, weekday: int, days: seq<Datetime>)
    ensures WeekdayScan(blocks, weekday, days).Err? <==>
              |Matching(days, weekday)| > 0 && exists k :: 0 <= k < |blocks| && !HasBlockShape(blocks[k])
    decreases |days|
  {
    if days != [] {
      var i := |days| - 1;
      var prefix := days[..i];
      var day := days[i];
      WeekdayScanFails(blocks, weekday, prefix);
      if DayOfWeek(day) == weekday {
        DayRangesFails(blocks, day);
        assert Matching(days, weekday) == Matching(prefix, weekday) + [day];
      } else {
        assert Matching(days, weekday) == Matching(prefix, weekday);
      }
    }
  }

  /**
   * When the scan meets the weekday, its error is MalformedTimeBlock of the first malformed
   * block, raised on the first matching day.
   */
  lemma {:induction false} WeekdayScanFirstError(blocks: seq<string>, weekday: int, days: seq<Datetime>, k: nat)
    requires k < |blocks| && !HasBlockShape(blocks[k])
    requires forall j :: 0 <= j < k ==> HasBlockShape(blocks[j])
    requires |Matching(days, weekday)| > 0
    ensures WeekdayScan(blocks, weekday, days) == Err(MalformedTimeBlock(blocks[k]))
    decreases |days|
  {
    var i := |days| - 1;
    var prefix := days[..i];
    var day := days[i];
    if |Matching(prefix, weekday)| > 0 {
      WeekdayScanFirstError(blocks, weekday, prefix, k);
    } else {
      WeekdayScanFails(blocks, weekday, prefix);
      assert DayOfWeek(day) == weekday;
      DayRangesFirstError(blocks, day, k);
    }
  }

  /** Every error of a day is MalformedTimeBlock carrying one of its blocks. */
  lemma {:induction false} DayRangesErrorIsBlock(blocks: seq<string>, day: Datetime)
    ensures DayRanges(blocks, day).Err? ==>
              DayRanges(blocks, day).error.MalformedTimeBlock? && DayRanges(blocks, day).error.block in blocks
    decreases |blocks|
  {
    if blocks != [] {
      var prefix := blocks[..|blocks| - 1];
      DayRangesErrorIsBlock(prefix, day);
      assert forall b :: b in prefix ==> b in blocks;
    }
  }

  /** Every error of a weekday scan is MalformedTimeBlock carrying one of the blocks. */
  lemma {:induction false} WeekdayScanErrorIsBlock(blocks: seq<string>, weekday: int, days: seq<Datetime>)
    ensures WeekdayScan(blocks, weekday, days).Err? ==>
              && WeekdayScan(blocks, weekday, days).error.MalformedTimeBlock?
              && WeekdayScan(blocks, weekday, days).error.block in blocks
    decreases |days|
  {
    if days != [] {
      WeekdayScanErrorIsBlock(blocks, weekday, days[..|days| - 1]);
      DayRangesErrorIsBlock(blocks, days[|days| - 1]);
    }
  }

  /** A weekday rule without blocks yields nothing on any window. */
  lemma {:induction false} NoBlocksNoRanges(weekday: int, days: seq<Datetime>)
    ensures WeekdayScan([], weekday, days) == Ok([])
    decreases |days|
  {
    if days != [] {
      NoBlocksNoRanges(weekday, days[..|days| - 1]);
      assert DayRanges([], days[|days| - 1]) == Ok([]);
      var none: seq<Range> := [];
      assert none + none == none;
    }
  }
}
