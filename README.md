# Exclusion rules of timewarrior, modelled in Dafny

Timewarrior lets a user mark time that can never be tracked: holidays, weekends, evenings, lunch. Each
such rule is one configuration line, held by an `Exclusion` object (`src/Exclusion.cpp`).
The line takes one of three shapes:

    exc <weekday> <block> [<block> ...]
    exc day on <date>
    exc day off <date>

A block is `<HH:MM:SS`, `>HH:MM:SS` or `HH:MM:SS-HH:MM:SS`.

The model is one Dafny module per concern:

- `Failures` holds the errors each operation can raise, plus `Result`, `Outcome` and `Option`.
- `Text` holds the whitespace `Split` and the `Join` of word lists.
- `Calendar` holds instants as whole seconds, days, weekdays, clock times and the weekday-name lookup.
- `Intervals` holds half-open ranges and overlap.
- `TimeBlocks` holds the `HH:MM:SS` reader, a `Pig` cursor class, and the resolution of one block against a day.
- `Expansion` holds the specification functions for what `ranges` computes: the day scan, the matching
  days, the blocks of one day and the weekday scan. It also holds their lemmas.
- `Exclusions` holds the `Exclusion` class and the lemmas that tie its methods to the source's promises.

The `Exclusion` class has the source's fields `tokens` and `additive`. It also has a ghost flag
`initialized`, which records whether the last `Initialize` accepted its line.

- `Initialize` is a method that always overwrites `tokens`, and overwrites `additive` only when it accepts the line, as the source does.
- `Ranges` is a method that picks the branch as lines 101-113 of `src/Exclusion.cpp` do. For the weekday rules it
  calls `WeekdayRanges`, which holds the `while` loop over the window's days and calls `DayBlockRanges` for
  the inner `for` loop over the blocks.
- `RangeFromTimeBlock` drives a `Pig` cursor with `Skip` and `GetHms`.

Each method is proved equal to a pure specification (`Expand`, `DayRanges`, `TimeBlockRange`). The
source's promises are proved as lemmas about those specifications.

Datetimes are integers counting seconds. Day `n` starts at `n * 86400`, day 0 is a Thursday, `++` adds
86400, and a clock time on the date of `start` is that day's midnight plus the clock seconds.

Parsing the date word of a single-day rule is a parameter of `Ranges`, `parseDate : string -> Option<Datetime>`,
which gives an instant or nothing. A word it rejects raises `InvalidDate`. The rule's interval runs from that
instant to the same clock time one day later. It is a whole calendar day when the instant is a midnight.

## Model

| member | source | states |
|---|---|---|
| Exclusions.Exclusion.Initialize | src/Exclusion.cpp:50-80 | The words are replaced by `Split(line)` before any check. The line is accepted iff it is one of the three shapes (`WellFormed`). An accepted line sets `additive` exactly for the four-word `day on` form. A rejected line raises `UnrecognizedSyntax(line)` and leaves `additive` as it was. |
| Exclusions.DayRuleShape | src/Exclusion.cpp:58-76 | An accepted line whose second word is `day` has exactly four words, and its third word is `on` or `off`. |
| Exclusions.WeekdayRulesArePermissive | src/Exclusion.cpp:72-76 | `exc <weekday>` followed by any words at all, or by none, is accepted and is not additive. |
| Exclusions.AcceptedExamples | src/Exclusion.cpp:55-76 | Concrete lines of every shape are accepted: `day on`, `day off`, an abbreviated weekday with blocks, and a weekday without blocks. Only `day on` is additive. |
| Exclusions.RejectedExamples | src/Exclusion.cpp:55-79 | Concrete lines are rejected: a lone `exc`, a wrong keyword, a three-word day rule, a day rule that is neither on nor off, and a two-letter weekday. |
| Exclusions.Exclusion.Tokens | src/Exclusion.cpp:83-86 | The words returned hold no whitespace, and after an accepted line they have one of the three shapes. |
| Exclusions.Exclusion.Additive | src/Exclusion.cpp:137-140 | After an accepted line, the flag is true exactly when the words are `exc day on <date>`. |
| Exclusions.Exclusion.Serialize | src/Exclusion.cpp:143-146 | The output splits into `"exc"` glued to the first word, followed by the other words. |
| Exclusions.SerializeIsNotReparsed | src/Exclusion.cpp:143-146 | For every accepted rule, the first word of the serialized line is `excexc`, so the serialized line is not one of the accepted shapes. |
| Exclusions.Exclusion.Line | src/Exclusion.cpp:143-146 | The corrected serialization splits back into exactly the rule's words. |
| Exclusions.LineReparses | src/Exclusion.cpp:50-80 | The corrected serialization of an accepted rule is accepted again, with the same `additive` flag. |
| Exclusions.Exclusion.Dump | src/Exclusion.cpp:149-152 | The dump ends with a newline and splits into `Exclusion` followed by the rule's words. |
| Exclusions.Exclusion.RangeFromTimeBlock | src/Exclusion.cpp:155-189 | Scanning the block with a `Pig` cursor gives exactly `TimeBlockRange(block, start, end)`. |
| Exclusions.Exclusion.DayBlockRanges | src/Exclusion.cpp:120-126 | For the day `[start, start + 1 day)`, the block loop returns `DayRanges` of the blocks: their intervals in order, or the first block's error. |
| Exclusions.Exclusion.WeekdayRanges | src/Exclusion.cpp:115-130 | The day loop from the window's start while before its end returns `WeekdayScan` of the blocks over `ScannedDays` of the window. |
| Exclusions.Expand | src/Exclusion.cpp:96-134 | Specification of `ranges`. A single-day rule raises only `InvalidDate` of its date word. A weekday rule raises only `MalformedTimeBlock` carrying one of its blocks. The expansion lemmas below state the results. |
| Exclusions.Exclusion.Ranges | src/Exclusion.cpp:96-134 | Called only after an accepted line; the result equals `Expand(tokens, window, parseDate)`. |
| Exclusions.SingleDayExpansion | src/Exclusion.cpp:101-111 | A single-day rule yields at most one interval, the day that begins at the parsed instant. It yields that day iff the day overlaps the window, and otherwise nothing. A date that does not parse raises `InvalidDate`. |
| Exclusions.DayRange | src/Exclusion.cpp:105-108 | The interval `[start, ++start)` begins at the given instant and lasts exactly one day, ending at the same time of day on the next day. When the instant is a midnight, it is that whole calendar day. |
| Exclusions.WeekdayExpansion | src/Exclusion.cpp:113-131 | A weekday rule's results are grouped per scanned day on the weekday, in scan order, and within a day in block order. Their number is (matching days) × (number of blocks). |
| Exclusions.WeekdayExpansionFails | src/Exclusion.cpp:113-131 | A weekday rule raises iff the window meets its weekday and some block is malformed. A malformed block on a weekday the window misses raises nothing. |
| Exclusions.WeekdayExpansionError | src/Exclusion.cpp:113-131 | When the window meets the rule's weekday, the rule raises `MalformedTimeBlock` carrying its first malformed block, as thrown at lines 168, 176 and 188 and passed out at line 126. |
| Exclusions.OneWeekExpansion | src/Exclusion.cpp:113-131 | Over a window of exactly seven days, a weekday rule yields exactly one interval per block. |
| Calendar.DayOfWeek | src/Exclusion.cpp:118 | The weekday of an instant is in 0..6, and `++` moves it to the next weekday (see `Calendar.NextDay`). |
| Expansion.ScannedDaysExact | src/Exclusion.cpp:115-130 | The `i`-th instant of the scan is `start + i` days and lies before the window's end. It keeps the start's time of day, and its weekday is the start's weekday plus `i`, modulo 7. The scan stops at the first such instant at or after the end. |
| Expansion.ScannedDayAt | src/Exclusion.cpp:116-129 | At step `i`, either the loop visits `start + i` days, which is before the end, or it has reached the end. |
| Expansion.ScanLength | src/Exclusion.cpp:116-129 | A window of `k` whole days is scanned in exactly `k` steps. |
| Expansion.WeekMeetsWeekdayOnce | src/Exclusion.cpp:116-129 | Scanning a seven-day window meets every weekday exactly once. |
| Expansion.MatchingConsecutive | src/Exclusion.cpp:118 | Among at most seven days on consecutive weekdays, a weekday matches once or not at all, depending on its offset. |
| Expansion.Matching | src/Exclusion.cpp:118 | The matching days are scanned days on the weekday, and every scanned day on the weekday is among them. |
| Expansion.DayRangesValues | src/Exclusion.cpp:125-126 | A successful day has one interval per block, and the `k`-th interval is the resolution of the `k`-th block. |
| Expansion.DayRangesFails | src/Exclusion.cpp:125-126 | A day succeeds iff every block has one of the three accepted shapes. |
| Expansion.DayRangesFirstError | src/Exclusion.cpp:125-126 | The error of a day names its first malformed block. |
| Expansion.DayRangesErrorPersists | src/Exclusion.cpp:125-126 | An error raised by the first blocks ends the day with that error. |
| Expansion.WeekdayScanErrorPersists | src/Exclusion.cpp:116-130 | An error raised on an early day ends the scan with that error. |
| Expansion.GroupedLength | src/Exclusion.cpp:116-130 | Grouped results number one per block for each day. |
| Expansion.GroupedAt | src/Exclusion.cpp:116-130 | In grouped results, position `p = j * n + k` holds block `k` resolved on day `j`, where `n` is the number of blocks. |
| Expansion.GroupedAppend | src/Exclusion.cpp:125-126 | Pushing one day's block intervals after grouped results gives grouped results for one more day. |
| Expansion.WeekdayScanLayout | src/Exclusion.cpp:116-130 | A successful scan's results are grouped over the matching days in scan order. |
| Expansion.WeekdayScanFails | src/Exclusion.cpp:116-130 | A scan raises iff some scanned day matches and some block is malformed. |
| Expansion.DayRangesErrorIsBlock | src/Exclusion.cpp:125-126 | Every error of a day is `MalformedTimeBlock` carrying one of its blocks. |
| Expansion.WeekdayScanErrorIsBlock | src/Exclusion.cpp:116-130 | Every error of a weekday scan is `MalformedTimeBlock` carrying one of the blocks. |
| Expansion.WeekdayScanFirstError | src/Exclusion.cpp:116-130 | When some scanned day matches, the scan's error is `MalformedTimeBlock` carrying the first malformed block. |
| Expansion.NoBlocksNoRanges | src/Exclusion.cpp:125 | A weekday rule without blocks yields nothing, whatever the window. |
| TimeBlocks.TimeBlockRange | src/Exclusion.cpp:160-188 | Specification of `rangeFromTimeBlock`, following the source's `<`, `>` and span branches. Every error is `MalformedTimeBlock(block)`. A `<` block starts at `start`, and a `>` block ends at `end`. |
| TimeBlocks.TimeBlockAcceptance | src/Exclusion.cpp:160-188 | A block resolves iff it begins with `<HH:MM:SS`, `>HH:MM:SS` or `HH:MM:SS-HH:MM:SS`. Otherwise it raises `MalformedTimeBlock` carrying the block. The result does not depend on the day. |
| TimeBlocks.ResolvedHasShape | src/Exclusion.cpp:160-188 | A block that resolves begins with one of the three shapes. |
| TimeBlocks.ShapeIsResolved | src/Exclusion.cpp:160-188 | A block that begins with one of the three shapes resolves. |
| TimeBlocks.BeforeShapeResolves | src/Exclusion.cpp:162-166 | A block beginning `<HH:MM:SS` resolves. |
| TimeBlocks.AfterShapeResolves | src/Exclusion.cpp:170-174 | A block beginning `>HH:MM:SS` resolves. |
| TimeBlocks.SpanShapeResolves | src/Exclusion.cpp:181-186 | A block beginning `HH:MM:SS-HH:MM:SS` resolves. |
| TimeBlocks.BeforeBlock | src/Exclusion.cpp:162-166 | `<HH:MM:SS` followed by anything gives `[start, that clock time on start's date)`. |
| TimeBlocks.AfterBlock | src/Exclusion.cpp:170-174 | `>HH:MM:SS` followed by anything gives `[that clock time on start's date, end)`. |
| TimeBlocks.SpanBlock | src/Exclusion.cpp:179-186 | `HH:MM:SS-HH:MM:SS` followed by anything gives both clock times on start's date, in the written order. |
| TimeBlocks.SpanOrderUnchecked | src/Exclusion.cpp:181-186 | `17:00:00-09:00:00` resolves to an interval whose end precedes its start. |
| TimeBlocks.TrailingTextIgnored | src/Exclusion.cpp:162-166 | `<12:00:00pm` resolves as `<12:00:00`. |
| TimeBlocks.OneDigitHourMalformed | src/Exclusion.cpp:179-188 | With the modelled two-digit `HH:MM:SS` reader, `9:00:00-17:00:00` fails the first read and raises `MalformedTimeBlock`. The outcome comes from that reader's digit rule, not from these lines alone. |
| TimeBlocks.Pig.Skip | src/Exclusion.cpp:162 | Skip succeeds iff the next character is the given one, and then the cursor steps over it; otherwise nothing moves. |
| TimeBlocks.Pig.GetHms | src/Exclusion.cpp:165 | GetHms succeeds iff `HH:MM:SS` is at the cursor. It then returns those three fields and steps over the eight characters; otherwise the cursor stays. |
| TimeBlocks.ReadHms | src/Exclusion.cpp:165 | A reading found at `i` has two-digit fields and lies inside the text. |
| TimeBlocks.ReadFormattedHms | src/Exclusion.cpp:165 | A written `HH:MM:SS` is read back as the same clock time, whatever follows it. |
| TimeBlocks.ReadHmsIsFormatted | src/Exclusion.cpp:165 | Whatever the reader finds is, character for character, the written form of the clock time it returns. |
| Calendar.WeekdayIndex | src/Exclusion.cpp:72 | The lookup gives a weekday number in 0..6 whose name the word abbreviates, or -1 exactly when the word abbreviates no weekday name. |
| Calendar.WeekdayNameUnique | src/Exclusion.cpp:72 | A word abbreviates at most one weekday, so the lookup's answer is the only one. |
| Calendar.DayIsNoWeekday | src/Exclusion.cpp:72 | The keyword `day` names no weekday. |
| Calendar.NextDay | src/Exclusion.cpp:107 | `++` moves one day later: the same time of day, the next day number and the next weekday. |
| Calendar.AtTime | src/Exclusion.cpp:166 | A valid clock time on the date of `t` lies on that day, at that time of day. |
| Intervals.Overlaps | src/Exclusion.cpp:109 | Half-open overlap: for non-empty ranges, it holds iff the later start precedes the earlier end. |
| Intervals.OverlapsIffSharedInstant | src/Exclusion.cpp:109 | Two non-empty half-open intervals overlap iff some instant lies in both. Overlap is symmetric. |
| Text.Split | src/Exclusion.cpp:52 | Every word produced is non-empty and holds no whitespace. |
| Text.Join | src/Exclusion.cpp:145-151 | Words with the separator between them; the result begins with the first word. `Text.SplitJoinRoundTrip`, `Text.SplitGluedJoin` and `Text.SplitLabelledLine` state what it means once split again. |
| Text.SplitJoinRoundTrip | src/Exclusion.cpp:145 | Splitting words joined by single spaces gives back the words. |
| Text.SplitGluedJoin | src/Exclusion.cpp:145 | Text glued without a space to the joined words becomes part of the first word. |
| Text.SplitLabelledLine | src/Exclusion.cpp:151 | A label, a space, the joined words and a newline split into the label followed by the words. |

## Left out

- Calendar arithmetic of `Datetime` is left out. There are no time zones, no daylight saving and no Gregorian month lengths. An instant is a whole number of seconds, a day is 86400 seconds, and `++` adds 86400.
- `Datetime (_tokens[3])`, the parsing of a date word, is the parameter `parseDate`, which returns an instant. A word it cannot parse raises `InvalidDate`, standing for the constructor's exception. What instant a given word names, for example whether a date alone means its midnight, belongs to the parser and is not modelled.
- `Datetime::dayOfWeek` of a name is modelled as a case-insensitive prefix of at least three letters of an English weekday name. The library that implements it is not part of this model.
- `Pig::getHMS` is modelled as reading exactly `DD:DD:DD`, with no range check on the fields. `Pig` is not part of this model, so its exact digit rules are not modelled.
- `split` uses the separators space, tab, newline, carriage return and form feed, and drops empty words. `join` puts the separator between items. Their library is not part of this model.
- `Range::overlap` is modelled as half-open overlap of closed ranges. Open-ended ranges are not modelled.
- The text of the thrown messages (`format`) is left out. Each error is a datatype value carrying the line, the block or the date word.
- Exclusions.Exclusion.Ranges: results are built one day at a time. `DayBlockRanges` returns a day's intervals, which are then appended, where the source pushes each block's interval straight into one vector. The result is the same, but an exception raised midway is not modelled as leaving a partly filled vector, since the source discards it.
- Exclusions.Exclusion.Ranges requires an accepted line. In the source, indexing goes out of range for a line of fewer than two words, for a two-word line whose second word is `day`, or for a three-word `… day on` or `… day off` line. Other rejected lines, such as `foo monday <09:00:00` or `exc day on 2024-03-15 x`, give defined intervals there, which the model does not describe.
- `Exclusion.h` is not part of this model. Its defaults for the fields are taken to be empty words and `additive` false, which is what the constructor sets.
- Configuration loading and the `:fill` use of the intervals are outside `src/Exclusion.cpp`.

## Findings

| source | as written | input that shows it | evidently intended | confidence | as-written member | corrected member |
|---|---|---|---|---|---|---|
| src/Exclusion.cpp:143-146 | `serialize` returns `"exc"` glued to the joined words, and the words already begin with `exc` | a rule from `exc monday <09:00:00` serializes to `excexc monday <09:00:00`, which `initialize` rejects | the joined words alone, `exc monday <09:00:00`, which reads back as the same rule | medium, not executed | Exclusions.SerializeIsNotReparsed | Exclusions.LineReparses |
