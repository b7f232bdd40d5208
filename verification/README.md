# Verification of neutrino2

A Dafny model of the parts of neutrino2 that compute something worth proving, and proofs about
them. `dafny verify dfyconfig.toml` checks everything.

**The transport-stream editor** (`plugins/moviebrowser/tstool.cpp`). A recording is a list of part
files that stands for one flat byte string. Cutting, copying and truncating work on the parts with a
bounded buffer and part-relative cursors; the specification is told over the flat string alone.

- `Recording`, `Gop`, `Streaming`: parts and flat positions, finding the first GOP, the buffered loop.
- `Bookmarks`, `Overlaps`, `CutTables`: from seconds to intervals, sorting and resolving them in place.
  `Requests`, `CopyRequests`: what the bookmarks ask to be cut and copied, told from the seconds alone.
- `CutPlan`, `CutRun`, `CutLoop`: the output over the flat string, the turns of the loop as a step
  function and when they come to an end, and the loop over parts that produces the output.
- `CutEnds`, `CutLate`: when the loop ends under tables that make it read back. `CutEdges`: where it
  seeks, reads and writes.
- `CutMeaning`, `CutOrder`, `CutResults`: the output is the recording without the intervals and trims,
  exactly when reading only moves forward; what overlapping bookmarks and a stale recorded size do;
  byte counts. `Packets`: packet boundaries.
- `CopyLoop`, `Truncation`, `Files`, `Decimal`, `Editing`: copying, truncating, file names, and the
  operations on a directory of files.

**The calendar** (`plugins/tuxcal/tuxcal.cpp`, `tuxcal.h`). `CalDate`, `Weeks`, `Computus`,
`Easter` and `Holidays` hold the date arithmetic, `Events`, `EventCheck`, `DayQuery` and `Flags` the entries and
the query for a day, `Scanning`, `Moments`, `CalLines` and `CalFile` the text file, `Calendar` the
object with its tables.

**Recording and timeshift** (`neutrino2/src/neutrino2.cpp`). `Timeshift` is the state machine over
the messages of remote control, daemons and menus, with every answer of device, user and daemons
free; `Effects` and `Journeys` say what each message, and two in a row, bring about; `Receiver` is the
object whose handlers run the machine.

**User menu** (`neutrino2.cpp`, `neutrino2_menue.cpp`): `UserMenu` and `MenuKeys`.
**Movie browser** (`plugins/moviebrowser/moviebrowser.cpp`): `MovieOrder`, `Browser` and `Series`.

## What the proofs found

The model keeps the code as it is. Where the code does not do what it is for, the exact condition is
proved:

- Overlapping bookmarks can be moved to a common start by the resolution; then a cut brings bytes back
  that were to be removed, and the expected size is too small
  (`CutResults.OverlapSpoilsCut`, `CutResults.LengthsAreMeasure`, `CutResults.CutRightIffInTurn`).
- With a recorded size below the parts' real total the cut loop can run for ever, exactly when it
  comes back to the same place (`CutRun.EndsIffNoRepeat`). Mostly it then copies nothing
  (`CutResults.StaleSizeRunsForEver`); with an end bookmark behind the recorded size it writes the same
  bytes again and again (`CutResults.LateEndWritesForEver`, `CutRun.RepeatedTurn`). When that happens can
  be told from total, recorded size and intervals (`CutResults.CutEndsIff`,
  `CutResults.OnePartCutEndsIff`). Where the cut ends well, what lies behind the recorded size is lost
  (`CutResults.LongerThanRecorded`).
- `compare_book` can misorder positions that are 2^41 bytes or more apart (`Bookmarks.OrdersRightIff`,
  `Bookmarks.CompareCanFail`).
- `LeapYear` takes 2000 for a common year although turns of the century divisible by 400 are leap
  years: weekdays of January and February 2000 are one off (`CalDate.DayOfWeekIsGregorian`), and week
  numbers on their Sundays; the first days of 1700 get the wrong week as well, because the weekday of a day in 1699
  is asked for (`Weeks.WeekNumberIsIso`).
- From 2200 on the Easter table has no row, and Easter is no Sunday; until then it is the Gregorian
  Easter (`Easter.EasterIsGregorian`).
- A stretch to be copied is moved back by 262260 bytes and not made longer: the last 262260 bytes of
  every such bookmark are missing, and of a shorter one all (`CopyRequests.StretchHolds`).
- A period's end day is counted with the start year's length, and yearless periods are wrong around
  the end of February (`Events.DatedPeriodExact`, `Events.YearlessPeriodExact`).
- An entry with a time but no year, or a period with unlike ends, is saved in a form that is not read
  back (`CalLines.LineRoundTrip`).
- Four messages, each handled in one piece, clear the recording status without looking at autoshift; the
  next timer recording then starts with autoshift set (`Timeshift.StepKeeps`,
  `Timeshift.RecordModeOffSpoils`). So does the "yes" in the question box of the record and stop keys, if
  messages handled behind the box have set autoshift (`Timeshift.AskedKeyKeeps`,
  `Timeshift.QuestionBoxSpoils`).
- Without a recording device the record and pause keys set the recording status all the same
  (`Effects.StepBrings`); on the way from standby to the scart input and back, the mode before standby is
  lost (`Journeys.ScartAndBack`).
- A user menu without items is saved as whatever the text buffer held (`UserMenu.SaveThenLoad`,
  `UserMenu.EmptyTableComesBack`).

## Model

| member | source | states |
|---|---|---|
| Editing.Disk.CutMovie | plugins/moviebrowser/tstool.cpp:294-589 | for every recording whose cut ends: the new file is the three table packets followed by exactly what the flat plan keeps, for every split into parts and every recorded size, whenever no reached interval ends before it starts and copying only moves forward or there is a single part; with intervals left in turn that is the recording without just the bytes before the start second, in the user's jumps and from the end second on (each jump less its last 262260 bytes), less the trims; bytes written and expected size are the plan's; success is reported exactly when the loop ends well; no other file changes; the offsets of all seeks, reads and writes are those of the step function's turns, and packet boundaries if the parts are whole packets; without bookmarks nothing happens |
| CutLoop.CutParts | plugins/moviebrowser/tstool.cpp:431-576 | wherever the loop ends (empty parts, intervals that cross or end on part boundaries, the leftover length behind the last interval, any recorded size) it writes the flat plan, and the size still expected falls by the trims; it ends as the step function does after so many turns, with exactly the seeks, reads and writes of these turns; on packet-aligned input each of them is at a packet boundary |
| CutEdges.LoopAligned | plugins/moviebrowser/tstool.cpp:458-570 | with parts and intervals of whole packets no turn of the loop touches an offset that is no packet boundary |
| CutEdges.TurnAligned | plugins/moviebrowser/tstool.cpp:458-570 | the same for one turn, from packet boundaries to packet boundaries |
| Streaming.EdgesAligned | plugins/moviebrowser/tstool.cpp:464-527 | and for the reads and writes of one range |
| CutLoop.PartTurn | plugins/moviebrowser/tstool.cpp:460-571 | one turn of the inner loop (copy up to the interval, jump behind it) is the step function's turn, keeps plan, byte budget and course, and never has more written than is still expected if the loop started with enough |
| CutLoop.CutPart | plugins/moviebrowser/tstool.cpp:444-575 | the same for a whole part file, opened or skipped |
| CutLoop.Jump | plugins/moviebrowser/tstool.cpp:543-570 | reaching an interval: cursors, next surviving entry and part are those of the step function |
| CutRun.EndsIffNoRepeat | plugins/moviebrowser/tstool.cpp:444-576 | under every table and recorded size the loop ends if and only if it never comes back to the place it stood at the turn before |
| CutRun.EndsExactly | plugins/moviebrowser/tstool.cpp:444-576 | under tables whose reached intervals do not end before they start, and that read forward or have a single part: the loop ends if and only if recorded size and last interval's length reach the parts' total, or some interval starts behind the recording or reaches its end |
| CutEnds.OnePartEndsExactly | plugins/moviebrowser/tstool.cpp:444-576 | for a recording of one part, under every table: the loop ends under that same condition, or if the last interval takes it back to before the recording |
| CutEnds.OnePartEndsWell | plugins/moviebrowser/tstool.cpp:444-576 | and when it ends, it ends well exactly under that condition, else with a read that fails |
| CutLate.LateEndsExactly | plugins/moviebrowser/tstool.cpp:444-576 | for several parts where the last of intervals that lie apart ends before it starts: well if and only if an earlier one takes the rest of the recording, else badly if and only if the loop is taken back to before the part in which the last one is reached |
| CutRun.RepeatedTurn | plugins/moviebrowser/tstool.cpp:543-570 | where the loop repeats it stands behind the last entry, and each turn copies as many bytes as that entry's interval goes back |
| CutRun.CourseEndsWell | plugins/moviebrowser/tstool.cpp:444-576 | on a forward course the loop only ends by leaving the last part |
| CutRun.EnoughToEnd | plugins/moviebrowser/tstool.cpp:549-570 | under any table it is enough that recorded size and last interval's length reach the total |
| CutRun.TurnCourse | plugins/moviebrowser/tstool.cpp:444-575 | a turn keeps the loop on a forward course, without read errors |
| CutResults.CutEndsIff | plugins/moviebrowser/tstool.cpp:294-576 | when the cut of a movie ends, and when well, for survivors that start at different bytes and of which only the last may end before it starts |
| CutResults.OnePartCutEndsIff | plugins/moviebrowser/tstool.cpp:294-576 | the same for every movie recorded in one part |
| CutResults.StaleSizeRunsForEver | plugins/moviebrowser/tstool.cpp:549-570 | a concrete movie, 30 MB long with 20 MB recorded and one jump, whose cut never ends |
| CutResults.LateEndWritesForEver | plugins/moviebrowser/tstool.cpp:544-570 | the same movie with an end bookmark behind the recorded size: its cut never ends and writes the same 5 MB in every turn |
| CutResults.LongerThanRecorded | plugins/moviebrowser/tstool.cpp:549-576 | a recording longer than its recorded size is cut like the others up to that size, or to a last interval behind it: what is left out below that is exactly what the bookmarks ask for, and nothing is kept from there on |
| Editing.FullSizeCutEnds | plugins/moviebrowser/tstool.cpp:444-576 | a recorded size of at least the parts' total always lets the cut end |
| CutResults.BytesConserved | plugins/moviebrowser/tstool.cpp:394-541 | of a recording of the recorded size, with survivors inside it that start at different bytes, bytes written and expected size end equal: the size less the union of the intervals less the sum of all trims |
| CutPlan.CutFromLength | plugins/moviebrowser/tstool.cpp:499-514 | what is written is what lies ahead less the trims |
| CutLoop.PumpKeepsWhole | plugins/moviebrowser/tstool.cpp:464-527 | output so far plus what the plan has yet to write is the same before and after copying inside one part |
| CutLoop.JumpKeepsWhole | plugins/moviebrowser/tstool.cpp:543-570 | the same before and after jumping over an interval |
| CutLoop.PumpKeepsSlack | plugins/moviebrowser/tstool.cpp:499-514 | a GOP trim lowers the expected size by just what it drops, so expected minus written minus ahead stays constant |
| CutMeaning.CutCorrectIffForward | plugins/moviebrowser/tstool.cpp:431-576 | the exact condition: a start-sorted table is cut to the recording without its intervals and trims, for every recording of that length and every split, if and only if copying under it only moves forward |
| CutResults.CutRightIffInTurn | plugins/moviebrowser/tstool.cpp:388-576 | the same condition told from the resolved table: wherever several survivors start together the last of them ends last, or one of them takes the rest of the recording |
| CutOrder.ForwardIffInTurn | plugins/moviebrowser/tstool.cpp:543-570 | copying under a resolved table only moves forward if and only if its intervals are in turn |
| CutMeaning.CutIsKept | plugins/moviebrowser/tstool.cpp:431-576 | a table that reads forward yields exactly the bytes in no interval and no trim, in order |
| CutMeaning.BadTableFails | plugins/moviebrowser/tstool.cpp:543-570 | any other table is cut wrongly for some recording, which is constructed |
| CutResults.CutKeepsTheRest | plugins/moviebrowser/tstool.cpp:351-576 | however qsort orders equal keys, survivors in turn leave out exactly the bytes the bookmarks ask to remove, told from their seconds, and the trims |
| Requests.CutTableAsks | plugins/moviebrowser/tstool.cpp:351-385 | the table asks for a byte exactly if it lies before the start second's packet boundary, or in a jump with a position and a length, from its second's boundary on for the bytes of its length (in both cases less 262260 bytes where it is longer), or from the end second's boundary up to the recorded size |
| Requests.CutTableEmpty | plugins/moviebrowser/tstool.cpp:351-388 | the table is empty exactly without start, end and jumps |
| Requests.SecPosIsFloor | plugins/moviebrowser/tstool.cpp:362-363 | a second's place is the packet boundary at or before its bytes |
| Requests.SecSizeIsRate | plugins/moviebrowser/tstool.cpp:342-348 | bytes per second are a sixtieth of the size per minute in whole multiples of 262072, or 511040 where these are out of bounds or no running time is known |
| Requests.OneRate | plugins/moviebrowser/tstool.cpp:342-348 | and only one number is |
| CutResults.DistinctStartsCutWell | plugins/moviebrowser/tstool.cpp:388-576 | survivors that start at different bytes lie apart, so every such cut is as asked for |
| CutResults.OverlapSpoilsCut | plugins/moviebrowser/tstool.cpp:398-412 | three concrete bookmarks whose resolved intervals start together: bytes that were to be cut come back |
| CutResults.LengthsAreMeasure | plugins/moviebrowser/tstool.cpp:389-394 | the lengths of resolved intervals add up to the measure of their union if and only if no two that are not empty start together; else to more |
| CutResults.ExpectedSizeIsExact | plugins/moviebrowser/tstool.cpp:389-394 | of survivors with different starts that do not end before they start, the expected size leaves at most what lies ahead of the loop, and just that if and only if all of them lie within the recording |
| CutResults.LateEndRaisesExpected | plugins/moviebrowser/tstool.cpp:376-394 | an end bookmark behind the recorded size raises the expected size by its distance, and changes nothing of what lies ahead |
| Packets.CutTableAligned | plugins/moviebrowser/tstool.cpp:351-385 | with parts of whole packets every interval of the resolved table begins and ends on a packet boundary |
| CopyLoop.CopyTableAligned | plugins/moviebrowser/tstool.cpp:643-657 | and so does every stretch to be copied |
| CutTables.SkippedIntervals | plugins/moviebrowser/tstool.cpp:388-415 | after sorting and resolving: survivors sorted, pairwise apart or starting together, and covering exactly the bytes the bookmarks cover |
| CutTables.ApartForward | plugins/moviebrowser/tstool.cpp:388-576 | intervals that lie apart read forward, whatever size is recorded |
| CutTables.ApartAhead | plugins/moviebrowser/tstool.cpp:389-394 | bytes ahead are at least what the lengths leave, and just that if all intervals lie within the recording |
| Overlaps.ResolveOverlaps | plugins/moviebrowser/tstool.cpp:389-415 | the two nested loops over the array compute the resolved table and take the survivors' lengths off the size |
| Overlaps.PassInPlace | plugins/moviebrowser/tstool.cpp:395-413 | the inner loop over the array: every later entry cut off or dropped by entry i |
| Overlaps.ResolveFrom | plugins/moviebrowser/tstool.cpp:389-415 | resolution keeps the union of the ok intervals and their order, and settles every pair |
| Overlaps.PassKeepsUnion | plugins/moviebrowser/tstool.cpp:398-412 | one pass keeps the union |
| Overlaps.PassSettles | plugins/moviebrowser/tstool.cpp:398-412 | one pass leaves entry i apart from, or starting with, every later survivor |
| Overlaps.QSort | plugins/moviebrowser/tstool.cpp:388 | the table is permuted, and sorted by 1024-byte block as long as positions are below 2^41 |
| Bookmarks.BuildCutTable | plugins/moviebrowser/tstool.cpp:341-385 | the array holds the table whose intervals Requests.CutTableAsks tells from the seconds, with the clamped bytes per second |
| Bookmarks.CutTableFromSeconds | plugins/moviebrowser/tstool.cpp:341-385 | every interval starts at byte 0 or at a whole second's packet boundary and is sane |
| Bookmarks.SecPosMonotone | plugins/moviebrowser/tstool.cpp:343-368 | later seconds map to later packet boundaries in later 1024-byte blocks |
| Bookmarks.OrdersRightIff | plugins/moviebrowser/tstool.cpp:255-266 | compare_book tells which of two blocks comes first if and only if their distance, wrapped around at 2^32, keeps its sign |
| Bookmarks.NearOrdersRight | plugins/moviebrowser/tstool.cpp:255-266 | blocks less than 2^31 apart are ordered right |
| Bookmarks.CompareIsByBlock | plugins/moviebrowser/tstool.cpp:255-266 | its value is the difference of the blocks exactly when that fits an int, so always for positions below 2^41 |
| Bookmarks.CompareCanFail | plugins/moviebrowser/tstool.cpp:255-266 | two positions 2^41 + 1024 bytes apart that it orders the wrong way round, and two farther apart that it orders right |
| Bookmarks.SameBlockSameStart | plugins/moviebrowser/tstool.cpp:255-266 | table entries that compare equal start at the same byte |
| Bookmarks.SecSizeBounds | plugins/moviebrowser/tstool.cpp:344-348 | the clamp keeps the bytes per second between 83333 and 3166666 |
| Streaming.Pump | plugins/moviebrowser/tstool.cpp:464-542 | the bounded-buffer loop writes one range of one part, less what precedes its first GOP, and says how it ended |
| Streaming.AlignedTrip | plugins/moviebrowser/tstool.cpp:483-519 | from one packet boundary to another, reads and trims end on packet boundaries |
| Gop.CheckPesStart | plugins/moviebrowser/tstool.cpp:155-179 | true exactly for packets with sync byte, unit start, video PES header and a GOP start code in the scanned range (ISO/IEC 13818-1 sections 2.4.3.2 and 2.4.3.6, ISO/IEC 13818-2 section 6.2.2.6) |
| Gop.OpensGopMeans | plugins/moviebrowser/tstool.cpp:155-179 | such a packet told by its bytes: 47, the unit start bit, behind header and adaptation field 00 00 01 and a number from E0 to EF, and later 00 00 01 B8 |
| Gop.GopOffsetIsFirst | plugins/moviebrowser/tstool.cpp:181-191 | find_gop's answer is the offset of the first whole packet that opens a GOP, or -1 when none does |
| Gop.FindGop | plugins/moviebrowser/tstool.cpp:181-191 | the loop computes that offset, a multiple of 188 |
| CutPlan.SegmentStep | plugins/moviebrowser/tstool.cpp:464-541 | a flat range is the current part's piece followed by the rest, trimmed only once |
| CutPlan.CutStep | plugins/moviebrowser/tstool.cpp:460-541 | the plan's output before a pump is the piece pumped plus the plan's output after it |
| Recording.FlatSlice | plugins/moviebrowser/tstool.cpp:444-575 | a range inside a part is the same range of the flat recording |
| Editing.Disk.CopyMovie | plugins/moviebrowser/tstool.cpp:591-835 | the stretches are those the bookmarks ask for, one for each with a position and a length, in order; the directory after copying is that of the flat specification for both modes, and success is reported exactly when every stretch found fits; the seeks, reads and writes are exactly those of the processed bookmarks, and at packet boundaries if the parts are whole packets |
| CopyLoop.CopyStretch | plugins/moviebrowser/tstool.cpp:674-814 | one bookmark: its flat range, trimmed at its start only, across any number of parts; it fails exactly when it starts inside and ends behind the recording; its seeks, reads and writes are at exactly the offsets that the range takes part by part |
| CopyLoop.EdgesFromAligned | plugins/moviebrowser/tstool.cpp:674-814 | which are packet boundaries for whole packets |
| CopyLoop.OneFile | plugins/moviebrowser/tstool.cpp:697-712 | one-file mode: the tables followed by all stretches in table order, in one new file |
| CopyLoop.ManyFiles | plugins/moviebrowser/tstool.cpp:697-712 | many-file mode: no file there before changes, every stretch found has its new file with its content, and no other file is new |
| CopyLoop.FilesDiffer | plugins/moviebrowser/tstool.cpp:697-712 | different stretches have different files |
| CopyLoop.Locate | plugins/moviebrowser/tstool.cpp:677-696 | the part and offset that hold a flat position, or none exactly when it lies behind the recording |
| CopyLoop.CopyOn | plugins/moviebrowser/tstool.cpp:714-814 | part after part until the range or the parts run out |
| CopyLoop.AddCopyBooks | plugins/moviebrowser/tstool.cpp:643-657 | the array holds the table whose stretches CopyRequests.CopyTableAsks tells from the seconds |
| CopyRequests.CopyTableAsks | plugins/moviebrowser/tstool.cpp:644-658 | one stretch for each bookmark with a position and a length, in order: the packet-rounded bytes of its length, from 262260 bytes before the packet boundary of its second on, or from that boundary if it is not farther in |
| CopyRequests.StretchHolds | plugins/moviebrowser/tstool.cpp:648-651 | of a bookmark's own bytes the stretch holds exactly all but the last 262260, or all if it was not moved back |
| CopyLoop.ProcessedAll | plugins/moviebrowser/tstool.cpp:674-805 | if all found stretches fit, all bookmarks are processed; before the one at which copying stops all do |
| Editing.Disk.TruncateMovie | plugins/moviebrowser/tstool.cpp:85-146 | below the full length the recording is still there, its parts cut short, exactly the first bytes of before, and that many bytes are reported; otherwise nothing changes and 0 is returned; no other file is touched and none appears |
| Editing.Disk.FullLength | plugins/moviebrowser/tstool.cpp:56-70 | get_full_len is the length of the flat recording |
| Truncation.ShortenedIsPrefix | plugins/moviebrowser/tstool.cpp:108-138 | cutting one part and dropping the later ones leaves a prefix of the flat recording |
| Truncation.CutParts | plugins/moviebrowser/tstool.cpp:106-138 | the files that remain are again a recording of just the shortened parts |
| Editing.Disk.FindNewPart | plugins/moviebrowser/tstool.cpp:245-253 | the first free output name |
| Files.PartNamesDiffer | plugins/moviebrowser/tstool.cpp:66 | different part numbers have different names |
| Files.OutIsNoPart | plugins/moviebrowser/tstool.cpp:249 | an output name is no part name of the recording |
| Editing.NewFileIsNoPart | plugins/moviebrowser/tstool.cpp:420-435 | creating the output does not change the recording |
| CalDate.AddDays | plugins/tuxcal/tuxcal.cpp:1625-1671 | for up to 28 days either way the result is the valid date whose ordinal is exactly that many more, in any year; larger steps do nothing |
| CalDate.OrdinalInjective | plugins/tuxcal/tuxcal.cpp:1625-1671 | the ordinal determines the date |
| CalDate.ThereAndBack | plugins/tuxcal/tuxcal.cpp:1625-1671 | AddDays with the opposite number of days undoes AddDays, on every valid date |
| CalDate.MonthEnd | plugins/tuxcal/tuxcal.cpp:1531-1671 | day 0 of the next month is the last day of this one, across year ends too |
| CalDate.DayOfWeek | plugins/tuxcal/tuxcal.cpp:1579-1616 | the loops end with the Gregorian weekday, exactly outside January and February 2000; before 1700 and from 2300 on with 1 |
| CalDate.DayOfWeekIsGregorian | plugins/tuxcal/tuxcal.cpp:1579-1616 | the weekday is the Gregorian one, counted in days, exactly for all dates from 1700 to 2299 outside January and February 2000 |
| Weeks.WeekNumber | plugins/tuxcal/tuxcal.cpp:1681-1710 | the week number is the ISO 8601 week of the date, exactly outside the dates named below |
| Weeks.WeekNumberIsIso | plugins/tuxcal/tuxcal.cpp:1681-1710 | from 1700 to 2299 it is the ISO 8601 week, defined by Thursdays, exactly on all dates but the Sundays of January and February 2000 and 1 to 3 January 1700 |
| Weeks.WeekFromIsIso | plugins/tuxcal/tuxcal.cpp:1689-1708 | counting from the Monday of week 1, with the long-year tests at both ends, agrees with counting Thursdays for all year lengths and weekdays |
| Easter.CalcEastern | plugins/tuxcal/tuxcal.cpp:1780-1812 | all branches, both exceptions included, give a valid day from 22 March to 25 April, that is the Gregorian Easter for every year from 1700 to 2199 and in none from 2200 to 2299, where it is not even a Sunday for DayOfWeek |
| Easter.EasterIsGregorian | plugins/tuxcal/tuxcal.cpp:1780-1812 | the date is the Easter that golden number, epact and the corrections of the century give, for every year from 1700 to 2199, and in none from 2200 to 2299 |
| Easter.EasterIsSunday | plugins/tuxcal/tuxcal.cpp:1780-1812 | from 1700 to 2299 DayOfWeek of the result is 7 exactly before 2200 |
| Easter.EasterRange | plugins/tuxcal/tuxcal.cpp:1780-1812 | the result is a valid date from 22 March to 25 April |
| Easter.EasterFollowsMoon | plugins/tuxcal/tuxcal.cpp:1784-1811 | from 1700 to 2199 it is within the seven days after the paschal full moon of golden number and epact, the exceptions included |
| Computus.OneEaster | plugins/tuxcal/tuxcal.cpp:1784-1811 | no year has two such Easters |
| Holidays.FillEasternDays | plugins/tuxcal/tuxcal.cpp:1830-1916 | every entry of the table is right: ten days at their distance from Easter, three Sundays, twelve fixed dates |
| Holidays.FillMoving | plugins/tuxcal/tuxcal.cpp:1835-1872 | the chained AddDays calls land at Easter +1, +39, +49, +50, +60, -2, -3, -46 and -48 |
| Holidays.FillSundays | plugins/tuxcal/tuxcal.cpp:1874-1890 | second Sunday of May, last Sunday of March and of October |
| Holidays.GroupsApart | plugins/tuxcal/tuxcal.cpp:1830-1916 | two moving, two Sunday or two fixed holidays never share a day |
| DayQuery.FewHolidays | plugins/tuxcal/tuxcal.cpp:1933-1936 | at most three holidays fall on a day, so the list of ten never overflows |
| Calendar.Calendar.ShowYear | plugins/tuxcal/tuxcal.cpp:1830-1916 | after a change of year the calendar holds that year's holidays |
| Calendar.Calendar.IsEvent | plugins/tuxcal/tuxcal.cpp:1925-1998 | the list becomes the day's holidays followed in index order by the matching entries before the first free one, cut at ten; while it is shorter it tells, by dates alone, exactly the holidays and entries that fall on the day |
| DayQuery.ListingMeans | plugins/tuxcal/tuxcal.cpp:1933-1995 | a day shows the first ten of its holidays and entries, holidays first, each in table order; among the hits is a holiday exactly on its date, a birthday exactly on its day in every year, a holiday or event entry exactly on its day, in its year or without one in every year, a period that is counted right exactly from its start to its end, and never a comment, a space or an unused entry |
| Events.HitMeans | plugins/tuxcal/tuxcal.cpp:1944-1984 | an entry matches exactly on its days, told by dates for every kind; for periods that are counted right, as the next two rows say when |
| Flags.HitsExact | plugins/tuxcal/tuxcal.cpp:1933-1995 | the hits are listed in ascending order, each once, none missing and none added |
| Events.DatedPeriodExact | plugins/tuxcal/tuxcal.cpp:1979-1982 | a period with years is found on exactly the days from start to end if and only if its end is counted right: both years alike, an end before March, or an end on 31 December after a leap start year |
| Events.YearlessPeriodExact | plugins/tuxcal/tuxcal.cpp:1958-1977 | a yearless period is found on exactly its days, in common and leap years, if and only if neither end is caught in the last days of February |
| Events.DayNumberOrders | plugins/tuxcal/tuxcal.cpp:1930 | within a year the day number orders the dates |
| EventCheck.CheckEvent | plugins/tuxcal/tuxcal.cpp:809-855 | the corrected entry is good and nearest to the one given in every field, and 1 is returned exactly if it was good already |
| Calendar.Calendar.LoadDatabase | plugins/tuxcal/tuxcal.cpp:2007-2137 | the table is what the specification of loading says, over whole files with stale entries after incomplete lines; a missing file leaves it empty |
| Calendar.Calendar.SaveDatabase | plugins/tuxcal/tuxcal.cpp:2146-2214 | the file is the printed entries before the first free one, and the table what loading it gives |
| CalFile.SaveThenLoad | plugins/tuxcal/tuxcal.cpp:2007-2214 | save and load keep number and order of the entries but the unused ones; an entry comes back with the same printed fields if and only if it is canonical, and then with recomputed day numbers |
| CalFile.SavedTwice | plugins/tuxcal/tuxcal.cpp:2007-2214 | for canonical entries a second save writes the identical file |
| CalFile.SavedLoads | plugins/tuxcal/tuxcal.cpp:2007-2214 | each written entry is read from its own line into an empty entry |
| CalFile.PrintIsOneLine | plugins/tuxcal/tuxcal.cpp:2172-2206 | every printed entry is one line that fgets reads at once |
| CalLines.LineRoundTrip | plugins/tuxcal/tuxcal.cpp:2037-2130 | a dated entry reads back from its line alike exactly if it has one of the six shapes (a time only with a year, both ends of a period alike) |
| CalLines.FieldLengths | plugins/tuxcal/tuxcal.cpp:2065-2117 | the six shapes print with different lengths and every other shape with a length nothing is read for |
| CalLines.FieldRead | plugins/tuxcal/tuxcal.cpp:2069-2117 | scanning the printed date field sets exactly the moments it was printed from |
| CalLines.LineParts | plugins/tuxcal/tuxcal.cpp:2025-2128 | type letter, date field and info are taken apart as they were put together |
| CalLines.HandWritten | plugins/tuxcal/tuxcal.cpp:2044-2130 | a line written by hand reads the same with a capital letter, and with the info ended by a semicolon and any text or by the line's end; without either end the entry stays open |
| Moments.MomentRead | plugins/tuxcal/tuxcal.cpp:2069-2117 | a printed date and time is read back whatever follows it |
| Moments.MomentLength | plugins/tuxcal/tuxcal.cpp:2062-2117 | its length tells whether it has a year and a time |
| Moments.MomentShows | plugins/tuxcal/tuxcal.cpp:2065-2066 | a printed date is two digits of the day, a dot, two of the month, a dot, and four of the year if there is one |
| Moments.TimeShows | plugins/tuxcal/tuxcal.cpp:2065-2066 | behind it a space, two digits of the hour, a colon and two of the minute |
| Scanning.ScanNumber | plugins/tuxcal/tuxcal.cpp:2069-2117 | a padded number is read back with its width |
| Timeshift.StepKeeps | neutrino2/src/neutrino2.cpp:1947-5100 | for every state, message and answer of device and user: a consistent state (autoshift only while recording, no recording waiting) stays so exactly unless the message ends a recording without looking at autoshift; and only timeshift's own recording is asked for with autoshift set |
| Timeshift.TimeshiftExclusion | neutrino2/src/neutrino2.cpp:1947-2201 | in every run without such messages the user's and the timers' recordings never start during autoshift |
| Timeshift.ForgettingShows | neutrino2/src/neutrino2.cpp:3668-3688 | after such a message, and only then, the next timer recording is asked for with autoshift set |
| Timeshift.RecordModeOffSpoils | neutrino2/src/neutrino2.cpp:3647-3688 | a run of three messages that shows it: shift timer, record mode off, timer recording |
| Timeshift.AskedKeyKeeps | neutrino2/src/neutrino2.cpp:3010-3037 | with messages handled behind the question box of the record and stop keys, the state stays consistent exactly unless autoshift was set there and the answer is yes |
| Timeshift.QuestionBoxSpoils | neutrino2/src/neutrino2.cpp:3020-3030 | two such messages that show it: the recording's timer stops it, the shift timer starts timeshift |
| Timeshift.TimerTakesOver | neutrino2/src/neutrino2.cpp:3668-3688 | a timer's recording breaks any autoshift, is asked for once, and becomes the current one |
| Timeshift.StandbyRestores | neutrino2/src/neutrino2.cpp:4748-4893 | standby and back goes on with television, with timeshift exactly if it was on and the device starts it, and leaves any other recording alone |
| Effects.StepBrings | neutrino2/src/neutrino2.cpp:2891-4100 | what each message brings about, field by field, in whatever consistent state it comes: the recording asked for (the user's by record key, pause key or menu, the timer's, or timeshift's own, at most one), whether it runs, when timeshift ends and a recording ends, the current recording, the paused state, the mode and the one before, the shift timer and the memory of standby |
| Journeys.RecordThenStop | neutrino2/src/neutrino2.cpp:3010-3037 | with nothing recorded, or only timeshift, the record key asks for exactly one recording, which runs and is the current one; the stop key with a yes ends it and changes nothing else |
| Journeys.RecordingGoesOn | neutrino2/src/neutrino2.cpp:3010-3037 | without a yes both keys leave any other recording alone and ask for none |
| Journeys.TimerRecords | neutrino2/src/neutrino2.cpp:3668-3727 | a timer's recording is asked for once, runs, and is over at its end |
| Journeys.ZapStartsShift | neutrino2/src/neutrino2.cpp:3360-3414 | after zapping the shift timer starts permanent timeshift, exactly unless something is recorded or it is not wanted |
| Journeys.PauseThenPlay | neutrino2/src/neutrino2.cpp:2898-2945 | on a web channel pause and play leave only the status reset |
| Journeys.ScartAndBack | neutrino2/src/neutrino2.cpp:4698-4744 | to the scart input and back: the mode is as it was unless something was played, recordings go on, timeshift does not, and from standby the mode before it is forgotten |
| Journeys.SwitchAndBack | neutrino2/src/neutrino2.cpp:4551-4694 | from television to radio and back, or the other way round, only permanent timeshift is over |
| Receiver.Neutrino.Handle | neutrino2/src/neutrino2.cpp:2891-4100 | one message changes the fields as the state machine says, and in a sound state brings about just what Effects.StepBrings tells; a sound state stays sound exactly unless the message ends a recording without looking at autoshift |
| Receiver.Neutrino.RealRun | neutrino2/src/neutrino2.cpp:2737-3353 | the message loop keeps soundness over every careful run |
| Receiver.Neutrino.StartAutoRecord | neutrino2/src/neutrino2.cpp:1947-1998 | permanent timeshift is started, or the fields are reset when the device refuses; soundness is kept |
| Receiver.Neutrino.StopAutoRecord | neutrino2/src/neutrino2.cpp:2001-2023 | only a running autoshift is stopped, with its timer; else only the shift timer is |
| Receiver.Neutrino.DoGuiRecord | neutrino2/src/neutrino2.cpp:2026-2117 | the user's recording, after any autoshift was stopped; soundness is kept |
| Receiver.Neutrino.StartNextRecording | neutrino2/src/neutrino2.cpp:2120-2201 | the waiting recording is started or dropped and never waits on |
| Receiver.Neutrino.StandbyMode | neutrino2/src/neutrino2.cpp:4748-4893 | into standby and out of it, with the memory of timeshift; soundness is kept, no autoshift goes into standby, and out of it the mode is another |
| Receiver.Neutrino.EnterTvMode | neutrino2/src/neutrino2.cpp:4551-4623 | television mode breaks autoshift unless it was reached from playback; soundness is kept |
| Receiver.Neutrino.EnterRadioMode | neutrino2/src/neutrino2.cpp:4626-4694 | radio mode always does |
| UserMenu.SaveThenLoad | neutrino2/src/neutrino2.cpp:749-780 | saving and loading keeps the items shown, in order, if and only if there are any or the text buffer held none |
| UserMenu.EmptyTableComesBack | neutrino2/src/neutrino2.cpp:1224-1243 | an empty table saved after one that left "1" in the buffer comes back with item 1 |
| UserMenu.SavedTable | neutrino2/src/neutrino2.cpp:1224-1243 | the table that comes back: the items moved together, behind an empty first entry if that was empty |
| UserMenu.SavedAgain | neutrino2/src/neutrino2.cpp:1224-1243 | a second save writes the same text |
| UserMenu.SaveItems | neutrino2/src/neutrino2.cpp:1228-1243 | the loop prints the non-empty entries with commas; an empty table leaves the buffer as it was |
| UserMenu.LoadItems | neutrino2/src/neutrino2.cpp:756-780 | the walk from comma to comma reads one entry per position, out-of-range numbers as empty |
| UserMenu.ListedParsed | neutrino2/src/neutrino2.cpp:756-780 | a comma-separated list is read as its items with empty entries behind |
| MenuKeys.KeyHelper.Get | neutrino2/src/neutrino2_menue.cpp:192-235 | the preferred color if free, else the digits 1 to 9 and 0 in turn; a key given out is new and stays taken |
| MenuKeys.ShowUserMenu | neutrino2/src/neutrino2_menue.cpp:311-412 | the menu shows exactly the table's items in order, no direct key twice, and the first ten always with one |
| MovieOrder.StrictWeakOrder | plugins/moviebrowser/moviebrowser.cpp:240-326 | every comparator of the sort table is a strict weak order on all movies |
| MovieOrder.BeforeMeans | plugins/moviebrowser/moviebrowser.cpp:240-326 | which key each column sorts by: texts as in a dictionary, then title or recording time; numbers up or down |
| MovieOrder.LessMeans | plugins/moviebrowser/moviebrowser.cpp:233-247 | the comparison of texts is that of a dictionary: at the first place that differs in more than capitals, or at the end of the shorter text |
| MovieOrder.NeitherLess | plugins/moviebrowser/moviebrowser.cpp:242-248 | and neither of two texts goes before the other exactly if they differ at most in capitals |
| MovieOrder.Transitive | plugins/moviebrowser/moviebrowser.cpp:240-326 | and is transitive, as is not going before |
| Browser.MovieBrowser.RefreshBrowserList | plugins/moviebrowser/moviebrowser.cpp:1635-1690 | handles are a permutation of those passing filter, lock and series mode, sorted where a comparator exists, and row k of every column describes handle k |
| Browser.RefreshedExactly | plugins/moviebrowser/moviebrowser.cpp:1661-1672 | each movie that is what the filter asks for, young enough under the lock, and in series mode no member of a series unless one is filtered for, has exactly one handle and no other movie has one |
| Browser.PassesMeans | plugins/moviebrowser/moviebrowser.cpp:1665-1668 | filter and lock let a movie pass exactly then |
| Browser.SortHandles | plugins/moviebrowser/moviebrowser.cpp:2503-2542 | sorting is a sorted permutation in the automatic direction, or nothing happens |
| Browser.MovieBrowser.CollectHandles | plugins/moviebrowser/moviebrowser.cpp:1663-1672 | the passing movies in the order they were found |
| Series.SeriesFinder.UpdateSerienames | plugins/moviebrowser/moviebrowser.cpp:3638-3666 | the list of first movies of all series |
| Series.NamesAreDistinctAndComplete | plugins/moviebrowser/moviebrowser.cpp:3638-3666 | one movie for each non-empty series name, its first, and no name twice |
| Series.SeriesFinder.AutoFindSerie | plugins/moviebrowser/moviebrowser.cpp:3668-3694 | all names are looked up in the list as it was before the search |
| Series.NamedMeans | plugins/moviebrowser/moviebrowser.cpp:3668-3694 | existing names stay; a movie without one gets a name exactly if the first movie of some series has its title, and then that series' name; nothing else of it changes |
| Series.NoNewNames | plugins/moviebrowser/moviebrowser.cpp:3668-3694 | the set of series names is the same before and after |
| Series.SearchedOnce | plugins/moviebrowser/moviebrowser.cpp:3668-3694 | searching again changes nothing, although a newly named movie may become the first of its series |

## Left out

- Editing.Disk.CutMovie: for a cut that never ends nothing is stated. What is written is stated for tables that read forward or a single part, and where no interval that is reached ends before it starts; of a cut that is taken back by such an interval only whether it ends, and whether well. That the bytes left out are those the bookmarks ask for is stated for positions that compare_book orders right.
- CutResults.CutEndsIff: of several parts, survivors that start together, or lie behind an interval that ends before it starts, are left to CutRun.EndsExactly, CutRun.EnoughToEnd and CutRun.EndsIffNoRepeat, of which only the first two can be told beforehand.
- Editing.Disk.CopyMovie: in one-file mode without any bookmark found the source reports an uninitialised name; the model leaves the directory as it was and returns success.
- Cancelling, progress bars, failing reads, writes and opens, movie information files and time stamps of tstool.cpp: input and output around the algorithms. A failed seek to a negative offset is modelled.
- The destination file between two writes of one call: the model states the directory after the call.
- Gop.CheckPesStart: an adaptation field that points behind the bytes read counts as no match, where the source compares whatever lies behind its buffer.
- Bookmarks.CompareIsByBlock: the difference of two 32-bit numbers is taken to wrap around, which C++ leaves undefined.
- Overlaps.QSort: the body stands for any routine that permutes the table and sorts it by the comparison.
- Calendar.Calendar.LoadDatabase: texts longer than the source's fixed buffers and NUL characters; a month outside the table __mon_yday, which the source reads beyond its end, counts as no days.
- CalFile.SaveThenLoad: entries whose fields do not fit their printed widths, and comments of more than one line or without '#'; the source overruns its buffers on the former and splits or retypes the latter.
- Holidays.FillEasternDays: years before 0, for which the source's remainders are negative.
- The calendar's daemon, editing screens and other painting.
- Effects.StepBrings: after the home key ended a recording during permanent timeshift, the paused state and the shift timer are left open.
- Receiver.Neutrino.Record: the nested switch to the scart input by the video-recorder device, which is also posted as a message of its own and modelled as such; recordings use the current mode, so no mode change is nested.
- Timeshift.StepKeeps: messages handled behind question boxes other than those of the record and stop keys; directories, EPG data and mounting in the recording functions, subtitles, display icons, and the start-up call, which behaves as the timeshift setting does; the mode chain of audio, picture and playback modes is modelled only as far as it moves the fields.
- Browser.Sort: the body stands for any routine that sorts with a strict weak order.
- Browser.MovieBrowser.RefreshBrowserList: the text of an item is a parameter; the selection and the widget are not modelled.
- MovieOrder.StrictWeakOrder: the comparator for file names is modelled on the names themselves, where the source iterates over temporaries.
- MenuKeys.ShowUserMenu: the plugins appended behind the items, and the commands behind them.
- Skins, other menus, network services, channel lists, zapit and the other daemons and plugins.
