# Heat-treatment report generator: a verified model

`report_generator.py` is a small Kivy desktop form for a foundry's heat-treatment furnaces. The operator enters:

- a date (typed, or picked in a calendar popup);
- a furnace (`Печь 1` or `Печь 2`);
- the ON and OFF times of two furnace programs;
- free notification text.

`generate_report` then works out four durations and compares each with that furnace's norm:

- stage 1, the first program;
- stage 2, the second program;
- the break between the end of program 1 and the start of program 2;
- the total.

It writes a Markdown report to `Отчет_<date>.md` and clears the form. If anything fails, it shows the error and leaves the form as it was.

This project models the computing core of that program in Dafny:

- the duration arithmetic across midnight;
- the deviation percentage and its marker glyph;
- the `HH:MM` rendering;
- the norms table;
- the computation steps of `generate_report`: the field order of the report and its file name;
- the keystroke rules of the `TimeInput` time field and the `last_value` it records;
- month stepping and the date string of the calendar;
- cyclic focus movement, clearing the form, and the all-or-nothing behaviour of the report button, including a file that cannot be created.

The modules are:

| file | module | models |
|---|---|---|
| numerals.dfy | `Numerals` | digit strings, `int(...)`, `str(n)` and `%02d` |
| clock.dfy | `Clock` | `strptime(s, '%H:%M')`, `calculate_time_difference`, `format_time` |
| deviation.dfy | `Deviation` | `calculate_deviation`, `get_deviation_symbol` |
| norms.dfy | `Norms` | the norms dictionary and its lookup |
| report.dfy | `Report` | the steps of `generate_report`: notifications, metrics, errors, template fields, file name |
| time_input.dfy | `TimeEntry` | `TimeInput.insert_text` and `on_text`, as the class `TimeInput` |
| calendar.dfy | `Calendar` | `CalendarWidget.previous_month`, `next_month_handler` and `on_day_select` |
| form.dfy | `Form` | `focus_next_field`, `focus_previous_field`, `clear_fields` and the `generate_report` button, as the class `ReportForm` |

The widgets that change in place are classes:

- `TimeEntry.TimeInput` holds the text, the cursor and `last_value`.
- `Calendar.CalendarWidget` holds the current date.
- `Form.ReportForm` holds the field texts in an `array`, the spinner text and the focused index, if a field has the focus.

Their methods are specified against the pure functions beside them. The pure functions carry the lemmas.

Two of those classes follow the evidently intended behaviour rather than the code as written; see "## Findings":

- `TimeEntry.TimeInput.InsertText` applies the keystroke rules as `Applied` states them: the clamped or completed text replaces the field. The widget as written inserts the rule's text at the cursor, which `AppliedAsWritten` models. So field `2`, cursor 1, typing `9` gives `23:` in the class, but `223:` in the widget.
- `Calendar.CalendarWidget.PreviousMonth` and `NextMonthHandler` take the clamped steps `MonthBefore` and `MonthAfter`. The handlers as written keep the day and raise when the target month lacks it, which `MonthBeforeAsWritten` and `MonthAfterAsWritten` model. So on 31 March 2025, `<` gives 28 February 2025 in the class, but the handler raises `ValueError`.

Where the code departs from the usual reading of the form (the `ЧЧ:ММ` hint on the time fields, fields the operator is expected to fill), the model follows the code:

- **Time parsing.** Times are parsed as `strptime` parses them. A field is one digit, or two digits in range, so `7:5` is 07:05. Out-of-range fields, three-digit fields and trailing characters fail.
- **Empty fields.** The code has no separate check for missing fields. An empty time fails parsing and takes the error branch like any malformed time. The date is never checked, not even for emptiness.
- **Error causes.** `generate_report` catches every exception (line 451). The errors it can meet are an unknown furnace name (`KeyError`), a malformed time (`ValueError`) and a report file that `open` cannot create (`OSError`, line 436). In each case the form is not cleared: `clear_fields` (line 440) runs only after the file is written. The model names these `UnknownFurnace`, `InvalidTime` and `WriteFailed`; whether `open` succeeds is the `written` parameter of `Form.ReportForm.GenerateReport`. A zero norm cannot occur: every table norm is positive, which `Norms.TableConsistent` states. So `Deviation.Deviation` requires a non-zero norm instead of modelling a division error.

## Model

| member | source | states |
|---|---|---|
| Numerals.Pad2 | report_generator.py:339 | `%02d` gives a digit string of at least two characters whose value is `n`; it is exactly two characters iff `n < 100` |
| Numerals.Decimal | report_generator.py:201 | `str(n)` gives a digit string whose value is `n`, with no leading zero unless it is `0`; one character iff `n < 10`, four characters for 1000..9999 |
| Clock.ParseFields | report_generator.py:321-322 | a `%H` field and a `%M` field give a time iff the hour is one digit or two digits ≤ 23 and the minute is one digit or two digits ≤ 59; the time has those values |
| Clock.ParseTimeOf | report_generator.py:321-322 | every hour field, colon and minute field parses to the values of the two fields |
| Clock.ParseTime | report_generator.py:321-322 | whatever parses is 3 to 5 characters: a valid hour field of one or two characters, the colon and a valid minute field, and the time is their values |
| Clock.ParseTimeStrict | report_generator.py:321-322 | on the `DD:DD` shape, parsing reads the two two-digit numbers and succeeds iff hour < 24 and minute < 60 |
| Clock.ParseTimeAccepts | report_generator.py:321-322 | `7:5`, `07:5`, `23:59` and `00:00` parse to the expected times |
| Clock.ParseTimeRejects | report_generator.py:321-322 | `24:00`, `12:60`, `123:00`, `12:345`, the empty string and `12-30` are rejected |
| Clock.MinutesBetween | report_generator.py:324-328 | the duration is below one day, and adding it to the start reaches the end modulo a day |
| Clock.MinutesBetweenCases | report_generator.py:324-328 | the duration is `end - start` when the end is not earlier, otherwise `1440 - (start - end)`; it is 0 iff start and end are equal |
| Clock.MinutesBetweenOpposite | report_generator.py:324-328 | the two directions between distinct times add up to exactly one day |
| Clock.TimeDifference | report_generator.py:319-328 | gives a duration iff both texts parse, and then the midnight-aware duration; otherwise the error names the start text if it is malformed, else the end text |
| Clock.FormatTime | report_generator.py:335-339 | the text ends in `:` and two characters, and is five characters long iff the minutes are below 6000 |
| Clock.FormatTimeRoundTrip | report_generator.py:335-339 | below 6000 minutes the text is `HH:MM` and its fields read back as `m div 60` and `m mod 60` |
| Clock.ParseFormatClock | report_generator.py:335-339 | every time of day renders as `HH:MM` and parses back to itself |
| Clock.FormatParseClock | report_generator.py:335-339 | a five-character text that parses is exactly the rendering of its time |
| Deviation.Deviation | report_generator.py:330-333 | the percentage times the norm equals `(actual - norm) * 100` |
| Deviation.SymbolOf | report_generator.py:461-467 | the marker is Above iff the deviation is positive, Below iff negative, Equal iff zero |
| Deviation.Glyph | report_generator.py:461-467 | each marker prints as a single glyph |
| Deviation.GlyphInjective | report_generator.py:461-467 | different markers print differently |
| Deviation.DeviationSign | report_generator.py:330-333 | for a positive norm the deviation has the sign of `actual - norm` |
| Deviation.SymbolOfDeviation | report_generator.py:461-467 | for a positive norm 🔺 iff actual > norm, 🔻 iff actual < norm, ❎ iff equal |
| Deviation.OnNorm | report_generator.py:330-333 | meeting the norm is a deviation of 0 marked Equal |
| Deviation.DeviationScale | report_generator.py:330-333 | twice the norm is +100 %, zero minutes is -100 % |
| Norms.Lookup | report_generator.py:374 | a furnace has norms iff it is `Печь 1` or `Печь 2`, and they are that furnace's table entry |
| Norms.TableConsistent | report_generator.py:212-225 | every configured norm is positive and each total is cycle 1 + cycle 2 + break |
| Norms.TableKeys | report_generator.py:250-252 | the table's keys are exactly the two spinner values |
| Report.Strip | report_generator.py:407 | the result has no whitespace at either end, is no longer than the input, and is empty iff the input is all whitespace |
| Report.StripIdempotent | report_generator.py:407 | stripping twice is stripping once |
| Report.StrippedUnchanged | report_generator.py:407 | text without whitespace at either end is left unchanged |
| Report.NoticeText | report_generator.py:407-409 | all-whitespace text becomes the default sentence, any other text is used stripped; the notice is never empty |
| Report.NoticeKeepsText | report_generator.py:407-409 | whitespace around non-blank text is dropped and the text itself is kept verbatim |
| Report.MakeMetric | report_generator.py:401-404 | a metric keeps its duration and norm; its deviation times the norm is `(actual - norm) * 100`; its marker matches how the duration compares to the norm |
| Report.Generate | report_generator.py:371-409 | a report exists iff the furnace is known and all four times parse; otherwise the error names the unknown furnace, or the first malformed time in the order the code reads them; the total is the sum of the two stages and the break; inputs are carried verbatim; the notice is `NoticeText` |
| Report.GenerateDurations | report_generator.py:377-395 | stage 1 is program 1's duration, stage 2 program 2's, and the break runs from program 1's end to program 2's start |
| Report.GenerateMetrics | report_generator.py:376-404 | stage 1 is program 1's duration, stage 2 program 2's, the break runs from program 1's end to program 2's start, each is compared with the matching norm, and each metric's deviation and marker are those of its own duration against that norm |
| Report.GenerateBounds | report_generator.py:377-398 | stages and break are below one day, and the total is at most 3·1439 |
| Report.TotalModuloDay | report_generator.py:397-398 | the total equals the clock span from program 1's start to program 2's end only modulo whole days |
| Report.ChainModuloDay | report_generator.py:391-398 | three chained forward durations add up to the direct one modulo a day |
| Report.TotalIsNotClockSpan | report_generator.py:391-398 | overlapping programs (08:00-09:00, 08:30-09:30) give a break of 1410 and a total of 1530, not the 90-minute span |
| Report.OnNormExample | report_generator.py:371-409 | the worked example on `Печь 1` produces 510, 210, 40 and 760 minutes, all marked Equal, with a 0 % total deviation and the default notice |
| Report.OnNormDurations | report_generator.py:425-428 | those durations show as `08:30`, `03:30`, `00:40` and `12:40` |
| Report.GenerateErrors | report_generator.py:371-395 | an unknown furnace is reported before the times; a malformed or empty time stops the report and is named |
| Report.MeasuresOf | report_generator.py:425-428 | one measure field per metric, in the same order |
| Report.MeasureReadsBack | report_generator.py:425-428 | a shown duration below 100 hours is `HH:MM` and reads back to its minutes |
| Report.Render | report_generator.py:412-433 | the template holds eleven values: the date, furnace, ON, ON, OFF, OFF times in that order, then the four measures of stage 1, stage 2, break and total, and the notice last |
| Report.RenderMeasures | report_generator.py:425-428 | the seventh to tenth values are the measures of stage 1, stage 2, break and total |
| Report.RenderDurations | report_generator.py:425-428 | the four shown durations read back to stage 1, stage 2, break and total |
| Report.RenderFaithful | report_generator.py:412-433 | a generated report shows the inputs verbatim and durations that read back to the computed minutes |
| Report.DotsToUnderscores | report_generator.py:436 | same length; every `.` becomes `_` and every other character is kept |
| Report.ReportFileName | report_generator.py:436 | the name is `Отчет_`, then the date with every `.` replaced by `_` and every other character kept, then `.md` |
| TimeEntry.SplitColon | report_generator.py:88 | splitting succeeds iff there is exactly one colon; the parts rejoin to the text and hold no colon |
| TimeEntry.Typed | report_generator.py:71 | the typed text is one substring longer, and digits typed into field text leave field text |
| TimeEntry.HourStep | report_generator.py:78-84 | at two characters a digit hour gives three characters ending in `:`, and a non-number raises |
| TimeEntry.MinuteStep | report_generator.py:87-91 | at five characters the step goes through iff there is one colon with minutes after it, and leaves at most five field characters |
| TimeEntry.Decide | report_generator.py:61-93 | non-digit input is ignored; any inserted text is field text of at most five characters |
| TimeEntry.Applied | report_generator.py:61-93 | the field stays field text, never grows beyond five characters, and is unchanged by non-digit input |
| TimeEntry.AppliedAsWritten | report_generator.py:93 | the widget's own insertion of the substring keeps field text |
| TimeEntry.CursorAfter | report_generator.py:93 | the cursor stays within the new text |
| TimeEntry.HourRule | report_generator.py:78-84 | an hour up to 23 is kept and followed by `:`, a larger one becomes `23:`; either way the hour shown is at most 23 |
| TimeEntry.MinuteRule | report_generator.py:87-91 | minutes up to 59 are left as typed, larger ones become `59`, and the hours are kept |
| TimeEntry.MinuteRuleBound | report_generator.py:87-91 | after the minute step the minutes are digits and at most 59 |
| TimeEntry.TypeAtEnd | report_generator.py:61-93 | typing any keys keeps field text |
| TimeEntry.TypeAtEndAsWritten | report_generator.py:61-93 | typing any keys with the widget's own insertion also keeps field text |
| TimeEntry.TypingHour | report_generator.py:78-84 | two digits typed into an empty field leave `HH:` with an hour up to 23 |
| TimeEntry.TypingMinutes | report_generator.py:86-91 | the fourth digit completes a time that parses |
| TimeEntry.TypingFourDigits | report_generator.py:61-93 | any four digits typed into an empty field give a time that parses |
| TimeEntry.HourClampAsWritten | report_generator.py:78-84 | typing `2`, `9` shows `223:` in the widget, where the rule means `23:`; `1` typed before the `2` shows `1:2`, where the rule means `12:` |
| TimeEntry.MinuteClampAsWritten | report_generator.py:87-93 | `5` at the end of `12:7` shows `12:79` where the rule means `12:59`; `9` before the `7` gives the six characters `12:597`; `12:79` does not parse, `12:59` does |
| TimeEntry.TypingCorrected | report_generator.py:61-93 | typing `1275` gives `12:59` under the rule |
| TimeEntry.TypingAsWritten | report_generator.py:61-93 | typing `1275` shows `12:79` in the widget |
| TimeEntry.Recordable | report_generator.py:97-101 | a recordable value is field text with exactly one colon, neither first nor last, at least three characters long |
| TimeEntry.RecordableTimes | report_generator.py:95-104 | every text that parses as a time is recorded by `on_text` |
| TimeEntry.RecordableExamples | report_generator.py:95-104 | `7:5` is recorded; `24:00`, `12:60` and `1:2:3` are not |
| TimeEntry.RecordedNotParsed | report_generator.py:95-104 | a zero typed before `00:5` gives `000:5`, which is recorded but does not parse |
| TimeEntry.TimeInput.constructor | report_generator.py:52-59 | a new field is empty with an empty `last_value` |
| TimeEntry.TimeInput.OnText | report_generator.py:95-104 | `last_value` becomes the value iff it is one colon between digit hours ≤ 23 and digit minutes ≤ 59; otherwise it is kept |
| TimeEntry.TimeInput.InsertText | report_generator.py:61-93 | raises exactly where the decision raises; the new text and cursor are `Applied` and `CursorAfter`; a changed text fires `on_text`; the field stays at most five field characters |
| TimeEntry.TimeInput.MoveCursor | report_generator.py:68 | the cursor the keystroke rules read is the position the user placed, within the text |
| TimeEntry.TimeInput.Clear | report_generator.py:368 | the text is emptied and `last_value` is kept |
| Calendar.DaysInMonth | report_generator.py:182-184 | 28 to 31 days; 31 exactly in the long months, 29 exactly in a leap February |
| Calendar.Replace | report_generator.py:182-184 | `replace` keeps the day, and from a valid date it succeeds exactly when that day exists in the target month and year |
| Calendar.MonthBefore | report_generator.py:179-184 | the month before exists except in January of year 1; it is a valid date one month earlier with the day clamped to its length |
| Calendar.MonthAfter | report_generator.py:189-194 | the month after exists except in December of year 9999; it is a valid date one month later with the day clamped |
| Calendar.MonthNumberInjective | report_generator.py:179-194 | the month count fixes year and month |
| Calendar.NextThenPrevious | report_generator.py:179-194 | forward then back, and back then forward, restore year and month |
| Calendar.MonthBeforeAsWritten | report_generator.py:179-184 | from a valid date the handler as written succeeds iff the clamped month before keeps the day, and then gives that date |
| Calendar.MonthAfterAsWritten | report_generator.py:189-194 | from a valid date the handler as written succeeds iff the clamped month after keeps the day, and then gives that date |
| Calendar.AsWrittenAgrees | report_generator.py:179-194 | where the handlers as written succeed, they undo each other exactly |
| Calendar.MonthStepAsWrittenRaises | report_generator.py:179-184 | `<` on 31 March 2025 and `>` on 31 January 2025 raise; the clamped steps give 28 February 2025 and 29 February 2024 |
| Calendar.DateText | report_generator.py:201 | for a day and month below 100, the text is two digits, `.`, two digits, `.`, then digits, and the three parts read back as day, month and year |
| Calendar.DateTextRoundTrip | report_generator.py:201 | `DD.MM.YYYY` for a four-digit year: ten characters whose three parts read back as day, month and year |
| Calendar.CalendarWidget.constructor | report_generator.py:111 | the widget starts on the given current date |
| Calendar.CalendarWidget.PreviousMonth | report_generator.py:179-187 | the shown date becomes the month before, or stays and reports failure; it stays valid |
| Calendar.CalendarWidget.NextMonthHandler | report_generator.py:189-197 | the shown date becomes the month after, or stays and reports failure; it stays valid |
| Calendar.CalendarWidget.SelectDay | report_generator.py:199-202 | the text is `DateText` of the day and the shown month and year, whose parts read back as those three numbers |
| Form.NextIndex | report_generator.py:357 | the next index is a valid field index |
| Form.PreviousIndex | report_generator.py:362 | the previous index is a valid field index, with Python's non-negative remainder |
| Form.FocusInverse | report_generator.py:355-363 | moving down then up, or up then down, returns to the same field |
| Form.FocusWraps | report_generator.py:355-363 | down from the last field reaches the first; up from the first reaches the last |
| Form.MoveDownWraps | report_generator.py:355-358 | `k` moves down land `k` fields on, modulo six; six moves come back |
| Form.Produce | report_generator.py:371-437 | the file to write is computed iff a report is generated; it is named by the date and holds the rendered template; otherwise the error is the report's |
| Form.Saved | report_generator.py:436-451 | the outcome succeeds iff a file was computed and `open` could create it; a file that cannot be created is a `WriteFailed` error naming it; an earlier error passes through |
| Form.FileNameOfDigits | report_generator.py:436 | a date `a.b.c` of digit strings names the file `Отчет_a_b_c.md` |
| Form.FileNameOfPickedDate | report_generator.py:436 | a date picked in the calendar names the file `Отчет_DD_MM_YYYY.md` |
| Form.ReportForm.constructor | report_generator.py:227-302 | six empty fields, `Печь 1` selected, and no field has the focus |
| Form.ReportForm.FocusNextField | report_generator.py:355-358 | the focus moves to `NextIndex` of the field |
| Form.ReportForm.FocusPreviousField | report_generator.py:360-363 | the focus moves to `PreviousIndex` of the field |
| Form.ReportForm.ClearFields | report_generator.py:365-369 | every field is emptied and the spinner is back on `Печь 1` |
| Form.ReportForm.GenerateReport | report_generator.py:371-459 | the outcome is `Saved` of `Produce` of the form's values and of whether the file could be created; on success the form is cleared; on any error, a failed write included, the fields and spinner are unchanged |

## Left out

- Kivy itself is not modelled: widgets, layouts, popups, the spinner, button wiring, event registration, and how focus is drawn. Focus is an optional field index.
- The calendar grid (`create_calendar`, `calendar.monthcalendar`) and its highlighting of today are not modelled. The month-and-year label text is not modelled either.
- `datetime.now()` is the `today` parameter of `Calendar.CalendarWidget.constructor`.
- Writing the report file and showing the success or error popup are I/O. The model stops at the file name and the template values (`Form.Produce`). Whether `open` can create the file is the `written` parameter of `Form.ReportForm.GenerateReport`; the other `OSError`s of the write are folded into it.
- The template's headers, emoji, Markdown and fixed lines are not modelled. Nor is the `:.2f` rounding of the percentages: a deviation is an exact `real`, and the template is modelled as its eleven values in order.
- Deviation.Deviation: requires a non-zero norm rather than modelling `ZeroDivisionError`, because every norm in the table is positive.
- Characters are ASCII only: `str.isdigit`, `int()` and `strptime`'s `\d` also accept other Unicode decimal digits, which the model does not. `str.strip` whitespace is the full Python set.
- Deleting text, undo and the `from_undo` flag are not modelled. The time field changes only through `insert_text`, `MoveCursor` and clearing.
- TimeEntry.CursorAfter: the cursor after an insertion is Kivy's behaviour (it advances by the length inserted), not code in this file; it is stated only as staying within the text.
- The form's four time fields are plain strings in `Form.ReportForm.fields`. They are not linked to `TimeEntry.TimeInput` objects, because `generate_report` reads only their text. `last_value` is never read by the program.
- Uncaught exceptions in the time-field and month handlers are modelled as `Raised` or a `raised` result. The state is left as it was.

## Findings

| source | as written | input that shows it | evidently intended | confidence | as-written member | corrected member |
|---|---|---|---|---|---|---|
| report_generator.py:78-84 | the hour step passes the typed digit with the colon, or `23:` when clamped, as the substring, and the widget inserts it at the cursor, beside the digit already there | field `2`, cursor 1, type `9`: the field shows `223:`; field `2`, cursor 0, type `1`: the field shows `1:2` | the field reads `23:`, or `12:` | not executed; relies on Kivy's `insert_text` inserting the substring at the cursor | TimeEntry.HourClampAsWritten | TimeEntry.HourRule |
| report_generator.py:87-93 | the clamped text is cut at the cursor and only its tail is inserted, with the typed text around it | field `12:7`, cursor 4, type `5`: the field shows `12:79`, which does not parse; cursor 3, type `9`: `12:597`, six characters | the field reads `12:59`, at most five characters | not executed; relies on Kivy's `insert_text` inserting the substring at the cursor | TimeEntry.MinuteClampAsWritten | TimeEntry.MinuteRule |
| report_generator.py:179-197 | `replace` keeps the day, so stepping to a shorter month raises `ValueError` | shown date 31 March 2025, press `<` (also 31 January, press `>`) | the step lands on the last day of the shorter month | not executed | Calendar.MonthStepAsWrittenRaises | Calendar.MonthBefore |
