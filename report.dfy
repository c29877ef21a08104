/**
 * The computation inside `generate_report`: look up the furnace's norms,
 * measure the two programs and the break between them, total them, compare
 * each with its norm, settle the notification text, and lay the report out.
 */
module Report {
  import opened Wrappers
  import opened Numerals
  import opened Clock
  import opened Deviation
  import opened Norms

  // ----- notifications -----

  /** Python's `str.isspace()` characters, which `str.strip()` removes. */
  predicate IsSpace(c: char) {
    ('\U{9}' <= c <= '\U{D}') || ('\U{1C}' <= c <= '\U{20}') || c == '\U{85}' || c == '\U{A0}' ||
    c == '\U{1680}' || ('\U{2000}' <= c <= '\U{200A}') || c == '\U{2028}' || c == '\U{2029}' ||
    c == '\U{202F}' || c == '\U{205F}' || c == '\U{3000}'
  }

  predicate AllSpace(s: string) {
    forall i :: 0 <= i < |s| ==> IsSpace(s[i])
  }

  /** Neither starts nor ends with whitespace. */
  predicate IsStripped(s: string) {
    s == [] || (!IsSpace(s[0]) && !IsSpace(s[|s| - 1]))
  }

  /** The number of whitespace characters at the start of `s`. */
  function LeadingSpace(s: string): (k: nat)
    ensures k <= |s| && forall i :: 0 <= i < k ==> IsSpace(s[i])
    ensures k < |s| ==> !IsSpace(s[k])
  {
    if s == [] || !IsSpace(s[0]) then 0 else 1 + LeadingSpace(s[1..])
  }

  /** The number of whitespace characters at the end of `s`. */
  function TrailingSpace(s: string): (k: nat)
    ensures k <= |s| && forall i :: |s| - k <= i < |s| ==> IsSpace(s[i])
    ensures k < |s| ==> !IsSpace(s[|s| - k - 1])
  {
    if s == [] || !IsSpace(s[|s| - 1]) then 0 else 1 + TrailingSpace(s[..|s| - 1])
  }

  /** `str.strip()`: `s` without its leading and trailing whitespace. */
  function Strip(s: string): (r: string)
    ensures IsStripped(r)
    ensures r == [] <==> AllSpace(s)
    ensures |r| <= |s|
  {
    var a := LeadingSpace(s);
    var rest := s[a..];
    var r := rest[..|rest| - TrailingSpace(rest)];
    assert a < |s| ==> rest[0] == s[a];
    assert AllSpace(s) ==> a == |s|;
    assert a == |s| ==> s == s[..a];
    r
  }

  const DefaultNotice: string := "Всё отработало в штатном режиме"

  /** The notifications line: the stripped text, or the default sentence when nothing is left. */
  function NoticeText(raw: string): (r: string)
    ensures r != []
    ensures AllSpace(raw) ==> r == DefaultNotice
    ensures !AllSpace(raw) ==> r == Strip(raw)
  {
    var t := Strip(raw);
    if t == [] then DefaultNotice else t
  }

  /** Stripping twice is stripping once. */
  lemma StripIdempotent(s: string)
    ensures Strip(Strip(s)) == Strip(s)
  {
    StrippedUnchanged(Strip(s));
  }

  /** Text with no whitespace at either end is left as it is. */
  lemma StrippedUnchanged(s: string)
    requires IsStripped(s)
    ensures Strip(s) == s
  {
    assert LeadingSpace(s) == 0;
    assert s[0..] == s;
    assert TrailingSpace(s) == 0;
  }

  /** The leading whitespace ends at the first non-whitespace character. */
  lemma LeadingSpaceAt(s: string, k: nat)
    requires k < |s| && (forall i :: 0 <= i < k ==> IsSpace(s[i])) && !IsSpace(s[k])
    ensures LeadingSpace(s) == k
  {
  }

  /** The trailing whitespace starts after the last non-whitespace character. */
  lemma TrailingSpaceAt(s: string, k: nat)
    requires k < |s| && (forall i :: |s| - k <= i < |s| ==> IsSpace(s[i])) && !IsSpace(s[|s| - k - 1])
    ensures TrailingSpace(s) == k
  {
  }

  /** Whitespace around non-blank text is dropped and the text itself is kept unchanged. */
  lemma NoticeKeepsText(pre: string, text: string, post: string)
    requires AllSpace(pre) && AllSpace(post)
    requires text != [] && IsStripped(text)
    ensures NoticeText(pre + text + post) == text
  {
    var s := pre + text + post;
    assert s[|pre|] == text[0];
    LeadingSpaceAt(s, |pre|);
    var rest := s[|pre|..];
    assert rest == text + post;
    assert rest[|rest| - |post| - 1] == text[|text| - 1];
    TrailingSpaceAt(rest, |post|);
    assert rest[..|rest| - |post|] == text;
  }

  // ----- metrics -----

  /** One line of the analytics block: a duration, its norm and how far it is off. */
  datatype Metric = Metric(actual: nat, norm: nat, deviation: real, symbol: Symbol)

  /** The metric for `actual` minutes against a positive norm. */
  function MakeMetric(actual: nat, norm: nat): (m: Metric)
    requires norm > 0
    ensures m.actual == actual && m.norm == norm
    ensures m.deviation * (norm as real) == ((actual - norm) * 100) as real
    ensures m.symbol == Above <==> actual > norm
    ensures m.symbol == Below <==> actual < norm
    ensures m.symbol == Equal <==> actual == norm
  {
    SymbolOfDeviation(actual, norm);
    var d := Deviation.Deviation(actual, norm);
    Metric(actual, norm, d, SymbolOf(d))
  }

  // ----- the report -----

  /** The raw field values `generate_report` reads from the form. */
  datatype ReportInput = ReportInput(
    date: string, furnace: string,
    prog1Start: string, prog1End: string, prog2Start: string, prog2End: string,
    notifications: string)

  /** What the report template is filled with. */
  datatype Report = Report(
    date: string, furnace: string,
    prog1Start: string, prog1End: string, prog2Start: string, prog2End: string,
    stage1: Metric, stage2: Metric, pause: Metric, total: Metric,
    notice: string)

  /** The exceptions `generate_report` catches and shows in its error popup. */
  datatype ReportError =
    | UnknownFurnace(name: string)   // KeyError from the norms lookup
    | InvalidTime(text: string)      // ValueError from strptime
    | WriteFailed(name: string)      // OSError from `open` when the file cannot be created

  /** The four time texts all parse. */
  predicate TimesParse(input: ReportInput) {
    ParseTime(input.prog1Start).Some? && ParseTime(input.prog1End).Some? &&
    ParseTime(input.prog2Start).Some? && ParseTime(input.prog2End).Some?
  }

  /** The first time text, in the order `generate_report` parses them, that does not parse. */
  function FirstBadTime(input: ReportInput): string
    requires !TimesParse(input)
  {
    if ParseTime(input.prog1Start).None? then input.prog1Start
    else if ParseTime(input.prog1End).None? then input.prog1End
    else if ParseTime(input.prog2Start).None? then input.prog2Start
    else input.prog2End
  }

  /** The computed part of `generate_report`, up to the filled template. */
  function Generate(input: ReportInput): (r: Result<Report, ReportError>)
    ensures r.Ok? <==> Lookup(input.furnace).Some? && TimesParse(input)
    ensures Lookup(input.furnace).None? ==> r == Err(UnknownFurnace(input.furnace))
    ensures Lookup(input.furnace).Some? && !TimesParse(input) ==> r == Err(InvalidTime(FirstBadTime(input)))
    ensures r.Ok? ==> r.value.total.actual == r.value.stage1.actual + r.value.stage2.actual + r.value.pause.actual
    ensures r.Ok? ==> r.value.notice == NoticeText(input.notifications)
    ensures r.Ok? ==> && r.value.date == input.date && r.value.furnace == input.furnace
                      && r.value.prog1Start == input.prog1Start && r.value.prog1End == input.prog1End
                      && r.value.prog2Start == input.prog2Start && r.value.prog2End == input.prog2End
  {
    match Lookup(input.furnace)
    case None => Err(UnknownFurnace(input.furnace))
    case Some(norms) =>
      TableConsistent(input.furnace);
      match TimeDifference(input.prog1Start, input.prog1End)
      case Err(bad) => Err(InvalidTime(bad))
      case Ok(program1) =>
        match TimeDifference(input.prog2Start, input.prog2End)
        case Err(bad) => Err(InvalidTime(bad))
        case Ok(program2) =>
          match TimeDifference(input.prog1End, input.prog2Start)
          case Err(bad) => Err(InvalidTime(bad))
          case Ok(pause) =>
            var total := program1 + program2 + pause;
            Ok(Report(
              input.date, input.furnace,
              input.prog1Start, input.prog1End, input.prog2Start, input.prog2End,
              MakeMetric(program1, norms.cycle1), MakeMetric(program2, norms.cycle2),
              MakeMetric(pause, norms.pause), MakeMetric(total, norms.total),
              NoticeText(input.notifications)))
  }

  /** The furnace's norms and the parsed times of an input that produces a report. */
  function NormsOf(input: ReportInput): NormSet
    requires Lookup(input.furnace).Some?
  {
    Lookup(input.furnace).value
  }

  /**
   * Stage 1 and stage 2 are the two programs' own durations, and the break
   * runs from the end of program 1 to the start of program 2.
   */
  lemma GenerateDurations(input: ReportInput)
    requires Generate(input).Ok?
    ensures var rep := Generate(input).value;
      var p1s, p1e := ParseTime(input.prog1Start).value, ParseTime(input.prog1End).value;
      var p2s, p2e := ParseTime(input.prog2Start).value, ParseTime(input.prog2End).value;
      && rep.stage1.actual == MinutesBetween(p1s, p1e)
      && rep.stage2.actual == MinutesBetween(p2s, p2e)
      && rep.pause.actual == MinutesBetween(p1e, p2s)
  {
  }

  /**
   * The durations of `GenerateDurations`, each with the matching norm of the
   * selected furnace and the deviation and marker of its own duration against
   * that norm.
   */
  lemma GenerateMetrics(input: ReportInput)
    requires Generate(input).Ok?
    ensures var rep := Generate(input).value;
      var p1s, p1e := ParseTime(input.prog1Start).value, ParseTime(input.prog1End).value;
      var p2s, p2e := ParseTime(input.prog2Start).value, ParseTime(input.prog2End).value;
      && rep.stage1.actual == MinutesBetween(p1s, p1e) && rep.stage1.norm == NormsOf(input).cycle1
      && rep.stage2.actual == MinutesBetween(p2s, p2e) && rep.stage2.norm == NormsOf(input).cycle2
      && rep.pause.actual == MinutesBetween(p1e, p2s) && rep.pause.norm == NormsOf(input).pause
      && rep.total.norm == NormsOf(input).total
    ensures var rep := Generate(input).value;
      && rep.stage1 == MakeMetric(rep.stage1.actual, rep.stage1.norm)
      && rep.stage2 == MakeMetric(rep.stage2.actual, rep.stage2.norm)
      && rep.pause == MakeMetric(rep.pause.actual, rep.pause.norm)
      && rep.total == MakeMetric(rep.total.actual, rep.total.norm)
  {
  }

  /** Every metric of a report is below a day, except the total, which is below three days. */
  lemma GenerateBounds(input: ReportInput)
    requires Generate(input).Ok?
    ensures var rep := Generate(input).value;
      && rep.stage1.actual < MinutesPerDay && rep.stage2.actual < MinutesPerDay
      && rep.pause.actual < MinutesPerDay && rep.total.actual <= 3 * (MinutesPerDay - 1)
  {
  }

  /**
   * The total agrees with the clock span from the start of program 1 to the
   * end of program 2 only up to whole days.
   */
  lemma TotalModuloDay(input: ReportInput)
    requires Generate(input).Ok?
    ensures Generate(input).value.total.actual % MinutesPerDay ==
            MinutesBetween(ParseTime(input.prog1Start).value, ParseTime(input.prog2End).value)
  {
    var a, b := ParseTime(input.prog1Start).value, ParseTime(input.prog1End).value;
    var c, e := ParseTime(input.prog2Start).value, ParseTime(input.prog2End).value;
    GenerateDurations(input);
    ChainModuloDay(a, b, c, e);
  }

  /** Three consecutive forward durations add up to the direct one, up to whole days. */
  lemma ChainModuloDay(a: TimeOfDay, b: TimeOfDay, c: TimeOfDay, e: TimeOfDay)
    ensures (MinutesBetween(a, b) + MinutesBetween(c, e) + MinutesBetween(b, c)) % MinutesPerDay ==
            MinutesBetween(a, e)
  {
    var ma, mb, mc, me := Minutes(a), Minutes(b), Minutes(c), Minutes(e);
    var wraps := (if mb < ma then 1 else 0) + (if mc < mb then 1 else 0) + (if me < mc then 1 else 0);
    var k := wraps - (if me < ma then 1 else 0);
    assert 0 <= k <= 3;
    var total := MinutesBetween(a, b) + MinutesBetween(c, e) + MinutesBetween(b, c);
    assert total == MinutesBetween(a, e) + k * MinutesPerDay;
    WholeDaysDropped(MinutesBetween(a, e), k);
  }

  lemma WholeDaysDropped(span: nat, k: nat)
    requires span < MinutesPerDay
    ensures (span + k * MinutesPerDay) % MinutesPerDay == span
  {
  }

  /** The clock readings of the examples below. */
  lemma ExampleTimes()
    ensures ParseTime("08:00") == Some(Clock(8, 0)) && ParseTime("09:00") == Some(Clock(9, 0))
    ensures ParseTime("08:30") == Some(Clock(8, 30)) && ParseTime("09:30") == Some(Clock(9, 30))
    ensures ParseTime("16:30") == Some(Clock(16, 30)) && ParseTime("17:10") == Some(Clock(17, 10))
    ensures ParseTime("20:40") == Some(Clock(20, 40)) && ParseTime("25:00").None? && ParseTime("").None?
  {
    ExampleMorning();
    ExampleAfternoon();
    ExampleEvening();
  }

  lemma ExampleMorning()
    ensures ParseTime("08:00") == Some(Clock(8, 0)) && ParseTime("09:00") == Some(Clock(9, 0))
    ensures ParseTime("08:30") == Some(Clock(8, 30))
  {
    ParseTimeStrict("08:00");
    ParseTimeStrict("09:00");
    ParseTimeStrict("08:30");
  }

  lemma ExampleAfternoon()
    ensures ParseTime("09:30") == Some(Clock(9, 30))
    ensures ParseTime("16:30") == Some(Clock(16, 30)) && ParseTime("17:10") == Some(Clock(17, 10))
  {
    ParseTimeStrict("09:30");
    ParseTimeStrict("16:30");
    ParseTimeStrict("17:10");
  }

  lemma ExampleEvening()
    ensures ParseTime("20:40") == Some(Clock(20, 40)) && ParseTime("25:00").None? && ParseTime("").None?
  {
    ParseTimeStrict("20:40");
    ParseTimeStrict("25:00");
  }

  /**
   * Overlapping programs make the break wrap forward across midnight, so the
   * total is not the clock span from program 1's start to program 2's end.
   */
  lemma TotalIsNotClockSpan()
    ensures var input := ReportInput("01.02.2025", Furnace1, "08:00", "09:00", "08:30", "09:30", "");
      && Generate(input).Ok?
      && Generate(input).value.pause.actual == 1410
      && Generate(input).value.total.actual == 1530
      && MinutesBetween(Clock(8, 0), Clock(9, 30)) == 90
  {
    ExampleTimes();
    assert TimeDifference("08:00", "09:00") == Ok(60);
    assert TimeDifference("08:30", "09:30") == Ok(60);
    assert TimeDifference("09:00", "08:30") == Ok(1410);
    TableKeys();
  }

  /** The worked example: every metric exactly on the norms of `Печь 1`. */
  lemma OnNormExample()
    ensures var input := ReportInput("01.02.2025", Furnace1, "08:00", "16:30", "17:10", "20:40", "  ");
      && Generate(input).Ok?
      && var rep := Generate(input).value;
      && rep.stage1.actual == 510 && rep.stage2.actual == 210
      && rep.pause.actual == 40 && rep.total.actual == 760
      && rep.stage1.symbol == Equal && rep.stage2.symbol == Equal
      && rep.pause.symbol == Equal && rep.total.symbol == Equal
      && rep.total.deviation == 0.0
      && rep.notice == DefaultNotice
  {
    OnNormReport();
    OnNorm(760);
  }

  /** The report of the worked example, metric by metric. */
  lemma OnNormReport()
    ensures Generate(ReportInput("01.02.2025", Furnace1, "08:00", "16:30", "17:10", "20:40", "  ")) ==
      Ok(Report("01.02.2025", Furnace1, "08:00", "16:30", "17:10", "20:40",
                MakeMetric(510, 510), MakeMetric(210, 210), MakeMetric(40, 40), MakeMetric(760, 760),
                DefaultNotice))
  {
    var input := ReportInput("01.02.2025", Furnace1, "08:00", "16:30", "17:10", "20:40", "  ");
    OnNormDifferences();
    OnNormFurnace();
    GenerateOf(input, NormSet(510, 210, 40, 760), 510, 210, 40);
  }

  /** The worked example's furnace and its blank notifications. */
  lemma OnNormFurnace()
    ensures Lookup(Furnace1) == Some(NormSet(510, 210, 40, 760))
    ensures NoticeText("  ") == DefaultNotice
  {
    TableKeys();
    assert AllSpace("  ");
  }

  /** The report of an input whose furnace and three clock differences are known. */
  lemma GenerateOf(input: ReportInput, norms: NormSet, program1: nat, program2: nat, pause: nat)
    requires Lookup(input.furnace) == Some(norms)
    requires TimeDifference(input.prog1Start, input.prog1End) == Ok(program1)
    requires TimeDifference(input.prog2Start, input.prog2End) == Ok(program2)
    requires TimeDifference(input.prog1End, input.prog2Start) == Ok(pause)
    ensures norms.cycle1 > 0 && norms.cycle2 > 0 && norms.pause > 0 && norms.total > 0
    ensures Generate(input) == Ok(Report(
      input.date, input.furnace, input.prog1Start, input.prog1End, input.prog2Start, input.prog2End,
      MakeMetric(program1, norms.cycle1), MakeMetric(program2, norms.cycle2),
      MakeMetric(pause, norms.pause), MakeMetric(program1 + program2 + pause, norms.total),
      NoticeText(input.notifications)))
  {
    TableConsistent(input.furnace);
  }

  /** The worked example's three clock differences. */
  lemma OnNormDifferences()
    ensures TimeDifference("08:00", "16:30") == Ok(510)
    ensures TimeDifference("17:10", "20:40") == Ok(210)
    ensures TimeDifference("16:30", "17:10") == Ok(40)
  {
    ExampleTimes();
  }

  /** The worked example's four durations as the report shows them. */
  lemma OnNormDurations()
    ensures FormatTime(510) == "08:30" && FormatTime(210) == "03:30"
    ensures FormatTime(40) == "00:40" && FormatTime(760) == "12:40"
  {
    StageDurations();
    BreakAndTotalDurations();
  }

  lemma BreakAndTotalDurations()
    ensures FormatTime(40) == "00:40" && FormatTime(760) == "12:40"
  {
    assert Pad2(0) == "00" && Pad2(40) == "40" && Pad2(12) == "12";
  }

  lemma StageDurations()
    ensures FormatTime(510) == "08:30" && FormatTime(210) == "03:30"
  {
    assert Pad2(8) == "08" && Pad2(30) == "30" && Pad2(3) == "03";
  }

  /** An unknown furnace is reported before any time is looked at; a bad time stops the report. */
  lemma GenerateErrors()
    ensures Generate(ReportInput("", "Печь 3", "", "", "", "", "")) == Err(UnknownFurnace("Печь 3"))
    ensures Generate(ReportInput("01.02.2025", Furnace2, "08:00", "25:00", "17:10", "", "")) ==
            Err(InvalidTime("25:00"))
    ensures Generate(ReportInput("01.02.2025", Furnace2, "08:00", "16:30", "17:10", "", "")) ==
            Err(InvalidTime(""))
  {
    ExampleTimes();
    TableKeys();
  }

  // ----- rendering -----

  /** A value placed into the template: plain text, or a duration with its deviation. */
  datatype Field =
    | Text(text: string)
    | Measure(duration: string, glyph: string, percent: real)

  function MeasureOf(m: Metric): Field {
    Measure(FormatTime(m.actual), Glyph(m.symbol), m.deviation)
  }

  /** The measures of `metrics`, one field each, in the same order. */
  function MeasuresOf(metrics: seq<Metric>): (fields: seq<Field>)
    ensures |fields| == |metrics|
    ensures forall i :: 0 <= i < |metrics| ==> fields[i] == MeasureOf(metrics[i])
  {
    if metrics == [] then [] else [MeasureOf(metrics[0])] + MeasuresOf(metrics[1..])
  }

  /**
   * The values of the report template in the order it prints them: date,
   * furnace, the two ON times, the two OFF times, stage 1, stage 2, break,
   * total, notifications. Headers, emoji, Markdown and the two-decimal
   * rounding of the percentages are presentation.
   */
  function Render(rep: Report): (fields: seq<Field>)
    ensures |fields| == 11
    ensures fields[..6] == [Text(rep.date), Text(rep.furnace),
                            Text(rep.prog1Start), Text(rep.prog2Start), Text(rep.prog1End), Text(rep.prog2End)]
    ensures fields[6..10] == MeasuresOf([rep.stage1, rep.stage2, rep.pause, rep.total])
    ensures fields[10] == Text(rep.notice)
  {
    Layout([Text(rep.date), Text(rep.furnace),
            Text(rep.prog1Start), Text(rep.prog2Start), Text(rep.prog1End), Text(rep.prog2End)],
           MeasuresOf([rep.stage1, rep.stage2, rep.pause, rep.total]),
           Text(rep.notice))
  }

  /** The template's layout: the six input values, the four measures, the notice. */
  function Layout(inputs: seq<Field>, measures: seq<Field>, notice: Field): (fields: seq<Field>)
    requires |inputs| == 6 && |measures| == 4
    ensures |fields| == 11 && fields[10] == notice
    ensures fields[..6] == inputs && fields[6..10] == measures
  {
    var fields := inputs + measures + [notice];
    assert fields[..6] == inputs;
    assert fields[6..10] == measures;
    fields
  }

  /** The minutes a rendered measure shows, read back from its `HH:MM` text. */
  function ReadDuration(f: Field): Option<nat> {
    if f.Measure? then
      match ClockFields(f.duration)
      case Some((h, m)) => Some(h * 60 + m)
      case None => None
    else None
  }

  /** A metric below a hundred hours is shown as `HH:MM` text that reads back to its minutes. */
  lemma MeasureReadsBack(m: Metric)
    requires m.actual < 100 * MinutesPerHour
    ensures |MeasureOf(m).duration| == 5
    ensures ReadDuration(MeasureOf(m)) == Some(m.actual)
  {
    FormatTimeRoundTrip(m.actual);
  }

  /** Every duration a rendered report shows reads back to the computed minutes. */
  lemma RenderDurations(rep: Report)
    requires rep.stage1.actual < MinutesPerDay && rep.stage2.actual < MinutesPerDay
    requires rep.pause.actual < MinutesPerDay && rep.total.actual <= 3 * (MinutesPerDay - 1)
    ensures ReadDuration(Render(rep)[6]) == Some(rep.stage1.actual)
    ensures ReadDuration(Render(rep)[7]) == Some(rep.stage2.actual)
    ensures ReadDuration(Render(rep)[8]) == Some(rep.pause.actual)
    ensures ReadDuration(Render(rep)[9]) == Some(rep.total.actual)
  {
    RenderMeasures(rep);
    MeasureReadsBack(rep.stage1);
    MeasureReadsBack(rep.stage2);
    MeasureReadsBack(rep.pause);
    MeasureReadsBack(rep.total);
  }

  /** Fields 6 to 9 of the template are the measures of stage 1, stage 2, break and total. */
  lemma RenderMeasures(rep: Report)
    ensures Render(rep)[6] == MeasureOf(rep.stage1) && Render(rep)[7] == MeasureOf(rep.stage2)
    ensures Render(rep)[8] == MeasureOf(rep.pause) && Render(rep)[9] == MeasureOf(rep.total)
  {
    var fields := Render(rep);
    var measures := MeasuresOf([rep.stage1, rep.stage2, rep.pause, rep.total]);
    assert fields[6] == fields[6..10][0] && fields[7] == fields[6..10][1];
    assert fields[8] == fields[6..10][2] && fields[9] == fields[6..10][3];
  }

  /**
   * A rendered report shows the inputs verbatim, and every duration it shows
   * reads back to the computed minutes.
   */
  lemma RenderFaithful(input: ReportInput)
    requires Generate(input).Ok?
    ensures var fields := Render(Generate(input).value);
      && |fields| == 11
      && fields[0] == Text(input.date) && fields[1] == Text(input.furnace)
      && fields[2] == Text(input.prog1Start) && fields[3] == Text(input.prog2Start)
      && fields[4] == Text(input.prog1End) && fields[5] == Text(input.prog2End)
      && fields[10] == Text(NoticeText(input.notifications))
    ensures var rep := Generate(input).value;
      && ReadDuration(Render(rep)[6]) == Some(rep.stage1.actual)
      && ReadDuration(Render(rep)[7]) == Some(rep.stage2.actual)
      && ReadDuration(Render(rep)[8]) == Some(rep.pause.actual)
      && ReadDuration(Render(rep)[9]) == Some(rep.total.actual)
  {
    var fields := Render(Generate(input).value);
    assert fields[0] == fields[..6][0] && fields[1] == fields[..6][1] && fields[2] == fields[..6][2];
    assert fields[3] == fields[..6][3] && fields[4] == fields[..6][4] && fields[5] == fields[..6][5];
    GenerateBounds(input);
    RenderDurations(Generate(input).value);
  }

  // ----- the report file -----

  /** `date.replace(".", "_")`. */
  function DotsToUnderscores(s: string): (r: string)
    ensures |r| == |s|
    ensures forall i :: 0 <= i < |s| ==> r[i] == if s[i] == '.' then '_' else s[i]
  {
    if s == [] then [] else [if s[0] == '.' then '_' else s[0]] + DotsToUnderscores(s[1..])
  }

  /** The name of the Markdown file the report is written to. */
  function ReportFileName(date: string): (name: string)
    ensures |name| == |date| + 9
    ensures name[..6] == "Отчет_" && name[|name| - 3..] == ".md"
    ensures forall i :: 6 <= i < |name| - 3 ==> name[i] != '.'
    ensures forall i :: 0 <= i < |date| ==> name[6 + i] == if date[i] == '.' then '_' else date[i]
  {
    "Отчет_" + DotsToUnderscores(date) + ".md"
  }
}
