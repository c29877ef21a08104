/**
 * The report form (`ReportGenerator`): its navigable fields, the cyclic
 * focus movement between them, clearing them, and the `generate_report`
 * button, which either writes the report file and clears the form, or
 * reports the error and leaves the form as it is.
 */
module Form {
  import opened Wrappers
  import opened Numerals
  import opened Norms
  import opened Report
  import opened Calendar

  /** `len(self.input_fields)`: date, four times, notifications. */
  const FieldCount := 6

  const DateField := 0
  const Prog1StartField := 1
  const Prog1EndField := 2
  const Prog2StartField := 3
  const Prog2EndField := 4
  const NotificationsField := 5

  // ----- focus movement -----

  /** `(current_idx + 1) % len(self.input_fields)`. */
  function NextIndex(current: int): (k: int)
    ensures 0 <= k < FieldCount
  {
    (current + 1) % FieldCount
  }

  /** `(current_idx - 1) % len(self.input_fields)`; like Python's, Dafny's `%` is never negative here. */
  function PreviousIndex(current: int): (k: int)
    ensures 0 <= k < FieldCount
  {
    (current - 1) % FieldCount
  }

  /** Moving down then up, or up then down, comes back to the same field. */
  lemma FocusInverse(i: int)
    requires 0 <= i < FieldCount
    ensures PreviousIndex(NextIndex(i)) == i
    ensures NextIndex(PreviousIndex(i)) == i
  {
  }

  /** Moving down from the last field reaches the first, moving up from the first reaches the last. */
  lemma FocusWraps()
    ensures NextIndex(FieldCount - 1) == 0 && PreviousIndex(0) == FieldCount - 1
  {
  }

  /** The field reached after moving down `k` times from field `i`. */
  function MoveDown(i: int, k: nat): (j: int)
    requires 0 <= i < FieldCount
    ensures 0 <= j < FieldCount
  {
    if k == 0 then i else NextIndex(MoveDown(i, k - 1))
  }

  /** Moving down `k` times lands `k` fields further on, wrapping around; six moves come back. */
  lemma {:induction false} MoveDownWraps(i: int, k: nat)
    requires 0 <= i < FieldCount
    ensures MoveDown(i, k) == (i + k) % FieldCount
    ensures k == FieldCount ==> MoveDown(i, k) == i
  {
    if k > 0 {
      MoveDownWraps(i, k - 1);
      NextOfRemainder(i + k - 1);
    }
  }

  /** Stepping on from the remainder of `a` gives the remainder of `a + 1`. */
  lemma NextOfRemainder(a: nat)
    ensures NextIndex(a % FieldCount) == (a + 1) % FieldCount
  {
    var q, r := a / FieldCount, a % FieldCount;
    assert a == FieldCount * q + r;
    if r < FieldCount - 1 {
      assert a + 1 == FieldCount * q + (r + 1);
    } else {
      assert a + 1 == FieldCount * (q + 1);
    }
  }

  // ----- the report file -----

  /** What `generate_report` writes: the file name and the filled template. */
  datatype ReportFile = ReportFile(name: string, content: seq<Field>)

  /** The report and its file name, or the error the popup shows. */
  function Produce(input: ReportInput): (r: Result<ReportFile, ReportError>)
    ensures r.Ok? <==> Generate(input).Ok?
    ensures r.Ok? ==> r.value.name == ReportFileName(input.date)
    ensures r.Ok? ==> r.value.content == Render(Generate(input).value)
    ensures r.Err? ==> r.error == Generate(input).error
  {
    match Generate(input)
    case Ok(rep) => Ok(ReportFile(ReportFileName(input.date), Render(rep)))
    case Err(e) => Err(e)
  }

  /**
   * The outcome the popup shows once `open(...)` has been tried: `written`
   * says whether the file could be created, and when it could not, the
   * `OSError` becomes the error.
   */
  function Saved(produced: Result<ReportFile, ReportError>, written: bool): (r: Result<ReportFile, ReportError>)
    ensures r.Ok? <==> produced.Ok? && written
    ensures r.Ok? ==> r == produced
    ensures produced.Ok? && !written ==> r == Err(WriteFailed(produced.value.name))
    ensures produced.Err? ==> r == produced
  {
    if produced.Ok? && !written then Err(WriteFailed(produced.value.name)) else produced
  }

  lemma {:induction false} DotsToUnderscoresAppend(a: string, b: string)
    ensures DotsToUnderscores(a + b) == DotsToUnderscores(a) + DotsToUnderscores(b)
  {
    if a == [] {
      assert a + b == b;
    } else {
      assert (a + b)[1..] == a[1..] + b;
      DotsToUnderscoresAppend(a[1..], b);
    }
  }

  lemma DigitsKeptInFileName(s: string)
    requires IsDigitString(s)
    ensures DotsToUnderscores(s) == s
  {
    var r := DotsToUnderscores(s);
    assert forall i :: 0 <= i < |s| ==> r[i] == s[i];
  }

  /** The dots of `a.b.c` become underscores when `a`, `b` and `c` hold none. */
  lemma DotsOfDateText(a: string, b: string, c: string)
    requires DotsToUnderscores(a) == a && DotsToUnderscores(b) == b && DotsToUnderscores(c) == c
    ensures DotsToUnderscores(a + "." + b + "." + c) == a + "_" + b + "_" + c
  {
    assert DotsToUnderscores(".") == "_";
    DotsToUnderscoresAppend(a, ".");
    DotsToUnderscoresAppend(a + ".", b);
    DotsToUnderscoresAppend(a + "." + b, ".");
    DotsToUnderscoresAppend(a + "." + b + ".", c);
  }

  /** A date `a.b.c` made of digit strings names the file `Отчет_a_b_c.md`. */
  lemma FileNameOfDigits(a: string, b: string, c: string)
    requires IsDigitString(a) && IsDigitString(b) && IsDigitString(c)
    ensures ReportFileName(a + "." + b + "." + c) == "Отчет_" + a + "_" + b + "_" + c + ".md"
  {
    DigitsKeptInFileName(a);
    DigitsKeptInFileName(b);
    DigitsKeptInFileName(c);
    DotsOfDateText(a, b, c);
    var date, middle := a + "." + b + "." + c, a + "_" + b + "_" + c;
    assert DotsToUnderscores(date) == middle;
    assert "Отчет_" + middle + ".md" == "Отчет_" + a + "_" + b + "_" + c + ".md";
  }

  /** A date picked in the calendar names the file `Отчет_DD_MM_YYYY.md`. */
  lemma FileNameOfPickedDate(day: nat, month: nat, year: nat)
    ensures ReportFileName(DateText(day, month, year)) ==
            "Отчет_" + Pad2(day) + "_" + Pad2(month) + "_" + Decimal(year) + ".md"
  {
    FileNameOfDigits(Pad2(day), Pad2(month), Decimal(year));
  }

  // ----- the form -----

  class ReportForm {
    /** The texts of `input_fields`, in navigation order. */
    var fields: array<string>
    /** `furnace_spinner.text`. */
    var furnace: string
    /** The index of the field that has the focus, if any. */
    var focused: Option<int>

    ghost predicate Valid()
      reads this
    {
      fields.Length == FieldCount && (focused.Some? ==> 0 <= focused.value < FieldCount)
    }

    /** The values `generate_report` reads. */
    function Input(): ReportInput
      reads this, fields
      requires Valid()
    {
      ReportInput(fields[DateField], furnace, fields[Prog1StartField], fields[Prog1EndField],
                  fields[Prog2StartField], fields[Prog2EndField], fields[NotificationsField])
    }

    constructor ()
      ensures Valid() && fresh(fields)
      ensures forall i :: 0 <= i < FieldCount ==> fields[i] == []
      ensures furnace == Furnace1 && focused == None
    {
      fields := new string[FieldCount](_ => []);
      furnace := Furnace1;
      focused := None;
    }

    /** `focus_next_field`, bound to the down key of field `current`. */
    method FocusNextField(current: int)
      requires Valid()
      modifies this`focused
      ensures Valid() && focused == Some(NextIndex(current))
    {
      focused := Some((current + 1) % fields.Length);
    }

    /** `focus_previous_field`, bound to the up key of field `current`. */
    method FocusPreviousField(current: int)
      requires Valid()
      modifies this`focused
      ensures Valid() && focused == Some(PreviousIndex(current))
    {
      focused := Some((current - 1) % fields.Length);
    }

    /** `clear_fields`: every field emptied and the spinner back on the first furnace. */
    method ClearFields()
      requires Valid()
      modifies fields, this`furnace
      ensures Valid()
      ensures forall i :: 0 <= i < fields.Length ==> fields[i] == []
      ensures furnace == Furnace1
    {
      var i := 0;
      while i < fields.Length
        invariant 0 <= i <= fields.Length
        invariant forall j :: 0 <= j < i ==> fields[j] == []
      {
        fields[i] := [];
        i := i + 1;
      }
      furnace := Furnace1;
    }

    /**
     * `generate_report`: on success the report file is written and the form
     * cleared; on an error, the failed write included, nothing changes.
     * `written` is whether `open(...)` can create the file.
     */
    method GenerateReport(written: bool) returns (outcome: Result<ReportFile, ReportError>)
      requires Valid()
      modifies fields, this`furnace
      ensures Valid()
      ensures outcome == Saved(Produce(old(Input())), written)
      ensures outcome.Ok? ==> (forall i :: 0 <= i < fields.Length ==> fields[i] == []) && furnace == Furnace1
      ensures outcome.Err? ==> fields[..] == old(fields[..]) && furnace == old(furnace)
    {
      outcome := Saved(Produce(Input()), written);
      if outcome.Ok? {
        ClearFields();
      }
    }
  }
}
