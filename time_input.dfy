/**
 * The time-entry field (`TimeInput`): the rules `insert_text` applies to
 * every keystroke or paste, and the `last_value` that `on_text` keeps.
 *
 * `insert_text` computes the text it wants (`new_text`) but hands only a
 * `substring` to the widget, which inserts that substring at the cursor.
 * `Decide` gives both; `Applied` is the field afterwards when it holds the
 * wanted text, `AppliedAsWritten` when it holds what the widget makes of the
 * substring. The two differ after the hour and minute clamps.
 */
module TimeEntry {
  import opened Wrappers
  import opened Numerals
  import opened Clock

  /** Every character the field can hold: digits and the colon it inserts itself. */
  predicate IsFieldText(s: string) {
    forall i :: 0 <= i < |s| ==> IsDigit(s[i]) || s[i] == ':'
  }

  function ColonCount(s: string): nat {
    if s == [] then 0 else (if s[0] == ':' then 1 else 0) + ColonCount(s[1..])
  }

  lemma {:induction false} ColonCountAppend(a: string, b: string)
    ensures ColonCount(a + b) == ColonCount(a) + ColonCount(b)
  {
    if a == [] {
      assert a + b == b;
    } else {
      assert (a + b)[1..] == a[1..] + b;
      ColonCountAppend(a[1..], b);
    }
  }

  lemma {:induction false} NoColon(s: string)
    requires ColonCount(s) == 0
    ensures forall i :: 0 <= i < |s| ==> s[i] != ':'
  {
    if s != [] {
      NoColon(s[1..]);
      assert forall i :: 1 <= i < |s| ==> s[i] == s[1..][i - 1];
    }
  }

  /** The position of the first colon. */
  function ColonAt(s: string): (i: nat)
    requires ColonCount(s) > 0
    ensures i < |s| && s[i] == ':' && ColonCount(s[..i]) == 0
  {
    if s[0] == ':' then 0
    else
      var i := 1 + ColonAt(s[1..]);
      assert s[..i] == [s[0]] + s[1..][..i - 1];
      i
  }

  /** `hours, minutes = s.split(':')`, which raises unless there is exactly one colon. */
  function SplitColon(s: string): (r: Option<(string, string)>)
    ensures r.Some? <==> ColonCount(s) == 1
    ensures r.Some? ==> s == r.value.0 + ":" + r.value.1
    ensures r.Some? ==> ColonCount(r.value.0) == 0 && ColonCount(r.value.1) == 0
  {
    if ColonCount(s) == 1 then
      var i := ColonAt(s);
      OnlyColon(s);
      Some((s[..i], s[i + 1..]))
    else None
  }

  /** With one colon, the text after it has none. */
  lemma OnlyColon(s: string)
    requires ColonCount(s) == 1
    ensures var i := ColonAt(s);
      s == s[..i] + ":" + s[i + 1..] && ColonCount(s[i + 1..]) == 0
  {
    var i := ColonAt(s);
    var rest := [':'] + s[i + 1..];
    assert s == s[..i] + rest;
    ColonCountAppend(s[..i], rest);
    assert rest[1..] == s[i + 1..];
  }

  /** What `insert_text` does with `sub` typed at `cursor`. */
  datatype Edit =
    | Ignored                                  // returns early and inserts nothing
    | Raised                                   // `int(...)` or the unpacking of `split` raises ValueError
    | Insert(wanted: string, piece: string)    // `new_text`, and the `substring` given to the widget

  /** The field with `sub` put in at `cursor`: `new_text` before any correction. */
  function Typed(text: string, cursor: nat, sub: string): (t: string)
    requires cursor <= |text|
    ensures |t| == |text| + |sub|
    ensures IsFieldText(text) && IsDigitString(sub) ==> IsFieldText(t)
  {
    var t := text[..cursor] + sub + text[cursor..];
    assert IsFieldText(text) && IsDigitString(sub) ==> IsFieldText(t) by {
      if IsFieldText(text) && IsDigitString(sub) {
        forall i | 0 <= i < |t| ensures IsDigit(t[i]) || t[i] == ':' {
          if i < cursor { assert t[i] == text[i]; }
          else if i < cursor + |sub| { assert t[i] == sub[i - cursor]; }
          else { assert t[i] == text[i - |sub|]; }
        }
      }
    }
    t
  }

  /** The two sides of the colon in field text hold digits only. */
  lemma SplitDigits(s: string)
    requires IsFieldText(s) && SplitColon(s).Some?
    ensures var (hours, minutes) := SplitColon(s).value;
      (forall i :: 0 <= i < |hours| ==> IsDigit(hours[i])) && (forall i :: 0 <= i < |minutes| ==> IsDigit(minutes[i]))
  {
    var (hours, minutes) := SplitColon(s).value;
    NoColon(hours);
    NoColon(minutes);
    assert forall i :: 0 <= i < |hours| ==> hours[i] == s[i];
    assert forall i :: 0 <= i < |minutes| ==> minutes[i] == s[|hours| + 1 + i];
  }

  /** The hour step, taken when the typed text is two characters long. */
  function HourStep(typed: string, sub: string): (r: Edit)
    requires |typed| == 2 && IsDigitString(sub)
    ensures r.Insert? <==> IsDigitString(typed)
    ensures r.Insert? ==> |r.wanted| == 3 && r.wanted[2] == ':' && IsFieldText(r.wanted) && IsFieldText(r.piece)
  {
    if !IsDigitString(typed) then Raised
    else if ValueOf(typed) <= 23 then Insert(typed + ":", sub + ":")
    else Insert("23:", "23:")
  }

  /** The minute step, taken when the typed text is five characters long. */
  function MinuteStep(typed: string, sub: string, cursor: nat): (r: Edit)
    requires |typed| == 5 && IsFieldText(typed) && IsDigitString(sub)
    ensures r.Insert? <==> SplitColon(typed).Some? && SplitColon(typed).value.1 != []
    ensures r.Insert? ==> |r.wanted| <= 5 && IsFieldText(r.wanted) && IsFieldText(r.piece)
  {
    match SplitColon(typed)
    case None => Raised
    case Some((hours, minutes)) =>
      if minutes == [] then Raised
      else
        SplitDigits(typed);
        if ValueOf(minutes) > 59 then
          var clamped := hours + ":59";
          Insert(clamped, if cursor <= |clamped| then clamped[cursor..] else [])
        else Insert(typed, sub)
  }

  /** The decision `insert_text` takes. */
  function Decide(text: string, cursor: nat, sub: string): (r: Edit)
    requires cursor <= |text| && IsFieldText(text)
    ensures !IsDigitString(sub) ==> r == Ignored
    ensures r.Insert? ==> |r.wanted| <= 5 && IsFieldText(r.wanted) && IsFieldText(r.piece)
  {
    if !IsDigitString(sub) then Ignored
    else
      var typed := Typed(text, cursor, sub);
      if |typed| > 5 then Ignored
      else if |typed| == 2 then HourStep(typed, sub)
      else if |typed| == 5 then MinuteStep(typed, sub, cursor)
      else Insert(typed, sub)
  }

  /** The field after the keystroke, holding the text `insert_text` computed. */
  function Applied(text: string, cursor: nat, sub: string): (r: string)
    requires cursor <= |text| && IsFieldText(text)
    ensures IsFieldText(r)
    ensures |text| <= 5 ==> |r| <= 5
    ensures !IsDigitString(sub) ==> r == text
  {
    match Decide(text, cursor, sub)
    case Insert(wanted, _) => wanted
    case _ => text
  }

  /** The field after the keystroke as the widget really leaves it: the substring inserted at the cursor. */
  function AppliedAsWritten(text: string, cursor: nat, sub: string): (r: string)
    requires cursor <= |text| && IsFieldText(text)
    ensures IsFieldText(r)
  {
    match Decide(text, cursor, sub)
    case Insert(_, piece) => text[..cursor] + piece + text[cursor..]
    case _ => text
  }

  /** Where the cursor ends up after `Applied`. */
  function CursorAfter(text: string, cursor: nat, sub: string): (c: nat)
    requires cursor <= |text| && IsFieldText(text)
    ensures c <= |Applied(text, cursor, sub)|
  {
    var r := Applied(text, cursor, sub);
    var c := cursor + |r| - |text|;
    if c < 0 then 0 else c
  }

  // ----- the rules insert_text promises -----

  lemma {:induction false} DigitsHaveNoColon(s: string)
    requires forall i :: 0 <= i < |s| ==> IsDigit(s[i])
    ensures ColonCount(s) == 0
  {
    if s != [] {
      DigitsHaveNoColon(s[1..]);
    }
  }

  lemma {:induction false} ColonAtAfter(h: string, m: string)
    requires ColonCount(h) == 0
    ensures ColonCount(h + [':'] + m) > 0 && ColonAt(h + [':'] + m) == |h|
  {
    var s := h + [':'] + m;
    assert s == h + ([':'] + m);
    ColonCountAppend(h, [':'] + m);
    if h != [] {
      assert h[0] != ':';
      assert s[1..] == h[1..] + [':'] + m;
      assert ColonCount(h) == ColonCount(h[1..]);
      ColonAtAfter(h[1..], m);
    }
  }

  /** Splitting `h:m` at its only colon gives back `h` and `m`. */
  lemma SplitColonOf(h: string, m: string)
    requires ColonCount(h) == 0 && ColonCount(m) == 0
    ensures SplitColon(h + [':'] + m) == Some((h, m))
  {
    var s := h + [':'] + m;
    ColonAtAfter(h, m);
    OneColon(h, m);
    SplitAtColon(s);
    assert s[..|h|] == h;
    assert s[|h| + 1..] == m;
  }

  lemma OneColon(h: string, m: string)
    requires ColonCount(h) == 0 && ColonCount(m) == 0
    ensures ColonCount(h + [':'] + m) == 1
  {
    assert h + [':'] + m == h + ([':'] + m);
    ColonCountAppend(h, [':'] + m);
    assert ([':'] + m)[1..] == m;
  }

  lemma SplitAtColon(s: string)
    requires ColonCount(s) == 1
    ensures SplitColon(s) == Some((s[..ColonAt(s)], s[ColonAt(s) + 1..]))
  {
  }

  /**
   * When the field reaches two characters, an hour up to 23 is kept and
   * followed by a colon, and a larger one becomes `23:`.
   */
  lemma HourRule(text: string, cursor: nat, sub: string)
    requires cursor <= |text| && IsDigitString(sub)
    requires (forall i :: 0 <= i < |text| ==> IsDigit(text[i])) && |text| + |sub| == 2
    ensures var typed := Typed(text, cursor, sub);
      var r := Applied(text, cursor, sub);
      && |r| == 3 && r[2] == ':' && IsDigitString(r[..2]) && ValueOf(r[..2]) <= 23
      && (ValueOf(typed) <= 23 ==> r[..2] == typed)
      && (ValueOf(typed) > 23 ==> r == "23:")
  {
    var typed := Typed(text, cursor, sub);
    assert IsDigitString(typed) by {
      forall i | 0 <= i < 2 ensures IsDigit(typed[i]) {
        if i < cursor { assert typed[i] == text[i]; }
        else if i < cursor + |sub| { assert typed[i] == sub[i - cursor]; }
        else { assert typed[i] == text[i - |sub|]; }
      }
    }
    var r := Applied(text, cursor, sub);
    assert r == HourStep(typed, sub).wanted;
    if ValueOf(typed) <= 23 {
      assert r == typed + ":" && r[..2] == typed;
    } else {
      assert r == "23:";
      assert r[..2] == "23";
      TwoDigitValue("23");
    }
  }

  /**
   * When the field reaches five characters and the step goes through, minutes
   * above 59 become 59; the hours and minutes up to 59 are left as typed.
   */
  lemma MinuteRule(typed: string, sub: string, cursor: nat)
    requires |typed| == 5 && IsFieldText(typed) && IsDigitString(sub)
    requires MinuteStep(typed, sub, cursor).Insert?
    ensures SplitColon(typed).Some?
    ensures var (hours, minutes) := SplitColon(typed).value;
      var r := MinuteStep(typed, sub, cursor).wanted;
      && IsDigitString(minutes)
      && (ValueOf(minutes) <= 59 ==> r == typed)
      && (ValueOf(minutes) > 59 ==> r == hours + [':', '5', '9'])
      && SplitColon(r) == Some((hours, if ValueOf(minutes) <= 59 then minutes else "59"))
  {
    var (hours, minutes) := SplitColon(typed).value;
    SplitDigits(typed);
    if ValueOf(minutes) > 59 {
      DigitsHaveNoColon("59");
      assert hours + ":59" == hours + [':'] + "59";
      SplitColonOf(hours, "59");
    }
  }

  /** Minutes left by the minute step are at most 59. */
  lemma MinuteRuleBound(typed: string, sub: string, cursor: nat)
    requires |typed| == 5 && IsFieldText(typed) && IsDigitString(sub)
    requires MinuteStep(typed, sub, cursor).Insert?
    ensures var r := MinuteStep(typed, sub, cursor).wanted;
      SplitColon(r).Some? && SplitColon(r).value.0 == SplitColon(typed).value.0
      && IsDigitString(SplitColon(r).value.1) && ValueOf(SplitColon(r).value.1) <= 59
  {
    MinuteRule(typed, sub, cursor);
    var (hours, minutes) := SplitColon(typed).value;
    var r := MinuteStep(typed, sub, cursor).wanted;
    if ValueOf(minutes) > 59 {
      assert SplitColon(r) == Some((hours, "59"));
      TwoDigitValue("59");
    } else {
      assert SplitColon(r) == Some((hours, minutes));
    }
  }

  /** Typing `keys` one at a time at the end of the field. */
  function TypeAtEnd(text: string, keys: string): (r: string)
    requires IsFieldText(text)
    ensures IsFieldText(r)
    decreases |keys|
  {
    if keys == [] then text else TypeAtEnd(Applied(text, |text|, keys[..1]), keys[1..])
  }

  /** The same, with the widget's own insertion of the substring. */
  function TypeAtEndAsWritten(text: string, keys: string): (r: string)
    requires IsFieldText(text)
    ensures IsFieldText(r)
    decreases |keys|
  {
    if keys == [] then text else TypeAtEndAsWritten(AppliedAsWritten(text, |text|, keys[..1]), keys[1..])
  }

  /** The first two digits typed into an empty field leave `HH:` with an hour up to 23. */
  lemma TypingHour(k0: string, k1: string)
    requires IsDigitString(k0) && |k0| == 1 && IsDigitString(k1) && |k1| == 1
    ensures var s := Applied(Applied([], 0, k0), 1, k1);
      |s| == 3 && s[2] == ':' && IsDigitString(s[..2]) && ValueOf(s[..2]) <= 23
  {
    var s1 := Applied([], 0, k0);
    assert [][..0] + k0 + [][0..] == k0;
    assert s1 == k0;
    HourRule(s1, 1, k1);
  }

  /** The fourth digit completes `HH:M` to a time whose minutes are at most 59. */
  lemma TypingMinutes(hh: string, k2: string, k3: string)
    requires IsDigitString(hh) && |hh| == 2 && ValueOf(hh) <= 23
    requires IsDigitString(k2) && |k2| == 1 && IsDigitString(k3) && |k3| == 1
    ensures var s3 := Applied(hh + ":", 3, k2);
      s3 == hh + ":" + k2 && ParseTime(Applied(s3, 4, k3)).Some?
  {
    var s3 := hh + ":" + k2;
    var typed := Typed(s3, 4, k3);
    ThirdAndFourthDigit(hh, k2, k3);
    assert IsFieldText(s3);
    var s4 := Applied(s3, 4, k3);
    assert s4 == MinuteStep(typed, k3, 4).wanted;
    MinuteRuleBound(typed, k3, 4);
    MinuteStepParses(s4, hh);
  }

  /** The third digit follows the colon, and the fourth makes `hh:` and two minute digits. */
  lemma ThirdAndFourthDigit(hh: string, k2: string, k3: string)
    requires IsDigitString(hh) && |hh| == 2 && ValueOf(hh) <= 23
    requires IsDigitString(k2) && |k2| == 1 && IsDigitString(k3) && |k3| == 1
    ensures Applied(hh + ":", 3, k2) == hh + ":" + k2
    ensures |Typed(hh + ":" + k2, 4, k3)| == 5
    ensures SplitColon(Typed(hh + ":" + k2, 4, k3)) == Some((hh, k2 + k3))
  {
    var s2 := hh + ":";
    assert s2[..3] + k2 + s2[3..] == s2 + k2;
    var s3 := s2 + k2;
    var typed := Typed(s3, 4, k3);
    assert typed == hh + [':'] + (k2 + k3);
    DigitsHaveNoColon(hh);
    DigitsHaveNoColon(k2 + k3);
    SplitColonOf(hh, k2 + k3);
  }

  /** A field split into a valid hour and at most two digits of minutes up to 59 parses. */
  lemma MinuteStepParses(s: string, hh: string)
    requires IsDigitString(hh) && |hh| == 2 && ValueOf(hh) <= 23 && |s| <= 5
    requires SplitColon(s).Some? && SplitColon(s).value.0 == hh
    requires IsDigitString(SplitColon(s).value.1) && ValueOf(SplitColon(s).value.1) <= 59
    ensures ParseTime(s).Some?
  {
    var minutes := SplitColon(s).value.1;
    assert s == hh + ":" + minutes;
    ParseTimeOf(hh, minutes);
  }

  /** Any four digits typed into an empty field give a valid `HH:MM` time. */
  lemma TypingFourDigits(keys: string)
    requires IsDigitString(keys) && |keys| == 4
    ensures ParseTime(TypeAtEnd([], keys)).Some?
  {
    var k0, k1, k2, k3 := keys[..1], keys[1..2], keys[2..3], keys[3..];
    assert keys[1..][..1] == k1 && keys[2..][..1] == k2 && keys[3..][..1] == k3;
    assert keys[1..][1..] == keys[2..] && keys[2..][1..] == keys[3..] && keys[3..][1..] == [];
    TypingHour(k0, k1);
    var s1 := Applied([], 0, k0);
    var s2 := Applied(s1, 1, k1);
    assert |s1| == 1;
    assert s2 == s2[..2] + ":";
    TypingMinutes(s2[..2], k2, k3);
    var s3 := Applied(s2, 3, k2);
    var s4 := Applied(s3, 4, k3);
    assert TypeAtEnd([], keys) == TypeAtEnd(s1, keys[1..]);
    assert TypeAtEnd(s1, keys[1..]) == TypeAtEnd(s2, keys[2..]);
    assert TypeAtEnd(s2, keys[2..]) == TypeAtEnd(s3, keys[3..]);
    assert TypeAtEnd(s3, keys[3..]) == s4;
  }

  // ----- what the widget really does -----

  /** Typing one key at the end, then the rest. */
  lemma TypeAtEndCons(text: string, key: char, rest: string)
    requires IsFieldText(text)
    ensures TypeAtEnd(text, [key] + rest) == TypeAtEnd(Applied(text, |text|, [key]), rest)
    ensures TypeAtEndAsWritten(text, [key] + rest) == TypeAtEndAsWritten(AppliedAsWritten(text, |text|, [key]), rest)
  {
    assert ([key] + rest)[..1] == [key] && ([key] + rest)[1..] == rest;
  }

  /**
   * The hour step hands the widget the typed digit with the colon (or `23:`)
   * and the widget inserts it at the cursor, after or before the digit already
   * there: typing `2` then `9` shows `223:` instead of `23:`, and `1` typed in
   * front of `2` shows `1:2` instead of `12:`.
   */
  lemma HourClampAsWritten()
    ensures AppliedAsWritten("2", 1, "9") == "223:" && Applied("2", 1, "9") == "23:"
    ensures AppliedAsWritten("2", 0, "1") == "1:2" && Applied("2", 0, "1") == "12:"
    ensures TypeAtEndAsWritten([], "29") == "223:" && TypeAtEnd([], "29") == "23:"
  {
    HourClampAfterDigit();
    assert Typed([], 0, "2") == "2";
    assert Applied([], 0, "2") == "2" && AppliedAsWritten([], 0, "2") == "2";
    assert "29" == ['2'] + "9" && "9" == ['9'] + [];
    TypeAtEndCons([], '2', "9");
    TypeAtEndCons("2", '9', []);
    HourColonBeforeDigit();
  }

  /** `9` typed after `2`: the clamped `23:` lands after the `2`. */
  lemma HourClampAfterDigit()
    ensures AppliedAsWritten("2", 1, "9") == "223:" && Applied("2", 1, "9") == "23:"
  {
    assert Typed("2", 1, "9") == "29";
    TwoDigitValue("29");
    assert HourStep("29", "9") == Insert("23:", "23:");
  }

  /** A digit typed in front of the first hour digit: the colon lands between the two. */
  lemma HourColonBeforeDigit()
    ensures AppliedAsWritten("2", 0, "1") == "1:2" && Applied("2", 0, "1") == "12:"
  {
    assert Typed("2", 0, "1") == "12";
    TwoDigitValue("12");
    assert HourStep("12", "1") == Insert("12:", "1:");
  }

  /**
   * Minutes above 59 are meant to become 59, but the widget inserts only the
   * tail of the clamped text from the cursor on: typing `1`, `2`, `7`, `5`
   * shows `12:79`, and a digit typed before the last one can push the field
   * to six characters.
   */
  lemma MinuteClampAsWritten()
    ensures AppliedAsWritten("12:7", 4, "5") == "12:79" && Applied("12:7", 4, "5") == "12:59"
    ensures AppliedAsWritten("12:7", 3, "9") == "12:597"
    ensures ParseTime("12:79").None? && ParseTime("12:59").Some?
  {
    MinuteClampLast();
    MinuteClampInner();
    ParseTimeStrict("12:79");
    ParseTimeStrict("12:59");
  }

  /** The last digit of `12:75` typed at the end. */
  lemma MinuteClampLast()
    ensures AppliedAsWritten("12:7", 4, "5") == "12:79" && Applied("12:7", 4, "5") == "12:59"
  {
    var typed := Typed("12:7", 4, "5");
    assert typed == "12" + [':'] + "75";
    DigitsHaveNoColon("12");
    DigitsHaveNoColon("75");
    SplitColonOf("12", "75");
    TwoDigitValue("75");
    assert MinuteStep(typed, "5", 4) == Insert("12:59", "9");
  }

  /** A digit typed before the last minute digit of `12:7`. */
  lemma MinuteClampInner()
    ensures AppliedAsWritten("12:7", 3, "9") == "12:597"
  {
    var typed := Typed("12:7", 3, "9");
    assert typed == "12" + [':'] + "97";
    DigitsHaveNoColon("12");
    DigitsHaveNoColon("97");
    SplitColonOf("12", "97");
    TwoDigitValue("97");
    assert MinuteStep(typed, "9", 3) == Insert("12:59", "59");
  }

  /** The first three of the keys `1`, `2`, `7`, `5` give `1`, `12:` and `12:7` under either reading. */
  lemma TypingPrefix()
    ensures Applied([], 0, "1") == "1" && AppliedAsWritten([], 0, "1") == "1"
    ensures Applied("1", 1, "2") == "12:" && AppliedAsWritten("1", 1, "2") == "12:"
    ensures Applied("12:", 3, "7") == "12:7" && AppliedAsWritten("12:", 3, "7") == "12:7"
  {
    assert Typed([], 0, "1") == "1";
    TwoDigitValue("12");
    assert Typed("1", 1, "2") == "12";
    assert HourStep("12", "2") == Insert("12:", "2:");
    assert Typed("12:", 3, "7") == "12:7";
  }

  /** The keys `1`, `2`, `7`, `5` one after another. */
  lemma KeysOf1275()
    ensures "1275" == ['1'] + "275" && "275" == ['2'] + "75" && "75" == ['7'] + "5" && "5" == ['5'] + []
  {
  }

  /** Typing `1`, `2`, `7`, `5` into an empty field gives `12:59` under the corrected rule. */
  lemma TypingCorrected()
    ensures TypeAtEnd([], "1275") == "12:59"
  {
    TypingPrefix();
    MinuteClampLast();
    KeysOf1275();
    TypeAtEndCons([], '1', "275");
    TypeAtEndCons("1", '2', "75");
    TypeAtEndCons("12:", '7', "5");
    TypeAtEndCons("12:7", '5', []);
  }

  /** Typing `1`, `2`, `7`, `5` into an empty field shows `12:79` in the widget. */
  lemma TypingAsWritten()
    ensures TypeAtEndAsWritten([], "1275") == "12:79"
  {
    TypingPrefix();
    MinuteClampLast();
    KeysOf1275();
    TypeAtEndCons([], '1', "275");
    TypeAtEndCons("1", '2', "75");
    TypeAtEndCons("12:", '7', "5");
    TypeAtEndCons("12:7", '5', []);
  }

  // ----- what on_text records -----

  /** The values `on_text` stores in `last_value`: digits, one colon, digits, hour <= 23, minute <= 59. */
  predicate Recordable(value: string)
    ensures Recordable(value) ==>
      && IsFieldText(value) && ColonCount(value) == 1 && 3 <= |value|
      && value[0] != ':' && value[|value| - 1] != ':'
  {
    RecordableShape(value);
    SplitColon(value).Some? &&
    var (hours, minutes) := SplitColon(value).value;
    IsDigitString(hours) && IsDigitString(minutes) && ValueOf(hours) <= 23 && ValueOf(minutes) <= 59
  }

  /** Two non-empty digit strings around one colon: field text with the colon inside. */
  lemma RecordableShape(value: string)
    ensures SplitColon(value).Some? && IsDigitString(SplitColon(value).value.0) && IsDigitString(SplitColon(value).value.1) ==>
      && IsFieldText(value) && 3 <= |value| && value[0] != ':' && value[|value| - 1] != ':'
  {
    if SplitColon(value).Some? {
      var (hours, minutes) := SplitColon(value).value;
      if IsDigitString(hours) && IsDigitString(minutes) {
        assert value == hours + ":" + minutes;
        assert value[0] == hours[0] && value[|value| - 1] == minutes[|minutes| - 1];
        forall i | 0 <= i < |value| ensures IsDigit(value[i]) || value[i] == ':' {
          if i < |hours| { assert value[i] == hours[i]; }
          else if i > |hours| { assert value[i] == minutes[i - |hours| - 1]; }
        }
      }
    }
  }

  /** Every time the parser accepts is recorded. */
  lemma RecordableTimes(s: string)
    requires ParseTime(s).Some?
    ensures Recordable(s)
  {
    var i := if s[1] == ':' then 1 else 2;
    var hours, minutes := s[..i], s[i + 1..];
    assert s == hours + [':'] + minutes;
    DigitsHaveNoColon(hours);
    DigitsHaveNoColon(minutes);
    SplitColonOf(hours, minutes);
  }

  /** Looser forms such as `7:5` are recorded too; an hour of 24, a minute of 60 or a second colon are not. */
  lemma RecordableExamples()
    ensures Recordable("7:5") && !Recordable("24:00") && !Recordable("12:60") && !Recordable("1:2:3")
  {
    RecordableLoose();
    RecordableHourBound();
    RecordableMinuteBound();
    assert ColonCount("1:2:3") == 2;
  }

  lemma RecordableLoose()
    ensures Recordable("7:5")
  {
    assert "7:5" == "7" + [':'] + "5";
    SplitColonOf("7", "5");
  }

  lemma RecordableHourBound()
    ensures !Recordable("24:00")
  {
    assert "24:00" == "24" + [':'] + "00";
    SplitColonOf("24", "00");
    TwoDigitValue("24");
  }

  lemma RecordableMinuteBound()
    ensures !Recordable("12:60")
  {
    assert "12:60" == "12" + [':'] + "60";
    SplitColonOf("12", "60");
    TwoDigitValue("60");
  }

  /**
   * A zero typed in front of `00:5` gives `000:5`, which `on_text` records
   * but `strptime` rejects.
   */
  lemma RecordedNotParsed()
    ensures Applied("00:5", 0, "0") == "000:5"
    ensures Recordable("000:5") && ParseTime("000:5").None?
  {
    var typed := Typed("00:5", 0, "0");
    assert typed == "000" + [':'] + "5";
    DigitsHaveNoColon("000");
    DigitsHaveNoColon("5");
    SplitColonOf("000", "5");
    assert MinuteStep(typed, "0", 0) == Insert(typed, "0");
  }

  // ----- the widget -----

  /** A `TimeInput`: its text, the cursor column and the last well-formed time it held. */
  class TimeInput {
    var text: string
    var cursor: nat
    var lastValue: string

    ghost predicate Valid()
      reads this
    {
      cursor <= |text| <= 5 && IsFieldText(text) && (lastValue == [] || Recordable(lastValue))
    }

    constructor ()
      ensures Valid() && text == [] && cursor == 0 && lastValue == []
    {
      text, cursor, lastValue := [], 0, [];
    }

    /** `on_text`: keep `value` as the last value if it is a well-formed time. */
    method OnText(value: string)
      requires Valid()
      modifies this`lastValue
      ensures Valid()
      ensures lastValue == if Recordable(value) then value else old(lastValue)
    {
      if value != [] && ':' in value {
        match SplitColon(value) {
          case None =>
          case Some((hours, minutes)) =>
            if IsDigitString(hours) && IsDigitString(minutes) && ValueOf(hours) <= 23 && ValueOf(minutes) <= 59 {
              lastValue := value;
            }
        }
      }
    }

    /** `insert_text` followed by the `on_text` that a change of text fires. */
    method InsertText(sub: string) returns (raised: bool)
      requires Valid()
      modifies this
      ensures Valid()
      ensures raised <==> Decide(old(text), old(cursor), sub).Raised?
      ensures text == Applied(old(text), old(cursor), sub)
      ensures cursor == CursorAfter(old(text), old(cursor), sub)
      ensures lastValue == if text != old(text) && Recordable(text) then text else old(lastValue)
    {
      var edit := Decide(text, cursor, sub);
      raised := edit.Raised?;
      var before, at := text, cursor;
      if edit.Insert? {
        text := edit.wanted;
        cursor := CursorAfter(before, at, sub);
        if text != before {
          OnText(text);
        }
      }
    }

    /** The user moves the cursor within the text. */
    method MoveCursor(position: nat)
      requires Valid() && position <= |text|
      modifies this`cursor
      ensures Valid() && cursor == position
    {
      cursor := position;
    }

    /** `field.text = ''` from `clear_fields`; the `on_text` it fires records nothing. */
    method Clear()
      requires Valid()
      modifies this
      ensures Valid() && text == [] && cursor == 0 && lastValue == old(lastValue)
    {
      text, cursor := [], 0;
      OnText(text);
    }
  }
}
