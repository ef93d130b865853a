/** The derivations behind the password box: `convertNumTwo` pads or cuts
    a day or month to two characters, `formValidDate` lays out the date as
    year, month, day, and `genPass` reads the date's characters at the
    positions the code's digits name, counted from 1. */
module Derivations {
  import opened Js
  import opened Results
  import opened Validators

  /** A value `convertNumTwo` can take: falsy, or a string. A truthy value
      of another kind has no `substring` and would throw. */
  predicate IsTextOrFalsy(v: Value) {
    !Truthy(v) || v.Str?
  }

  /** `convertNumTwo(s)` */
  function ConvertNumTwo(v: Value): (r: string)
    requires IsTextOrFalsy(v)
    ensures |r| <= 2
    ensures r == "" <==> !Truthy(v)
    ensures v.Str? && |v.s| >= 2 ==> r == v.s[..2]
    ensures v.Str? && |v.s| == 1 && v.s != "0" ==> r == "0" + v.s
    ensures v == Str("0") ==> r == "0"
  {
    if !Truthy(v) then ""
    else
      var splitted := if |v.s| >= 2 then v.s[..2] else v.s;
      if splitted == "00" then "00"
      else if |splitted| < 2 && splitted != "0" then "0" + splitted
      else splitted
  }

  /** `formValidDate(dateObj)`: `${year}` followed by the converted month
      and day. */
  function FormValidDate(date: Value): (r: string)
    requires IsTextOrFalsy(Get(date, "month")) && IsTextOrFalsy(Get(date, "day"))
    ensures var y := TemplateString(Get(date, "year"));
      |y| <= |r| <= |y| + 4 && r[..|y|] == y
  {
    TemplateString(Get(date, "year")) + ConvertNumTwo(Get(date, "month")) + ConvertNumTwo(Get(date, "day"))
  }

  /** `date[Number(c) - 1]` joined: `Number` of a one-character string is
      its digit for '0'..'9' (0 for white space, `NaN` otherwise), and an
      index outside the string reads `undefined`, which `join` renders as
      the empty string. */
  function PickChar(date: string, c: char): (r: string)
    ensures r != [] <==> '1' <= c <= '9' && CharDigit(c) <= |date|
    ensures r != [] ==> r == [date[CharDigit(c) - 1]]
  {
    if '1' <= c <= '9' && CharDigit(c) <= |date| then [date[CharDigit(c) - 1]] else []
  }

  /** The characters `Array.from(code ?? [])` yields. A missing code gives
      none; so does any non-string value, which has no `length`. */
  function CodeChars(code: Value): string {
    if code.Str? then code.s else []
  }

  function PickAll(date: string, cs: string): (r: string)
    ensures |r| <= |cs|
    ensures forall i :: 0 <= i < |r| ==> r[i] in date
    decreases |cs|
  {
    if |cs| == 0 then []
    else PickChar(date, cs[0]) + PickAll(date, cs[1..])
  }

  /** `genPass(date, code)` */
  function GenPass(date: string, code: Value): (r: string)
    ensures |r| <= |CodeChars(code)|
    ensures forall i :: 0 <= i < |r| ==> r[i] in date
    ensures !code.Str? ==> r == ""
  {
    PickAll(date, CodeChars(code))
  }

  // ---------------------------------------------------------------------
  // Lemmas

  /** Converting twice is converting once. */
  lemma ConvertNumTwoIdempotent(v: Value)
    requires IsTextOrFalsy(v)
    ensures ConvertNumTwo(Str(ConvertNumTwo(v))) == ConvertNumTwo(v)
  {
  }

  /** On one or two decimal digits the conversion keeps the number. */
  lemma ConvertNumTwoKeepsValue(s: string)
    requires 1 <= |s| <= 2 && IsDigits(s)
    ensures IsDigits(ConvertNumTwo(Str(s)))
    ensures DigitsValue(ConvertNumTwo(Str(s)), 10) == DigitsValue(s, 10)
  {
    var r := ConvertNumTwo(Str(s));
    if |s| == 1 {
      if s != "0" {
        assert r == ['0', s[0]];
        assert r[..1] == ['0'];
        assert s[..0] == [];
      }
    } else {
      assert s[..2] == s;
    }
  }

  /** "0" passes `notEmptyStr` and then fails `isNumber`, whatever follows:
      `parseInt("0")` is the falsy 0. */
  lemma ZeroFailsIsNumber(rest: seq<string -> Result>)
    ensures FirstFailure("0", [NotEmptyStr] + ([IsNumber] + rest)) == Err(NotNumberMessage)
  {
    IsNumberRejectsZero();
    FirstFailureCons("0", NotEmptyStr, [IsNumber] + rest);
    FirstFailureCons("0", IsNumber, rest);
  }

  /** A day accepted by `validateDay`, other than the pass-through "", has
      a two-character conversion. */
  lemma ValidDayIsTwoWide(s: string, toNumber: string -> JsNumber)
    requires s != "" && ValidateDay(s, toNumber) == Ok(s)
    ensures |ConvertNumTwo(Str(s))| == 2
  {
    if s == "0" {
      var rest := DaySteps(toNumber)[2..];
      assert DaySteps(toNumber) == [NotEmptyStr] + ([IsNumber] + rest);
      ZeroFailsIsNumber(rest);
      assert false;
    }
  }

  /** A month accepted by `validateMonth` likewise. */
  lemma ValidMonthIsTwoWide(s: string, toNumber: string -> JsNumber)
    requires s != "" && ValidateMonth(s, toNumber) == Ok(s)
    ensures |ConvertNumTwo(Str(s))| == 2
  {
    if s == "0" {
      var rest := MonthSteps(toNumber)[2..];
      assert MonthSteps(toNumber) == [NotEmptyStr] + ([IsNumber] + rest);
      ZeroFailsIsNumber(rest);
      assert false;
    }
  }

  /** With a two-wide month and day the date is the year followed by
      exactly four characters: month first, then day. */
  lemma FormValidDateLayout(date: Value, month: string, day: string)
    requires Get(date, "month") == Str(month) && Get(date, "day") == Str(day)
    requires |month| >= 2 && |day| >= 2
    ensures var y := TemplateString(Get(date, "year"));
      FormValidDate(date) == y + month[..2] + day[..2]
  {
  }

  lemma FormValidDateExample(date: Value)
    requires Get(date, "year") == Str("1990") && Get(date, "month") == Str("5") && Get(date, "day") == Str("3")
    ensures FormValidDate(date) == "19900503"
  {
    assert ConvertNumTwo(Str("5")) == "05";
    assert ConvertNumTwo(Str("3")) == "03";
  }

  /** `genPass` over a concatenated code is the concatenation. */
  lemma {:induction false} PickAllAppend(date: string, a: string, b: string)
    ensures PickAll(date, a + b) == PickAll(date, a) + PickAll(date, b)
    decreases |a|
  {
    if |a| == 0 {
      assert a + b == b;
    } else {
      assert (a + b)[0] == a[0] && (a + b)[1..] == a[1..] + b;
      PickAllAppend(date, a[1..], b);
    }
  }

  /** A code over '1'..'9' whose digits all fall inside the date picks one
      character per digit: the date's character at that digit's position. */
  lemma {:induction false} PickAllInRange(date: string, cs: string)
    requires forall i :: 0 <= i < |cs| ==> '1' <= cs[i] <= '9' && CharDigit(cs[i]) <= |date|
    ensures |PickAll(date, cs)| == |cs|
    ensures forall i :: 0 <= i < |cs| ==> PickAll(date, cs)[i] == date[CharDigit(cs[i]) - 1]
    decreases |cs|
  {
    if |cs| > 0 {
      PickAllInRange(date, cs[1..]);
      var r := PickAll(date, cs);
      assert r == [date[CharDigit(cs[0]) - 1]] + PickAll(date, cs[1..]);
      forall i | 0 <= i < |cs|
        ensures r[i] == date[CharDigit(cs[i]) - 1]
      {
        if i > 0 {
          assert cs[1..][i - 1] == cs[i];
        }
      }
    }
  }

  /** Characters outside '1'..'9', or pointing past the date, contribute
      nothing. */
  lemma {:induction false} PickAllOutOfRange(date: string, cs: string)
    requires forall i :: 0 <= i < |cs| ==> !('1' <= cs[i] <= '9' && CharDigit(cs[i]) <= |date|)
    ensures PickAll(date, cs) == ""
    decreases |cs|
  {
    if |cs| > 0 {
      PickAllOutOfRange(date, cs[1..]);
    }
  }

  /** A validated code over an eight-character date gives a four-character
      password. */
  lemma GenPassOfCode(date: string, code: string)
    requires |date| >= 8
    requires |code| == 4 && AllCodeDigits(code)
    ensures |GenPass(date, Str(code))| == 4
    ensures forall i :: 0 <= i < 4 ==> GenPass(date, Str(code))[i] == date[CharDigit(code[i]) - 1]
  {
    PickAllInRange(date, code);
  }

  lemma GenPassExamples()
    ensures GenPass("19900503", Str("231")) == "991"
    ensures GenPass("19900503", Str("2314")) == "9910"
    ensures GenPass("19900503", Null) == ""
    ensures GenPass("19900503", Str("90")) == ""
  {
    assert "231"[1..] == "31" && "31"[1..] == "1" && "1"[1..] == "";
    assert "2314"[1..] == "314" && "314"[1..] == "14" && "14"[1..] == "4" && "4"[1..] == "";
    assert "90"[1..] == "0" && "0"[1..] == "";
  }
}
