/** The validator set of the page script and the four chains built from it.
    Every validator hands its input back as `ok` or fails with a fixed
    Polish message. The comparisons `v >= n`, `v <= n` and `v > 0` coerce the
    string `v` to a number; that coercion is the parameter `toNumber`, and
    the theorems below hold for every coercion that is exact on integer
    literals (`CoercesIntegers`). */
module Validators {
  import opened Js
  import opened Results

  const NotNumberMessage := "liczby sa oczekiwane"
  const NotPositiveMessage := "musi byc dodatnia"
  const EmptyMessage := "nie moze byc puste"

  function AboveMessage(n: int): string {
    "liczba musi byc powyzej " + IntToString(n)
  }

  function BelowMessage(n: int): string {
    "liczba musi byc ponizej " + IntToString(n)
  }

  function ContainsMessage(s: string): string {
    "nie moze zawierac: " + s
  }

  /** `isNumber`: `parseInt` must give a truthy number, so "0" fails. */
  function IsNumber(v: string): (r: Result)
    ensures r == Ok(v) || r == Err(NotNumberMessage)
    ensures r.Ok? <==> NumberTruthy(ParseInt(v))
  {
    if NumberTruthy(ParseInt(v)) then Ok(v) else Err(NotNumberMessage)
  }

  /** `isGreater(n)`: `v >= n`. */
  function IsGreater(n: int, toNumber: string -> JsNumber): (step: string -> Result)
    ensures forall v :: step(v) == Ok(v) || step(v) == Err(AboveMessage(n))
    ensures forall v :: step(v).Ok? <==> AtLeast(toNumber(v), n)
  {
    v => if AtLeast(toNumber(v), n) then Ok(v) else Err(AboveMessage(n))
  }

  /** `isLess(n)`: `v <= n`. */
  function IsLess(n: int, toNumber: string -> JsNumber): (step: string -> Result)
    ensures forall v :: step(v) == Ok(v) || step(v) == Err(BelowMessage(n))
    ensures forall v :: step(v).Ok? <==> AtMost(toNumber(v), n)
  {
    v => if AtMost(toNumber(v), n) then Ok(v) else Err(BelowMessage(n))
  }

  /** `isPositive`: `v > 0`. */
  function IsPositive(toNumber: string -> JsNumber): (step: string -> Result)
    ensures forall v :: step(v) == Ok(v) || step(v) == Err(NotPositiveMessage)
    ensures forall v :: step(v).Ok? <==> Above(toNumber(v), 0)
  {
    v => if Above(toNumber(v), 0) then Ok(v) else Err(NotPositiveMessage)
  }

  /** `notEmptyStr` */
  function NotEmptyStr(s: string): (r: Result)
    ensures r == Ok(s) || r == Err(EmptyMessage)
    ensures r.Ok? <==> |s| > 0
  {
    if s != "" then Ok(s) else Err(EmptyMessage)
  }

  /** `notContains(s)`: `!v.includes(s)`. */
  function NotContains(s: string): (step: string -> Result)
    ensures forall v :: step(v) == Ok(v) || step(v) == Err(ContainsMessage(s))
    ensures forall v :: step(v).Ok? <==> !Includes(v, s)
  {
    v => if !Includes(v, s) then Ok(v) else Err(ContainsMessage(s))
  }

  // The chains are written as nested concatenations, one step at a time.

  function DaySteps(toNumber: string -> JsNumber): seq<string -> Result> {
    [NotEmptyStr] + ([IsNumber] + ([IsPositive(toNumber)] + [IsLess(31, toNumber)]))
  }

  function MonthSteps(toNumber: string -> JsNumber): seq<string -> Result> {
    [NotEmptyStr] + ([IsNumber] + ([IsGreater(0, toNumber)] + [IsLess(12, toNumber)]))
  }

  function YearSteps(toNumber: string -> JsNumber): seq<string -> Result> {
    [NotEmptyStr] + ([IsNumber] + [IsGreater(1950, toNumber)])
  }

  function CodeTail(toNumber: string -> JsNumber): seq<string -> Result> {
    [NotEmptyStr] + ([IsNumber] + ([IsGreater(1000, toNumber)] + [IsLess(9999, toNumber)]))
  }

  function CodeSteps(toNumber: string -> JsNumber): seq<string -> Result> {
    [NotContains("9")] + ([NotContains("0")] + CodeTail(toNumber))
  }

  /** Every step of the four chains hands its input back or fails. */
  lemma StepsKeepOrFail(v: string, toNumber: string -> JsNumber)
    ensures AllKeepOrFail(DaySteps(toNumber), v)
    ensures AllKeepOrFail(MonthSteps(toNumber), v)
    ensures AllKeepOrFail(YearSteps(toNumber), v)
    ensures AllKeepOrFail(CodeSteps(toNumber), v)
  {
    LastTwoKeepOrFail(IsPositive(toNumber), IsLess(31, toNumber), v);
    LastTwoKeepOrFail(IsGreater(0, toNumber), IsLess(12, toNumber), v);
    LastTwoKeepOrFail(IsGreater(1000, toNumber), IsLess(9999, toNumber), v);
    AllKeepOrFailCons(IsGreater(1950, toNumber), [], v);
    AllKeepOrFailCons(IsNumber, [IsGreater(1950, toNumber)], v);
    AllKeepOrFailCons(NotEmptyStr, [IsNumber] + [IsGreater(1950, toNumber)], v);
    FrontTwoKeepOrFail([IsPositive(toNumber)] + [IsLess(31, toNumber)], v);
    FrontTwoKeepOrFail([IsGreater(0, toNumber)] + [IsLess(12, toNumber)], v);
    FrontTwoKeepOrFail([IsGreater(1000, toNumber)] + [IsLess(9999, toNumber)], v);
    AllKeepOrFailCons(NotContains("0"), CodeTail(toNumber), v);
    AllKeepOrFailCons(NotContains("9"), [NotContains("0")] + CodeTail(toNumber), v);
  }

  lemma LastTwoKeepOrFail(f: string -> Result, g: string -> Result, v: string)
    requires KeepsOrFails(f, v) && KeepsOrFails(g, v)
    ensures AllKeepOrFail([f] + [g], v)
  {
    AllKeepOrFailCons(g, [], v);
    AllKeepOrFailCons(f, [g], v);
  }

  lemma FrontTwoKeepOrFail(rest: seq<string -> Result>, v: string)
    requires AllKeepOrFail(rest, v)
    ensures AllKeepOrFail([NotEmptyStr] + ([IsNumber] + rest), v)
  {
    AllKeepOrFailCons(IsNumber, rest, v);
    AllKeepOrFailCons(NotEmptyStr, [IsNumber] + rest, v);
  }

  /** A chain applied to `ok(val)`: the empty string comes back as `ok("")`
      without any step running; on any other input, steps that keep or fail
      give the first failing step's error, or the input back. */
  function Validate(val: string, fns: seq<string -> Result>): (r: Result)
    ensures val == "" ==> r == Ok("")
    ensures val != "" && AllKeepOrFail(fns, val) ==> r == FirstFailure(val, fns)
  {
    if val != "" && AllKeepOrFail(fns, val) then
      BindChainIsFirstFailure(val, fns);
      BindChain(Ok(val), fns)
    else
      BindChain(Ok(val), fns)
  }

  /** `validateDay` */
  function ValidateDay(val: string, toNumber: string -> JsNumber): (r: Result)
    ensures val == "" ==> r == Ok("")
    ensures val != "" ==> r == FirstFailure(val, DaySteps(toNumber))
    ensures r == Ok(val) || r.Err?
  {
    StepsKeepOrFail(val, toNumber);
    Validate(val, DaySteps(toNumber))
  }

  /** `validateMonth` */
  function ValidateMonth(val: string, toNumber: string -> JsNumber): (r: Result)
    ensures val == "" ==> r == Ok("")
    ensures val != "" ==> r == FirstFailure(val, MonthSteps(toNumber))
    ensures r == Ok(val) || r.Err?
  {
    StepsKeepOrFail(val, toNumber);
    Validate(val, MonthSteps(toNumber))
  }

  /** `validateYear` */
  function ValidateYear(val: string, toNumber: string -> JsNumber): (r: Result)
    ensures val == "" ==> r == Ok("")
    ensures val != "" ==> r == FirstFailure(val, YearSteps(toNumber))
    ensures r == Ok(val) || r.Err?
  {
    StepsKeepOrFail(val, toNumber);
    Validate(val, YearSteps(toNumber))
  }

  /** `validateCode` */
  function ValidateCode(val: string, toNumber: string -> JsNumber): (r: Result)
    ensures val == "" ==> r == Ok("")
    ensures val != "" ==> r == FirstFailure(val, CodeSteps(toNumber))
    ensures r == Ok(val) || r.Err?
  {
    StepsKeepOrFail(val, toNumber);
    Validate(val, CodeSteps(toNumber))
  }

  // ---------------------------------------------------------------------
  // Lemmas

  /** The messages with their numbers rendered as the templates render them. */
  lemma RenderedMessages()
    ensures AboveMessage(0) == "liczba musi byc powyzej 0"
    ensures AboveMessage(1000) == "liczba musi byc powyzej 1000"
    ensures AboveMessage(1950) == "liczba musi byc powyzej 1950"
    ensures BelowMessage(12) == "liczba musi byc ponizej 12"
    ensures BelowMessage(31) == "liczba musi byc ponizej 31"
    ensures BelowMessage(9999) == "liczba musi byc ponizej 9999"
    ensures ContainsMessage("9") == "nie moze zawierac: 9"
    ensures ContainsMessage("0") == "nie moze zawierac: 0"
  {
    LowerBoundMessages();
    UpperBoundMessages();
  }

  lemma LowerBoundMessages()
    ensures AboveMessage(0) == "liczba musi byc powyzej 0"
    ensures AboveMessage(1000) == "liczba musi byc powyzej 1000"
    ensures AboveMessage(1950) == "liczba musi byc powyzej 1950"
  {
  }

  lemma UpperBoundMessages()
    ensures BelowMessage(12) == "liczba musi byc ponizej 12"
    ensures BelowMessage(31) == "liczba musi byc ponizej 31"
    ensures BelowMessage(9999) == "liczba musi byc ponizej 9999"
  {
  }

  /** Because `ok("")` is no success, the empty string passes every chain
      as `ok("")`; `notEmptyStr` is never reached. */
  lemma EmptyInputPassesThrough(toNumber: string -> JsNumber)
    ensures ValidateDay("", toNumber) == Ok("")
    ensures ValidateMonth("", toNumber) == Ok("")
    ensures ValidateYear("", toNumber) == Ok("")
    ensures ValidateCode("", toNumber) == Ok("")
    ensures !IsOk(ValidateDay("", toNumber))
  {
  }

  /** `isNumber` rejects "0" and every string without an ASCII digit. */
  lemma IsNumberRejectsZero()
    ensures IsNumber("0") == Err(NotNumberMessage)
  {
    ParseIntIntegerLiteralAlone("0");
  }

  lemma IsNumberRejectsNoDigit(s: string)
    requires NoDigit(s)
    ensures IsNumber(s) == Err(NotNumberMessage)
  {
    ParseIntWithoutDigits(s);
  }

  /** On an integer literal `isNumber` passes exactly when its value is not
      zero, and the coercing steps compare that value. */
  lemma IntegerLiteralSteps(s: string, toNumber: string -> JsNumber, n: int)
    requires CoercesIntegers(toNumber)
    requires IsIntegerLiteral(s)
    ensures s != ""
    ensures NotEmptyStr(s) == Ok(s)
    ensures IsNumber(s) == (if IntegerLiteralValue(s) != 0 then Ok(s) else Err(NotNumberMessage))
    ensures IsGreater(n, toNumber)(s) == (if IntegerLiteralValue(s) >= n then Ok(s) else Err(AboveMessage(n)))
    ensures IsLess(n, toNumber)(s) == (if IntegerLiteralValue(s) <= n then Ok(s) else Err(BelowMessage(n)))
    ensures IsPositive(toNumber)(s) == (if IntegerLiteralValue(s) > 0 then Ok(s) else Err(NotPositiveMessage))
  {
    ParseIntIntegerLiteralAlone(s);
    assert toNumber(s) == Finite(IntegerLiteralValue(s) as real);
  }

  /** `validateDay` on an optional sign followed by ASCII digits with value d:
      accepted iff 1 <= d <= 31, otherwise the first failing step's message. */
  lemma DayOnIntegerLiterals(s: string, toNumber: string -> JsNumber)
    requires CoercesIntegers(toNumber)
    requires IsIntegerLiteral(s)
    ensures ValidateDay(s, toNumber) == Ok(s) <==> 1 <= IntegerLiteralValue(s) <= 31
    ensures IntegerLiteralValue(s) == 0 ==> ValidateDay(s, toNumber) == Err("liczby sa oczekiwane")
    ensures IntegerLiteralValue(s) < 0 ==> ValidateDay(s, toNumber) == Err("musi byc dodatnia")
    ensures IntegerLiteralValue(s) > 31 ==> ValidateDay(s, toNumber) == Err("liczba musi byc ponizej 31")
  {
    var d := IntegerLiteralValue(s);
    var f2 := IsPositive(toNumber);
    var f3 := IsLess(31, toNumber);
    var r := FirstFailure(s, [NotEmptyStr] + ([IsNumber] + ([f2] + [f3])));
    assert r == if d == 0 then Err(NotNumberMessage) else if d < 0 then Err(NotPositiveMessage)
                else if d > 31 then Err(BelowMessage(31)) else Ok(s) by {
      IntegerLiteralSteps(s, toNumber, 31);
      FirstFailureCons(s, NotEmptyStr, [IsNumber] + ([f2] + [f3]));
      FirstFailureCons(s, IsNumber, [f2] + [f3]);
      FirstFailureCons(s, f2, [f3]);
      FirstFailureCons(s, f3, []);
    }
    assert ValidateDay(s, toNumber) == r by { IntegerLiteralSteps(s, toNumber, 31); }
    RenderedMessages();
  }

  /** `validateMonth` on an integer literal with value d: accepted iff
      1 <= d <= 12. `isGreater(0)` is what rejects a negative literal such
      as "-1", whose `parseInt` is truthy. */
  lemma MonthOnIntegerLiterals(s: string, toNumber: string -> JsNumber)
    requires CoercesIntegers(toNumber)
    requires IsIntegerLiteral(s)
    ensures ValidateMonth(s, toNumber) == Ok(s) <==> 1 <= IntegerLiteralValue(s) <= 12
    ensures IntegerLiteralValue(s) == 0 ==> ValidateMonth(s, toNumber) == Err("liczby sa oczekiwane")
    ensures IntegerLiteralValue(s) < 0 ==> ValidateMonth(s, toNumber) == Err("liczba musi byc powyzej 0")
    ensures IntegerLiteralValue(s) > 12 ==> ValidateMonth(s, toNumber) == Err("liczba musi byc ponizej 12")
  {
    var d := IntegerLiteralValue(s);
    var f2 := IsGreater(0, toNumber);
    var f3 := IsLess(12, toNumber);
    var r := FirstFailure(s, [NotEmptyStr] + ([IsNumber] + ([f2] + [f3])));
    assert r == if d == 0 then Err(NotNumberMessage) else if d < 0 then Err(AboveMessage(0))
                else if d > 12 then Err(BelowMessage(12)) else Ok(s) by {
      IntegerLiteralSteps(s, toNumber, 0);
      IntegerLiteralSteps(s, toNumber, 12);
      FirstFailureCons(s, NotEmptyStr, [IsNumber] + ([f2] + [f3]));
      FirstFailureCons(s, IsNumber, [f2] + [f3]);
      FirstFailureCons(s, f2, [f3]);
      FirstFailureCons(s, f3, []);
    }
    assert ValidateMonth(s, toNumber) == r by { IntegerLiteralSteps(s, toNumber, 0); }
    RenderedMessages();
  }

  /** `validateYear` on an integer literal with value d: accepted iff
      d >= 1950. */
  lemma YearOnIntegerLiterals(s: string, toNumber: string -> JsNumber)
    requires CoercesIntegers(toNumber)
    requires IsIntegerLiteral(s)
    ensures ValidateYear(s, toNumber) == Ok(s) <==> IntegerLiteralValue(s) >= 1950
    ensures IntegerLiteralValue(s) == 0 ==> ValidateYear(s, toNumber) == Err("liczby sa oczekiwane")
    ensures IntegerLiteralValue(s) != 0 && IntegerLiteralValue(s) < 1950 ==>
              ValidateYear(s, toNumber) == Err("liczba musi byc powyzej 1950")
  {
    var d := IntegerLiteralValue(s);
    var f2 := IsGreater(1950, toNumber);
    var r := FirstFailure(s, [NotEmptyStr] + ([IsNumber] + [f2]));
    assert r == if d == 0 then Err(NotNumberMessage) else if d < 1950 then Err(AboveMessage(1950))
                else Ok(s) by {
      IntegerLiteralSteps(s, toNumber, 1950);
      FirstFailureCons(s, NotEmptyStr, [IsNumber] + [f2]);
      FirstFailureCons(s, IsNumber, [f2]);
      FirstFailureCons(s, f2, []);
    }
    assert ValidateYear(s, toNumber) == r by { IntegerLiteralSteps(s, toNumber, 1950); }
    RenderedMessages();
  }

  /** `validateCode` fails on any string containing '9' with the '9'
      message, and on any other string containing '0' with the '0' message. */
  lemma CodeForbiddenDigits(s: string, toNumber: string -> JsNumber)
    ensures '9' in s ==> ValidateCode(s, toNumber) == Err("nie moze zawierac: 9")
    ensures '0' in s && '9' !in s ==> ValidateCode(s, toNumber) == Err("nie moze zawierac: 0")
  {
    var rest := CodeTail(toNumber);
    if '9' in s || '0' in s {
      assert "9" == ['9'] && "0" == ['0'];
      IncludesChar(s, '9');
      IncludesChar(s, '0');
      FirstFailureCons(s, NotContains("9"), [NotContains("0")] + rest);
      FirstFailureCons(s, NotContains("0"), rest);
      RenderedMessages();
    }
  }

  predicate IsCodeDigit(c: char) {
    '1' <= c <= '8'
  }

  predicate AllCodeDigits(s: string) {
    forall i :: 0 <= i < |s| ==> IsCodeDigit(s[i])
  }

  /** On a non-empty ASCII digit string, `validateCode` accepts exactly the
      four-character strings over '1'..'8', and gives the input back. */
  lemma CodeOnDigitStrings(s: string, toNumber: string -> JsNumber)
    requires CoercesIntegers(toNumber)
    requires |s| > 0 && IsDigits(s)
    ensures ValidateCode(s, toNumber) == Ok(s) <==> |s| == 4 && AllCodeDigits(s)
  {
    if AllCodeDigits(s) {
      CodeOverOneToEight(s, toNumber);
    } else {
      var i :| 0 <= i < |s| && !IsCodeDigit(s[i]);
      assert s[i] == '0' || s[i] == '9';
      assert '0' in s || '9' in s;
      CodeForbiddenDigits(s, toNumber);
    }
  }

  /** On a non-empty string over '1'..'8' only the length decides: shorter
      than four characters is below 1000, longer is above 9999. */
  lemma CodeOverOneToEight(s: string, toNumber: string -> JsNumber)
    requires CoercesIntegers(toNumber)
    requires |s| > 0 && AllCodeDigits(s)
    ensures |s| < 4 ==> ValidateCode(s, toNumber) == Err("liczba musi byc powyzej 1000")
    ensures |s| > 4 ==> ValidateCode(s, toNumber) == Err("liczba musi byc ponizej 9999")
    ensures |s| == 4 ==> ValidateCode(s, toNumber) == Ok(s)
  {
    CodeValueBounds(s);
    CodeOnLiteral(s, toNumber);
    RenderedMessages();
  }

  /** A string over '1'..'8' is an integer literal without '0' or '9' whose
      value lies in the decade its length gives. */
  lemma CodeValueBounds(s: string)
    requires |s| > 0 && AllCodeDigits(s)
    ensures IsIntegerLiteral(s) && '9' !in s && '0' !in s
    ensures |s| < 4 ==> 0 < IntegerLiteralValue(s) < 1000
    ensures |s| == 4 ==> 1000 <= IntegerLiteralValue(s) <= 9999
    ensures |s| > 4 ==> IntegerLiteralValue(s) > 9999
  {
    assert IsDigits(s);
    assert IsIntegerLiteral(s) && UnsignedPart(s) == s;
    var d := IntegerLiteralValue(s);
    assert d == DigitsValue(s, 10);
    DigitsValueBounds(s);
    assert Pow10(|s| - 1) <= d < Pow10(|s|);
    assert Pow10(3) == 1000 && Pow10(4) == 10000;
    if |s| < 4 {
      PowMonotone(|s|, 3);
    } else if |s| > 4 {
      PowMonotone(4, |s| - 1);
    }
  }

  /** `validateCode` on an integer literal without '0' or '9': the steps
      after the two digit bans decide by the literal's value. */
  lemma CodeOnLiteral(s: string, toNumber: string -> JsNumber)
    requires CoercesIntegers(toNumber)
    requires IsIntegerLiteral(s) && '9' !in s && '0' !in s
    ensures var d := IntegerLiteralValue(s);
      ValidateCode(s, toNumber) ==
        if d == 0 then Err(NotNumberMessage)
        else if d < 1000 then Err(AboveMessage(1000))
        else if d > 9999 then Err(BelowMessage(9999))
        else Ok(s)
  {
    var f4 := IsGreater(1000, toNumber);
    var f5 := IsLess(9999, toNumber);
    var tail := CodeTail(toNumber);
    assert "9" == ['9'] && "0" == ['0'];
    IncludesChar(s, '9');
    IncludesChar(s, '0');
    IntegerLiteralSteps(s, toNumber, 1000);
    IntegerLiteralSteps(s, toNumber, 9999);
    FirstFailureCons(s, NotContains("9"), [NotContains("0")] + tail);
    FirstFailureCons(s, NotContains("0"), tail);
    FirstFailureCons(s, NotEmptyStr, [IsNumber] + ([f4] + [f5]));
    FirstFailureCons(s, IsNumber, [f4] + [f5]);
    FirstFailureCons(s, f4, [f5]);
    FirstFailureCons(s, f5, []);
  }

  /** "2314" is a valid code; "231" is below 1000. */
  lemma CodeExamples(toNumber: string -> JsNumber)
    requires CoercesIntegers(toNumber)
    ensures ValidateCode("2314", toNumber) == Ok("2314")
    ensures ValidateCode("231", toNumber) == Err("liczba musi byc powyzej 1000")
  {
    CodeExample("2314", toNumber);
    CodeExample("231", toNumber);
  }

  lemma CodeExample(s: string, toNumber: string -> JsNumber)
    requires CoercesIntegers(toNumber)
    requires s == "2314" || s == "231"
    ensures |s| == 4 ==> ValidateCode(s, toNumber) == Ok(s)
    ensures |s| < 4 ==> ValidateCode(s, toNumber) == Err("liczba musi byc powyzej 1000")
  {
    assert AllCodeDigits(s) by {
      forall i | 0 <= i < |s| ensures IsCodeDigit(s[i]) {
        assert s[i] in s;
      }
    }
    CodeOverOneToEight(s, toNumber);
  }

  lemma {:induction false} PowMonotone(a: nat, b: nat)
    requires a <= b
    ensures Pow10(a) <= Pow10(b)
    decreases b - a
  {
    if a < b {
      PowMonotone(a, b - 1);
    }
  }
}
