/**
 * Display formatters: currency with rounding, flooring or a sign, the money input
 * field's regrouping, the Korean reading of an amount, and the sign class.
 * `Group` (js_number.dfy) stands for `toLocaleString('ko-KR')`.
 */
module Formatters {

  import opened Wrappers
  import opened JsNumber

  /** `formatCurrency`: `None` is the source's `null`/`undefined`. */
  function FormatCurrency(value: Option<real>): (r: string)
    ensures value.None? ==> r == "0"
    ensures value.Some? ==> value.value - 0.5 < Unformat(r) as real <= value.value + 0.5
    ensures value.Some? && Round(value.value) >= 0 ==> Grouped(r)
    ensures value.Some? && Round(value.value) < 0 ==> |r| > 1 && r[0] == '-' && Grouped(r[1..])
  {
    match value
    case None => "0"
    case Some(x) => GroupRoundTrip(Round(x)); Group(Round(x))
  }

  /** `formatCurrencyExact`: the whole part, rounded down. */
  function FormatCurrencyExact(value: Option<real>): (r: string)
    ensures value.None? ==> r == "0"
    ensures value.Some? ==> Unformat(r) as real <= value.value < Unformat(r) as real + 1.0
    ensures value.Some? && value.value >= 0.0 ==> Grouped(r)
    ensures value.Some? && value.value < 0.0 ==> |r| > 1 && r[0] == '-' && Grouped(r[1..])
  {
    match value
    case None => "0"
    case Some(x) => GroupRoundTrip(x.Floor); Group(x.Floor)
  }

  function Abs(x: real): real {
    if x < 0.0 then -x else x
  }

  /** `formatCurrencyWithSign`: '+' or '-' by the sign, then the rounded magnitude. */
  function FormatCurrencyWithSign(value: Option<real>): (r: string)
    ensures value.None? ==> r == "0"
    ensures value.Some? ==> |r| > 0
    ensures value.Some? ==> (r[0] == '+' <==> value.value > 0.0)
    ensures value.Some? ==> (r[0] == '-' <==> value.value < 0.0)
    ensures value.Some? && value.value != 0.0 ==> |r| > 1
    ensures value.Some? ==>
      var digits := if value.value != 0.0 then r[1..] else r;
      && IsDigit(digits[0]) && Grouped(digits)
      && Unformat(digits) == Round(Abs(value.value))
  {
    match value
    case None => "0"
    case Some(x) =>
      var magnitude := Round(Abs(x));
      var formatted := Group(magnitude);
      GroupRoundTrip(magnitude);
      if x > 0.0 then
        assert ("+" + formatted)[1..] == formatted;
        "+" + formatted
      else if x < 0.0 then
        assert ("-" + formatted)[1..] == formatted;
        "-" + formatted
      else
        formatted
  }

  /** `getAmountClass` */
  function GetAmountClass(amount: real): (r: string)
    ensures r == "positive" <==> amount > 0.0
    ensures r == "negative" <==> amount < 0.0
    ensures r == "zero" <==> amount == 0.0
  {
    if amount > 0.0 then "positive" else if amount < 0.0 then "negative" else "zero"
  }

  // ---------------------------------------------------------------------------
  // The money input field

  /** `formatMoneyInput`: keep the digits, read them as an integer, group it. */
  function FormatMoneyInput(value: string): (r: string)
    ensures r == "" <==> KeepDigits(value) == ""
    ensures r != "" ==> DigitsAndCommas(r) && IsDigit(r[0]) && Grouped(r)
  {
    var numbersOnly := KeepDigits(value);
    if numbersOnly == "" then "" else Group(Value(numbersOnly))
  }

  /** The field is empty exactly when the input holds no ASCII digit. */
  lemma {:induction false} KeepDigitsEmpty(s: string)
    ensures KeepDigits(s) == "" <==> forall i :: 0 <= i < |s| ==> !IsDigit(s[i])
  {
    if s != [] {
      KeepDigitsEmpty(s[1..]);
      assert forall i :: 1 <= i < |s| ==> s[i] == s[1..][i - 1];
    }
  }

  /**
   * What the simulator page does with the field: removing the commas and parsing
   * gives the value of the input's digits, leading zeros dropped.
   */
  lemma FormatMoneyInputParses(value: string)
    requires KeepDigits(value) != ""
    ensures var r := FormatMoneyInput(value);
      RemoveCommas(r) == Decimal(Value(KeepDigits(value))) && Value(RemoveCommas(r)) == Value(KeepDigits(value))
  {
    var n := Value(KeepDigits(value));
    GroupNatWithoutCommas(n);
    ValueOfDecimal(n);
  }

  /** Formatting an already formatted field changes nothing. */
  lemma FormatMoneyInputIdempotent(value: string)
    ensures FormatMoneyInput(FormatMoneyInput(value)) == FormatMoneyInput(value)
  {
    var r := FormatMoneyInput(value);
    if r != "" {
      var n := Value(KeepDigits(value));
      GroupNatWithoutCommas(n);
      ValueOfDecimal(n);
    }
  }

  // ---------------------------------------------------------------------------
  // The Korean reading of an amount

  const Units: seq<string> := ["", "만", "억", "조"]
  const DigitUnits: seq<string> := ["", "십", "백", "천"]
  const Numerals: seq<string> := ["", "일", "이", "삼", "사", "오", "육", "칠", "팔", "구"]

  function Pow10(i: nat): (p: nat)
    ensures p > 0
  {
    if i == 0 then 1 else 10 * Pow10(i - 1)
  }

  /** `n` followed by `k` all-zero groups of four digits: n times 10000 to the power k. */
  function WithZeroGroups(n: nat, k: nat): nat {
    if k == 0 then n else WithZeroGroups(n, k - 1) * 10000
  }

  /**
   * `units[unitIndex]` as the text it contributes: past '조' the array has no entry,
   * and JavaScript concatenates the missing entry as the text "undefined".
   */
  function UnitText(u: nat): (t: string)
    ensures u < |Units| ==> t == Units[u]
  {
    if u < |Units| then Units[u] else "undefined"
  }

  /** A digit read at position `i` of a four-digit group: zero is silent, one says only the unit above the ones. */
  function DigitText(d: nat, i: nat): string
    requires d < 10 && i < 4
  {
    if d == 0 then "" else if d == 1 && i > 0 then DigitUnits[i] else Numerals[d] + DigitUnits[i]
  }

  /** The reading of the lowest `i` digits of a group, as the inner loop builds it from the ones up. */
  function LowDigitsText(part: nat, i: nat): string
    requires i <= 4
  {
    if i == 0 then "" else DigitText(part / Pow10(i - 1) % 10, i - 1) + LowDigitsText(part, i - 1)
  }

  /** The reading of a group below 10000: all four of its digits, as the inner loop reads them. */
  function GroupText(part: nat): string
    requires part < 10000
  {
    LowDigitsText(part, 4)
  }

  /** The same group read directly from its thousands down to its ones. */
  function GroupTextFromTop(part: nat): string
    requires part < 10000
  {
    DigitText(part / 1000, 3) + (DigitText(part / 100 % 10, 2) + (DigitText(part / 10 % 10, 1) + DigitText(part % 10, 0)))
  }

  /**
   * The reading of `n` whose lowest group carries unit `u`: the non-zero groups,
   * most significant first, each followed by its unit.
   */
  function Korean(n: nat, u: nat): string
    decreases n
  {
    if n == 0 then ""
    else Korean(n / 10000, u + 1) + (if n % 10000 > 0 then GroupText(n % 10000) + UnitText(u) else "")
  }

  /** Reading a group from the ones up, as the loop does, gives its reading from the thousands down. */
  lemma GroupTextByDigits(part: nat)
    requires part < 10000
    ensures GroupText(part) == GroupTextFromTop(part)
  {
    var t0 := DigitText(part % 10, 0);
    var t1 := DigitText(part / 10 % 10, 1);
    var t2 := DigitText(part / 100 % 10, 2);
    var t3 := DigitText(part / 1000, 3);
    assert LowDigitsText(part, 1) == t0 by { assert Pow10(0) == 1; }
    assert LowDigitsText(part, 2) == t1 + t0 by { assert Pow10(1) == 10; }
    assert LowDigitsText(part, 3) == t2 + (t1 + t0) by { assert Pow10(2) == 100; }
    assert LowDigitsText(part, 4) == t3 + (t2 + (t1 + t0)) by {
      assert Pow10(3) == 1000;
      assert part / 1000 % 10 == part / 1000;
    }
  }

  /** The inner loop of `numberToKorean`: one group read digit by digit from the ones up. */
  method ReadGroup(part: nat) returns (partStr: string)
    requires part < 10000
    ensures partStr == GroupText(part)
  {
    partStr := "";
    var partNum := part;
    for i := 0 to 4
      invariant partNum == part / Pow10(i)
      invariant partStr == LowDigitsText(part, i)
    {
      var digit := partNum % 10;
      ghost var lower := partStr;
      if digit > 0 {
        if digit == 1 && i > 0 {
          partStr := DigitUnits[i] + partStr;
        } else {
          partStr := Numerals[digit] + DigitUnits[i] + partStr;
        }
      }
      assert partStr == DigitText(digit, i) + lower;
      partNum := partNum / 10;
      NextDigit(part, i);
    }
  }

  /** `numberToKorean` on a non-negative integer. */
  method NumberToKorean(amount: nat) returns (r: string)
    ensures amount == 0 ==> r == "영원"
    ensures amount > 0 ==> r == Korean(amount, 0) + "원"
  {
    if amount == 0 {
      return "영원";
    }
    var num: nat := amount;
    var result := "";
    var unitIndex: nat := 0;
    while num > 0
      invariant Korean(num, unitIndex) + result == Korean(amount, 0)
      decreases num
    {
      KoreanTurn(num, unitIndex, result, Korean(amount, 0));
      var part := num % 10000;
      if part > 0 {
        var partStr := ReadGroup(part);
        result := partStr + UnitText(unitIndex) + result;
      }
      num := num / 10000;
      unitIndex := unitIndex + 1;
    }
    r := result + "원";
  }

  lemma Regroup(a: string, b: string, c: string)
    ensures a + (b + c) == (a + b) + c
  {
  }

  /** The outer loop's invariant survives one turn: the lowest group moves from the number to the text read so far. */
  lemma KoreanTurn(num: nat, u: nat, result: string, whole: string)
    requires 0 < num && Korean(num, u) + result == whole
    ensures num % 10000 > 0 ==> Korean(num / 10000, u + 1) + (GroupText(num % 10000) + UnitText(u) + result) == whole
    ensures num % 10000 == 0 ==> Korean(num / 10000, u + 1) + result == whole
  {
    var group := if num % 10000 > 0 then GroupText(num % 10000) + UnitText(u) else "";
    Regroup(Korean(num / 10000, u + 1), group, result);
  }

  /** Dropping one more digit of a group: the inner loop's `Math.floor(partNum / 10)`. */
  lemma NextDigit(part: nat, i: nat)
    requires i < 4
    ensures part / Pow10(i) / 10 == part / Pow10(i + 1)
  {
    assert Pow10(0) == 1 && Pow10(1) == 10 && Pow10(2) == 100 && Pow10(3) == 1000 && Pow10(4) == 10000;
  }

  // ---------------------------------------------------------------------------
  // Properties of the Korean reading

  lemma GroupTextFromTopEmptyIffZero(part: nat)
    requires part < 10000
    ensures GroupTextFromTop(part) == "" <==> part == 0
  {
    if part > 0 {
      var d3, d2, d1, d0 := part / 1000, part / 100 % 10, part / 10 % 10, part % 10;
      assert d3 > 0 || d2 > 0 || d1 > 0 || d0 > 0;
      if d3 > 0 { assert |DigitText(d3, 3)| > 0; }
      if d2 > 0 { assert |DigitText(d2, 2)| > 0; }
      if d1 > 0 { assert |DigitText(d1, 1)| > 0; }
      if d0 > 0 { assert |DigitText(d0, 0)| > 0; }
    }
  }

  /** A group reads as nothing exactly when all four of its digits are zero. */
  lemma GroupTextEmptyIffZero(part: nat)
    requires part < 10000
    ensures GroupText(part) == "" <==> part == 0
  {
    GroupTextByDigits(part);
    GroupTextFromTopEmptyIffZero(part);
  }

  /** Only zero reads as nothing, so every positive amount reads as more than '원'. */
  lemma {:induction false} KoreanEmptyIffZero(n: nat, u: nat)
    ensures Korean(n, u) == "" <==> n == 0
  {
    if n > 0 {
      if n % 10000 > 0 {
        GroupTextEmptyIffZero(n % 10000);
      } else {
        KoreanEmptyIffZero(n / 10000, u + 1);
      }
    }
  }

  /** An all-zero group contributes nothing: appending four zeros moves the reading up one unit. */
  lemma ZeroGroupSilent(n: nat, u: nat)
    ensures Korean(n * 10000, u) == Korean(n, u + 1)
  {
    if n > 0 {
      assert (n * 10000) / 10000 == n && (n * 10000) % 10000 == 0;
    }
  }

  /** The reading of a single non-zero group with unit `u` and nothing above it. */
  lemma KoreanOneGroup(n: nat, u: nat)
    requires 0 < n < 10000
    ensures Korean(n, u) == GroupText(n) + UnitText(u)
  {
    assert n / 10000 == 0 && n % 10000 == n;
  }

  /** The readings of the groups the examples below use, digit by digit from the thousands down. */
  lemma GroupTextFromTopSamples()
    ensures GroupTextFromTop(1) == "일" && GroupTextFromTop(5) == "오" && GroupTextFromTop(10) == "십"
    ensures GroupTextFromTop(1111) == "천백십일"
  {
    assert 1 / 1000 == 0 && 1 / 100 % 10 == 0 && 1 / 10 % 10 == 0 && 1 % 10 == 1;
    assert 5 / 1000 == 0 && 5 / 100 % 10 == 0 && 5 / 10 % 10 == 0 && 5 % 10 == 5;
    assert 10 / 1000 == 0 && 10 / 100 % 10 == 0 && 10 / 10 % 10 == 1 && 10 % 10 == 0;
    assert 1111 / 1000 == 1;
    assert 1111 / 100 == 11 && 11 % 10 == 1;
    assert 1111 / 10 == 111 && 111 % 10 == 1;
    assert 1111 % 10 == 1;
  }

  lemma GroupTextSamples()
    ensures GroupText(1) == "일" && GroupText(5) == "오" && GroupText(10) == "십"
    ensures GroupText(1111) == "천백십일"
  {
    GroupTextFromTopSamples();
    GroupTextByDigits(1);
    GroupTextByDigits(5);
    GroupTextByDigits(10);
    GroupTextByDigits(1111);
  }

  /** The '일' rule: kept in the ones place and before 만, dropped before 십, 백 and 천. */
  lemma KoreanOne()
    ensures Korean(1, 0) == "일"
  {
    KoreanOneGroup(1, 0);
    GroupTextSamples();
    assert UnitText(0) == "";
  }

  lemma KoreanTen()
    ensures Korean(10, 0) == "십"
  {
    KoreanOneGroup(10, 0);
    GroupTextSamples();
    assert UnitText(0) == "";
  }

  lemma KoreanElevenHundredEleven()
    ensures Korean(1111, 0) == "천백십일"
  {
    KoreanOneGroup(1111, 0);
    GroupTextSamples();
    assert UnitText(0) == "";
  }

  /** Appending k all-zero groups moves the whole reading up k units. */
  lemma {:induction false} KoreanShift(n: nat, k: nat, u: nat)
    ensures Korean(WithZeroGroups(n, k), u) == Korean(n, u + k)
  {
    if k > 0 {
      var below := WithZeroGroups(n, k - 1);
      assert WithZeroGroups(n, k) == below * 10000;
      ZeroGroupSilent(below, u);
      KoreanShift(n, k - 1, u + 1);
      assert u + 1 + (k - 1) == u + k;
    }
  }

  /**
   * A single non-zero group followed by k all-zero groups reads as that group and the
   * k-th unit; from k = 4 on the source has no unit name left and writes "undefined".
   */
  lemma KoreanSingleGroup(g: nat, k: nat)
    requires 0 < g < 10000
    ensures Korean(WithZeroGroups(g, k), 0) == GroupText(g) + UnitText(k)
    ensures k >= 4 ==> Korean(WithZeroGroups(g, k), 0) == GroupText(g) + "undefined"
  {
    KoreanShift(g, k, 0);
    KoreanOneGroup(g, k);
  }

  /** 10000 reads '일만': the '일' is kept before 만. */
  lemma KoreanTenThousand(n: nat)
    requires n == WithZeroGroups(1, 1)
    ensures Korean(n, 0) == "일만"
  {
    KoreanSingleGroup(1, 1);
    GroupTextSamples();
  }

  /** 500000000 reads '오억': the two all-zero groups below it are silent. */
  lemma KoreanFiveHundredMillion(n: nat)
    requires n == WithZeroGroups(5, 2)
    ensures Korean(n, 0) == "오억"
  {
    KoreanSingleGroup(5, 2);
    GroupTextSamples();
  }
}
