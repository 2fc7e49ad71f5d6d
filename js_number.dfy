/**
 * The two JavaScript number services the core relies on:
 * `Math.round` and `Number.prototype.toLocaleString('ko-KR')` on integers.
 *
 * `toLocaleString('ko-KR')` is not source code of this repository. It is modelled
 * under an explicit assumption: an integer is written in decimal without leading
 * zeros, with a comma every three digits from the right and a leading '-' when
 * negative. `Group` is that assumption, and the lemmas below state what the callers
 * rely on: removing the commas gives the plain decimal spelling back, and parsing
 * it gives the integer back. `Math.max` over a list is `MaxOf`, with `None` for
 * the `-Infinity` that `Math.max()` returns on no arguments.
 */
module JsNumber {

  import opened Wrappers

  /** `Math.round`: the nearest integer, halves rounded towards +infinity. */
  function Round(x: real): (r: int)
    ensures x - 0.5 < r as real <= x + 0.5
  {
    (x + 0.5).Floor
  }

  /** `Math.max(...xs)`: `None` stands for the `-Infinity` of an empty list. */
  function MaxOf(xs: seq<real>): (m: Option<real>)
    ensures m.None? <==> xs == []
    ensures m.Some? ==> m.value in xs && forall i :: 0 <= i < |xs| ==> xs[i] <= m.value
  {
    if xs == [] then None
    else
      match MaxOf(xs[1..])
      case None => Some(xs[0])
      case Some(rest) => Some(if xs[0] >= rest then xs[0] else rest)
  }

  predicate IsDigit(c: char) {
    '0' <= c <= '9'
  }

  predicate AllDigits(s: string) {
    forall i :: 0 <= i < |s| ==> IsDigit(s[i])
  }

  /** Characters that `Group` may produce for a non-negative integer. */
  predicate DigitsAndCommas(s: string) {
    forall i :: 0 <= i < |s| ==> IsDigit(s[i]) || s[i] == ','
  }

  function DigitValue(c: char): (d: nat)
    requires IsDigit(c)
    ensures d < 10
  {
    c as int - '0' as int
  }

  function DigitChar(d: nat): (c: char)
    requires d < 10
    ensures IsDigit(c) && DigitValue(c) == d
  {
    ('0' as int + d) as char
  }

  /** Decimal spelling of a natural number: no leading zeros, "0" for zero. */
  function Decimal(n: nat): (s: string)
    ensures |s| > 0 && AllDigits(s)
    ensures |s| > 1 ==> s[0] != '0'
    ensures s[0] == '0' <==> n == 0
    ensures n < 100 ==> |s| <= 2
    ensures n < 1000 ==> |s| <= 3
  {
    if n < 10 then [DigitChar(n)] else Decimal(n / 10) + [DigitChar(n % 10)]
  }

  /** `parseInt(s, 10)` on a string made only of ASCII digits. */
  function Value(s: string): nat
    requires AllDigits(s)
  {
    if s == [] then 0 else Value(s[..|s| - 1]) * 10 + DigitValue(s[|s| - 1])
  }

  /** Three digits with leading zeros, the spelling of a group after a comma. */
  function Pad3(k: nat): (s: string)
    requires k < 1000
    ensures |s| == 3 && AllDigits(s)
  {
    [DigitChar(k / 100), DigitChar(k / 10 % 10), DigitChar(k % 10)]
  }

  /**
   * Digits in groups of three from the right, separated by commas: a head of one to
   * three digits, then any number of ",ddd" groups.
   */
  predicate Groups(s: string)
    decreases |s|
  {
    if |s| <= 3 then 0 < |s| && AllDigits(s)
    else s[|s| - 4] == ',' && AllDigits(s[|s| - 3..]) && Groups(s[..|s| - 4])
  }

  /** The grouped spelling of a natural number: grouped digits, and no leading zero unless it is "0". */
  predicate Grouped(s: string) {
    Groups(s) && (s[0] == '0' ==> s == "0")
  }

  /** A non-negative integer grouped by three digits with commas. */
  function GroupNat(n: nat): (s: string)
    ensures |s| > 0 && IsDigit(s[0]) && DigitsAndCommas(s)
    ensures Grouped(s)
    ensures s[0] == '0' <==> n == 0
  {
    if n < 1000 then Decimal(n)
    else
      var head, tail := GroupNat(n / 1000), Pad3(n % 1000);
      var s := head + "," + tail;
      assert s[..|s| - 4] == head && s[|s| - 4] == ',' && s[|s| - 3..] == tail;
      s
  }

  /** `n.toLocaleString('ko-KR')` for an integer `n` (the modelling assumption). */
  function Group(n: int): (s: string)
    ensures |s| > 0
    ensures s[0] == '-' <==> n < 0
    ensures n >= 0 ==> DigitsAndCommas(s) && IsDigit(s[0]) && Grouped(s)
    ensures n < 0 ==> |s| > 1 && IsDigit(s[1]) && DigitsAndCommas(s[1..]) && Grouped(s[1..])
  {
    if n < 0 then
      var s := "-" + GroupNat(-n);
      assert s[1..] == GroupNat(-n);
      s
    else GroupNat(n)
  }

  /** `s.replace(/,/g, '')` */
  function RemoveCommas(s: string): (r: string)
    ensures |r| <= |s|
  {
    if s == [] then [] else (if s[0] == ',' then "" else [s[0]]) + RemoveCommas(s[1..])
  }

  /** `s.replace(/[^\d]/g, '')`: keeps the ASCII digits, in order. */
  function KeepDigits(s: string): (r: string)
    ensures AllDigits(r) && |r| <= |s|
  {
    if s == [] then [] else (if IsDigit(s[0]) then [s[0]] else "") + KeepDigits(s[1..])
  }

  /** Reads back a string written by `Group`: an optional '-', then the digits. */
  function Unformat(s: string): int {
    if |s| > 0 && s[0] == '-' then -(Value(KeepDigits(s[1..])) as int) else Value(KeepDigits(s))
  }

  lemma {:induction false} ValueOfDecimal(n: nat)
    ensures Value(Decimal(n)) == n
  {
    if n >= 10 {
      var s := Decimal(n);
      assert s[..|s| - 1] == Decimal(n / 10);
      ValueOfDecimal(n / 10);
    }
  }

  /** Where the digits of `n % 1000` sit among the digits of `n`. */
  lemma LastThreeDigits(n: nat)
    ensures n / 10 / 10 / 10 == n / 1000
    ensures n % 1000 / 100 == n / 10 / 10 % 10
    ensures n % 1000 / 10 % 10 == n / 10 % 10
    ensures n % 1000 % 10 == n % 10
  {
    var a := n / 10;
    var b := a / 10;
    var c := b / 10;
    var r := 100 * (b % 10) + 10 * (a % 10) + n % 10;
    assert n == 1000 * c + r;
    DivExact(n, 1000, c, r);
    DivExact(r, 100, b % 10, 10 * (a % 10) + n % 10);
    DivExact(r, 10, 10 * (b % 10) + a % 10, n % 10);
    DivExact(10 * (b % 10) + a % 10, 10, b % 10, a % 10);
  }

  /** Euclidean division is determined by any quotient and remainder that fit. */
  lemma DivExact(a: nat, m: nat, q: nat, r: nat)
    requires 0 < m && a == m * q + r && r < m
    ensures a / m == q && a % m == r
  {
    var q', r' := a / m, a % m;
    assert m * q' + r' == m * q + r;
    if q' > q {
      MulMono(m, q + 1, q');
    } else if q' < q {
      MulMono(m, q' + 1, q);
    }
  }

  lemma MulMono(m: nat, x: nat, y: nat)
    requires x <= y
    ensures m * x <= m * y
  {
    assert m * y == m * x + m * (y - x);
  }

  /** The last three digits of a decimal spelling are the padded remainder modulo 1000. */
  lemma DecimalSplit3(n: nat)
    requires n >= 1000
    ensures Decimal(n) == Decimal(n / 1000) + Pad3(n % 1000)
  {
    var a := n / 10;
    var b := a / 10;
    LastThreeDigits(n);
    assert Decimal(n) == Decimal(a) + [DigitChar(n % 10)];
    assert Decimal(a) == Decimal(b) + [DigitChar(a % 10)];
    assert Decimal(b) == Decimal(n / 1000) + [DigitChar(b % 10)];
    assert Pad3(n % 1000) == [DigitChar(b % 10), DigitChar(a % 10), DigitChar(n % 10)];
  }

  lemma {:induction false} RemoveCommasAppend(a: string, b: string)
    ensures RemoveCommas(a + b) == RemoveCommas(a) + RemoveCommas(b)
  {
    if a == [] {
      assert a + b == b;
    } else {
      assert (a + b)[0] == a[0] && (a + b)[1..] == a[1..] + b;
      RemoveCommasAppend(a[1..], b);
    }
  }

  lemma {:induction false} KeepDigitsAppend(a: string, b: string)
    ensures KeepDigits(a + b) == KeepDigits(a) + KeepDigits(b)
  {
    if a == [] {
      assert a + b == b;
    } else {
      assert (a + b)[0] == a[0] && (a + b)[1..] == a[1..] + b;
      KeepDigitsAppend(a[1..], b);
    }
  }

  lemma {:induction false} RemoveCommasOfDigits(s: string)
    requires AllDigits(s)
    ensures RemoveCommas(s) == s
  {
    if s != [] {
      RemoveCommasOfDigits(s[1..]);
    }
  }

  /** On the output of `Group`, dropping commas and keeping digits are the same thing. */
  lemma {:induction false} KeepDigitsIsRemoveCommas(s: string)
    requires DigitsAndCommas(s)
    ensures KeepDigits(s) == RemoveCommas(s)
  {
    if s != [] {
      KeepDigitsIsRemoveCommas(s[1..]);
    }
  }

  /** Removing the commas from a grouped number gives its plain decimal spelling. */
  lemma {:induction false} GroupNatWithoutCommas(n: nat)
    ensures RemoveCommas(GroupNat(n)) == Decimal(n)
    ensures KeepDigits(GroupNat(n)) == Decimal(n)
  {
    if n < 1000 {
      RemoveCommasOfDigits(Decimal(n));
    } else {
      GroupNatWithoutCommas(n / 1000);
      RemoveCommasAppend(GroupNat(n / 1000) + ",", Pad3(n % 1000));
      RemoveCommasAppend(GroupNat(n / 1000), ",");
      RemoveCommasOfDigits(Pad3(n % 1000));
      DecimalSplit3(n);
    }
    KeepDigitsIsRemoveCommas(GroupNat(n));
  }

  /** Round trip: reading back what `Group` wrote gives the integer back. */
  lemma GroupRoundTrip(n: int)
    ensures Unformat(Group(n)) == n
  {
    var m := if n < 0 then -n else n;
    GroupNatWithoutCommas(m);
    ValueOfDecimal(m);
    if n < 0 {
      assert Group(n)[1..] == GroupNat(m);
    }
  }
}
