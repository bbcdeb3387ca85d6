/**
 * Decimal text of integers, as produced by JavaScript's `Number.prototype.toString()`
 * and template literals for integral values, and `String.prototype.padStart`.
 * WorldSaver.newId (src/worldSaver.js:15-17) builds its ids from these.
 */
module Decimal {

  predicate IsDigit(c: char) {
    '0' <= c <= '9'
  }

  predicate AllDigits(s: string) {
    forall i :: 0 <= i < |s| ==> IsDigit(s[i])
  }

  /** The character of the digit `d`. */
  function Digit(d: nat): (c: char)
    requires d < 10
    ensures IsDigit(c) && (c - '0') as nat == d
  {
    ('0' as int + d) as char
  }

  /** The decimal text of a natural number, without leading zeros. */
  function NatToDecimal(n: nat): (s: string)
    ensures |s| >= 1 && AllDigits(s)
    ensures n >= 10 <==> |s| >= 2
    decreases n
  {
    if n < 10 then [Digit(n)] else NatToDecimal(n / 10) + [Digit(n % 10)]
  }

  /** The decimal text of an integer: a minus sign in front of negative values. */
  function IntToDecimal(n: int): (s: string)
    ensures |s| >= 1
    ensures (s[0] == '-') <==> n < 0
  {
    if n < 0 then "-" + NatToDecimal(-n) else NatToDecimal(n)
  }

  /** The value that a string of digits denotes (leading zeros allowed). */
  function DecimalValue(s: string): nat
    requires AllDigits(s)
  {
    if s == [] then 0 else DecimalValue(s[..|s| - 1]) * 10 + (s[|s| - 1] - '0') as nat
  }

  /** `fill` repeated `k` times. */
  function Repeat(fill: char, k: nat): (r: string)
    ensures |r| == k && forall i :: 0 <= i < k ==> r[i] == fill
  {
    if k == 0 then [] else [fill] + Repeat(fill, k - 1)
  }

  /** `s.padStart(width, fill)` for a one-character fill string. */
  function PadStart(s: string, width: nat, fill: char): (r: string)
    ensures |r| == if |s| >= width then |s| else width
    ensures r[|r| - |s|..] == s
    ensures forall i :: 0 <= i < |r| - |s| ==> r[i] == fill
  {
    if |s| >= width then s else Repeat(fill, width - |s|) + s
  }

  /** The identifier `newId` returns when its counter has reached `n`. */
  function IdText(n: nat): string {
    PadStart(NatToDecimal(n), 4, '0')
  }

  lemma {:induction false} NatToDecimalValue(n: nat)
    ensures DecimalValue(NatToDecimal(n)) == n
    decreases n
  {
    if n >= 10 {
      NatToDecimalValue(n / 10);
      var s := NatToDecimal(n);
      assert s[..|s| - 1] == NatToDecimal(n / 10);
    }
  }

  lemma {:induction false} LeadingZeros(k: nat, s: string)
    requires AllDigits(s)
    ensures AllDigits(Repeat('0', k) + s)
    ensures DecimalValue(Repeat('0', k) + s) == DecimalValue(s)
    decreases |s|
  {
    var z := Repeat('0', k);
    if s == [] {
      ZerosValue(k);
      assert z + s == z;
    } else {
      LeadingZeros(k, s[..|s| - 1]);
      assert (z + s)[..|z + s| - 1] == z + s[..|s| - 1];
    }
  }

  lemma {:induction false} ZerosValue(k: nat)
    ensures AllDigits(Repeat('0', k)) && DecimalValue(Repeat('0', k)) == 0
  {
    if k > 0 {
      ZerosValue(k - 1);
      var z := Repeat('0', k);
      assert z[..k - 1] == Repeat('0', k - 1);
    }
  }

  /** The digits of an id denote the counter value it was made from. */
  lemma IdTextValue(n: nat)
    ensures AllDigits(IdText(n)) && DecimalValue(IdText(n)) == n
  {
    var d := NatToDecimal(n);
    NatToDecimalValue(n);
    if |d| < 4 {
      LeadingZeros(4 - |d|, d);
    }
  }

  /** Distinct counter values give distinct ids. */
  lemma IdTextInjective(a: nat, b: nat)
    requires IdText(a) == IdText(b)
    ensures a == b
  {
    IdTextValue(a);
    IdTextValue(b);
  }

  /** Ids are at least four characters long, and exactly four below 10000. */
  lemma IdTextWidth(n: nat)
    ensures |IdText(n)| >= 4
    ensures n < 10000 ==> |IdText(n)| == 4
  {
    if n < 10000 {
      assert Pow10(4) == 10000;
      NatToDecimalLength(n, 4);
    }
  }

  function Pow10(k: nat): (p: nat)
    ensures p >= 1
  {
    if k == 0 then 1 else 10 * Pow10(k - 1)
  }

  /** A number below 10^k has at most k digits. */
  lemma {:induction false} NatToDecimalLength(n: nat, k: nat)
    requires k >= 1 && n < Pow10(k)
    ensures |NatToDecimal(n)| <= k
    decreases n
  {
    if n >= 10 {
      assert n / 10 < Pow10(k - 1);
      NatToDecimalLength(n / 10, k - 1);
    }
  }

  /** Decimal text of an integer: digits, with a minus sign in front when negative. */
  predicate IsIntText(s: string) {
    if s != [] && s[0] == '-' then |s| >= 2 && AllDigits(s[1..]) else s != [] && AllDigits(s)
  }

  function IntValue(s: string): int
    requires IsIntText(s)
  {
    if s[0] == '-' then -(DecimalValue(s[1..]) as int) else DecimalValue(s)
  }

  /** The text written for an integer is its sign, then the digits of its magnitude. */
  lemma IntToDecimalParts(n: int)
    ensures IsIntText(IntToDecimal(n))
    ensures n < 0 ==> IntValue(IntToDecimal(n)) == -(DecimalValue(NatToDecimal(-n)) as int)
    ensures n >= 0 ==> IntValue(IntToDecimal(n)) == DecimalValue(NatToDecimal(n)) as int
  {
    if n < 0 {
      var d := NatToDecimal(-n);
      var s := "-" + d;
      assert IntToDecimal(n) == s;
      assert s[1..] == d;
    } else {
      var d := NatToDecimal(n);
      assert IntToDecimal(n) == d;
      assert IsDigit(d[0]);
    }
  }

  /** The text written for an integer reads back as that integer. */
  lemma IntToDecimalValue(n: int)
    ensures IsIntText(IntToDecimal(n)) && IntValue(IntToDecimal(n)) == n
  {
    IntToDecimalParts(n);
    var m: nat := if n < 0 then -n else n;
    NatToDecimalValue(m);
    var v := DecimalValue(NatToDecimal(m));
    assert v == m;
  }
}
