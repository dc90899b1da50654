/** Decimal printing and the left-to-right scan of strconv.Atoi. */
module Strconv {

  datatype Parsed = Number(n: int) | Syntax | Range

  predicate IsDigit(c: char) {
    '0' <= c <= '9'
  }

  function DigitOf(c: char): (d: nat)
    requires IsDigit(c)
    ensures d < 10
  {
    c as int - '0' as int
  }

  function Digit(d: nat): (c: char)
    requires d < 10
    ensures IsDigit(c) && DigitOf(c) == d
  {
    ('0' as int + d) as char
  }

  function Digits(n: nat): (s: string)
    ensures |s| > 0 && forall i :: 0 <= i < |s| ==> IsDigit(s[i])
  {
    if n < 10 then [Digit(n)] else Digits(n / 10) + [Digit(n % 10)]
  }

  function Itoa(n: int): string {
    if n < 0 then "-" + Digits(-n) else Digits(n)
  }

  /** The digit loop: the first bad byte is a syntax error, unless the digits
      before it already passed `max`, which is a range error on the spot. */
  function Scan(s: string, acc: nat, max: nat): Parsed {
    if s == "" then Number(acc)
    else if !IsDigit(s[0]) then Syntax
    else
      var next := acc * 10 + DigitOf(s[0]);
      if next > max then Range else Scan(s[1..], next, max)
  }

  function Pow2(bits: nat): (p: nat)
    ensures p > 0
  {
    if bits == 0 then 1 else 2 * Pow2(bits - 1)
  }

  /** strconv.Atoi on a platform whose int has `bits` bits. The digits are
      scanned against the unsigned range and the sign is applied afterwards. */
  function Atoi(s: string, bits: nat): Parsed
    requires bits > 0
  {
    var negative := s != "" && s[0] == '-';
    var digits := if s != "" && (s[0] == '-' || s[0] == '+') then s[1..] else s;
    if digits == "" then Syntax
    else
      match Scan(digits, 0, Pow2(bits) - 1)
      case Syntax => Syntax
      case Range => Range
      case Number(n) =>
        var cutoff := Pow2(bits - 1);
        if !negative && n >= cutoff then Range
        else if negative && n > cutoff then Range
        else Number(if negative then -n else n)
  }

  /** The value a run of digits denotes, with no bound on its size. */
  function Value(s: string): nat
    requires forall i :: 0 <= i < |s| ==> IsDigit(s[i])
  {
    if s == "" then 0 else Value(s[..|s| - 1]) * 10 + DigitOf(s[|s| - 1])
  }

  lemma {:induction false} ValueOfDigits(n: nat)
    ensures Value(Digits(n)) == n
  {
    if n >= 10 {
      ValueOfDigits(n / 10);
      assert Digits(n)[..|Digits(n)| - 1] == Digits(n / 10);
    }
  }

  /** Scanning one more digit after a scan that stayed in range. */
  lemma {:induction false} ScanSnoc(s: string, c: char, acc: nat, max: nat)
    requires IsDigit(c)
    ensures Scan(s + [c], acc, max) ==
            match Scan(s, acc, max)
            case Number(n) => if n * 10 + DigitOf(c) > max then Range else Number(n * 10 + DigitOf(c))
            case other => other
  {
    if s == "" {
      assert ("" + [c])[1..] == "";
    } else {
      assert (s + [c])[1..] == s[1..] + [c];
      if IsDigit(s[0]) && acc * 10 + DigitOf(s[0]) <= max {
        ScanSnoc(s[1..], c, acc * 10 + DigitOf(s[0]), max);
      }
    }
  }

  /** On digits alone the scan is the value, or a range error past `max`. */
  lemma {:induction false} ScanIsValue(s: string, max: nat)
    requires forall i :: 0 <= i < |s| ==> IsDigit(s[i])
    ensures Scan(s, 0, max) == if Value(s) <= max then Number(Value(s)) else Range
  {
    if s != "" {
      var init := s[..|s| - 1];
      assert s == init + [s[|s| - 1]];
      ScanIsValue(init, max);
      ScanSnoc(init, s[|s| - 1], 0, max);
    }
  }

  /** Printing an int and reading it back on the same platform is the identity. */
  lemma AtoiItoa(n: int, bits: nat)
    requires bits > 0 && -(Pow2(bits - 1) as int) <= n < Pow2(bits - 1)
    ensures Atoi(Itoa(n), bits) == Number(n)
  {
    var m := if n < 0 then -n else n;
    ValueOfDigits(m);
    ScanIsValue(Digits(m), Pow2(bits) - 1);
    assert IsDigit(Digits(m)[0]);
    if n < 0 {
      assert Itoa(n)[1..] == Digits(m);
    }
  }
}
