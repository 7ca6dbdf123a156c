/** Literals and decimal numerals as code units. */
module Numerals {
  import opened Text

  /** The code units of a literal. */
  function Ascii(s: string): (t: Text)
    ensures |t| == |s|
  {
    seq(|s|, i requires 0 <= i < |s| => if s[i] as int < 0x80 then s[i] as int else 0)
  }

  predicate IsDigit(u: CodeUnit) {
    0x30 <= u <= 0x39
  }

  /** How many digits `t` begins with. */
  function DigitRun(t: Text): (n: nat)
    ensures n <= |t|
  {
    if t == [] || !IsDigit(t[0]) then 0 else 1 + DigitRun(t[1..])
  }

  lemma {:induction false} AllDigits(t: Text)
    requires forall i :: 0 <= i < |t| ==> IsDigit(t[i])
    ensures DigitRun(t) == |t|
  {
    if t != [] {
      AllDigits(t[1..]);
    }
  }

  ghost predicate Digits(t: Text) {
    t != [] && forall i :: 0 <= i < |t| ==> 0x30 <= t[i] <= 0x39
  }

  /** A run of digits ends where the text or the digits end. */
  lemma {:induction false} RunStops(t: Text, rest: Text)
    requires rest == [] || !IsDigit(rest[0])
    ensures DigitRun(t + rest) == DigitRun(t)
    ensures DigitRun(t) == |t| && t != [] <==> Digits(t)
  {
    if t == [] {
    } else {
      assert (t + rest)[0] == t[0] && (t + rest)[1..] == t[1..] + rest;
      RunStops(t[1..], rest);
      if IsDigit(t[0]) && DigitRun(t[1..]) == |t[1..]| {
        assert t[1..] != [] ==> Digits(t[1..]);
        forall i | 0 <= i < |t| ensures 0x30 <= t[i] <= 0x39 {
          assert i > 0 ==> t[i] == t[1..][i - 1];
        }
      }
      if Digits(t) {
        AllDigits(t);
      }
    }
  }

  lemma {:induction false} RunIs(t: Text)
    ensures forall i :: 0 <= i < DigitRun(t) ==> IsDigit(t[i])
    ensures DigitRun(t) < |t| ==> !IsDigit(t[DigitRun(t)])
  {
    if t != [] && IsDigit(t[0]) {
      RunIs(t[1..]);
      forall i | 0 <= i < DigitRun(t) ensures IsDigit(t[i]) {
        assert i > 0 ==> t[i] == t[1..][i - 1];
      }
    }
  }

  function Decimal(n: nat): (t: Text)
    ensures t != [] && (forall i :: 0 <= i < |t| ==> IsDigit(t[i])) && (t[0] == 0x30 ==> |t| == 1)
  {
    if n < 10 then [0x30 + n] else Decimal(n / 10) + [0x30 + n % 10]
  }

  function Value(t: Text): int {
    if t == [] then 0 else 10 * Value(t[..|t| - 1]) + (t[|t| - 1] as int - 0x30)
  }

  lemma {:induction false} DecimalBack(n: nat)
    ensures Value(Decimal(n)) == n
  {
    if n >= 10 {
      DecimalBack(n / 10);
      assert Decimal(n)[..|Decimal(n)| - 1] == Decimal(n / 10);
    } else {
      assert Value(Decimal(n)[..0]) == 0;
    }
  }

  function IntegerText(n: int): (t: Text)
    ensures t != [] && forall i :: 0 <= i < |t| ==> IsDigit(t[i]) || t[i] == 0x2D
  {
    if n < 0 then [0x2D] + Decimal(-n) else Decimal(n)
  }

  lemma IntegerTextInjective(m: int, n: int)
    requires IntegerText(m) == IntegerText(n)
    ensures m == n
  {
    hide Decimal, Value;
    assert m < 0 <==> IntegerText(m)[0] == 0x2D;
    assert n < 0 <==> IntegerText(n)[0] == 0x2D;
    DecimalBack(if m < 0 then -m else m);
    DecimalBack(if n < 0 then -n else n);
    assert m < 0 ==> IntegerText(m)[1..] == Decimal(-m);
    assert n < 0 ==> IntegerText(n)[1..] == Decimal(-n);
  }
}
