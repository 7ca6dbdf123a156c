/** The timestamps of intake and first-run records, and what comparing them as strings means
    (benchmarks/lib/adversarial-intake.ts, schemas/adversarial-intake-v1.json). */
module Timestamps {
  import opened Text

  type Digit = c: CodeUnit | 0x30 <= c <= 0x39 witness 0x30

  /** `\d{4}-\d{2}-\d{2}T\d{2}:\d{2}:\d{2}(?:\.\d+)?Z`: the nineteen units to the second, and the fraction's digits. */
  datatype Stamp = Stamp(second: Text, fraction: seq<Digit>)

  predicate Formed(s: Stamp) {
    && |s.second| == 19
    && forall i :: 0 <= i < 19 ==>
      if i == 4 || i == 7 then s.second[i] == 0x2D
      else if i == 10 then s.second[i] == 0x54
      else if i == 13 || i == 16 then s.second[i] == 0x3A
      else 0x30 <= s.second[i] <= 0x39
  }

  predicate Numeral(t: Text, width: nat) {
    |t| == width && forall i :: 0 <= i < width ==> 0x30 <= t[i] <= 0x39
  }

  /** `y-m-dTh:n:c` */
  function Dated(y: Text, m: Text, d: Text, h: Text, n: Text, c: Text): Text {
    y + [0x2D] + m + [0x2D] + d + [0x54] + h + [0x3A] + n + [0x3A] + c
  }

  /** The second is written as year, month, day, hour, minute and second of fixed widths. */
  lemma FormedIs(s: Stamp)
    ensures Formed(s) <==>
      exists y: Text, m: Text, d: Text, h: Text, n: Text, c: Text ::
        && Numeral(y, 4) && Numeral(m, 2) && Numeral(d, 2) && Numeral(h, 2) && Numeral(n, 2) && Numeral(c, 2)
        && s.second == Dated(y, m, d, h, n, c)
  {
    if Formed(s) {
      var t := s.second;
      var y, m, d, h, n, c := t[..4], t[5..7], t[8..10], t[11..13], t[14..16], t[17..];
      assert Numeral(y, 4) && Numeral(m, 2) && Numeral(d, 2) && Numeral(h, 2) && Numeral(n, 2) && Numeral(c, 2);
      assert t == Dated(y, m, d, h, n, c);
    }
  }

  function Digits(f: seq<Digit>): Text {
    var text: Text := f;
    text + [0x5A]
  }

  function FractionText(fraction: seq<Digit>): Text {
    if fraction == [] then [0x5A] else [0x2E] + Digits(fraction)
  }

  function TextOf(s: Stamp): Text {
    s.second + FractionText(s.fraction)
  }

  /** The fraction of a second. */
  function FractionValue(fraction: seq<Digit>): real {
    if fraction == [] then 0.0 else ((fraction[0] as int - 0x30) as real + FractionValue(fraction[1..])) / 10.0
  }

  /** Fixed-width fields compare as dates do; within a second, the fraction decides. */
  predicate Before(a: Stamp, b: Stamp) {
    Less(a.second, b.second) || (a.second == b.second && FractionValue(a.fraction) < FractionValue(b.fraction))
  }

  predicate ProperPrefix(a: seq<Digit>, b: seq<Digit>) {
    |a| < |b| && a == b[..|a|]
  }

  /** One timestamp only adds digits to the fraction of the other. */
  predicate Refines(a: Stamp, b: Stamp) {
    a.second == b.second && (ProperPrefix(a.fraction, b.fraction) || ProperPrefix(b.fraction, a.fraction))
  }

  lemma {:induction false} LessConcat(a: Text, x: Text, b: Text, y: Text)
    requires |a| == |b|
    ensures Less(a + x, b + y) <==> Less(a, b) || (a == b && Less(x, y))
    decreases |a|
  {
    if a == [] {
      assert a + x == x && b + y == y;
      LessTotal(a, b);
    } else {
      assert (a + x)[1..] == a[1..] + x && (b + y)[1..] == b[1..] + y;
      LessConcat(a[1..], x, b[1..], y);
      assert a == [a[0]] + a[1..] && b == [b[0]] + b[1..];
    }
  }

  lemma {:induction false} FractionBounds(f: seq<Digit>)
    ensures 0.0 <= FractionValue(f) < 1.0
  {
    if f != [] {
      FractionBounds(f[1..]);
      DigitStep((f[0] as int - 0x30) as real, FractionValue(f[1..]));
    }
  }

  lemma DigitStep(d: real, rest: real)
    requires 0.0 <= d <= 9.0 && 0.0 <= rest < 1.0
    ensures 0.0 <= (d + rest) / 10.0 < 1.0
  {
  }

  /** Digits followed by `Z`, compared as text. */
  lemma {:induction false} DigitsCompare(a: seq<Digit>, b: seq<Digit>)
    ensures ProperPrefix(a, b) ==> Less(Digits(b), Digits(a)) && FractionValue(a) <= FractionValue(b)
    ensures !ProperPrefix(a, b) && !ProperPrefix(b, a) ==>
      (Less(Digits(a), Digits(b)) <==> FractionValue(a) < FractionValue(b))
    decreases |a|
  {
    FractionBounds(a);
    FractionBounds(b);
    if a == [] {
      assert b != [] ==> Digits(b)[0] == b[0];
      LessTotal(Digits(a), Digits(a));
      assert b != [] ==> a == b[..0];
    } else if b == [] {
      assert b == a[..0];
    } else {
      assert Digits(a)[0] == a[0] && Digits(b)[0] == b[0];
      assert Digits(a)[1..] == Digits(a[1..]) && Digits(b)[1..] == Digits(b[1..]);
      PrefixTail(a, b);
      PrefixTail(b, a);
      FractionBounds(a[1..]);
      FractionBounds(b[1..]);
      if a[0] == b[0] {
        DigitsCompare(a[1..], b[1..]);
      }
    }
  }

  lemma PrefixTail(a: seq<Digit>, b: seq<Digit>)
    requires a != [] && b != []
    ensures ProperPrefix(a, b) <==> a[0] == b[0] && ProperPrefix(a[1..], b[1..])
  {
    assert a == [a[0]] + a[1..] && b == [b[0]] + b[1..];
    if |a| < |b| {
      assert b[..|a|] == [b[0]] + b[1..][..|a| - 1];
    }
  }

  lemma FractionsCompare(a: seq<Digit>, b: seq<Digit>)
    ensures ProperPrefix(a, b) ==> Less(FractionText(b), FractionText(a)) && FractionValue(a) <= FractionValue(b)
    ensures !ProperPrefix(a, b) && !ProperPrefix(b, a) ==>
      (Less(FractionText(a), FractionText(b)) <==> FractionValue(a) < FractionValue(b))
  {
    DigitsCompare(a, b);
    if a != [] && b != [] {
      assert FractionText(a) == [0x2E] + Digits(a) && FractionText(b) == [0x2E] + Digits(b);
      LessConcat([0x2E], Digits(a), [0x2E], Digits(b));
      LessConcat([0x2E], Digits(b), [0x2E], Digits(a));
      LessTotal([0x2E], [0x2E]);
    } else if a == [] && b == [] {
      LessTotal(FractionText(a), FractionText(b));
    } else {
      assert a == [] ==> ProperPrefix(a, b);
      assert b == [] ==> ProperPrefix(b, a);
    }
  }

  /** Comparing two timestamps as strings agrees with time exactly when neither only adds digits to the
      other's fraction: "…:00.5Z" sorts before "…:00Z", though it is later. */
  lemma StringsTellTime(a: Stamp, b: Stamp)
    requires Formed(a) && Formed(b)
    ensures (Less(TextOf(a), TextOf(b)) <==> Before(a, b)) && (Less(TextOf(b), TextOf(a)) <==> Before(b, a))
      <==> !Refines(a, b)
  {
    hide Less, FractionText, FractionValue, Formed;
    SameWidth(a);
    SameWidth(b);
    LessConcat(a.second, FractionText(a.fraction), b.second, FractionText(b.fraction));
    LessConcat(b.second, FractionText(b.fraction), a.second, FractionText(a.fraction));
    LessTotal(a.second, b.second);
    FractionsCompare(a.fraction, b.fraction);
    FractionsCompare(b.fraction, a.fraction);
    LessTotal(FractionText(a.fraction), FractionText(b.fraction));
  }

  lemma SameWidth(s: Stamp)
    requires Formed(s)
    ensures |s.second| == 19
  {
  }

  /** Half past a second, compared with the second itself. */
  lemma LaterSortsEarlier(second: Text)
    requires Formed(Stamp(second, []))
    ensures var whole, half := Stamp(second, []), Stamp(second, [0x35]);
      Formed(half) && Before(whole, half) && Less(TextOf(half), TextOf(whole))
  {
    hide Formed;
    var whole, half := Stamp(second, []), Stamp(second, [0x35]);
    FractionsCompare([], [0x35]);
    assert ProperPrefix([], [0x35]);
    LessConcat(second, FractionText([0x35]), second, FractionText([]));
    assert FractionValue([0x35]) == 0.5;
    assert Formed(half) by { SameSecond(whole, half); }
  }

  lemma SameSecond(a: Stamp, b: Stamp)
    requires Formed(a) && a.second == b.second
    ensures Formed(b)
  {
  }
}
