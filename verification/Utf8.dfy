/** UTF-8 (section 3 of RFC 3629) of JavaScript strings, as `Buffer` and `createHash().update` encode
    them: a lone surrogate becomes U+FFFD. */
module Utf8 {
  import opened Text

  type Byte = b: int | 0 <= b < 0x100

  predicate High(u: CodeUnit) {
    0xD800 <= u < 0xDC00
  }

  predicate Low(u: CodeUnit) {
    0xDC00 <= u < 0xE000
  }

  predicate StartsWithPair(t: Text) {
    |t| >= 2 && High(t[0]) && Low(t[1])
  }

  /** The code units of the first code point. */
  function Units(t: Text): (n: nat)
    requires t != []
    ensures 1 <= n <= |t|
  {
    if StartsWithPair(t) then 2 else 1
  }

  type CodePoint = c: int | 0 <= c < 0x110000

  function Scalar(t: Text): (c: CodePoint)
    requires t != []
  {
    if StartsWithPair(t) then 0x10000 + (t[0] as int - 0xD800) * 0x400 + (t[1] as int - 0xDC00)
    else if High(t[0]) || Low(t[0]) then 0xFFFD
    else t[0]
  }

  function EncodeScalar(c: CodePoint): (bytes: seq<Byte>)
    ensures 1 <= |bytes| <= 4
  {
    if c < 0x80 then [c]
    else if c < 0x800 then [0xC0 + c / 0x40, 0x80 + c % 0x40]
    else if c < 0x10000 then [0xE0 + c / 0x1000, 0x80 + c / 0x40 % 0x40, 0x80 + c % 0x40]
    else [0xF0 + c / 0x40000, 0x80 + c / 0x1000 % 0x40, 0x80 + c / 0x40 % 0x40, 0x80 + c % 0x40]
  }

  function Encode(t: Text): seq<Byte>
    decreases |t|
  {
    if t == [] then [] else EncodeScalar(Scalar(t)) + Encode(t[Units(t)..])
  }

  predicate Continuation(b: Byte) {
    0x80 <= b < 0xC0
  }

  /** Where an encoded character may start, or the end. */
  predicate Boundary(bytes: seq<Byte>, b: nat) {
    b == |bytes| || (b < |bytes| && !Continuation(bytes[b]))
  }

  lemma OneLead(c: CodePoint)
    ensures var bytes := EncodeScalar(c);
      !Continuation(bytes[0]) && forall i :: 1 <= i < |bytes| ==> Continuation(bytes[i])
  {
  }

  lemma EncodingStarts(t: Text)
    ensures Boundary(Encode(t), 0)
  {
    if t != [] {
      OneLead(Scalar(t));
    }
  }

  method Utf8Boundaries(content: Text) returns (bytes: nat, boundaries: set<nat>)
    ensures bytes == |Encode(content)|
    ensures forall b: nat :: b in boundaries <==> Boundary(Encode(content), b)
  {
    hide EncodeScalar, Scalar, Units;
    bytes, boundaries := 0, {0};
    var i := 0;
    ghost var done: seq<Byte> := [];
    EncodingStarts(content);
    while i < |content|
      invariant i <= |content| && bytes == |done|
      invariant Encode(content) == done + Encode(content[i..])
      invariant forall b: nat :: b in boundaries <==> b <= |done| && Boundary(Encode(content), b)
    {
      var rest := content[i..];
      var encoded := EncodeScalar(Scalar(rest));
      var after := rest[Units(rest)..];
      assert after == content[i + Units(rest)..];
      BoundaryAfter(done, Scalar(rest), after);
      bytes := bytes + |encoded|;
      boundaries := boundaries + {bytes};
      done := done + encoded;
      i := i + Units(rest);
      assert Encode(content) == done + Encode(after);
    }
    assert content[i..] == [];
  }

  lemma BoundaryAfter(done: seq<Byte>, c: CodePoint, after: Text)
    ensures var all := done + (EncodeScalar(c) + Encode(after));
      var next := |done| + |EncodeScalar(c)|;
      Boundary(all, next) && forall b :: |done| < b < next ==> !Boundary(all, b)
  {
    OneLead(c);
    EncodingStarts(after);
    var encoded, tail := EncodeScalar(c), Encode(after);
    var all := done + (encoded + tail);
    assert forall b :: |done| <= b < |done| + |encoded| ==> all[b] == encoded[b - |done|];
    assert tail != [] ==> all[|done| + |encoded|] == tail[0];
  }

  // ---------------------------------------------------------------------------------------------
  // Text without lone surrogates is encoded faithfully.

  predicate WellFormed(t: Text)
    decreases |t|
  {
    t == [] || ((StartsWithPair(t) || !(High(t[0]) || Low(t[0]))) && WellFormed(t[Units(t)..]))
  }

  lemma {:induction false} WellFormedConcat(a: Text, b: Text)
    requires WellFormed(a) && WellFormed(b)
    ensures WellFormed(a + b)
    decreases |a|
  {
    if a == [] {
      assert a + b == b;
    } else {
      assert (a + b)[Units(a)..] == a[Units(a)..] + b;
      WellFormedConcat(a[Units(a)..], b);
    }
  }

  /** The first byte of a character tells its length. */
  lemma ScalarDecodes(c: CodePoint, d: CodePoint, x: seq<Byte>, y: seq<Byte>)
    requires EncodeScalar(c) + x == EncodeScalar(d) + y
    ensures c == d && x == y
  {
    var cs, ds := EncodeScalar(c), EncodeScalar(d);
    var both := cs + x;
    assert both[0] == cs[0] && both[0] == ds[0];
    assert |cs| == |ds|;
    assert cs == both[..|cs|] && ds == both[..|ds|];
    SameScalar(c, d);
    assert x == both[|cs|..] && y == both[|ds|..];
  }

  lemma SixBits(c: int)
    ensures c == 0x40 * (c / 0x40) + c % 0x40
    ensures c / 0x1000 == c / 0x40 / 0x40 && c / 0x40000 == c / 0x40 / 0x40 / 0x40
  {
  }

  lemma SameScalar(c: CodePoint, d: CodePoint)
    requires EncodeScalar(c) == EncodeScalar(d)
    ensures c == d
  {
    var cs, ds := EncodeScalar(c), EncodeScalar(d);
    assert cs[0] == ds[0] && |cs| == |ds|;
    assert |cs| > 1 ==> c % 0x40 == cs[|cs| - 1] - 0x80 && d % 0x40 == ds[|cs| - 1] - 0x80;
    assert |cs| > 2 ==> c / 0x40 % 0x40 == cs[|cs| - 2] - 0x80 && d / 0x40 % 0x40 == ds[|cs| - 2] - 0x80;
    assert |cs| > 3 ==> c / 0x1000 % 0x40 == cs[1] - 0x80 && d / 0x1000 % 0x40 == ds[1] - 0x80;
    SixBits(c);
    SixBits(d);
    SameBySixes(c, d, |cs|);
  }

  lemma SameBySixes(c: int, d: int, n: nat)
    requires 1 <= n <= 4
    requires n == 1 ==> c == d
    requires n == 2 ==> c / 0x40 == d / 0x40
    requires n == 3 ==> c / 0x40 / 0x40 == d / 0x40 / 0x40
    requires n == 4 ==> c / 0x40 / 0x40 / 0x40 == d / 0x40 / 0x40 / 0x40
    requires n > 1 ==> c % 0x40 == d % 0x40
    requires n > 2 ==> c / 0x40 % 0x40 == d / 0x40 % 0x40
    requires n > 3 ==> c / 0x40 / 0x40 % 0x40 == d / 0x40 / 0x40 % 0x40
    ensures c == d
  {
  }

  lemma {:induction false} EncodeInjective(a: Text, b: Text)
    requires WellFormed(a) && WellFormed(b) && Encode(a) == Encode(b)
    ensures a == b
    decreases |a|
  {
    if a != [] && b != [] {
      ScalarDecodes(Scalar(a), Scalar(b), Encode(a[Units(a)..]), Encode(b[Units(b)..]));
      FirstPoint(a, b);
      EncodeInjective(a[Units(a)..], b[Units(b)..]);
      assert a == a[..Units(a)] + a[Units(a)..];
      assert b == b[..Units(b)] + b[Units(b)..];
    }
  }

  lemma FirstPoint(a: Text, b: Text)
    requires a != [] && b != [] && WellFormed(a) && WellFormed(b) && Scalar(a) == Scalar(b)
    ensures Units(a) == Units(b) && a[..Units(a)] == b[..Units(b)]
  {
  }

  // ---------------------------------------------------------------------------------------------
  // The bytes themselves.

  /** The forms of section 3 of RFC 3629: how many bytes, what they begin with, and what they add up to. */
  lemma ScalarBytes(c: CodePoint)
    ensures var e := EncodeScalar(c);
      && |e| == (if c <= 0x7F then 1 else if c <= 0x7FF then 2 else if c <= 0xFFFF then 3 else 4)
      && (|e| == 1 ==> e[0] == c)
      && (|e| == 2 ==> 0xC2 <= e[0] <= 0xDF && c == SixTimes(e[0] as int - 0xC0, e[1]))
      && (|e| == 3 ==> 0xE0 <= e[0] <= 0xEF && c == SixTimes(SixTimes(e[0] as int - 0xE0, e[1]), e[2]))
      && (|e| == 4 ==>
            0xF0 <= e[0] <= 0xF4 && c == SixTimes(SixTimes(SixTimes(e[0] as int - 0xF0, e[1]), e[2]), e[3]))
      && forall i :: 1 <= i < |e| ==> 0x80 <= e[i] <= 0xBF
  {
    SixBits(c);
    SixBits(c / 0x40);
  }

  /** Six more bits, from a continuation byte. */
  function SixTimes(high: int, b: Byte): int {
    high * 0x40 + (b as int - 0x80)
  }

  /** The first code point: a surrogate pair is one, a surrogate without its partner is read as U+FFFD. */
  lemma ScalarIs(u: CodeUnit, rest: Text)
    ensures var t := [u] + rest;
      if 0xD800 <= u <= 0xDBFF && rest != [] && 0xDC00 <= rest[0] <= 0xDFFF then
        Units(t) == 2 && Scalar(t) == 0x10000 + (u - 0xD800) * 0x400 + (rest[0] - 0xDC00)
      else
        Units(t) == 1 && Scalar(t) == if 0xD800 <= u <= 0xDFFF then 0xFFFD else u
  {
  }

  /** No surrogate pair is cut in two. */
  predicate Cut(t: Text, k: nat) {
    k <= |t| && (0 < k < |t| ==> !(0xD800 <= t[k - 1] <= 0xDBFF && 0xDC00 <= t[k] <= 0xDFFF))
  }

  /** Encoding the text up to a cut gives `b` bytes. */
  ghost predicate EndsAt(t: Text, b: int) {
    exists k: nat :: Cut(t, k) && |Encode(t[..k])| == b
  }

  /** The boundaries are where encoding a part of the text that ends between two characters ends. */
  lemma {:induction false} BoundaryIs(t: Text, b: nat)
    ensures Boundary(Encode(t), b) <==> exists k: nat :: Cut(t, k) && |Encode(t[..k])| == b
    decreases |t|
  {
    hide EncodeScalar, Scalar;
    EncodingStarts(t);
    assert Cut(t, 0) && t[..0] == [];
    if t == [] {
      assert forall k: nat :: Cut(t, k) ==> t[..k] == [];
    } else {
      var first, rest := EncodeScalar(Scalar(t)), t[Units(t)..];
      OneLead(Scalar(t));
      if b >= |first| {
        BoundaryIs(rest, b - |first|);
        Shifted(first, Encode(rest), b);
        EndsLater(t, b);
      } else if b > 0 {
        assert (first + Encode(rest))[b] == first[b];
        EndsLater(t, b);
      }
    }
  }

  /** After the first character. */
  lemma EndsLater(t: Text, b: nat)
    requires t != [] && b > 0
    ensures EndsAt(t, b) <==> EndsAt(t[Units(t)..], b - |EncodeScalar(Scalar(t))|)
  {
    hide EncodeScalar, Scalar;
    var n := Units(t);
    var first, rest := EncodeScalar(Scalar(t)), t[n..];
    assert t[..0] == [];
    forall k: nat | Cut(rest, k) ensures Cut(t, n + k) && |Encode(t[..n + k])| == |first| + |Encode(rest[..k])| {
      CutLater(t, n + k);
    }
    forall k: nat | Cut(t, k) && k > 0 ensures k >= n && Cut(rest, k - n) {
      CutLater(t, k);
    }
    forall k: nat | Cut(t, k) && k > 0 ensures |Encode(t[..k])| == |first| + |Encode(rest[..k - n])| {
      CutLater(t, k);
    }
  }

  lemma Shifted(first: seq<Byte>, tail: seq<Byte>, b: nat)
    requires b >= |first|
    ensures Boundary(first + tail, b) <==> Boundary(tail, b - |first|)
  {
  }

  /** A text cut after its first character. */
  lemma CutLater(t: Text, k: nat)
    requires t != [] && 0 < k <= |t|
    ensures Cut(t, k) ==> k >= Units(t)
    ensures k >= Units(t) ==> (Cut(t, k) <==> Cut(t[Units(t)..], k - Units(t)))
    ensures k >= Units(t) ==>
      |Encode(t[..k])| == |EncodeScalar(Scalar(t))| + |Encode(t[Units(t)..][..k - Units(t)])|
  {
    hide EncodeScalar;
    if k >= Units(t) {
      assert t[..k][Units(t)..] == t[Units(t)..][..k - Units(t)];
      assert Scalar(t[..k]) == Scalar(t) && Units(t[..k]) == Units(t);
    }
  }
}
