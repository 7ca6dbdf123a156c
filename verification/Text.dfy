/** Strings as JavaScript holds them: sequences of UTF-16 code units, lone surrogates included. */
module Text {
  type CodeUnit = c: int | 0 <= c < 0x10000
  type Text = seq<CodeUnit>

  /** The `<` of strings: by code unit, a proper prefix first. */
  predicate Less(a: Text, b: Text) {
    b != [] && (a == [] || a[0] < b[0] || (a[0] == b[0] && Less(a[1..], b[1..])))
  }

  predicate AtMost(a: Text, b: Text) {
    !Less(b, a)
  }

  lemma {:induction false} LessTotal(a: Text, b: Text)
    ensures (if Less(a, b) then 1 else 0) + (if Less(b, a) then 1 else 0) + (if a == b then 1 else 0) == 1
    decreases |a|
  {
    if a != [] && b != [] && a[0] == b[0] {
      LessTotal(a[1..], b[1..]);
      assert a == [a[0]] + a[1..] && b == [b[0]] + b[1..];
    }
  }

  lemma {:induction false} LessTransitive(a: Text, b: Text, c: Text)
    requires Less(a, b) && Less(b, c)
    ensures Less(a, c)
    decreases |a|
  {
    if a != [] && a[0] == b[0] == c[0] {
      LessTransitive(a[1..], b[1..], c[1..]);
    }
  }

  ghost predicate Free(t: Text, u: CodeUnit) {
    forall i :: 0 <= i < |t| ==> t[i] != u
  }

  lemma FirstSeparator(a: Text, x: Text, u: CodeUnit)
    requires Free(a, u)
    ensures var t := a + [u] + x;
      && (forall i :: 0 <= i < |a| ==> t[i] != u)
      && |a| < |t| && t[|a|] == u && t[..|a|] == a && t[|a| + 1..] == x
  {
  }

  /** A text is split in one way only at its first separator. */
  lemma SplitOnce(a: Text, x: Text, b: Text, y: Text, u: CodeUnit)
    requires Free(a, u) && Free(b, u) && a + [u] + x == b + [u] + y
    ensures a == b && x == y
  {
    FirstSeparator(a, x, u);
    FirstSeparator(b, y, u);
  }

  lemma AtMostTransitive(a: Text, b: Text, c: Text)
    requires AtMost(a, b) && AtMost(b, c)
    ensures AtMost(a, c)
  {
    LessTotal(a, b);
    LessTotal(b, c);
    LessTotal(a, c);
    if Less(c, a) {
      if Less(a, b) {
        LessTransitive(c, a, b);
      }
    }
  }
}
