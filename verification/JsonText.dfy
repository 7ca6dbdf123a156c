/** The canonical JSON text (benchmarks/lib/adversarial-intake.ts) code unit by code unit, as
    `JSON.stringify` writes it. */
module JsonText {
  import opened Text
  import opened JsonPrinter
  import opened Numerals
  import JsonReader
  import Sorting

  // ---------------------------------------------------------------------------------------------
  // Strings.

  const LOWER_HEX: seq<CodeUnit> :=
    [0x30, 0x31, 0x32, 0x33, 0x34, 0x35, 0x36, 0x37, 0x38, 0x39, 0x61, 0x62, 0x63, 0x64, 0x65, 0x66]

  /** Backslash, `u` and four lower-case hexadecimal digits. */
  function Hexadecimal(u: CodeUnit): Text {
    [0x5C, 0x75, LOWER_HEX[u / 0x1000], LOWER_HEX[u / 0x100 % 0x10], LOWER_HEX[u / 0x10 % 0x10], LOWER_HEX[u % 0x10]]
  }

  /** The first two units are a surrogate pair. */
  predicate Paired(u: CodeUnit, rest: Text) {
    0xD800 <= u <= 0xDBFF && rest != [] && 0xDC00 <= rest[0] <= 0xDFFF
  }

  /** The text of a string, without the quotation marks. */
  function Body(s: Text): Text {
    var t := CanonicalJson(Str(s));
    t[1..|t| - 1]
  }

  /** A string is its body between quotation marks, and the body begins with what its first code point
      becomes, followed by the body of the rest. */
  lemma StringText(u: CodeUnit, rest: Text)
    ensures CanonicalJson(Str([u] + rest)) == [0x22] + Body([u] + rest) + [0x22]
    ensures CanonicalJson(Str([])) == [0x22, 0x22] && Body([]) == []
    ensures u == 0x08 ==> Body([u] + rest) == [0x5C, 0x62] + Body(rest)
    ensures u == 0x09 ==> Body([u] + rest) == [0x5C, 0x74] + Body(rest)
    ensures u == 0x0A ==> Body([u] + rest) == [0x5C, 0x6E] + Body(rest)
    ensures u == 0x0C ==> Body([u] + rest) == [0x5C, 0x66] + Body(rest)
    ensures u == 0x0D ==> Body([u] + rest) == [0x5C, 0x72] + Body(rest)
    ensures u == 0x22 ==> Body([u] + rest) == [0x5C, 0x22] + Body(rest)
    ensures u == 0x5C ==> Body([u] + rest) == [0x5C, 0x5C] + Body(rest)
    ensures u < 0x20 && u !in {0x08, 0x09, 0x0A, 0x0C, 0x0D} ==> Body([u] + rest) == Hexadecimal(u) + Body(rest)
    ensures Paired(u, rest) ==> Body([u] + rest) == [u, rest[0]] + Body(rest[1..])
    ensures 0xD800 <= u <= 0xDFFF && !Paired(u, rest) ==> Body([u] + rest) == Hexadecimal(u) + Body(rest)
    ensures 0x20 <= u && u !in {0x22, 0x5C} && !(0xD800 <= u <= 0xDFFF) ==> Body([u] + rest) == [u] + Body(rest)
  {
    hide EscapeAll, UnicodeEscape, Hexadecimal;
    BodyIs([u] + rest);
    BodyIs(rest);
    BodyIs([]);
    NothingEscaped();
    HexadecimalIs(u);
    EscapesFirst(u, rest);
    if Paired(u, rest) {
      BodyIs(rest[1..]);
    }
  }

  lemma BodyIs(s: Text)
    ensures CanonicalJson(Str(s)) == [0x22] + EscapeAll(s) + [0x22] && Body(s) == EscapeAll(s)
  {
    hide EscapeAll;
  }

  lemma NothingEscaped()
    ensures EscapeAll([]) == []
  {
  }

  lemma HexadecimalIs(u: CodeUnit)
    ensures UnicodeEscape(u) == Hexadecimal(u)
  {
    HexDigit(u / 0x1000);
    HexDigit(u / 0x100 % 16);
    HexDigit(u / 0x10 % 16);
    HexDigit(u % 16);
  }

  lemma HexDigit(d: nat)
    requires d < 16
    ensures Hex(d) == LOWER_HEX[d]
  {
  }

  lemma EscapesFirst(u: CodeUnit, rest: Text)
    ensures var s := [u] + rest;
      EscapeAll(s) == Escape(s) + EscapeAll(if Paired(u, rest) then rest[1..] else rest)
  {
    hide Escape;
    var s := [u] + rest;
    assert s[1..] == rest && (rest != [] ==> s[2..] == rest[1..]);
  }

  // ---------------------------------------------------------------------------------------------
  // Numbers.

  ghost predicate Whole(t: Text) {
    Digits(t) && (t[0] == 0x30 ==> |t| == 1)
  }

  ghost predicate Fraction(t: Text) {
    t == [] || (t[0] == 0x2E && Digits(t[1..]))
  }

  ghost predicate Exponent(t: Text) {
    || t == []
    || (t[0] in {0x65, 0x45} && Digits(t[1..]))
    || (|t| > 1 && t[0] in {0x65, 0x45} && t[1] in {0x2B, 0x2D} && Digits(t[2..]))
  }

  ghost predicate Number(sign: Text, whole: Text, fraction: Text, exponent: Text) {
    (sign == [] || sign == [0x2D]) && Whole(whole) && Fraction(fraction) && Exponent(exponent)
  }

  /** A number: perhaps a minus sign, digits without a leading zero, perhaps a fraction, perhaps an exponent. */
  lemma NumberIs(t: Text)
    ensures NumberToken(t) <==> exists sign: Text, whole: Text, fraction: Text, exponent: Text ::
      Number(sign, whole, fraction, exponent) && t == sign + whole + fraction + exponent
  {
    hide IsUnsigned, Fraction, Exponent, Whole;
    if NumberToken(t) {
      var sign: Text := if t[0] == 0x2D then [0x2D] else [];
      var rest := t[|sign|..];
      UnsignedIs(rest);
      var w: Text, f: Text, e: Text :| Whole(w) && Fraction(f) && Exponent(e) && rest == w + f + e;
      assert Number(sign, w, f, e);
      assert t == sign + (w + f + e) == sign + w + f + e;
    }
    forall sign: Text, w: Text, f: Text, e: Text | Number(sign, w, f, e) && t == sign + w + f + e
      ensures NumberToken(t)
    {
      NumberUnits(w, f, e);
      UnsignedIs(w + f + e);
      hide *;
      Signed(sign, w + f + e);
      assert t == sign + (w + f + e);
    }
  }

  lemma Signed(sign: Text, rest: Text)
    requires (sign == [] || sign == [0x2D]) && rest != [] && IsDigit(rest[0]) && IsUnsigned(rest)
    requires forall i :: 0 <= i < |rest| ==> NumberUnit(rest[i])
    ensures NumberToken(sign + rest)
  {
    hide IsUnsigned;
    assert sign != [] ==> (sign + rest)[1..] == rest;
    assert sign == [] ==> sign + rest == rest;
  }

  lemma NumberUnits(w: Text, f: Text, e: Text)
    requires Whole(w) && Fraction(f) && Exponent(e)
    ensures w + f + e != [] && IsDigit((w + f + e)[0])
    ensures forall i :: 0 <= i < |w + f + e| ==> NumberUnit((w + f + e)[i])
  {
    forall i | 0 <= i < |f| ensures NumberUnit(f[i]) {
      assert i > 0 ==> f[i] == f[1..][i - 1];
    }
    forall i | 0 <= i < |e| ensures NumberUnit(e[i]) {
      assert i > 0 ==> e[i] == e[1..][i - 1];
      assert i > 1 ==> e[i] == e[2..][i - 2];
    }
  }

  lemma UnsignedIs(t: Text)
    ensures IsUnsigned(t) <==> exists w: Text, f: Text, e: Text ::
      Whole(w) && Fraction(f) && Exponent(e) && t == w + f + e
  {
    hide IsFraction, Fraction, Exponent;
    if IsUnsigned(t) {
      var n := DigitRun(t);
      RunIs(t);
      FractionIs(t[n..]);
      var f: Text, e: Text :| Fraction(f) && Exponent(e) && t[n..] == f + e;
      assert Whole(t[..n]);
      assert t == t[..n] + (f + e) == t[..n] + f + e;
    }
    forall w: Text, f: Text, e: Text | Whole(w) && Fraction(f) && Exponent(e) && t == w + f + e
      ensures IsUnsigned(t)
    {
      var rest := f + e;
      assert t == w + rest && t[|w|..] == rest;
      FractionIs(rest);
      FractionStarts(f, e);
      RunStops(w, rest);
    }
  }

  lemma FractionStarts(f: Text, e: Text)
    requires Fraction(f) && Exponent(e)
    ensures f + e == [] || !IsDigit((f + e)[0])
  {
  }

  lemma FractionIs(t: Text)
    ensures IsFraction(t) <==> exists f: Text, e: Text :: Fraction(f) && Exponent(e) && t == f + e
  {
    hide IsExponent, Exponent;
    if IsFraction(t) {
      var n := if t != [] && t[0] == 0x2E then 1 + DigitRun(t[1..]) else 0;
      if n > 0 {
        RunIs(t[1..]);
        assert t[..n][1..] == t[1..][..n - 1];
      }
      assert Fraction(t[..n]);
      ExponentIs(t[n..]);
      assert t == t[..n] + t[n..];
    }
    forall f: Text, e: Text | Fraction(f) && Exponent(e) && t == f + e ensures IsFraction(t) {
      ExponentIs(e);
      FractionStarts([], e);
      ExponentStarts(e);
      if f != [] {
        assert t[1..] == f[1..] + e;
        RunStops(f[1..], e);
        assert t[1 + |f[1..]|..] == e;
      } else {
        assert t == e;
      }
    }
  }

  lemma ExponentStarts(e: Text)
    requires Exponent(e)
    ensures e != [] ==> e[0] in {0x65, 0x45}
  {
  }

  lemma ExponentIs(t: Text)
    ensures IsExponent(t) <==> Exponent(t)
  {
    if t != [] {
      RunStops(t[1..], []);
      if |t| > 1 {
        RunStops(t[2..], []);
      }
    }
  }

  // ---------------------------------------------------------------------------------------------
  // Values.

  lemma ScalarText(token: Text)
    ensures CanonicalJson(Null) == [0x6E, 0x75, 0x6C, 0x6C]
    ensures CanonicalJson(Bool(true)) == [0x74, 0x72, 0x75, 0x65]
    ensures CanonicalJson(Bool(false)) == [0x66, 0x61, 0x6C, 0x73, 0x65]
    ensures CanonicalJson(Num(token)) == token
  {
  }

  /** Items in their order, commas between them, no white space. */
  lemma ArrayText(x: Json, xs: seq<Json>)
    ensures CanonicalJson(Arr([])) == [0x5B, 0x5D]
    ensures CanonicalJson(Arr([x])) == [0x5B] + CanonicalJson(x) + [0x5D]
    ensures xs != [] ==>
      CanonicalJson(Arr([x] + xs)) == [0x5B] + CanonicalJson(x) + [0x2C] + CanonicalJson(Arr(xs))[1..]
  {
    ArrayIs([x] + xs);
    ArrayIs(xs);
    ArrayIs([x]);
    ArrayIs([]);
    hide *;
    OneMoreItem(x, xs);
    OneMoreItem(x, []);
    assert [x] + [] == [x];
    JoinStep(CanonicalJson(x), []);
    JoinStep(CanonicalJson(x), CanonicalItems(xs));
    Spliced(CanonicalJson(x), Join(CanonicalItems(xs)), 0x5B, 0x5D);
  }

  lemma ArrayIs(xs: seq<Json>)
    ensures CanonicalJson(Arr(xs)) == [0x5B] + Join(CanonicalItems(xs)) + [0x5D]
    ensures |CanonicalItems(xs)| == |xs|
  {
    hide CanonicalItems, Join;
    ItemsTogether(xs);
  }

  lemma OneMoreItem(x: Json, xs: seq<Json>)
    ensures CanonicalItems([]) == [] && CanonicalItems([x] + xs) == [CanonicalJson(x)] + CanonicalItems(xs)
  {
    hide CanonicalJson;
    assert ([x] + xs)[1..] == xs;
  }

  lemma JoinStep(t: Text, ts: seq<Text>)
    ensures Join([]) == []
    ensures Join([t] + ts) == if ts == [] then t else t + [0x2C] + Join(ts)
  {
    assert ([t] + ts)[1..] == ts;
  }

  lemma {:induction false} ItemsTogether(xs: seq<Json>)
    ensures |CanonicalItems(xs)| == |xs|
  {
    if xs != [] {
      ItemsTogether(xs[1..]);
    }
  }

  /** Keys in strictly ascending order. */
  ghost predicate KeysAscend(entries: seq<Entry>) {
    forall i, k :: 0 <= i < k < |entries| ==> Less(entries[i].key, entries[k].key)
  }

  /** At every depth. */
  ghost predicate Ordered(j: Json) {
    match j
    case Arr(items) => forall i :: 0 <= i < |items| ==> Ordered(items[i])
    case Obj(entries) => KeysAscend(entries) && forall i :: 0 <= i < |entries| ==> Ordered(entries[i].value)
    case _ => true
  }

  /** In the sorted tree every key is less than the next, at every depth. */
  lemma {:induction false} CanonOrdered(j: Json)
    requires Valid(j)
    ensures Ordered(Canon(j))
    decreases j
  {
    match j
    case Arr(items) =>
      forall i | 0 <= i < |items| ensures Ordered(CanonItems(items)[i]) {
        CanonOrdered(items[i]);
      }
    case Obj(entries) =>
      var canon := CanonEntries(entries);
      forall i | 0 <= i < |canon| ensures Ordered(canon[i].value) {
        CanonOrdered(entries[i].value);
      }
      JsonReader.CanonKeysDistinct(entries);
      SortedOrdered(canon);
    case _ =>
  }

  lemma SortedOrdered(entries: seq<Entry>)
    requires DistinctKeys(entries) && forall i :: 0 <= i < |entries| ==> Ordered(entries[i].value)
    ensures Ordered(Obj(Sorting.Sort(entries, EntryByKey)))
  {
    var sorted := Sorting.Sort(entries, EntryByKey);
    JsonReader.EntryOrderTotal();
    Sorting.SortAscends(entries, EntryByKey);
    Sorting.SortKeeps(entries, EntryByKey);
    JsonReader.SortedKeysDistinct(entries);
    forall i, k | 0 <= i < k < |sorted| ensures Less(sorted[i].key, sorted[k].key) {
      assert EntryByKey(sorted[i], sorted[k]);
      LessTotal(sorted[i].key, sorted[k].key);
    }
    forall i | 0 <= i < |sorted| ensures Ordered(sorted[i].value) {
      assert sorted[i] in sorted;
    }
  }

  /** Members in ascending order of their keys: name, colon, value, commas between them, no white space. */
  lemma ObjectText(e: Entry, es: seq<Entry>)
    requires KeysAscend([e] + es)
    ensures CanonicalJson(Obj([])) == [0x7B, 0x7D]
    ensures var member := CanonicalJson(Str(e.key)) + [0x3A] + CanonicalJson(e.value);
      && CanonicalJson(Obj([e])) == [0x7B] + member + [0x7D]
      && (es != [] ==> CanonicalJson(Obj([e] + es)) == [0x7B] + member + [0x2C] + CanonicalJson(Obj(es))[1..])
  {
    hide CanonicalJson, CanonicalMembers, MemberTexts, Join;
    var member := CanonicalJson(Str(e.key)) + [0x3A] + CanonicalJson(e.value);
    var texts := MemberTexts(CanonicalMembers(es));
    TailAscends(e, es);
    ObjectIs([e] + es);
    ObjectIs(es);
    ObjectIs([e]);
    ObjectIs([]);
    hide *;
    OneMoreMember(e, es);
    OneMoreMember(e, []);
    assert [e] + [] == [e];
    JoinStep(member, []);
    JoinStep(member, texts);
    Spliced(member, Join(texts), 0x7B, 0x7D);
  }

  lemma TailAscends(e: Entry, es: seq<Entry>)
    requires KeysAscend([e] + es)
    ensures KeysAscend(es) && KeysAscend([e]) && KeysAscend([])
  {
    assert forall i :: 0 <= i < |es| ==> ([e] + es)[i + 1] == es[i];
  }

  /** The rest of a bracketed list, after its opening bracket. */
  lemma Spliced(first: Text, rest: Text, open: CodeUnit, close: CodeUnit)
    ensures [open] + (first + [0x2C] + rest) + [close] == [open] + first + [0x2C] + ([open] + rest + [close])[1..]
  {
    assert ([open] + rest + [close])[1..] == rest + [close];
  }

  lemma ObjectIs(es: seq<Entry>)
    requires KeysAscend(es)
    ensures CanonicalJson(Obj(es)) == [0x7B] + Join(MemberTexts(CanonicalMembers(es))) + [0x7D]
    ensures |MemberTexts(CanonicalMembers(es))| == |es|
  {
    MembersAscend(es);
    hide CanonicalMembers, Sorting.Sort, MemberTexts;
    MembersTogether(CanonicalMembers(es));
  }

  lemma OneMoreMember(e: Entry, es: seq<Entry>)
    ensures MemberTexts(CanonicalMembers([])) == []
    ensures MemberTexts(CanonicalMembers([e] + es))
      == [CanonicalJson(Str(e.key)) + [0x3A] + CanonicalJson(e.value)] + MemberTexts(CanonicalMembers(es))
  {
    hide Quote;
    assert ([e] + es)[1..] == es;
    var m := Member(e.key, CanonicalJson(e.value));
    assert ([m] + CanonicalMembers(es))[1..] == CanonicalMembers(es);
  }

  lemma {:induction false} MembersTogether(members: seq<Member>)
    ensures |MemberTexts(members)| == |members|
  {
    if members != [] {
      MembersTogether(members[1..]);
    }
  }

  lemma {:induction false} MembersAscend(es: seq<Entry>)
    requires KeysAscend(es)
    ensures Sorting.Sort(CanonicalMembers(es), ByKey) == CanonicalMembers(es)
    ensures |CanonicalMembers(es)| == |es| && (es != [] ==> CanonicalMembers(es)[0].key == es[0].key)
  {
    if es != [] {
      assert forall i, k :: 0 <= i < k < |es[1..]| ==> es[1..][i] == es[i + 1] && es[1..][k] == es[k + 1];
      MembersAscend(es[1..]);
      if |es| > 1 {
        assert Less(es[0].key, es[1].key);
        LessTotal(es[0].key, es[1].key);
      }
    }
  }
}
