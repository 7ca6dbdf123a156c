/** `expectationsDigest` (benchmarks/lib/adversarial-intake.ts): the digest that commits a pack's
    expectations. SHA-256 is taken as injective: a digest is what was hashed. */
module Expectations {
  import opened Text
  import opened Ranges
  import opened IntakeTypes
  import opened JsonPrinter
  import opened Numerals
  import JsonReader
  import Utf8

  datatype Digest = Sha256(bytes: seq<Utf8.Byte>)

  /** `createHash('sha256').update(text)` hashes the UTF-8 encoding of a string. */
  function HashText(text: Text): Digest {
    Sha256(Utf8.Encode(text))
  }

  function RangeJson(r: Range): Json {
    Obj([Entry(Ascii("start"), Num(IntegerText(r.start))), Entry(Ascii("end"), Num(IntegerText(r.end)))])
  }

  function RangesJson(rs: seq<Range>): (r: seq<Json>)
    ensures |r| == |rs| && forall i :: 0 <= i < |r| ==> r[i] == RangeJson(rs[i])
  {
    if rs == [] then [] else [RangeJson(rs[0])] + RangesJson(rs[1..])
  }

  function ActionText(action: Action): Text {
    if action.MustRedact? then Ascii("must-redact") else Ascii("must-not-flag")
  }

  /** What the digest covers of a fixture. */
  function Projection(f: Fixture): Json {
    Obj([Entry(Ascii("id"), Str(f.id)), Entry(Ascii("path"), Str(f.path)), Entry(Ascii("content"), Str(f.content)),
         Entry(Ascii("action"), Str(ActionText(f.action))), Entry(Ascii("expected"), Arr(RangesJson(f.expected)))])
  }

  function Projections(fixtures: seq<Fixture>): (r: seq<Json>)
    ensures |r| == |fixtures| && forall i :: 0 <= i < |r| ==> r[i] == Projection(fixtures[i])
  {
    if fixtures == [] then [] else [Projection(fixtures[0])] + Projections(fixtures[1..])
  }

  function ExpectationsDigest(fixtures: seq<Fixture>): Digest {
    HashText(CanonicalJson(Arr(Projections(fixtures))))
  }

  // ---------------------------------------------------------------------------------------------
  // Printed text never holds a lone surrogate, so its encoding loses nothing.

  lemma PlainThen(u: CodeUnit, rest: Text)
    requires Utf8.WellFormed(rest) && !Utf8.High(u) && !Utf8.Low(u)
    ensures Utf8.WellFormed([u] + rest)
  {
    assert ([u] + rest)[1..] == rest;
  }

  lemma {:induction false} PlainAll(token: Text, rest: Text)
    requires Utf8.WellFormed(rest) && forall i :: 0 <= i < |token| ==> token[i] < 0x80
    ensures Utf8.WellFormed(token + rest)
  {
    if token == [] {
      assert token + rest == rest;
    } else {
      PlainAll(token[1..], rest);
      PlainThen(token[0], token[1..] + rest);
      assert token + rest == [token[0]] + (token[1..] + rest);
    }
  }

  lemma EscapeThen(s: Text, rest: Text)
    requires s != [] && Utf8.WellFormed(rest)
    ensures Utf8.WellFormed(Escape(s) + rest)
  {
    if Utf8.StartsWithPair(s) {
      assert (s[..2] + rest)[2..] == rest;
    } else if Letter(s[0]) != 0 || s[0] < 0x20 || Utf8.High(s[0]) || Utf8.Low(s[0]) {
      PlainAll(Escape(s), rest);
    } else {
      PlainThen(s[0], rest);
    }
  }

  lemma {:induction false} UnitsWellFormed(s: Text, rest: Text)
    requires Utf8.WellFormed(rest)
    ensures Utf8.WellFormed(PutUnits(s, rest))
    decreases |s|
  {
    hide Utf8.WellFormed, Escape;
    if s != [] {
      UnitsWellFormed(s[Utf8.Units(s)..], rest);
      EscapeThen(s, PutUnits(s[Utf8.Units(s)..], rest));
    }
  }

  lemma StringWellFormed(s: Text, rest: Text)
    requires Utf8.WellFormed(rest)
    ensures Utf8.WellFormed(PutString(s, rest))
  {
    hide Utf8.WellFormed, PutUnits;
    PlainThen(QUOTE, rest);
    UnitsWellFormed(s, [QUOTE] + rest);
    PlainThen(QUOTE, PutUnits(s, [QUOTE] + rest));
  }

  lemma {:induction false} PutWellFormed(j: Json, rest: Text)
    requires Valid(j) && Utf8.WellFormed(rest)
    ensures Utf8.WellFormed(Put(j, rest))
    decreases j, 1
  {
    hide Utf8.WellFormed, PutItems, PutEntries, PutUnits, DistinctKeys;
    match j
    case Null => PlainAll(NULL, rest);
    case Bool(truth) => PlainAll(if truth then TRUE else FALSE, rest);
    case Num(token) => PlainAll(token, rest);
    case Str(text) => StringWellFormed(text, rest);
    case Arr(items) =>
      PlainThen(RIGHT_BRACKET, rest);
      ItemsWellFormed(items, [RIGHT_BRACKET] + rest);
      PlainThen(LEFT_BRACKET, PutItems(items, [RIGHT_BRACKET] + rest));
    case Obj(entries) =>
      PlainThen(RIGHT_BRACE, rest);
      EntriesWellFormed(entries, [RIGHT_BRACE] + rest);
      PlainThen(LEFT_BRACE, PutEntries(entries, [RIGHT_BRACE] + rest));
  }

  lemma {:induction false} ItemsWellFormed(items: seq<Json>, rest: Text)
    requires (forall i :: 0 <= i < |items| ==> Valid(items[i])) && Utf8.WellFormed(rest)
    ensures Utf8.WellFormed(PutItems(items, rest))
    decreases items, 2
  {
    hide Utf8.WellFormed, Put;
    if |items| == 1 {
      PutWellFormed(items[0], rest);
    } else if items != [] {
      ItemsWellFormed(items[1..], rest);
      PlainThen(COMMA, PutItems(items[1..], rest));
      PutWellFormed(items[0], [COMMA] + PutItems(items[1..], rest));
    }
  }

  lemma {:induction false} EntryWellFormed(e: Entry, rest: Text)
    requires Valid(e.value) && Utf8.WellFormed(rest)
    ensures Utf8.WellFormed(PutEntry(e, rest))
    decreases e, 2
  {
    hide Utf8.WellFormed, Put, PutString;
    PutWellFormed(e.value, rest);
    PlainThen(COLON, Put(e.value, rest));
    StringWellFormed(e.key, [COLON] + Put(e.value, rest));
  }

  lemma {:induction false} EntriesWellFormed(entries: seq<Entry>, rest: Text)
    requires (forall i :: 0 <= i < |entries| ==> Valid(entries[i].value)) && Utf8.WellFormed(rest)
    ensures Utf8.WellFormed(PutEntries(entries, rest))
    decreases entries, 2
  {
    hide Utf8.WellFormed, PutEntry;
    if |entries| == 1 {
      EntryWellFormed(entries[0], rest);
    } else if entries != [] {
      EntriesWellFormed(entries[1..], rest);
      PlainThen(COMMA, PutEntries(entries[1..], rest));
      EntryWellFormed(entries[0], [COMMA] + PutEntries(entries[1..], rest));
    }
  }

  /** The digests of two printed values agree exactly when the values are equal up to key order. */
  lemma HashedAlike(a: Json, b: Json)
    requires Valid(a) && Valid(b)
    ensures HashText(CanonicalJson(a)) == HashText(CanonicalJson(b)) <==> Same(a, b)
  {
    hide JsonPrinter.CanonicalJson, Put, Canon, Utf8.Encode, Utf8.WellFormed, Valid, Same;
    PrintedWellFormed(a);
    PrintedWellFormed(b);
    JsonReader.PrintedAlike(a, b);
    if Utf8.Encode(CanonicalJson(a)) == Utf8.Encode(CanonicalJson(b)) {
      Utf8.EncodeInjective(CanonicalJson(a), CanonicalJson(b));
    }
  }

  lemma PrintedWellFormed(j: Json)
    requires Valid(j)
    ensures Utf8.WellFormed(CanonicalJson(j))
  {
    hide JsonPrinter.CanonicalJson, Put, Canon, Valid;
    PrintsSorted(j);
    JsonReader.CanonValid(j);
    PutWellFormed(Canon(j), []);
  }

  // ---------------------------------------------------------------------------------------------
  // What the digest commits to.

  lemma IntegerIsNumber(n: int)
    ensures NumberToken(IntegerText(n))
  {
    hide Decimal;
    var t := Decimal(if n < 0 then -n else n);
    AllDigits(t);
    assert t[|t|..] == [];
    assert n < 0 ==> IntegerText(n)[1..] == t;
  }

  /** Objects with the same keys in the same places are the same when their values are. */
  lemma SamePlaces(es: seq<Entry>, fs: seq<Entry>)
    requires DistinctKeys(es) && |es| == |fs| && forall k :: 0 <= k < |es| ==> es[k].key == fs[k].key
    ensures Same(Obj(es), Obj(fs)) <==> forall i :: 0 <= i < |es| ==> Same(es[i].value, fs[i].value)
  {
    hide JsonReader.EachLike, JsonReader.EachLiked, Same;
    JsonReader.SameByLikes(es, fs);
    if JsonReader.EachLike(es, fs) {
      LikeInPlace(es, fs);
    }
    if forall i :: 0 <= i < |es| ==> Same(es[i].value, fs[i].value) {
      InPlaceLike(es, fs);
    }
  }

  lemma LikeInPlace(es: seq<Entry>, fs: seq<Entry>)
    requires DistinctKeys(es) && |es| == |fs| && forall k :: 0 <= k < |es| ==> es[k].key == fs[k].key
    requires JsonReader.EachLike(es, fs)
    ensures forall i :: 0 <= i < |es| ==> Same(es[i].value, fs[i].value)
  {
    hide Same, JsonReader.Like, DistinctKeys;
    forall i | 0 <= i < |es| ensures Same(es[i].value, fs[i].value) {
      assert es[i] in es;
      var f :| f in fs && JsonReader.Like(es[i], f);
      var k :| 0 <= k < |fs| && fs[k] == f;
      LikePlaces(es, fs, i, k);
    }
  }

  lemma InPlaceLike(es: seq<Entry>, fs: seq<Entry>)
    requires |es| == |fs| && forall k :: 0 <= k < |es| ==> es[k].key == fs[k].key
    requires forall i :: 0 <= i < |es| ==> Same(es[i].value, fs[i].value)
    ensures JsonReader.EachLike(es, fs) && JsonReader.EachLiked(es, fs)
  {
    hide Same;
    forall e | e in es ensures exists f :: f in fs && JsonReader.Like(e, f) {
      var i :| 0 <= i < |es| && es[i] == e;
      assert fs[i] in fs && JsonReader.Like(e, fs[i]);
    }
    forall f | f in fs ensures exists e :: e in es && JsonReader.Like(e, f) {
      var i :| 0 <= i < |fs| && fs[i] == f;
      assert es[i] in es && JsonReader.Like(es[i], f);
    }
  }

  lemma LikePlaces(es: seq<Entry>, fs: seq<Entry>, i: nat, k: nat)
    requires DistinctKeys(es) && |es| == |fs| && forall k :: 0 <= k < |es| ==> es[k].key == fs[k].key
    requires i < |es| && k < |es|
    ensures JsonReader.Like(es[i], fs[k]) <==> i == k && Same(es[i].value, fs[i].value)
  {
    hide Same;
  }

  lemma RangeValid(r: Range)
    ensures Valid(RangeJson(r)) && DistinctKeys(RangeJson(r).entries)
  {
    IntegerIsNumber(r.start);
    IntegerIsNumber(r.end);
    hide IntegerText, Ascii, NumberToken;
  }

  lemma NumberSame(m: int, n: int)
    ensures Same(Num(IntegerText(m)), Num(IntegerText(n))) <==> m == n
  {
    hide IntegerText;
    if IntegerText(m) == IntegerText(n) {
      IntegerTextInjective(m, n);
    }
  }

  lemma RangeSame(r: Range, s: Range)
    ensures Same(RangeJson(r), RangeJson(s)) <==> r == s
  {
    RangeValid(r);
    NumberSame(r.start, s.start);
    NumberSame(r.end, s.end);
    hide IntegerText, Ascii, Same, DistinctKeys, Valid;
    var es, fs := RangeJson(r).entries, RangeJson(s).entries;
    SamePlaces(es, fs);
    assert Same(es[0].value, fs[0].value) <==> r.start == s.start;
    assert Same(es[1].value, fs[1].value) <==> r.end == s.end;
  }

  lemma ArraysSame(xs: seq<Json>, ys: seq<Json>)
    ensures Valid(Arr(xs)) <==> forall i :: 0 <= i < |xs| ==> Valid(xs[i])
    ensures Same(Arr(xs), Arr(ys)) <==> |xs| == |ys| && forall i :: 0 <= i < |xs| ==> Same(xs[i], ys[i])
  {
  }

  lemma RangesSame(rs: seq<Range>, ss: seq<Range>)
    ensures Valid(Arr(RangesJson(rs)))
    ensures Same(Arr(RangesJson(rs)), Arr(RangesJson(ss))) <==> rs == ss
  {
    hide RangeJson, Valid, Same;
    var xs, ys := RangesJson(rs), RangesJson(ss);
    ArraysSame(xs, ys);
    forall i | 0 <= i < |rs| ensures Valid(xs[i]) {
      RangeValid(rs[i]);
    }
    if |rs| == |ss| {
      forall i | 0 <= i < |rs| ensures Same(xs[i], ys[i]) <==> rs[i] == ss[i] {
        RangeSame(rs[i], ss[i]);
      }
    }
  }

  /** All that a scanner's result can be compared against. */
  ghost predicate SameExpectations(f: Fixture, g: Fixture) {
    f.id == g.id && f.path == g.path && f.content == g.content && f.action == g.action && f.expected == g.expected
  }

  lemma ProjectionKeys(f: Fixture)
    ensures DistinctKeys(Projection(f).entries)
  {
    hide RangesJson, ActionText, Ascii;
  }

  lemma ActionTextInjective(a: Action, b: Action)
    requires ActionText(a) == ActionText(b)
    ensures a == b
  {
    hide Ascii;
  }

  lemma ProjectionValid(f: Fixture)
    ensures Valid(Projection(f))
  {
    hide RangesJson, ActionText, DistinctKeys, Ascii;
    ProjectionKeys(f);
    RangesSame(f.expected, f.expected);
  }

  lemma ProjectionSame(f: Fixture, g: Fixture)
    ensures Same(Projection(f), Projection(g)) <==> SameExpectations(f, g)
  {
    ProjectionKeys(f);
    ValuesSame(f, g);
    hide RangesJson, Ascii, DistinctKeys, ActionText, Same;
    SamePlaces(Projection(f).entries, Projection(g).entries);
  }

  lemma ValuesSame(f: Fixture, g: Fixture)
    ensures var es, fs := Projection(f).entries, Projection(g).entries;
      && (Same(es[0].value, fs[0].value) <==> f.id == g.id)
      && (Same(es[1].value, fs[1].value) <==> f.path == g.path)
      && (Same(es[2].value, fs[2].value) <==> f.content == g.content)
      && (Same(es[3].value, fs[3].value) <==> f.action == g.action)
      && (Same(es[4].value, fs[4].value) <==> f.expected == g.expected)
  {
    hide RangesJson, Ascii, ActionText, Same;
    TextSame(f.id, g.id);
    TextSame(f.path, g.path);
    TextSame(f.content, g.content);
    TextSame(ActionText(f.action), ActionText(g.action));
    if ActionText(f.action) == ActionText(g.action) {
      ActionTextInjective(f.action, g.action);
    }
    RangesSame(f.expected, g.expected);
  }

  lemma TextSame(a: Text, b: Text)
    ensures Same(Str(a), Str(b)) <==> a == b
  {
  }

  /** The digest changes exactly when some fixture's id, path, content, action or ranges change, or
      fixtures are added, dropped or reordered. */
  lemma DigestCommits(fs: seq<Fixture>, gs: seq<Fixture>)
    ensures ExpectationsDigest(fs) == ExpectationsDigest(gs) <==>
      |fs| == |gs| && forall i :: 0 <= i < |fs| ==> SameExpectations(fs[i], gs[i])
  {
    hide Projection, JsonPrinter.CanonicalJson, HashText, SameExpectations, Valid, Same;
    var ps, qs := Projections(fs), Projections(gs);
    ArraysSame(ps, qs);
    ArraysSame(qs, ps);
    forall i | 0 <= i < |fs| ensures Valid(ps[i]) {
      ProjectionValid(fs[i]);
    }
    forall i | 0 <= i < |gs| ensures Valid(qs[i]) {
      ProjectionValid(gs[i]);
    }
    HashedAlike(Arr(ps), Arr(qs));
    if |fs| == |gs| {
      forall i | 0 <= i < |fs| ensures Same(ps[i], qs[i]) <==> SameExpectations(fs[i], gs[i]) {
        ProjectionSame(fs[i], gs[i]);
      }
    }
  }
}
