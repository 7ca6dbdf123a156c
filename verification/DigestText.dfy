/** What the expectations digest is computed from (benchmarks/lib/adversarial-intake.ts), letter by letter. */
module DigestText {
  import opened Text
  import opened Ranges
  import opened IntakeTypes
  import opened Numerals
  import opened JsonPrinter
  import opened JsonText
  import opened Expectations
  import JsonReader
  import Utf8

  /** Text in which nothing is escaped is written as it is. */
  predicate Plain(t: Text) {
    forall i :: 0 <= i < |t| ==> 0x20 <= t[i] < 0x80 && t[i] != 0x22 && t[i] != 0x5C
  }

  lemma {:induction false} PlainText(t: Text)
    requires Plain(t)
    ensures Body(t) == t && CanonicalJson(Str(t)) == [0x22] + t + [0x22]
  {
    hide Body, Hexadecimal, Paired, CanonicalJson;
    StringText(0, t);
    BodyIs(t);
    if t != [] {
      assert t == [t[0]] + t[1..];
      StringText(t[0], t[1..]);
      PlainText(t[1..]);
    } else {
      StringText(0, []);
    }
  }

  /** `"key":value` */
  function Named(key: string, value: Text): Text {
    [0x22] + Ascii(key) + [0x22, 0x3A] + value
  }

  function MemberText(e: Entry): Text {
    CanonicalJson(Str(e.key)) + [0x3A] + CanonicalJson(e.value)
  }

  lemma NamedMember(key: string, value: Json)
    requires Plain(Ascii(key))
    ensures MemberText(Entry(Ascii(key), value)) == Named(key, CanonicalJson(value))
  {
    hide CanonicalJson, Ascii;
    PlainText(Ascii(key));
  }

  /** The text of ascending members, without the braces. */
  function Inner(es: seq<Entry>): Text {
    if es == [] then []
    else if |es| == 1 then MemberText(es[0])
    else MemberText(es[0]) + [0x2C] + Inner(es[1..])
  }

  lemma {:induction false} InnerText(es: seq<Entry>)
    requires KeysAscend(es)
    ensures CanonicalJson(Obj(es)) == [0x7B] + Inner(es) + [0x7D]
  {
    hide CanonicalJson, KeysAscend;
    if es == [] {
      TailAscends(Entry([], Null), []) by { OneAscends(); }
      ObjectText(Entry([], Null), []) by { OneAscends(); }
    } else {
      assert es == [es[0]] + es[1..];
      TailAscends(es[0], es[1..]);
      ObjectText(es[0], es[1..]);
      if es[1..] != [] {
        InnerText(es[1..]);
        assert ([0x7B] + Inner(es[1..]) + [0x7D])[1..] == Inner(es[1..]) + [0x7D];
      } else {
        assert es == [es[0]] && |es| == 1;
      }
    }
  }

  lemma OneAscends()
    ensures KeysAscend([Entry([], Null)] + [])
  {
  }

  /** Objects with the same members have the same text. */
  lemma SameMembers(es: seq<Entry>, fs: seq<Entry>)
    requires DistinctKeys(es) && DistinctKeys(fs) && forall e :: e in es <==> e in fs
    ensures CanonicalJson(Obj(es)) == CanonicalJson(Obj(fs))
  {
    hide Put, Canon, CanonicalJson;
    PrintsSorted(Obj(es));
    PrintsSorted(Obj(fs));
    CanonMembers(es, fs);
    CanonMembers(fs, es);
    JsonReader.EqualWhenSorted(es, fs);
  }

  lemma CanonMembers(es: seq<Entry>, fs: seq<Entry>)
    requires forall e :: e in es ==> e in fs
    ensures forall e :: e in CanonEntries(es) ==> e in CanonEntries(fs)
  {
    hide Canon;
    forall e | e in CanonEntries(es) ensures e in CanonEntries(fs) {
      var i :| 0 <= i < |es| && CanonEntries(es)[i] == e;
      assert es[i] in es && es[i] in fs;
      var k :| 0 <= k < |fs| && fs[k] == es[i];
      assert CanonEntries(fs)[k] == e;
    }
  }

  /** A range: its end, then its start. */
  lemma RangeText(r: Range)
    ensures CanonicalJson(RangeJson(r)) ==
      [0x7B] + Named("end", IntegerText(r.end)) + [0x2C] + Named("start", IntegerText(r.start)) + [0x7D]
  {
    hide CanonicalJson, IntegerText;
    var start, end := Entry(Ascii("start"), Num(IntegerText(r.start))), Entry(Ascii("end"), Num(IntegerText(r.end)));
    assert Less(end.key, start.key) by { assert end.key[0] == 0x65 && start.key[0] == 0x73; }
    SameMembers([start, end], [end, start]);
    InnerText([end, start]);
    NamedMember("end", end.value);
    NamedMember("start", start.value);
    ScalarText(IntegerText(r.start));
    ScalarText(IntegerText(r.end));
    assert [end, start][1..] == [start];
  }

  /** A fixture: action, content, expected ranges, id and path, and nothing else of it. */
  lemma FixtureText(f: Fixture)
    ensures CanonicalJson(Projection(f)) ==
      [0x7B] + Named("action", [0x22] + Ascii(if f.action.MustRedact? then "must-redact" else "must-not-flag") + [0x22])
        + [0x2C] + Named("content", CanonicalJson(Str(f.content)))
        + [0x2C] + Named("expected", CanonicalJson(Arr(RangesJson(f.expected))))
        + [0x2C] + Named("id", CanonicalJson(Str(f.id)))
        + [0x2C] + Named("path", CanonicalJson(Str(f.path))) + [0x7D]
  {
    hide CanonicalJson, Named, Inner, MemberText;
    var action, content := Entry(Ascii("action"), Str(ActionText(f.action))), Entry(Ascii("content"), Str(f.content));
    var expected := Entry(Ascii("expected"), Arr(RangesJson(f.expected)));
    var id, path := Entry(Ascii("id"), Str(f.id)), Entry(Ascii("path"), Str(f.path));
    FixtureSorted(f, [action, content, expected, id, path]);
    PlainText(ActionText(f.action));
    NamedMember("action", action.value);
    NamedMember("content", content.value);
    NamedMember("expected", expected.value);
    NamedMember("id", id.value);
    NamedMember("path", path.value);
    FiveMembers(action, content, expected, id, path);
    hide *;
  }

  lemma FixtureSorted(f: Fixture, sorted: seq<Entry>)
    requires sorted == [
      Entry(Ascii("action"), Str(ActionText(f.action))), Entry(Ascii("content"), Str(f.content)),
      Entry(Ascii("expected"), Arr(RangesJson(f.expected))), Entry(Ascii("id"), Str(f.id)),
      Entry(Ascii("path"), Str(f.path))]
    ensures CanonicalJson(Projection(f)) == [0x7B] + Inner(sorted) + [0x7D]
  {
    hide CanonicalJson, Inner, Ascii;
    FixtureKeys();
    var es := Projection(f).entries;
    SameMembers(es, sorted);
    InnerText(sorted);
  }

  lemma FixtureKeys()
    ensures Ascii("action")[0] == 0x61 && Ascii("content")[0] == 0x63 && Ascii("expected")[0] == 0x65
    ensures Ascii("id")[0] == 0x69 && Ascii("path")[0] == 0x70
  {
  }

  lemma FiveMembers(a: Entry, b: Entry, c: Entry, d: Entry, e: Entry)
    ensures Inner([a, b, c, d, e]) ==
      MemberText(a) + [0x2C] + MemberText(b) + [0x2C] + MemberText(c) + [0x2C] + MemberText(d) + [0x2C] + MemberText(e)
  {
    InnerStep(a, [b, c, d, e]);
    InnerStep(b, [c, d, e]);
    InnerStep(c, [d, e]);
    InnerStep(d, [e]);
    InnerStep(e, []);
    hide *;
    assert [a] + [b, c, d, e] == [a, b, c, d, e] && [b] + [c, d, e] == [b, c, d, e];
    assert [c] + [d, e] == [c, d, e] && [d] + [e] == [d, e] && [e] + [] == [e];
  }

  lemma InnerStep(e: Entry, es: seq<Entry>)
    ensures Inner([e] + es) == if es == [] then MemberText(e) else MemberText(e) + [0x2C] + Inner(es)
  {
    hide MemberText;
    assert ([e] + es)[1..] == es;
  }

  /** The digest is of the fixtures' texts in a JSON array, in the order of the pack. */
  lemma DigestOf(f: Fixture, fs: seq<Fixture>)
    ensures ExpectationsDigest(fs) == Sha256(Utf8.Encode(CanonicalJson(Arr(Projections(fs)))))
    ensures CanonicalJson(Arr(Projections([]))) == [0x5B, 0x5D]
    ensures CanonicalJson(Arr(Projections([f]))) == [0x5B] + CanonicalJson(Projection(f)) + [0x5D]
    ensures fs != [] ==>
      CanonicalJson(Arr(Projections([f] + fs))) ==
        [0x5B] + CanonicalJson(Projection(f)) + [0x2C] + CanonicalJson(Arr(Projections(fs)))[1..]
  {
    hide CanonicalJson, Projection, Utf8.Encode;
    assert [f][1..] == [] && ([f] + fs)[1..] == fs;
    assert Projections([f]) == [Projection(f)];
    ArrayText(Projection(f), Projections(fs));
  }
}
