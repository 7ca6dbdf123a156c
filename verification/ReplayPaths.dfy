/** What scripts/compare-replay-effects.ts matches items by and which bucket a path falls into, in literals. */
module ReplayPaths {
  import opened Options
  import opened Text
  import opened Numerals
  import opened JsonPrinter
  import opened ReplayDiff
  import opened ReplayBuckets
  import JsonReader
  import JsonText

  ghost predicate Ends(t: Text, tail: Text) {
    exists head: Text :: t == head + tail
  }

  ghost predicate Starts(t: Text, head: Text) {
    exists tail: Text :: t == head + tail
  }

  lemma EndsIs(t: Text, tail: Text)
    ensures EndsWith(t, tail) <==> Ends(t, tail)
  {
    if EndsWith(t, tail) {
      assert t == t[..|t| - |tail|] + tail;
    }
  }

  lemma StartsIs(t: Text, head: Text)
    ensures Begins(t, head) <==> Starts(t, head)
  {
    if Begins(t, head) {
      assert t == head + t[|head|..];
    }
  }

  lemma Unalike(s: string, t: string, i: nat)
    requires |s| != |t| || (i < |s| && s[i] as int < 0x80 && t[i] as int < 0x80 && s[i] != t[i])
    ensures Ascii(s) != Ascii(t)
  {
    if |s| == |t| {
      assert Ascii(s)[i] != Ascii(t)[i];
    }
  }

  /** Two texts whose ends differ in the unit `i` before the last cannot both end a text. */
  lemma Apart(np: Text, s: string, t: string, i: nat)
    requires i < |s| && i < |t| && s[|s| - 1 - i] as int < 0x80 && t[|t| - 1 - i] as int < 0x80
    requires s[|s| - 1 - i] != t[|t| - 1 - i]
    ensures !(EndsWith(np, Ascii(s)) && EndsWith(np, Ascii(t)))
  {
    var a, b := Ascii(s), Ascii(t);
    if |a| <= |np| && |b| <= |np| {
      assert np[|np| - |a|..][|a| - 1 - i] == np[|np| - 1 - i] == np[|np| - |b|..][|b| - 1 - i];
    }
  }

  lemma EndsItself(t: Text)
    ensures EndsWith(t, t)
  {
  }

  /** No two of the paths and endings that pick a key overlap. */
  lemma PlacesApart(np: Text)
    ensures EndsWith(np, Ascii("components")) ==>
      && !EndsWith(np, Ascii("/scanners"))
      && !EndsWith(np, Ascii("cases"))
      && !EndsWith(np, Ascii("assertions"))
      && !EndsWith(np, Ascii("/review_queue"))
      && !EndsWith(np, Ascii("/manifest/methods"))
      && !EndsWith(np, Ascii("/variants"))
    ensures EndsWith(np, Ascii("cases")) ==>
      && !EndsWith(np, Ascii("/scanners"))
      && !EndsWith(np, Ascii("assertions"))
      && !EndsWith(np, Ascii("/review_queue"))
      && !EndsWith(np, Ascii("/manifest/methods"))
      && !EndsWith(np, Ascii("/variants"))
  {
    hide EndsWith, Ascii;
    Apart(np, "components", "/scanners", 1);
    Apart(np, "components", "cases", 1);
    Apart(np, "components", "assertions", 1);
    Apart(np, "components", "/review_queue", 0);
    Apart(np, "components", "/manifest/methods", 1);
    Apart(np, "components", "/variants", 3);
    Apart(np, "cases", "/scanners", 1);
    Apart(np, "cases", "assertions", 1);
    Apart(np, "cases", "/review_queue", 0);
    Apart(np, "cases", "/manifest/methods", 1);
    Apart(np, "cases", "/variants", 1);
  }

  lemma EndsShorter(np: Text, s: string, t: string)
    requires EndsWith(np, Ascii(s)) && |t| <= |s| && s[|s| - |t|..] == t
    ensures EndsWith(np, Ascii(t))
  {
    assert Ascii(t) == Ascii(s)[|s| - |t|..];
    assert np[|np| - |t|..] == np[|np| - |s|..][|s| - |t|..];
  }

  /** Which arrays are matched by which key, by the normalized path of the array. */
  lemma PlaceIs(np: Text)
    ensures PlaceOf(np) == Scanners <==> np == Ascii("/scanners")
    ensures PlaceOf(np) == Cases <==> np == Ascii("/scanners/*/cases") || Ends(np, Ascii("unmeasured_cases"))
    ensures PlaceOf(np) == Assertions <==> np == Ascii("/scanners/*/assertions")
    ensures PlaceOf(np) == ReviewQueue <==> np == Ascii("/review_queue")
    ensures PlaceOf(np) == Identified <==> np == Ascii("/manifest/scanners") || np == Ascii("/manifest/methods")
    ensures PlaceOf(np) == Components <==> Ends(np, Ascii("components"))
    ensures PlaceOf(np) == Variants <==> np == Ascii("/variants")
  {
    hide EndsWith, Ascii;
    PlacesApart(np);
    EndsIs(np, Ascii("unmeasured_cases"));
    EndsIs(np, Ascii("components"));
    EndsItself(np);
    Unalike("/scanners", "/scanners/*/cases", 0);
    Unalike("/scanners", "/scanners/*/assertions", 0);
    Unalike("/scanners", "/review_queue", 0);
    Unalike("/scanners", "/manifest/scanners", 0);
    Unalike("/scanners", "/manifest/methods", 0);
    Unalike("/scanners", "/variants", 1);
    Unalike("/scanners/*/assertions", "/review_queue", 0);
    Unalike("/scanners/*/assertions", "/manifest/scanners", 0);
    Unalike("/scanners/*/assertions", "/manifest/methods", 0);
    Unalike("/scanners/*/assertions", "/variants", 0);
    Unalike("/review_queue", "/manifest/scanners", 0);
    Unalike("/review_queue", "/manifest/methods", 0);
    Unalike("/review_queue", "/variants", 0);
    Unalike("/manifest/scanners", "/variants", 0);
    Unalike("/manifest/methods", "/variants", 0);
    if EndsWith(np, Ascii("unmeasured_cases")) {
      EndsShorter(np, "unmeasured_cases", "cases");
    }
    if np == Ascii("/scanners/*/cases") {
      EndsShorter(np, "/scanners/*/cases", "cases");
    }
    if np == Ascii("/manifest/scanners") {
      EndsShorter(np, "/manifest/scanners", "/scanners");
    }
    if np == Ascii("/scanners/*/assertions") {
      EndsShorter(np, "/scanners/*/assertions", "assertions");
    }
  }

  // ---------------------------------------------------------------------------------------------
  // The keys.

  predicate Holds(e: Json, name: string, text: Text) {
    Field(e, name) == Some(Str(text))
  }

  predicate Lacks(e: Json, name: string) {
    Field(e, name).None? || Field(e, name).value.Null?
  }

  /** `String(value)` */
  lemma StringIs(text: Text, truth: bool, entries: seq<Entry>)
    ensures StringOf(None) == Ascii("undefined")
    ensures StringOf(Some(Null)) == Ascii("null")
    ensures StringOf(Some(Bool(truth))) == if truth then Ascii("true") else Ascii("false")
    ensures StringOf(Some(Num(text))) == StringOf(Some(Str(text))) == text
    ensures StringOf(Some(Obj(entries))) == Ascii("[object Object]")
  {
  }

  /** An array is its items joined by commas, a null item left empty. */
  lemma ArrayStringIs(x: Json, xs: seq<Json>)
    ensures StringOf(Some(Arr([]))) == []
    ensures var first := if x.Null? then [] else StringOf(Some(x));
      StringOf(Some(Arr([x] + xs))) == if xs == [] then first else first + [0x2C] + StringOf(Some(Arr(xs)))
  {
    hide Join;
    var first := if x.Null? then [] else JsonString(x);
    assert ItemStrings([x] + xs) == [first] + ItemStrings(xs) by { assert ([x] + xs)[1..] == xs; }
    JsonText.JoinStep(first, ItemStrings(xs));
  }

  lemma KeyIs(e: Json, i: nat, text: Text)
    requires e.Obj?
    ensures Holds(e, "scanner", text) ==> KeyAt(Scanners, e, i) == text
    ensures Holds(e, "case_id", text) ==> KeyAt(Cases, e, i) == text
    ensures Holds(e, "id", text) ==> KeyAt(Identified, e, i) == KeyAt(Variants, e, i) == text
    ensures Lacks(e, "id") && Holds(e, "case_id", text) ==> KeyAt(Variants, e, i) == text
    ensures Lacks(e, "id") && Lacks(e, "case_id") ==> KeyAt(Variants, e, i) == Decimal(i)
    ensures forall name: Text ::
      Holds(e, "kind", text) && Holds(e, "name", name) ==> KeyAt(Components, e, i) == text + Ascii(":") + name
    ensures KeyAt(Elsewhere, e, i) == Decimal(i)
  {
    hide Field;
    assert Ascii(":") == [COLON];
  }

  /** `a`, a bar, `b`: how the parts of a key are put together. */
  function Barred(a: Text, b: Text): Text {
    a + [0x7C] + b
  }

  lemma AssertionKeyIs(e: Json, c: Text, m: Text, a: Text, v: Text)
    requires Holds(e, "case_id", c) && Holds(e, "method", m) && Holds(e, "assertion", a)
    requires Holds(e, "variant", v) || (Lacks(e, "variant") && v == [])
    ensures AssertionKey(e) == Barred(c, Barred(m, Barred(a, v)))
  {
    hide Field;
  }

  /** Two assertions are matched exactly when they have the same case, method, assertion and variant,
      provided that no bar occurs in the first three. */
  lemma AssertionsTold(e: Json, c: Text, m: Text, a: Text, v: Text, f: Json, d: Text, n: Text, b: Text, w: Text)
    requires Holds(e, "case_id", c) && Holds(e, "method", m) && Holds(e, "assertion", a)
    requires Holds(e, "variant", v) || (Lacks(e, "variant") && v == [])
    requires Holds(f, "case_id", d) && Holds(f, "method", n) && Holds(f, "assertion", b)
    requires Holds(f, "variant", w) || (Lacks(f, "variant") && w == [])
    requires Free(c, 0x7C) && Free(m, 0x7C) && Free(a, 0x7C) && Free(d, 0x7C) && Free(n, 0x7C) && Free(b, 0x7C)
    ensures AssertionKey(e) == AssertionKey(f) <==> c == d && m == n && a == b && v == w
  {
    hide Holds, Lacks, Free, AssertionKey;
    AssertionKeyIs(e, c, m, a, v);
    AssertionKeyIs(f, d, n, b, w);
    if AssertionKey(e) == AssertionKey(f) {
      SplitOnce(c, Barred(m, Barred(a, v)), d, Barred(n, Barred(b, w)), 0x7C);
      SplitOnce(m, Barred(a, v), n, Barred(b, w), 0x7C);
      SplitOnce(a, v, b, w, 0x7C);
    }
  }

  lemma ReviewKeyIs(e: Json, c: Text, peer: Text, d: Text, v: Text, digest: Text, m: Text)
    requires Holds(e, "case_id", c) && Holds(e, "peer", peer) && Holds(e, "disagreement", d)
    requires Holds(e, "variant", v) || (Lacks(e, "variant") && v == [])
    requires
      || Holds(e, "content_digest", digest)
      || (Lacks(e, "content_digest") && Holds(e, "contentDigest", digest))
      || (Lacks(e, "content_digest") && Lacks(e, "contentDigest") && digest == [])
    requires Holds(e, "method", m)
    ensures ReviewKey(e) == Barred(c, Barred(peer, Barred(d, Barred(v, Barred(digest, m)))))
  {
    var p1 := c + [BAR] + peer;
    var p2 := p1 + [BAR] + d;
    var p3 := p2 + [BAR] + v;
    assert ReviewKey(e) == p3 + [BAR] + digest + [BAR] + m by {
      hide Field;
    }
    hide *;
    Regrouped(p3, digest, m);
    Regrouped(p2, v, Barred(digest, m));
    Regrouped(p1, d, Barred(v, Barred(digest, m)));
    Regrouped(c, peer, Barred(d, Barred(v, Barred(digest, m))));
    assert c + [BAR] + Barred(peer, Barred(d, Barred(v, Barred(digest, m)))) ==
      Barred(c, Barred(peer, Barred(d, Barred(v, Barred(digest, m))))) by {
      hide *;
      BarIs(c, Barred(peer, Barred(d, Barred(v, Barred(digest, m)))));
    }
  }

  lemma BarIs(a: Text, b: Text)
    ensures a + [BAR] + b == Barred(a, b)
  {
  }

  lemma Regrouped(x: Text, a: Text, y: Text)
    ensures x + [BAR] + a + [BAR] + y == x + [BAR] + Barred(a, y)
  {
  }

  // ---------------------------------------------------------------------------------------------
  // Normalized paths.

  /** The path with these segments. */
  function Path(segments: seq<Text>): Text {
    if segments == [] then [] else [0x2F] + segments[0] + Path(segments[1..])
  }

  ghost function Starred(segments: seq<Text>): seq<Text> {
    seq(|segments|, i requires 0 <= i < |segments| => if Digits(segments[i]) then [0x2A] else segments[i])
  }

  lemma {:induction false} NormPasses(t: Text, rest: Text)
    requires Free(t, 0x2F)
    ensures Norm(t + rest) == t + Norm(rest)
  {
    if t == [] {
      assert t + rest == rest;
    } else {
      assert (t + rest)[0] == t[0] && (t + rest)[1..] == t[1..] + rest;
      assert Free(t[1..], 0x2F);
      NormPasses(t[1..], rest);
    }
  }

  /** `norm` replaces exactly the segments that consist of digits, each by a star. */
  lemma {:induction false} NormIs(segments: seq<Text>)
    requires forall i :: 0 <= i < |segments| ==> Free(segments[i], 0x2F)
    ensures Norm(Path(segments)) == Path(Starred(segments))
  {
    if segments != [] {
      NormIs(segments[1..]);
      assert Path(segments[1..]) == [] || Path(segments[1..])[0] == 0x2F;
      NormSegment(segments[0], Path(segments[1..]));
      assert Starred(segments)[1..] == Starred(segments[1..]);
    }
  }

  lemma NormSegment(s: Text, rest: Text)
    requires Free(s, 0x2F) && (rest == [] || rest[0] == 0x2F)
    ensures Norm([0x2F] + s + rest) == [0x2F] + (if Digits(s) then [0x2A] else s) + Norm(rest)
  {
    var t := [0x2F] + s + rest;
    assert t[0] == 0x2F && t[1..] == s + rest;
    RunStops(s, rest);
    var n := DigitRun(t[1..]);
    if Digits(s) {
      assert t[n + 1..] == rest;
      assert |t| == n + 1 || t[n + 1] == rest[0];
    } else {
      if 0 < n {
        assert t[n + 1] == s[n];
      }
      NormPasses(s, rest);
    }
  }

  // ---------------------------------------------------------------------------------------------
  // The differences and their buckets.

  lemma OneItem(np: Text, e: Json)
    ensures KeyedItems(np, []) == [] && KeyedItems(np, [e]) == [Entry(Key(np, e, 0), e)]
  {
    hide Key;
    assert [e][..0] == [];
  }

  lemma MatchedItem(e: Json, f: Json, p: Text, np: Text, ctx: Option<Text>)
    requires Key(np, e, 0) == Key(np, f, 0)
    ensures Differences(Arr([e]), Arr([f]), p, np, ctx) ==
      Differences(e, f, p + [0x2F] + Key(np, e, 0), np + [0x2F, 0x2A], CaseOf(e, ctx))
  {
    hide Key, CaseOf, KeyedItems;
    OneItem(np, e);
    OneItem(np, f);
    var k := Key(np, e, 0);
    var ka, kb := [Entry(k, e)], [Entry(k, f)];
    assert ka[1..] == [] && kb[1..] == [];
    assert Get(kb, k) == Some(f) && Get(ka, k) == Some(e);
    assert AddedItems([], ka, p, np, ctx) == [];
    assert AddedItems(kb, ka, p, np, ctx) == [];
    assert Inside(e, Arr([e]));
    assert np + [SLASH] + STAR == np + [0x2F, 0x2A];
    assert ItemDifferences(Arr([e]), ka, kb, p, np, ctx) == ItemDifference(Arr([e]), ka[0], kb, p, np, ctx);
  }

  lemma FieldOf(a: Json, k: Text, b: Json, p: Text, np: Text, ctx: Option<Text>)
    requires a.Obj? && b.Obj? && Semantic(k) && Get(a.entries, k).Some? && Get(b.entries, k).Some?
    ensures FieldDifference(a, k, b, p, np, ctx) ==
      Differences(Get(a.entries, k).value, Get(b.entries, k).value, p + [0x2F] + k, np + [0x2F] + k, ctx)
  {
    hide Semantic, Differences;
  }

  /** A field that one side lacks is reported once, at its own path; `non_semantic` never is. */
  lemma LackingField(a: Json, k: Text, b: Json, p: Text, np: Text, ctx: Option<Text>)
    requires a.Obj? && b.Obj?
    ensures k == Ascii("non_semantic") ==> FieldDifference(a, k, b, p, np, ctx) == []
    ensures k != Ascii("non_semantic") && (Get(a.entries, k).None? || Get(b.entries, k).None?) ==>
      FieldDifference(a, k, b, p, np, ctx) == [Difference(p + [0x2F] + k, np + [0x2F] + k, Changed, ctx)]
  {
    hide Differences;
  }

  lemma ChangedText(s: Text, t: Text, p: Text, np: Text, ctx: Option<Text>)
    requires s != t
    ensures Differences(Str(s), Str(t), p, np, ctx) == [Difference(p, np, Changed, ctx)]
    ensures Differences(Str(s), Str(s), p, np, ctx) == []
  {
    hide Put, JsonReader.ReadValue;
    JsonReader.ValueBack(Str(s), []);
    JsonReader.ValueBack(Str(t), []);
  }

  function Scan(name: Text, status: Text): Json {
    Obj([Entry(Ascii("scanner"), Str(name)), Entry(Ascii("status"), Str(status))])
  }

  function Artifact(name: Text, status: Text): Json {
    Obj([Entry(Ascii("scanners"), Arr([Scan(name, status)]))])
  }

  lemma {:induction false} NoNewKeys(es: seq<Entry>, fs: seq<Entry>)
    requires forall f :: f in fs ==> Get(es, f.key).Some?
    ensures NewKeys(es, fs) == []
  {
    if fs != [] {
      NoNewKeys(es, fs[1..]);
    }
  }

  lemma OneKey(a: Json, b: Json, k: Text, p: Text, np: Text, ctx: Option<Text>)
    requires a.Obj? && b.Obj? && |a.entries| == |b.entries| == 1
    requires a.entries[0].key == b.entries[0].key == k
    ensures Differences(a, b, p, np, ctx) == FieldDifference(a, k, b, p, np, ctx)
  {
    hide FieldDifference, Put;
    assert KeysOf(a.entries) == [k];
    assert Get(a.entries, k).Some?;
    NoNewKeys(a.entries, b.entries);
    assert [k] + [] == [k] && [k][1..] == [];
    assert FieldDifferences(a, [k], b, p, np, ctx) == FieldDifference(a, k, b, p, np, ctx);
  }

  lemma TwoKeys(a: Json, b: Json, j: Text, k: Text, p: Text, np: Text, ctx: Option<Text>)
    requires a.Obj? && b.Obj? && |a.entries| == |b.entries| == 2 && j != k
    requires a.entries[0].key == b.entries[0].key == j && a.entries[1].key == b.entries[1].key == k
    ensures Differences(a, b, p, np, ctx) == FieldDifference(a, j, b, p, np, ctx) + FieldDifference(a, k, b, p, np, ctx)
  {
    hide FieldDifference, Put;
    assert a.entries[1..] == [a.entries[1]] && b.entries[1..] == [b.entries[1]];
    assert KeysOf([a.entries[1]]) == [k] && KeysOf(a.entries) == [j, k];
    assert Get(a.entries, j).Some? && Get(a.entries, k).Some?;
    NoNewKeys(a.entries, b.entries);
    assert [j, k] + [] == [j, k] && [j, k][1..] == [k];
    assert FieldDifferences(a, [k], b, p, np, ctx) == FieldDifference(a, k, b, p, np, ctx);
  }

  lemma ScanStatus(name: Text, before: Text, after: Text, p: Text, np: Text, ctx: Option<Text>)
    requires before != after
    ensures Differences(Scan(name, before), Scan(name, after), p, np, ctx) ==
      [Difference(p + [0x2F] + Ascii("status"), np + [0x2F] + Ascii("status"), Changed, ctx)]
  {
    var a, b := Scan(name, before), Scan(name, after);
    Unalike("scanner", "status", 0);
    Unalike("scanner", "non_semantic", 0);
    Unalike("status", "non_semantic", 0);
    hide Ascii, Differences;
    var j, k := Ascii("scanner"), Ascii("status");
    TwoKeys(a, b, j, k, p, np, ctx);
    FieldOf(a, j, b, p, np, ctx);
    FieldOf(a, k, b, p, np, ctx);
    ChangedText(before, after, p + [0x2F] + k, np + [0x2F] + k, ctx);
    ChangedText(name, name + [0], p + [0x2F] + j, np + [0x2F] + j, ctx);
  }

  /** A change of one status is reported at the scanner's key and counted at a starred path. */
  lemma ChangedStatus(name: Text, before: Text, after: Text)
    requires before != after
    ensures var d := Difference(Path([Ascii("scanners"), name, Ascii("status")]), Ascii("/scanners/*/status"),
        Changed, None);
      && Differences(Artifact(name, before), Artifact(name, after), [], [], None) == [d]
      && NormOf(d) == Ascii("/scanners/*/status")
  {
    var a, b := Artifact(name, before), Artifact(name, after);
    var k, last := Ascii("scanners"), Ascii("status");
    var p, np := [] + [0x2F] + k, [] + [0x2F] + k;
    PathsAre(name);
    assert Semantic(k) by {
      Unalike("scanners", "non_semantic", 0);
    }
    assert Key(np, Scan(name, before), 0) == Key(np, Scan(name, after), 0) == name by {
      PlaceIs(np);
      Unalike("scanner", "status", 0);
    }
    assert CaseOf(Scan(name, before), None) == None by {
      Unalike("scanner", "case_id", 0);
      Unalike("status", "case_id", 0);
    }
    hide *;
    OneKey(a, b, k, [], [], None);
    FieldOf(a, k, b, [], [], None);
    MatchedItem(Scan(name, before), Scan(name, after), p, np, None);
    ScanStatus(name, before, after, p + [0x2F] + name, np + [0x2F, 0x2A], None);
  }

  lemma PathsAre(name: Text)
    ensures [0x2F] + Ascii("scanners") == Ascii("/scanners")
    ensures [] + [0x2F] + Ascii("scanners") == Ascii("/scanners")
    ensures Ascii("/scanners") + [0x2F, 0x2A] + [0x2F] + Ascii("status") == Ascii("/scanners/*/status")
    ensures Ascii("/scanners") + [0x2F] + name + [0x2F] + Ascii("status") ==
      Path([Ascii("scanners"), name, Ascii("status")])
  {
    var a, b, c := Ascii("scanners"), name, Ascii("status");
    assert [a, b, c][1..] == [b, c] && [b, c][1..] == [c];
    assert Path([c]) == [0x2F] + c && Path([b, c]) == [0x2F] + b + Path([c]);
  }

  /** An item that one side lacks is reported once, with the case it names, if it names one. */
  lemma LackingItem(e: Json, p: Text, np: Text, ctx: Option<Text>)
    ensures var k := Key(np, e, 0);
      && Differences(Arr([e]), Arr([]), p, np, ctx) == [Difference(p + [0x2F] + k, np, Removed, CaseOf(e, ctx))]
      && Differences(Arr([]), Arr([e]), p, np, ctx) == [Difference(p + [0x2F] + k, np, Added, CaseOf(e, ctx))]
    ensures NormOf(Difference(p, np, Removed, ctx)) == np + Ascii("/*(removed)")
    ensures NormOf(Difference(p, np, Added, ctx)) == np + Ascii("/*(added)")
    ensures forall c :: Holds(e, "case_id", c) ==> CaseOf(e, ctx) == Some(c)
    ensures Lacks(e, "case_id") ==> CaseOf(e, ctx) == ctx
  {
    hide Key, Field, KeyedItems;
    OneItem(np, e);
    var k := Key(np, e, 0);
    var ks := [Entry(k, e)];
    assert ks[1..] == [];
    assert ItemDifferences(Arr([e]), ks, [], p, np, ctx) == ItemDifference(Arr([e]), ks[0], [], p, np, ctx);
    assert AddedItems(ks, [], p, np, ctx) == [Difference(p + [0x2F] + k, np, Added, CaseOf(e, ctx))];
    assert AddedItems([], ks, p, np, ctx) == [] && ItemDifferences(Arr([]), [], ks, p, np, ctx) == [];
  }

  /** The paths of the identity bucket. */
  lemma IdentityIs(n: Text)
    ensures IsIdentity(n) <==>
      || n == Ascii("/manifest/engine/version")
      || n == Ascii("/manifest/config_hash")
      || n == Ascii("/manifest/scanners/*/version")
      || n == Ascii("/manifest/scanners/*/configuration_hash")
      || n == Ascii("/manifest/scanners/*/provenance/components/*/version")
      || n == Ascii("/manifest/scanners/*/provenance/components/*/sha256")
      || n == Ascii("/manifest/scanners/*/provenance/components/*/integrity")
      || n == Ascii("/manifest/scanners/*/mode")
      || n == Ascii("/manifest/run_class")
      || n == Ascii("/manifest/publication")
      || n == Ascii("/manifest/scanners/*/build")
      || n == Ascii("/review_queue/*/id")
      || n == Ascii("/review_queue/*/reference/version")
      || n == Ascii("/review_queue/*/reference/configurationHash")
      || n == Ascii("/review_queue/*/reference/configuration_hash")
  {
    hide Ascii;
    assert MANIFEST_IDENTITY[0] == "/manifest/engine/version";
    assert MANIFEST_IDENTITY[1] == "/manifest/config_hash";
    assert MANIFEST_IDENTITY[2] == "/manifest/scanners/*/version";
    assert MANIFEST_IDENTITY[3] == "/manifest/scanners/*/configuration_hash";
    assert MANIFEST_IDENTITY[4] == "/manifest/scanners/*/provenance/components/*/version";
    assert MANIFEST_IDENTITY[5] == "/manifest/scanners/*/provenance/components/*/sha256";
    assert MANIFEST_IDENTITY[6] == "/manifest/scanners/*/provenance/components/*/integrity";
    assert MANIFEST_IDENTITY[7] == "/manifest/scanners/*/mode";
    assert MANIFEST_IDENTITY[8] == "/manifest/run_class";
    assert MANIFEST_IDENTITY[9] == "/manifest/publication";
    assert MANIFEST_IDENTITY[10] == "/manifest/scanners/*/build";
    assert REVIEW_IDENTITY[0] == "/review_queue/*/id";
    assert REVIEW_IDENTITY[1] == "/review_queue/*/reference/version";
    assert REVIEW_IDENTITY[2] == "/review_queue/*/reference/configurationHash";
    assert REVIEW_IDENTITY[3] == "/review_queue/*/reference/configuration_hash";
  }

  ghost predicate Rooted(n: Text, root: Text) {
    n == root || Starts(n, root + [0x2F])
  }

  /** The paths that may be in the outcome bucket; those of the review queue that the identity bucket has are not. */
  lemma OutcomeIs(n: Text)
    ensures IsOutcome(n) <==>
      || n == Ascii("/scanners/*/status")
      || Rooted(n, Ascii("/scanners/*/cases/*/actual"))
      || Rooted(n, Ascii("/scanners/*/cases/*/measurement"))
      || Rooted(n, Ascii("/scanners/*/unmeasured_cases"))
      || Rooted(n, Ascii("/scanners/*/findings"))
      || Starts(n, Ascii("/scanners/*/aggregates/"))
      || Starts(n, Ascii("/scanners/*/assertions/*/"))
      || Starts(n, Ascii("/review_queue/*(added)"))
      || Starts(n, Ascii("/review_queue/*(removed)"))
      || Starts(n, Ascii("/review_queue/*/"))
      || Starts(n, Ascii("/variants/"))
      || Starts(n, Ascii("/comparisons/"))
    ensures BucketOf(n) == Identity <==> IsIdentity(n)
    ensures BucketOf(n) == Outcome <==> IsOutcome(n) && !IsIdentity(n)
  {
    hide Ascii, Begins, Starts;
    forall t: Text ensures Begins(n, t) <==> Starts(n, t) {
      StartsIs(n, t);
    }
    assert OUTCOME_PATHS[0] == "/scanners/*/status";
    assert OUTCOME_TREES[0] == "/scanners/*/cases/*/actual";
    assert OUTCOME_TREES[1] == "/scanners/*/cases/*/measurement";
    assert OUTCOME_TREES[2] == "/scanners/*/unmeasured_cases";
    assert OUTCOME_TREES[3] == "/scanners/*/findings";
    assert OUTCOME_BEGINNINGS[0] == "/scanners/*/aggregates/";
    assert OUTCOME_BEGINNINGS[1] == "/scanners/*/assertions/*/";
    assert OUTCOME_BEGINNINGS[2] == "/review_queue/*(added)";
    assert OUTCOME_BEGINNINGS[3] == "/review_queue/*(removed)";
    assert OUTCOME_BEGINNINGS[4] == "/review_queue/*/";
    assert OUTCOME_BEGINNINGS[5] == "/variants/";
    assert OUTCOME_BEGINNINGS[6] == "/comparisons/";
  }
}
