/** The keyed structural diff of scripts/compare-replay-effects.ts. */
module ReplayDiff {
  import opened Options
  import opened Text
  import opened Numerals
  import opened JsonPrinter

  // ---------------------------------------------------------------------------------------------
  // Keys.

  function Get(entries: seq<Entry>, k: Text): (r: Option<Json>)
    ensures r.Some? ==> Entry(k, r.value) in entries
  {
    if entries == [] then None
    else if entries[0].key == k then Some(entries[0].value)
    else
      assert entries == [entries[0]] + entries[1..];
      Get(entries[1..], k)
  }

  /** `e.name`; `None` is `undefined`. */
  function Field(e: Json, name: string): Option<Json> {
    if e.Obj? then Get(e.entries, Ascii(name)) else None
  }

  /** `String(value)` */
  function StringOf(value: Option<Json>): Text {
    match value
    case None => Ascii("undefined")
    case Some(j) => JsonString(j)
  }

  function JsonString(j: Json): Text {
    match j
    case Null => NULL
    case Bool(truth) => if truth then TRUE else FALSE
    case Num(token) => token
    case Str(text) => text
    case Arr(items) => Join(ItemStrings(items))
    case Obj(_) => Ascii("[object Object]")
  }

  function ItemStrings(items: seq<Json>): seq<Text> {
    if items == [] then [] else [if items[0].Null? then [] else JsonString(items[0])] + ItemStrings(items[1..])
  }

  /** `a ?? b` */
  function OrElse(a: Option<Json>, b: Option<Json>): Option<Json> {
    if a.None? || a.value.Null? then b else a
  }

  /** What `Array.prototype.join` writes for an element. */
  function Joined(value: Option<Json>): Text {
    if value.None? || value.value.Null? then [] else JsonString(value.value)
  }

  const BAR: CodeUnit := 0x7C

  function EndsWith(t: Text, suffix: Text): bool {
    |suffix| <= |t| && t[|t| - |suffix|..] == suffix
  }

  function AssertionKey(e: Json): Text {
    StringOf(Field(e, "case_id")) + [BAR] + StringOf(Field(e, "method")) + [BAR] + StringOf(Field(e, "assertion"))
      + [BAR] + Joined(Field(e, "variant"))
  }

  function ReviewKey(e: Json): Text {
    Joined(Field(e, "case_id")) + [BAR] + Joined(Field(e, "peer")) + [BAR] + Joined(Field(e, "disagreement")) + [BAR]
      + Joined(Field(e, "variant")) + [BAR] + Joined(OrElse(Field(e, "content_digest"), Field(e, "contentDigest")))
        + [BAR]
      + Joined(Field(e, "method"))
  }

  function VariantKey(e: Json, i: nat): Text {
    StringOf(OrElse(Field(e, "id"), OrElse(Field(e, "case_id"), Some(Num(Decimal(i))))))
  }

  /** The arrays whose elements are matched by more than their index. */
  datatype Place = Scanners | Cases | Assertions | ReviewQueue | Identified | Components | Variants | Elsewhere

  function PlaceOf(np: Text): Place {
    if np == Ascii("/scanners") then Scanners
    else if np == Ascii("/scanners/*/cases") || EndsWith(np, Ascii("unmeasured_cases")) then Cases
    else if np == Ascii("/scanners/*/assertions") then Assertions
    else if np == Ascii("/review_queue") then ReviewQueue
    else if np == Ascii("/manifest/scanners") || np == Ascii("/manifest/methods") then Identified
    else if EndsWith(np, Ascii("components")) then Components
    else if np == Ascii("/variants") then Variants
    else Elsewhere
  }

  function KeyAt(place: Place, e: Json, i: nat): Text {
    match place
    case Scanners => StringOf(Field(e, "scanner"))
    case Cases => StringOf(Field(e, "case_id"))
    case Assertions => AssertionKey(e)
    case ReviewQueue => ReviewKey(e)
    case Identified => StringOf(Field(e, "id"))
    case Components => StringOf(Field(e, "kind")) + [COLON] + StringOf(Field(e, "name"))
    case Variants => VariantKey(e, i)
    case Elsewhere => Decimal(i)
  }

  /** `key`: how an element of the array at the normalized path `np` is matched. */
  function Key(np: Text, e: Json, i: nat): Text {
    if e.Obj? then KeyAt(PlaceOf(np), e, i) else Decimal(i)
  }

  /** `Map.set`: a key keeps its first place and takes its last value. */
  function Set(m: seq<Entry>, k: Text, v: Json): (r: seq<Entry>)
    ensures forall e :: e in r ==> e == Entry(k, v) || e in m
  {
    if m == [] then [Entry(k, v)]
    else if m[0].key == k then [Entry(k, v)] + m[1..]
    else
      assert m == [m[0]] + m[1..];
      [m[0]] + Set(m[1..], k, v)
  }

  /** `new Map(items.map((e, i) => [key(np, e, i), e]))` */
  function KeyedItems(np: Text, items: seq<Json>): (r: seq<Entry>)
    ensures forall e :: e in r ==> e.value in items
  {
    if items == [] then []
    else
      var n := |items| - 1;
      assert forall j :: j in items[..n] ==> j in items;
      Set(KeyedItems(np, items[..n]), Key(np, items[n], n), items[n])
  }

  // ---------------------------------------------------------------------------------------------
  // The differences.

  datatype Change = Added | Removed | Changed

  // `at` is the normalized path of the compared pair; an element that one side lacks is reported at it,
  // marked as added or removed.
  datatype Difference = Difference(path: Text, at: Text, change: Change, caseId: Option<Text>)

  function NormOf(d: Difference): Text {
    match d.change
    case Added => d.at + Ascii("/*(added)")
    case Removed => d.at + Ascii("/*(removed)")
    case Changed => d.at
  }

  const SLASH: CodeUnit := 0x2F
  const STAR: Text := [0x2A]

  function Child(p: Text, k: Text): Text {
    p + [SLASH] + k
  }

  predicate Scalar(j: Json) {
    !j.Arr? && !j.Obj?
  }

  function CaseOf(e: Json, ctx: Option<Text>): Option<Text> {
    var id := Field(e, "case_id");
    if id.Some? && id.value.Str? then Some(id.value.text) else ctx
  }

  predicate Semantic(k: Text) {
    k != Ascii("non_semantic")
  }

  function KeysOf(entries: seq<Entry>): (r: seq<Text>)
    ensures |r| == |entries| && forall i :: 0 <= i < |r| ==> r[i] == entries[i].key
  {
    if entries == [] then [] else [entries[0].key] + KeysOf(entries[1..])
  }

  /** The keys of `fs` that `es` lacks. */
  function NewKeys(es: seq<Entry>, fs: seq<Entry>): (r: seq<Text>)
    ensures forall k :: k in r <==> Get(fs, k).Some? && Get(es, k).None?
  {
    if fs == [] then []
    else (if Get(es, fs[0].key).None? then [fs[0].key] else []) + NewKeys(es, fs[1..])
  }

  /** `v` is an item or a field of `parent`. */
  predicate Inside(v: Json, parent: Json) {
    match parent
    case Arr(items) => v in items
    case Obj(entries) => exists e :: e in entries && e.value == v
    case _ => false
  }

  function Differences(a: Json, b: Json, p: Text, np: Text, ctx: Option<Text>): seq<Difference>
    decreases a, 1, 0
  {
    if Scalar(a) && a == b then []
    else if a.Arr? && b.Arr? then
      var ka, kb := KeyedItems(np, a.items), KeyedItems(np, b.items);
      ItemDifferences(a, ka, kb, p, np, ctx) + AddedItems(kb, ka, p, np, ctx)
    else if a.Obj? && b.Obj? then
      FieldDifferences(a, KeysOf(a.entries) + NewKeys(a.entries, b.entries), b, p, np, ctx)
    else if Put(a, []) != Put(b, []) then [Difference(p, np, Changed, ctx)]
    else []
  }

  function ItemDifferences(parent: Json, es: seq<Entry>, kb: seq<Entry>, p: Text, np: Text,
      ctx: Option<Text>): seq<Difference>
    requires forall e :: e in es ==> Inside(e.value, parent)
    decreases parent, 0, |es|
  {
    if es == [] then []
    else ItemDifference(parent, es[0], kb, p, np, ctx) + ItemDifferences(parent, es[1..], kb, p, np, ctx)
  }

  function ItemDifference(parent: Json, e: Entry, kb: seq<Entry>, p: Text, np: Text, ctx: Option<Text>): seq<Difference>
    requires Inside(e.value, parent)
    decreases parent, 0, 0
  {
    if Get(kb, e.key).None? then [Difference(Child(p, e.key), np, Removed, CaseOf(e.value, ctx))]
    else Differences(e.value, Get(kb, e.key).value, Child(p, e.key), Child(np, STAR), CaseOf(e.value, ctx))
  }

  function AddedItems(fs: seq<Entry>, ka: seq<Entry>, p: Text, np: Text, ctx: Option<Text>): seq<Difference> {
    if fs == [] then []
    else
      (if Get(ka, fs[0].key).None? then [Difference(Child(p, fs[0].key), np, Added, CaseOf(fs[0].value, ctx))] else [])
        + AddedItems(fs[1..], ka, p, np, ctx)
  }

  function FieldDifferences(a: Json, ks: seq<Text>, b: Json, p: Text, np: Text, ctx: Option<Text>): seq<Difference>
    requires a.Obj? && b.Obj?
    decreases a, 0, |ks|
  {
    if ks == [] then []
    else FieldDifference(a, ks[0], b, p, np, ctx) + FieldDifferences(a, ks[1..], b, p, np, ctx)
  }

  function FieldDifference(a: Json, k: Text, b: Json, p: Text, np: Text, ctx: Option<Text>): seq<Difference>
    requires a.Obj? && b.Obj?
    decreases a, 0, 0
  {
    var va, vb := Get(a.entries, k), Get(b.entries, k);
    if !Semantic(k) then []
    else if va.None? || vb.None? then [Difference(Child(p, k), Child(np, k), Changed, ctx)]
    else Differences(va.value, vb.value, Child(p, k), Child(np, k), ctx)
  }

  // ---------------------------------------------------------------------------------------------
  // The recursion, appending to one list.

  method Diff(a: Json, b: Json, p: Text, np: Text, ctx: Option<Text>, before: seq<Difference>)
      returns (out: seq<Difference>)
    ensures out == before + Differences(a, b, p, np, ctx)
    decreases a, 1, 0
  {
    hide Key, Get, ItemDifferences, FieldDifferences, AddedItems, Put, KeyedItems, KeysOf, NewKeys;
    out := before;
    if Scalar(a) && a == b {
      return;
    }
    if a.Arr? && b.Arr? {
      out := DiffItems(a, b, p, np, ctx, before);
      return;
    }
    if a.Obj? && b.Obj? {
      out := DiffFields(a, b, p, np, ctx, before);
      return;
    }
    if Put(a, []) != Put(b, []) {
      out := out + [Difference(p, np, Changed, ctx)];
    }
  }

  lemma Grows(out: seq<Difference>, first: seq<Difference>, rest: seq<Difference>)
    ensures (out + first) + rest == out + (first + rest)
  {
  }

  lemma ItemStep(parent: Json, es: seq<Entry>, i: nat, kb: seq<Entry>, p: Text, np: Text, ctx: Option<Text>)
    requires i < |es| && forall e :: e in es ==> Inside(e.value, parent)
    ensures ItemDifferences(parent, es[i..], kb, p, np, ctx) ==
      ItemDifference(parent, es[i], kb, p, np, ctx) + ItemDifferences(parent, es[i + 1..], kb, p, np, ctx)
  {
    hide ItemDifference, Inside;
    assert es[i..][0] == es[i] && es[i..][1..] == es[i + 1..];
  }

  lemma AddedStep(fs: seq<Entry>, i: nat, ka: seq<Entry>, p: Text, np: Text, ctx: Option<Text>)
    requires i < |fs|
    ensures AddedItems(fs[i..], ka, p, np, ctx) ==
      (if Get(ka, fs[i].key).None? then [Difference(Child(p, fs[i].key), np, Added, CaseOf(fs[i].value, ctx))] else [])
        + AddedItems(fs[i + 1..], ka, p, np, ctx)
  {
    hide Get;
    assert fs[i..][0] == fs[i] && fs[i..][1..] == fs[i + 1..];
  }

  lemma FieldStep(a: Json, ks: seq<Text>, i: nat, b: Json, p: Text, np: Text, ctx: Option<Text>)
    requires a.Obj? && b.Obj? && i < |ks|
    ensures FieldDifferences(a, ks[i..], b, p, np, ctx) ==
      FieldDifference(a, ks[i], b, p, np, ctx) + FieldDifferences(a, ks[i + 1..], b, p, np, ctx)
  {
    hide FieldDifference;
    assert ks[i..][0] == ks[i] && ks[i..][1..] == ks[i + 1..];
  }

  method DiffItems(a: Json, b: Json, p: Text, np: Text, ctx: Option<Text>, before: seq<Difference>)
      returns (out: seq<Difference>)
    requires a.Arr? && b.Arr?
    ensures var ka, kb := KeyedItems(np, a.items), KeyedItems(np, b.items);
      out == before + (ItemDifferences(a, ka, kb, p, np, ctx) + AddedItems(kb, ka, p, np, ctx))
    decreases a, 0, 1
  {
    hide Key, Differences, ItemDifferences, AddedItems;
    var ka, kb := KeyedItems(np, a.items), KeyedItems(np, b.items);
    out := DiffPresent(a, ka, kb, p, np, ctx, before);
    out := DiffAdded(ka, kb, p, np, ctx, out);
    Grows(before, ItemDifferences(a, ka, kb, p, np, ctx), AddedItems(kb, ka, p, np, ctx));
  }

  method DiffAdded(ka: seq<Entry>, kb: seq<Entry>, p: Text, np: Text, ctx: Option<Text>, before: seq<Difference>)
      returns (out: seq<Difference>)
    ensures out == before + AddedItems(kb, ka, p, np, ctx)
  {
    hide *;
    out := before;
    assert kb[0..] == kb;
    for i := 0 to |kb|
      invariant out + AddedItems(kb[i..], ka, p, np, ctx) == before + AddedItems(kb, ka, p, np, ctx)
    {
      AddedStep(kb, i, ka, p, np, ctx);
      var d := if Get(ka, kb[i].key).None? then [Difference(Child(p, kb[i].key), np, Added, CaseOf(kb[i].value, ctx))]
        else [];
      Grows(out, d, AddedItems(kb[i + 1..], ka, p, np, ctx));
      out := out + d;
    }
    NothingLeft(kb, ka, p, np, ctx);
  }

  lemma NothingLeft(kb: seq<Entry>, ka: seq<Entry>, p: Text, np: Text, ctx: Option<Text>)
    ensures AddedItems(kb[|kb|..], ka, p, np, ctx) == []
  {
  }

  method DiffPresent(a: Json, ka: seq<Entry>, kb: seq<Entry>, p: Text, np: Text, ctx: Option<Text>,
      before: seq<Difference>)
    returns (out: seq<Difference>)
    requires forall e :: e in ka ==> Inside(e.value, a)
    ensures out == before + ItemDifferences(a, ka, kb, p, np, ctx)
    decreases a, 0, 0
  {
    hide Key, Get, Differences, ItemDifferences, FieldDifferences, AddedItems, KeyedItems, Child, CaseOf;
    out := before;
    assert ka[0..] == ka;
    for i := 0 to |ka|
      invariant out + ItemDifferences(a, ka[i..], kb, p, np, ctx) == before + ItemDifferences(a, ka, kb, p, np, ctx)
    {
      var e := ka[i];
      assert e in ka;
      ItemStep(a, ka, i, kb, p, np, ctx);
      Grows(out, ItemDifference(a, e, kb, p, np, ctx), ItemDifferences(a, ka[i + 1..], kb, p, np, ctx));
      if Get(kb, e.key).None? {
        out := out + [Difference(Child(p, e.key), np, Removed, CaseOf(e.value, ctx))];
      } else {
        out := Diff(e.value, Get(kb, e.key).value, Child(p, e.key), Child(np, STAR), CaseOf(e.value, ctx), out);
      }
    }
    NothingPresent(a, ka, kb, p, np, ctx);
  }

  lemma NothingPresent(a: Json, ka: seq<Entry>, kb: seq<Entry>, p: Text, np: Text, ctx: Option<Text>)
    ensures ItemDifferences(a, ka[|ka|..], kb, p, np, ctx) == []
  {
  }

  method DiffFields(a: Json, b: Json, p: Text, np: Text, ctx: Option<Text>, before: seq<Difference>)
      returns (out: seq<Difference>)
    requires a.Obj? && b.Obj?
    ensures out == before + FieldDifferences(a, KeysOf(a.entries) + NewKeys(a.entries, b.entries), b, p, np, ctx)
    decreases a, 0, 0
  {
    hide Key, Get, Differences, ItemDifferences, FieldDifferences, AddedItems, KeyedItems, Semantic, KeysOf, NewKeys,
      Child;
    out := before;
    var ks := KeysOf(a.entries) + NewKeys(a.entries, b.entries);
    assert ks[0..] == ks;
    for i := 0 to |ks|
      invariant out + FieldDifferences(a, ks[i..], b, p, np, ctx) == before + FieldDifferences(a, ks, b, p, np, ctx)
    {
      var k := ks[i];
      FieldStep(a, ks, i, b, p, np, ctx);
      Grows(out, FieldDifference(a, k, b, p, np, ctx), FieldDifferences(a, ks[i + 1..], b, p, np, ctx));
      if Semantic(k) {
        var va, vb := Get(a.entries, k), Get(b.entries, k);
        if va.None? || vb.None? {
          out := out + [Difference(Child(p, k), Child(np, k), Changed, ctx)];
        } else {
          out := Diff(va.value, vb.value, Child(p, k), Child(np, k), ctx, out);
        }
      }
    }
    NothingMore(a, ks, b, p, np, ctx);
  }

  lemma NothingMore(a: Json, ks: seq<Text>, b: Json, p: Text, np: Text, ctx: Option<Text>)
    requires a.Obj? && b.Obj?
    ensures FieldDifferences(a, ks[|ks|..], b, p, np, ctx) == []
  {
  }
}
