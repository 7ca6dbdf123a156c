/** Changes the replay diff does not report, and reports without a change, when an array holds a key more
    than once (scripts/compare-replay-effects.ts). */
module ReplayHidden {
  import opened Options
  import opened Text
  import opened Numerals
  import opened JsonPrinter
  import opened ReplayDiff
  import opened ReplayEquality
  import opened ReplayRepeats

  // ---------------------------------------------------------------------------------------------
  // Another value of the same key.

  function LongestKey(entries: seq<Entry>): (n: nat)
    ensures forall e :: e in entries ==> |e.key| <= n
  {
    if entries == [] then 0
    else
      var rest := LongestKey(entries[1..]);
      assert entries == [entries[0]] + entries[1..];
      if |entries[0].key| < rest then rest else |entries[0].key|
  }

  function LongestName(items: seq<Json>): (n: nat)
    ensures forall v :: v in items && v.Obj? ==> LongestKey(v.entries) <= n
  {
    if items == [] then 0
    else
      var rest, here := LongestName(items[1..]), if items[0].Obj? then LongestKey(items[0].entries) else 0;
      assert items == [items[0]] + items[1..];
      if here < rest then rest else here
  }

  /** A field name no item has, and longer than any name a key is made of. */
  function FreshName(items: seq<Json>): (t: Text)
    ensures |t| > LongestName(items) && |t| > 20
  {
    seq(LongestName(items) + 21, _ => 0)
  }

  /** The text of an item within `String(array)`. */
  function ItemString(v: Json): Text {
    if v.Null? then [] else JsonString(v)
  }

  /** A value without structure that reads the same as part of a key. */
  function Flat(v: Json): Json {
    if v.Null? then Null else Str(JsonString(v))
  }

  function Flattened(entries: seq<Entry>): (r: seq<Entry>)
    ensures |r| == |entries|
    ensures forall i :: 0 <= i < |r| ==> r[i] == Entry(entries[i].key, Flat(entries[i].value))
  {
    if entries == [] then [] else [Entry(entries[0].key, Flat(entries[0].value))] + Flattened(entries[1..])
  }

  /** A different value, without repeated keys, that reads the same as part of a key. */
  function Altered(v: Json, name: Text): Json {
    match v
    case Obj(entries) => Obj(Flattened(entries) + [Entry(name, Null)])
    case Str(_) => Arr([v])
    case _ => Str(ItemString(v))
  }

  /** What `Key` can tell apart in a field. */
  ghost predicate SameRead(x: Option<Json>, y: Option<Json>) {
    x == y || (x.Some? && y.Some? && !x.value.Null? && !y.value.Null? && JsonString(x.value) == JsonString(y.value))
  }

  ghost predicate SameReads(a: Json, b: Json) {
    a.Obj? && b.Obj? && forall name: string :: |name| <= 20 ==> SameRead(Field(a, name), Field(b, name))
  }

  lemma ReadAlike(a: Json, b: Json, name: string)
    requires SameReads(a, b) && |name| <= 20
    ensures SameRead(Field(a, name), Field(b, name))
    ensures StringOf(Field(a, name)) == StringOf(Field(b, name)) && Joined(Field(a, name)) == Joined(Field(b, name))
  {
    hide JsonString, Field, Ascii;
    assert SameRead(Field(a, name), Field(b, name));
  }

  lemma OrElseAlike(a: Option<Json>, b: Option<Json>, x: Option<Json>, y: Option<Json>)
    requires SameRead(a, b) && SameRead(x, y)
    ensures SameRead(OrElse(a, x), OrElse(b, y))
    ensures StringOf(OrElse(a, x)) == StringOf(OrElse(b, y)) && Joined(OrElse(a, x)) == Joined(OrElse(b, y))
  {
    hide JsonString, Ascii;
  }

  lemma AssertionReads(a: Json, b: Json)
    requires SameReads(a, b)
    ensures AssertionKey(a) == AssertionKey(b)
  {
    hide SameReads, JsonString, Field, Ascii, StringOf, Joined;
    ReadAlike(a, b, "case_id");
    ReadAlike(a, b, "method");
    ReadAlike(a, b, "assertion");
    ReadAlike(a, b, "variant");
  }

  lemma ReviewReads(a: Json, b: Json)
    requires SameReads(a, b)
    ensures ReviewKey(a) == ReviewKey(b)
  {
    hide SameReads, JsonString, Field, Ascii, StringOf, Joined, OrElse;
    ReadAlike(a, b, "case_id");
    ReadAlike(a, b, "peer");
    ReadAlike(a, b, "disagreement");
    ReadAlike(a, b, "variant");
    ReadAlike(a, b, "content_digest");
    ReadAlike(a, b, "contentDigest");
    ReadAlike(a, b, "method");
    OrElseAlike(Field(a, "content_digest"), Field(b, "content_digest"), Field(a, "contentDigest"),
      Field(b, "contentDigest"));
  }

  lemma VariantReads(a: Json, b: Json, i: nat)
    requires SameReads(a, b)
    ensures VariantKey(a, i) == VariantKey(b, i)
  {
    hide SameReads, JsonString, Field, Ascii, StringOf, Joined, OrElse, Decimal;
    ReadAlike(a, b, "case_id");
    ReadAlike(a, b, "id");
    var index := Some(Num(Decimal(i)));
    OrElseAlike(Field(a, "case_id"), Field(b, "case_id"), index, index);
    OrElseAlike(Field(a, "id"), Field(b, "id"), OrElse(Field(a, "case_id"), index), OrElse(Field(b, "case_id"), index));
  }

  /** A key is made of fields as they read. */
  lemma KeyReads(a: Json, b: Json, np: Text, i: nat)
    requires a.Obj? && b.Obj? && SameReads(a, b)
    ensures Key(np, a, i) == Key(np, b, i)
  {
    hide SameReads, JsonString, Field, Ascii, Decimal, PlaceOf, StringOf, Joined, AssertionKey, ReviewKey, VariantKey;
    ReadAlike(a, b, "scanner");
    ReadAlike(a, b, "case_id");
    ReadAlike(a, b, "id");
    ReadAlike(a, b, "kind");
    ReadAlike(a, b, "name");
    AssertionReads(a, b);
    ReviewReads(a, b);
    VariantReads(a, b, i);
  }

  lemma {:induction false} GetAppended(entries: seq<Entry>, name: Text, v: Json, k: Text)
    ensures Get(entries + [Entry(name, v)], k) ==
      if Get(entries, k).Some? then Get(entries, k) else if k == name then Some(v) else None
  {
    var all := entries + [Entry(name, v)];
    if entries == [] {
      assert all[1..] == [];
    } else {
      assert all[1..] == entries[1..] + [Entry(name, v)];
      GetAppended(entries[1..], name, v, k);
    }
  }

  lemma {:induction false} GetFlattened(entries: seq<Entry>, k: Text)
    ensures Get(entries, k).None? <==> Get(Flattened(entries), k).None?
    ensures Get(entries, k).Some? ==> Get(Flattened(entries), k) == Some(Flat(Get(entries, k).value))
  {
    hide JsonString;
    if entries != [] {
      assert Flattened(entries)[1..] == Flattened(entries[1..]);
      GetFlattened(entries[1..], k);
    }
  }

  lemma AlteredSameKey(v: Json, name: Text, np: Text, i: nat)
    requires |name| > 20
    ensures Key(np, Altered(v, name), i) == Key(np, v, i)
    ensures ItemString(Altered(v, name)) == ItemString(v)
  {
    hide Key, Ascii;
    if v.Obj? {
      forall s: string | |s| <= 20 ensures SameRead(Field(v, s), Field(Altered(v, name), s)) {
        GetFlattened(v.entries, Ascii(s));
        GetAppended(Flattened(v.entries), name, Null, Ascii(s));
      }
      KeyReads(v, Altered(v, name), np, i);
    } else {
      PlainKey(v, np, i);
      PlainKey(Altered(v, name), np, i);
      if v.Str? {
        assert ItemStrings([v])[1..] == [] && [v][1..] == [];
      }
    }
  }

  lemma PlainKey(v: Json, np: Text, i: nat)
    requires !v.Obj?
    ensures Key(np, v, i) == Decimal(i)
  {
  }

  lemma AlteredValid(v: Json, name: Text)
    requires Valid(v) && (v.Obj? ==> |name| > LongestKey(v.entries))
    ensures Valid(Altered(v, name))
  {
    if v.Obj? {
      var more := Flattened(v.entries) + [Entry(name, Null)];
      forall i, j | 0 <= i < j < |more| ensures more[i].key != more[j].key {
        assert more[i].key == v.entries[i].key && v.entries[i] in v.entries;
        assert j < |v.entries| ==> more[j].key == v.entries[j].key;
      }
    }
  }

  lemma AlteredUnique(v: Json, name: Text, np: Text)
    ensures UniqueKeys(Altered(v, name), np)
  {
  }

  /** An altered value differs from the value, and an altered object from all the objects it is fresh to. */
  lemma AlteredDiffers(u: Json, v: Json, name: Text, np: Text)
    requires u == v || u.Obj? || v.Obj?
    requires |name| > 20 && (u.Obj? ==> |name| > LongestKey(u.entries))
    ensures !SameTree(u, Altered(v, name), np)
  {
    if u.Obj? && v.Obj? {
      GetAppended(Flattened(v.entries), name, Null, name);
      GetAppended(u.entries, name, Null, name);
      assert Get(u.entries, name).None?;
      assert Semantic(name);
      if SameTree(u, Altered(v, name), np) {
        LikeFields(u.entries, Altered(v, name).entries, np, name);
      }
    }
  }

  // ---------------------------------------------------------------------------------------------
  // Replacing one item, or one field.

  lemma {:induction false} LastOfReplaced(np: Text, items: seq<Json>, i: nat, w: Json, k: Text)
    requires i < |items| && Key(np, w, i) == Key(np, items[i], i)
    ensures var x, y := LastOf(np, items, k), LastOf(np, items[i := w], k);
      || x == y
      || (k == Key(np, items[i], i) && x == Some(items[i]) && y == Some(w) && forall j ::
        i < j < |items| ==> Key(np, items[j], j) != Key(np, items[i], i))
    decreases |items|
  {
    hide Key;
    var n := |items| - 1;
    if i < n {
      assert items[i := w][..n] == items[..n][i := w];
      if Key(np, items[n], n) != k {
        LastOfReplaced(np, items[..n], i, w, k);
        assert forall j :: i < j < n ==> items[..n][j] == items[j];
        LastKey(np, items[..n], k);
      }
    } else {
      assert items[i := w][..n] == items[..n];
    }
  }

  lemma LastKey(np: Text, items: seq<Json>, k: Text)
    ensures LastOf(np, items, k).Some? ==>
      exists i :: 0 <= i < |items| && Key(np, items[i], i) == k && items[i] == LastOf(np, items, k).value
  {
    if LastOf(np, items, k).Some? {
      var i := LastIndex(np, items, k);
    }
  }

  lemma {:induction false} SameLastItself(a: Json, np: Text)
    ensures SameLast(a, a, np)
    decreases a
  {
    hide LastOf, Get, Semantic;
    match a
    case Arr(items) =>
      forall k: Text ensures SameItem(items, items, np, k) {
        if LastOf(np, items, k).Some? {
          var v := LastOf(np, items, k).value;
          var i :| 0 <= i < |items| && items[i] == v;
          SameLastItself(items[i], Child(np, STAR));
        }
      }
      SameLastArrays(items, items, np);
    case Obj(entries) =>
      forall k: Text | Semantic(k) ensures SameField(entries, entries, np, k) {
        if Get(entries, k).Some? {
          var i :| 0 <= i < |entries| && entries[i] == Entry(k, Get(entries, k).value);
          SameLastItself(entries[i].value, Child(np, k));
        }
      }
      SameLastObjects(entries, entries, np);
    case _ =>
  }

  /** A later item has the key of item `i`. */
  ghost predicate Followed(items: seq<Json>, i: nat, np: Text)
    requires i < |items|
  {
    exists j :: i < j < |items| && Key(np, items[j], j) == Key(np, items[i], i)
  }

  /** An item may be replaced without a report when a later one has its key, or the two look the same. */
  lemma ReplacedItem(items: seq<Json>, i: nat, w: Json, np: Text)
    requires i < |items| && Key(np, w, i) == Key(np, items[i], i)
    requires Followed(items, i, np) || SameLast(items[i], w, Child(np, STAR))
    ensures SameLast(Arr(items), Arr(items[i := w]), np)
  {
    hide Key, LastOf, SameLast;
    var more := items[i := w];
    forall k: Text ensures SameItem(items, more, np, k) {
      LastOfReplaced(np, items, i, w, k);
      if LastOf(np, items, k).Some? {
        SameLastItself(LastOf(np, items, k).value, Child(np, STAR));
      }
    }
    SameLastArrays(items, more, np);
  }

  lemma {:induction false} ReplacedStrings(items: seq<Json>, i: nat, w: Json)
    requires i < |items| && ItemString(w) == ItemString(items[i])
    ensures ItemStrings(items[i := w]) == ItemStrings(items)
  {
    hide JsonString;
    if i == 0 {
      assert items[i := w][1..] == items[1..];
    } else {
      assert items[i := w][1..] == items[1..][i - 1 := w];
      ReplacedStrings(items[1..], i - 1, w);
    }
  }

  lemma {:induction false} GetReplaced(entries: seq<Entry>, i: nat, v: Json, k: Text)
    requires DistinctKeys(entries) && i < |entries|
    ensures Get(entries[i := Entry(entries[i].key, v)], k) == if k == entries[i].key then Some(v) else Get(entries, k)
  {
    var more := entries[i := Entry(entries[i].key, v)];
    if i == 0 {
      assert more[1..] == entries[1..];
    } else {
      assert more[1..] == entries[1..][i - 1 := Entry(entries[i].key, v)];
      GetReplaced(entries[1..], i - 1, v, k);
    }
  }

  // ---------------------------------------------------------------------------------------------
  // Trees that differ in one item.

  /** `b` is `a` with one item of one compared array, at any depth, replaced by another of its key that has
      no repeated keys itself. */
  ghost predicate OneItem(a: Json, b: Json, np: Text)
    decreases a, 0
  {
    match (a, b)
    case (Arr(xs), Arr(ys)) => exists i :: 0 <= i < |xs| && OneAt(xs, ys, i, np)
    case (Obj(es), Obj(fs)) => exists i :: 0 <= i < |es| && OneIn(es, fs, i, np)
    case _ => false
  }

  ghost predicate OneAt(xs: seq<Json>, ys: seq<Json>, i: nat, np: Text)
    requires i < |xs|
    decreases xs, 1
  {
    && |ys| == |xs| && ys == xs[i := ys[i]] && Key(np, ys[i], i) == Key(np, xs[i], i)
    && (UniqueKeys(ys[i], Child(np, STAR)) || OneItem(xs[i], ys[i], Child(np, STAR)))
  }

  ghost predicate OneIn(es: seq<Entry>, fs: seq<Entry>, i: nat, np: Text)
    requires i < |es|
    decreases es, 1
  {
    && |fs| == |es| && fs == es[i := Entry(es[i].key, fs[i].value)] && Semantic(es[i].key)
    && OneItem(es[i].value, fs[i].value, Child(np, es[i].key))
  }

  lemma {:induction false} OneItemUnique(a: Json, b: Json, np: Text)
    requires UniqueKeys(a, np) && OneItem(a, b, np)
    ensures UniqueKeys(b, np)
    decreases a
  {
    hide Key, Semantic;
    match (a, b)
    case (Arr(xs), Arr(ys)) =>
      var i :| 0 <= i < |xs| && OneAt(xs, ys, i, np);
      if !UniqueKeys(ys[i], Child(np, STAR)) {
        OneItemUnique(xs[i], ys[i], Child(np, STAR));
      }
      forall l | 0 <= l < |ys| ensures UniqueKeys(ys[l], Child(np, STAR)) && Key(np, ys[l], l) == Key(np, xs[l], l) {
        assert l != i ==> ys[l] == xs[l];
      }
    case (Obj(es), Obj(fs)) =>
      var i :| 0 <= i < |es| && OneIn(es, fs, i, np);
      OneItemUnique(es[i].value, fs[i].value, Child(np, es[i].key));
      forall l | 0 <= l < |fs| && Semantic(fs[l].key) ensures UniqueKeys(fs[l].value, Child(np, fs[l].key)) {
        assert l != i ==> fs[l] == es[l];
      }
  }

  // ---------------------------------------------------------------------------------------------
  // What goes unreported.

  /** `b` looks like `a` to the diff and as part of a key, but is another tree. */
  ghost predicate Hides(a: Json, b: Json, np: Text) {
    && Valid(b) && SameLast(a, b, np) && !SameTree(a, b, np)
    && !a.Null? && !b.Null? && JsonString(a) == JsonString(b) && (a.Obj? <==> b.Obj?) && (a.Obj? ==> SameReads(a, b))
  }

  lemma HidesKeepsKey(a: Json, b: Json, np: Text, q: Text, i: nat)
    requires Hides(a, b, np)
    ensures Key(q, a, i) == Key(q, b, i)
  {
    hide SameReads;
    if a.Obj? {
      KeyReads(a, b, q, i);
    } else {
      PlainKey(a, q, i);
      PlainKey(b, q, i);
    }
  }

  lemma ItemReplacedDiffers(items: seq<Json>, i: nat, w: Json, np: Text)
    requires i < |items|
    requires forall l ::
      0 <= l < |items| && Key(np, items[l], l) == Key(np, w, i) ==> !SameTree(items[l], w, Child(np, STAR))
    ensures !SameTree(Arr(items), Arr(items[i := w]), np)
  {
    hide Key, SameTree;
    if SameTree(Arr(items), Arr(items[i := w]), np) {
      var l := LikedBy(items, items[i := w], np, i);
    }
  }

  lemma ReplacedValid(items: seq<Json>, i: nat, w: Json)
    requires i < |items| && Valid(Arr(items)) && Valid(w)
    ensures Valid(Arr(items[i := w]))
  {
  }

  /** The first of two items with one key can be altered. */
  lemma HiddenItem(items: seq<Json>, i: nat, j: nat, np: Text) returns (b: Json)
    requires Valid(Arr(items)) && i < j < |items| && Key(np, items[i], i) == Key(np, items[j], j)
    ensures Hides(Arr(items), b, np) && OneItem(Arr(items), b, np)
  {
    hide Key, SameTree, SameLast, Valid, Altered;
    var name := FreshName(items);
    var w := Altered(items[i], name);
    b := Arr(items[i := w]);
    assert items[i] in items;
    AlteredSameKey(items[i], name, np, i);
    AlteredUnique(items[i], name, Child(np, STAR));
    assert OneAt(items, b.items, i, np);
    ItemValid(Arr(items), items[i]);
    AlteredValid(items[i], name);
    ReplacedValid(items, i, w);
    ReplacedItem(items, i, w, np);
    ReplacedStrings(items, i, w);
    forall l | 0 <= l < |items| && Key(np, items[l], l) == Key(np, w, i)
      ensures !SameTree(items[l], w, Child(np, STAR)) {
      assert items[l] in items;
      if !items[l].Obj? && !items[i].Obj? {
        PlainKey(items[l], np, l);
        PlainKey(items[i], np, i);
        DecimalBack(l);
        DecimalBack(i);
      }
      AlteredDiffers(items[l], items[i], name, Child(np, STAR));
    }
    ItemReplacedDiffers(items, i, w, np);
  }

  lemma LiftOne(items: seq<Json>, i: nat, w: Json, np: Text)
    requires i < |items| && OneItem(items[i], w, Child(np, STAR)) && Key(np, w, i) == Key(np, items[i], i)
    ensures OneItem(Arr(items), Arr(items[i := w]), np)
  {
    hide Key, UniqueKeys;
    assert OneAt(items, items[i := w], i, np);
  }

  lemma LiftItem(items: seq<Json>, i: nat, w: Json, np: Text)
    requires Valid(Arr(items)) && UniqueItems(np, items) && i < |items|
    requires Hides(items[i], w, Child(np, STAR)) && OneItem(items[i], w, Child(np, STAR))
    ensures Hides(Arr(items), Arr(items[i := w]), np) && OneItem(Arr(items), Arr(items[i := w]), np)
  {
    hide Key, SameTree, SameLast, Valid, SameReads, UniqueKeys, ItemStrings;
    HidesKeepsKey(items[i], w, Child(np, STAR), np, i);
    LiftOne(items, i, w, np);
    ReplacedValid(items, i, w);
    ReplacedItem(items, i, w, np);
    ReplacedStrings(items, i, w);
    ItemReplacedDiffers(items, i, w, np);
  }

  lemma LiftField(entries: seq<Entry>, i: nat, w: Json, np: Text)
    requires Valid(Obj(entries)) && i < |entries| && Semantic(entries[i].key)
    requires Hides(entries[i].value, w, Child(np, entries[i].key))
      && OneItem(entries[i].value, w, Child(np, entries[i].key))
    ensures Hides(Obj(entries), Obj(entries[i := Entry(entries[i].key, w)]), np)
    ensures OneItem(Obj(entries), Obj(entries[i := Entry(entries[i].key, w)]), np)
  {
    hide SameTree, SameLast, JsonString, SameReads, Semantic, Ascii;
    var k, more := entries[i].key, entries[i := Entry(entries[i].key, w)];
    assert OneIn(entries, more, i, np);
    GetAt(entries, i);
    forall q: Text ensures Get(more, q) == if q == k then Some(w) else Get(entries, q) {
      GetReplaced(entries, i, w, q);
    }
    FieldReplacedSame(entries, more, k, w, np);
    if SameTree(Obj(entries), Obj(more), np) {
      LikeFields(entries, more, np, k);
    }
    FieldReplacedReads(entries, more, k, w);
    ObjectStrings(entries, more);
  }

  lemma ObjectStrings(es: seq<Entry>, fs: seq<Entry>)
    ensures JsonString(Obj(es)) == JsonString(Obj(fs))
  {
  }

  lemma FieldReplacedReads(entries: seq<Entry>, more: seq<Entry>, k: Text, w: Json)
    requires Get(entries, k).Some? && forall q: Text :: Get(more, q) == if q == k then Some(w) else Get(entries, q)
    requires !w.Null? && !Get(entries, k).value.Null? && JsonString(Get(entries, k).value) == JsonString(w)
    ensures SameReads(Obj(entries), Obj(more))
  {
    hide Get, JsonString, Ascii;
  }

  lemma FieldReplacedSame(entries: seq<Entry>, more: seq<Entry>, k: Text, w: Json, np: Text)
    requires Get(entries, k).Some? && SameLast(Get(entries, k).value, w, Child(np, k))
    requires forall q: Text :: Get(more, q) == if q == k then Some(w) else Get(entries, q)
    ensures SameLast(Obj(entries), Obj(more), np)
  {
    hide Get, SameLast, Semantic;
    forall q: Text | Semantic(q) ensures SameField(entries, more, np, q) {
      if Get(entries, q).Some? && q != k {
        SameLastItself(Get(entries, q).value, Child(np, q));
      }
    }
    SameLastObjects(entries, more, np);
  }

  /** In every tree in which some compared array holds a key twice, one item can change without a report. */
  lemma {:induction false} HiddenChange(a: Json, np: Text) returns (b: Json)
    requires Valid(a) && !UniqueKeys(a, np)
    ensures Hides(a, b, np) && OneItem(a, b, np)
    decreases a
  {
    hide Key, Semantic, Hides, OneItem;
    match a
    case Arr(items) =>
      if UniqueItems(np, items) {
        var i :| 0 <= i < |items| && !UniqueKeys(items[i], Child(np, STAR));
        var w := HiddenChange(items[i], Child(np, STAR));
        LiftItem(items, i, w, np);
        b := Arr(items[i := w]);
      } else {
        var i, j :| 0 <= i < j < |items| && Key(np, items[i], i) == Key(np, items[j], j);
        b := HiddenItem(items, i, j, np);
      }
    case Obj(entries) =>
      var i :| 0 <= i < |entries| && Semantic(entries[i].key)
        && !UniqueKeys(entries[i].value, Child(np, entries[i].key));
      var w := HiddenChange(entries[i].value, Child(np, entries[i].key));
      LiftField(entries, i, w, np);
      b := Obj(entries[i := Entry(entries[i].key, w)]);
  }

  /** The diff is right about every replacement of one item by another of its key exactly when no array that
      is compared holds a key twice. */
  lemma ReliableExactly(a: Json, p: Text, np: Text, ctx: Option<Text>)
    requires Valid(a)
    ensures UniqueKeys(a, np) <==> forall b: Json ::
      Valid(b) && OneItem(a, b, np) ==> (Differences(a, b, p, np, ctx) == [] <==> SameTree(a, b, np))
  {
    hide Differences, SameTree, UniqueKeys, OneItem, Valid;
    if UniqueKeys(a, np) {
      forall b: Json | Valid(b) && OneItem(a, b, np)
        ensures Differences(a, b, p, np, ctx) == [] <==> SameTree(a, b, np) {
        OneItemUnique(a, b, np);
        NothingAdded(a, b, p, np, ctx);
      }
    } else {
      var b := HiddenChange(a, np);
      NothingAddedExactly(a, b, p, np, ctx);
    }
  }

  /** A tree compared with itself has no differences, whatever its keys. */
  lemma NoneWithItself(a: Json, p: Text, np: Text, ctx: Option<Text>)
    requires Valid(a)
    ensures Differences(a, a, p, np, ctx) == []
  {
    SameLastItself(a, np);
    NothingAddedExactly(a, a, p, np, ctx);
  }

  // ---------------------------------------------------------------------------------------------
  // Concretely.

  function Scanner(name: Text, mode: Text): Json {
    Obj([Entry(Ascii("scanner"), Str(name)), Entry(Ascii("mode"), Str(mode))])
  }

  lemma ScannerFacts(name: Text, mode: Text, i: nat)
    ensures Valid(Scanner(name, mode)) && Key(Ascii("/scanners"), Scanner(name, mode), i) == name
    ensures Get(Scanner(name, mode).entries, Ascii("mode")) == Some(Str(mode)) && Semantic(Ascii("mode"))
  {
    assert Field(Scanner(name, mode), "scanner") == Some(Str(name));
  }

  lemma ModesDiffer(name: Text, mode: Text, other: Text, np: Text)
    requires mode != other
    ensures !SameLast(Scanner(name, mode), Scanner(name, other), np)
      && !SameTree(Scanner(name, mode), Scanner(name, other), np)
  {
    hide Scanner, Semantic, Get;
    ScannerFacts(name, mode, 0);
    ScannerFacts(name, other, 0);
    var a, b := Scanner(name, mode), Scanner(name, other);
    assert a.Obj? && b.Obj? by { ScannerIsObject(name, mode); ScannerIsObject(name, other); }
    if SameLast(a, b, np) {
      SameLastField(a.entries, b.entries, np, Ascii("mode"));
    }
    if SameTree(a, b, np) {
      LikeFields(a.entries, b.entries, np, Ascii("mode"));
    }
  }

  lemma ScannerIsObject(name: Text, mode: Text)
    ensures Scanner(name, mode).Obj?
  {
  }

  /** Two scanners of one name, the first of which changed: no difference is reported. */
  lemma LostUnderOneKey(name: Text, was: Text, now: Text, last: Text, p: Text, ctx: Option<Text>)
    requires now != was && now != last
    ensures var a := Arr([Scanner(name, was), Scanner(name, last)]);
      var b := Arr([Scanner(name, now), Scanner(name, last)]);
      Differences(a, b, p, Ascii("/scanners"), ctx) == [] && !SameTree(a, b, Ascii("/scanners"))
  {
    hide Key, Scanner, SameLast, SameTree, Differences;
    var np, xs, w := Ascii("/scanners"), [Scanner(name, was), Scanner(name, last)], Scanner(name, now);
    ScannerFacts(name, was, 0);
    ScannerFacts(name, now, 0);
    ScannerFacts(name, last, 1);
    assert Followed(xs, 0, np) by { assert Key(np, xs[1], 1) == Key(np, xs[0], 0); }
    ReplacedItem(xs, 0, w, np);
    assert xs[0 := w] == [w, Scanner(name, last)];
    NothingAddedExactly(Arr(xs), Arr(xs[0 := w]), p, np, ctx);
    ModesDiffer(name, was, now, Child(np, STAR));
    ModesDiffer(name, last, now, Child(np, STAR));
    ItemReplacedDiffers(xs, 0, w, np);
  }

  /** Without repeated keys on the one side alone, an addition still goes unreported: a scanner, against another
      of its name followed by itself. */
  lemma ShadowedAddition(name: Text, added: Text, last: Text, p: Text, ctx: Option<Text>)
    requires added != last
    ensures var a, b := Arr([Scanner(name, last)]), Arr([Scanner(name, added), Scanner(name, last)]);
      UniqueKeys(a, Ascii("/scanners")) && Differences(a, b, p, Ascii("/scanners"), ctx) == []
        && !SameTree(a, b, Ascii("/scanners"))
  {
    hide Key, Scanner, SameLast, SameTree, Differences;
    var np, x, y := Ascii("/scanners"), Scanner(name, last), Scanner(name, added);
    ScannerFacts(name, last, 0);
    ScannerFacts(name, last, 1);
    ScannerFacts(name, added, 0);
    forall k: Text ensures SameItem([x], [y, x], np, k) {
      LastOfOne(x, np, k);
      LastOfOne(y, np, k);
      assert [y, x][..|[y, x]| - 1] == [y];
      assert LastOf(np, [y, x], k) == LastOf(np, [x], k);
      SameLastItself(x, Child(np, STAR));
    }
    SameLastArrays([x], [y, x], np);
    NothingAddedExactly(Arr([x]), Arr([y, x]), p, np, ctx);
    ModesDiffer(name, last, added, Child(np, STAR));
    if SameTree(Arr([x]), Arr([y, x]), np) {
      var i := LikedBy([x], [y, x], np, 0);
    }
    ScannerUnique(name, last, Child(np, STAR));
  }

  lemma LastOfOne(x: Json, np: Text, k: Text)
    ensures LastOf(np, [x], k) == if Key(np, x, 0) == k then Some(x) else None
  {
    hide Key;
    assert [x][..|[x]| - 1] == [];
  }

  lemma ScannerUnique(name: Text, mode: Text, np: Text)
    ensures UniqueKeys(Scanner(name, mode), np)
  {
  }

  lemma AlikeItself(np: Text, x: Json, i: nat, j: nat)
    requires Key(np, x, i) == Key(np, x, j)
    ensures Alike(np, x, i, x, j)
  {
    hide Key;
    TreeReflexive(x, Child(np, STAR));
  }

  lemma PairSameTree(x: Json, y: Json, np: Text)
    requires Key(np, x, 0) == Key(np, x, 1) && Key(np, y, 0) == Key(np, y, 1)
    ensures SameTree(Arr([x, y]), Arr([y, x]), np)
  {
    hide Key, SameTree, Alike;
    var xs, ys := [x, y], [y, x];
    AlikeItself(np, x, 0, 1);
    AlikeItself(np, y, 1, 0);
    assert Alike(np, xs[0], 0, ys[1], 1) && Alike(np, xs[1], 1, ys[0], 0);
    SameArrays(xs, ys, np);
  }

  lemma LastOfTwo(x: Json, y: Json, np: Text)
    ensures LastOf(np, [x, y], Key(np, y, 1)) == Some(y)
  {
  }

  /** And the other failure: two items of one key that differ, in the other order. The trees are equal, and
      a difference is reported. */
  lemma ReorderReported(x: Json, y: Json, p: Text, np: Text, ctx: Option<Text>)
    requires Valid(x) && Valid(y) && !SameLast(y, x, Child(np, STAR))
    requires Key(np, x, 0) == Key(np, x, 1) == Key(np, y, 0) == Key(np, y, 1)
    ensures SameTree(Arr([x, y]), Arr([y, x]), np) && Differences(Arr([x, y]), Arr([y, x]), p, np, ctx) != []
  {
    hide Key, LastOf, SameTree, Differences;
    PairSameTree(x, y, np);
    LastOfTwo(x, y, np);
    LastOfTwo(y, x, np);
    assert !SameItem([x, y], [y, x], np, Key(np, y, 1));
    NothingAddedExactly(Arr([x, y]), Arr([y, x]), p, np, ctx);
  }

  /** Two scanners of one name, in the other order. */
  lemma ReorderedScanners(name: Text, mode: Text, other: Text, p: Text, ctx: Option<Text>)
    requires mode != other
    ensures var x, y := Scanner(name, mode), Scanner(name, other);
      SameTree(Arr([x, y]), Arr([y, x]), Ascii("/scanners"))
        && Differences(Arr([x, y]), Arr([y, x]), p, Ascii("/scanners"), ctx) != []
  {
    hide Key, Scanner, SameTree, SameLast, Differences;
    ScannerFacts(name, mode, 0);
    ScannerFacts(name, mode, 1);
    ScannerFacts(name, other, 0);
    ScannerFacts(name, other, 1);
    ModesDiffer(name, other, mode, Child(Ascii("/scanners"), STAR));
    ReorderReported(Scanner(name, mode), Scanner(name, other), p, Ascii("/scanners"), ctx);
  }
}
