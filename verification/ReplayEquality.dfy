/** When the replay diff reports nothing (scripts/compare-replay-effects.ts). */
module ReplayEquality {
  import opened Options
  import opened Text
  import opened JsonPrinter
  import opened ReplayDiff
  import JsonReader

  // ---------------------------------------------------------------------------------------------
  // Maps of keyed items.

  lemma {:induction false} SetKeys(m: seq<Entry>, k: Text, v: Json)
    requires DistinctKeys(m)
    ensures DistinctKeys(Set(m, k, v))
    ensures forall e :: e in Set(m, k, v) ==> e.key == k || exists d :: d in m && d.key == e.key
  {
    if m != [] {
      assert m == [m[0]] + m[1..];
      if m[0].key != k {
        SetKeys(m[1..], k, v);
        var rest := Set(m[1..], k, v);
        forall e | e in rest ensures e.key != m[0].key {
          if e.key != k {
            var d :| d in m[1..] && d.key == e.key;
            var i :| 0 <= i < |m[1..]| && m[1..][i] == d;
            assert m[i + 1] == d;
          }
        }
      }
    }
  }

  lemma {:induction false} KeyedDistinct(np: Text, items: seq<Json>)
    ensures DistinctKeys(KeyedItems(np, items))
  {
    hide Key, DistinctKeys;
    if items == [] {
      NoKeys();
    } else {
      var n := |items| - 1;
      KeyedDistinct(np, items[..n]);
      SetKeys(KeyedItems(np, items[..n]), Key(np, items[n], n), items[n]);
    }
  }

  lemma NoKeys()
    ensures DistinctKeys([])
  {
  }

  lemma {:induction false} GetAt(m: seq<Entry>, i: nat)
    requires DistinctKeys(m) && i < |m|
    ensures Get(m, m[i].key) == Some(m[i].value)
  {
    if i > 0 {
      assert m[0].key != m[i].key;
      GetAt(m[1..], i - 1);
    }
  }

  lemma {:induction false} GetNone(m: seq<Entry>, k: Text)
    ensures Get(m, k).None? <==> forall j :: 0 <= j < |m| ==> m[j].key != k
  {
    if m != [] {
      GetNone(m[1..], k);
      assert forall j :: 0 < j < |m| ==> m[j] == m[1..][j - 1];
    }
  }

  /** The last item of a key. */
  function LastOf(np: Text, items: seq<Json>, k: Text): (r: Option<Json>)
    ensures r.Some? ==> r.value in items
  {
    if items == [] then None
    else
      var n := |items| - 1;
      assert items == items[..n] + [items[n]];
      if Key(np, items[n], n) == k then Some(items[n]) else LastOf(np, items[..n], k)
  }

  lemma {:induction false} SetGet(m: seq<Entry>, k: Text, v: Json, j: Text)
    ensures Get(Set(m, k, v), j) == if j == k then Some(v) else Get(m, j)
  {
    if m != [] && m[0].key != k {
      SetGet(m[1..], k, v, j);
    }
  }

  /** `new Map` keeps the last item of each key. */
  lemma {:induction false} KeyedGet(np: Text, items: seq<Json>, k: Text)
    ensures Get(KeyedItems(np, items), k) == LastOf(np, items, k)
  {
    hide Key, Get;
    if items == [] {
      GetNone(KeyedItems(np, items), k);
    } else {
      var n := |items| - 1;
      KeyedGet(np, items[..n], k);
      SetGet(KeyedItems(np, items[..n]), Key(np, items[n], n), items[n], k);
    }
  }

  lemma {:induction false} LastIndex(np: Text, items: seq<Json>, k: Text) returns (i: nat)
    requires LastOf(np, items, k).Some?
    ensures i < |items| && Key(np, items[i], i) == k && items[i] == LastOf(np, items, k).value
  {
    hide Key;
    var n := |items| - 1;
    if Key(np, items[n], n) == k {
      i := n;
    } else {
      i := LastIndex(np, items[..n], k);
    }
  }

  lemma {:induction false} LastNone(np: Text, items: seq<Json>, k: Text)
    ensures LastOf(np, items, k).None? <==> forall i :: 0 <= i < |items| ==> Key(np, items[i], i) != k
  {
    hide Key;
    if items != [] {
      var n := |items| - 1;
      LastNone(np, items[..n], k);
      assert forall i :: 0 <= i < n ==> items[..n][i] == items[i];
    }
  }

  // ---------------------------------------------------------------------------------------------
  // Nothing to report.

  lemma {:induction false} NoItemDifference(parent: Json, es: seq<Entry>, kb: seq<Entry>, p: Text, np: Text,
      ctx: Option<Text>)
    requires forall e :: e in es ==> Inside(e.value, parent)
    ensures ItemDifferences(parent, es, kb, p, np, ctx) == [] <==>
      forall i :: 0 <= i < |es| ==> ItemDifference(parent, es[i], kb, p, np, ctx) == []
    decreases |es|
  {
    hide ItemDifference, Inside;
    if es != [] {
      NoItemDifference(parent, es[1..], kb, p, np, ctx);
      assert forall i :: 0 < i < |es| ==> es[i] == es[1..][i - 1];
    }
  }

  lemma {:induction false} NoAddedItem(fs: seq<Entry>, ka: seq<Entry>, p: Text, np: Text, ctx: Option<Text>)
    ensures AddedItems(fs, ka, p, np, ctx) == [] <==> forall i :: 0 <= i < |fs| ==> Get(ka, fs[i].key).Some?
  {
    hide Get;
    if fs != [] {
      NoAddedItem(fs[1..], ka, p, np, ctx);
      assert forall i :: 0 < i < |fs| ==> fs[i] == fs[1..][i - 1];
    }
  }

  lemma {:induction false} NoFieldDifference(a: Json, ks: seq<Text>, b: Json, p: Text, np: Text, ctx: Option<Text>)
    requires a.Obj? && b.Obj?
    ensures FieldDifferences(a, ks, b, p, np, ctx) == [] <==>
      forall i :: 0 <= i < |ks| ==> FieldDifference(a, ks[i], b, p, np, ctx) == []
    decreases |ks|
  {
    hide FieldDifference;
    if ks != [] {
      NoFieldDifference(a, ks[1..], b, p, np, ctx);
      assert forall i :: 0 < i < |ks| ==> ks[i] == ks[1..][i - 1];
    }
  }

  lemma {:induction false} KeysOfHas(entries: seq<Entry>, k: Text)
    ensures k in KeysOf(entries) <==> Get(entries, k).Some?
  {
    if entries != [] {
      KeysOfHas(entries[1..], k);
    }
  }

  /** Equal in what the diff looks at: at every depth, the last item of each key, and all fields but
      `non_semantic`. */
  ghost predicate SameLast(a: Json, b: Json, np: Text)
    decreases a, 0
  {
    match (a, b)
    case (Arr(xs), Arr(ys)) => SameItems(xs, ys, np)
    case (Obj(es), Obj(fs)) => SameFields(es, fs, np)
    case _ => a == b
  }

  ghost predicate SameItems(xs: seq<Json>, ys: seq<Json>, np: Text)
    decreases xs, 2
  {
    forall k: Text :: SameItem(xs, ys, np, k)
  }

  ghost predicate SameFields(es: seq<Entry>, fs: seq<Entry>, np: Text)
    decreases es, 2
  {
    forall k: Text :: Semantic(k) ==> SameField(es, fs, np, k)
  }

  /** Both have an item of the key, and their last ones are the same; or neither has. */
  ghost predicate SameItem(xs: seq<Json>, ys: seq<Json>, np: Text, k: Text)
    decreases xs, 1
  {
    var x, y := LastOf(np, xs, k), LastOf(np, ys, k);
    (x.None? && y.None?) || (x.Some? && y.Some? && SameLast(x.value, y.value, Child(np, STAR)))
  }

  ghost predicate SameField(es: seq<Entry>, fs: seq<Entry>, np: Text, k: Text)
    decreases es, 1
  {
    var x, y := Get(es, k), Get(fs, k);
    (x.None? && y.None?) || (x.Some? && y.Some? && SameLast(x.value, y.value, Child(np, k)))
  }

  lemma PrintsDiffer(a: Json, b: Json)
    requires Valid(a) && Valid(b)
    ensures Put(a, []) == Put(b, []) <==> a == b
  {
    hide Put, Valid, JsonReader.ReadValue;
    JsonReader.ValueBack(a, []);
    JsonReader.ValueBack(b, []);
  }

  lemma SameLastField(es: seq<Entry>, fs: seq<Entry>, np: Text, k: Text)
    requires SameLast(Obj(es), Obj(fs), np) && Semantic(k)
    ensures SameField(es, fs, np, k)
  {
    hide Semantic, Get;
  }

  lemma SameLastArrays(xs: seq<Json>, ys: seq<Json>, np: Text)
    requires forall k: Text :: SameItem(xs, ys, np, k)
    ensures SameLast(Arr(xs), Arr(ys), np)
  {
    assert SameItems(xs, ys, np);
  }

  lemma SameLastObjects(es: seq<Entry>, fs: seq<Entry>, np: Text)
    requires forall k: Text :: Semantic(k) ==> SameField(es, fs, np, k)
    ensures SameLast(Obj(es), Obj(fs), np)
  {
    hide Semantic, Get;
  }

  lemma ItemValid(a: Json, v: Json)
    requires a.Arr? && Valid(a) && v in a.items
    ensures Valid(v)
  {
  }

  lemma FieldValid(a: Json, k: Text)
    requires a.Obj? && Valid(a)
    ensures DistinctKeys(a.entries)
    ensures Get(a.entries, k).Some? ==> Valid(Get(a.entries, k).value) && Entry(k, Get(a.entries, k).value) in a.entries
  {
    if Get(a.entries, k).Some? {
      var i :| 0 <= i < |a.entries| && a.entries[i] == Entry(k, Get(a.entries, k).value);
    }
  }

  /** The diff adds nothing exactly when the last items of each key, and the fields, are the same. */
  lemma {:induction false} NothingAddedExactly(a: Json, b: Json, p: Text, np: Text, ctx: Option<Text>)
    requires Valid(a) && Valid(b)
    ensures Differences(a, b, p, np, ctx) == [] <==> SameLast(a, b, np)
    decreases a, 2
  {
    hide Key, Put, ItemDifferences, AddedItems, FieldDifferences, Valid, LastOf, Get, KeyedItems, KeysOf, NewKeys;
    if a.Arr? && b.Arr? {
      ArraysExactly(a, b, p, np, ctx);
    } else if a.Obj? && b.Obj? {
      ObjectsExactly(a, b, p, np, ctx);
    } else {
      PrintsDiffer(a, b);
    }
  }

  lemma {:induction false} ItemExactly(a: Json, b: Json, e: Entry, p: Text, np: Text, ctx: Option<Text>)
    requires a.Arr? && b.Arr? && Valid(a) && Valid(b)
    requires LastOf(np, a.items, e.key) == Some(e.value) && Inside(e.value, a)
    ensures ItemDifference(a, e, KeyedItems(np, b.items), p, np, ctx) == [] <==> SameItem(a.items, b.items, np, e.key)
    decreases a, 0
  {
    hide Key, KeyedItems, Valid, Differences, LastOf, SameLast, Get;
    KeyedGet(np, b.items, e.key);
    ItemValid(a, e.value);
    var y := LastOf(np, b.items, e.key);
    if y.Some? {
      ItemValid(b, y.value);
      NothingAddedExactly(e.value, y.value, Child(p, e.key), Child(np, STAR), CaseOf(e.value, ctx));
    }
  }

  lemma ItemsGet(a: Json, np: Text, i: nat)
    requires a.Arr? && i < |KeyedItems(np, a.items)|
    ensures var ka := KeyedItems(np, a.items); Get(ka, ka[i].key) == Some(ka[i].value) && Inside(ka[i].value, a)
  {
    hide Key, KeyedItems;
    KeyedDistinct(np, a.items);
    GetAt(KeyedItems(np, a.items), i);
    assert KeyedItems(np, a.items)[i] in KeyedItems(np, a.items);
  }

  ghost predicate EachKeySame(np: Text, xs: seq<Json>, ys: seq<Json>) {
    forall i {:trigger KeyedItems(np, xs)[i]} ::
      0 <= i < |KeyedItems(np, xs)| ==> SameItem(xs, ys, np, KeyedItems(np, xs)[i].key)
  }

  ghost predicate EachKeyPresent(np: Text, xs: seq<Json>, ys: seq<Json>) {
    forall j :: 0 <= j < |KeyedItems(np, ys)| ==> Get(KeyedItems(np, xs), KeyedItems(np, ys)[j].key).Some?
  }

  lemma {:induction false} ArraysExactly(a: Json, b: Json, p: Text, np: Text, ctx: Option<Text>)
    requires a.Arr? && b.Arr? && Valid(a) && Valid(b)
    ensures Differences(a, b, p, np, ctx) == [] <==> SameItems(a.items, b.items, np)
    decreases a, 1
  {
    hide Key, Put, KeyedItems, Valid, ItemDifferences, ItemDifference, AddedItems, SameLast, Get, LastOf;
    var xs, ys := a.items, b.items;
    var ka, kb := KeyedItems(np, xs), KeyedItems(np, ys);
    assert Differences(a, b, p, np, ctx) == ItemDifferences(a, ka, kb, p, np, ctx) + AddedItems(kb, ka, p, np, ctx);
    hide Differences;
    NoItemDifference(a, ka, kb, p, np, ctx);
    NoAddedItem(kb, ka, p, np, ctx);
    forall i | 0 <= i < |ka|
      ensures ItemDifference(a, ka[i], kb, p, np, ctx) == [] <==> SameItem(xs, ys, np, ka[i].key) {
      ItemsGet(a, np, i);
      KeyedGet(np, xs, ka[i].key);
      ItemExactly(a, b, ka[i], p, np, ctx);
    }
    assert ItemDifferences(a, ka, kb, p, np, ctx) == [] <==> EachKeySame(np, xs, ys);
    assert AddedItems(kb, ka, p, np, ctx) == [] <==> EachKeyPresent(np, xs, ys);
    SameByKeys(np, xs, ys);
  }

  lemma KeyPresent(np: Text, xs: seq<Json>, k: Text)
    ensures Get(KeyedItems(np, xs), k) == LastOf(np, xs, k)
    ensures LastOf(np, xs, k).None? <==> forall i :: 0 <= i < |KeyedItems(np, xs)| ==> KeyedItems(np, xs)[i].key != k
  {
    hide Key, KeyedItems, Get, LastOf;
    KeyedGet(np, xs, k);
    GetNone(KeyedItems(np, xs), k);
  }

  lemma SameByKeys(np: Text, xs: seq<Json>, ys: seq<Json>)
    ensures SameItems(xs, ys, np) <==> EachKeySame(np, xs, ys) && EachKeyPresent(np, xs, ys)
  {
    hide Key, KeyedItems, SameLast, Get, LastOf;
    if EachKeySame(np, xs, ys) && EachKeyPresent(np, xs, ys) {
      forall k: Text ensures SameItem(xs, ys, np, k) {
        KeyPresent(np, xs, k);
        KeyPresent(np, ys, k);
      }
    }
    if SameItems(xs, ys, np) {
      forall j | 0 <= j < |KeyedItems(np, ys)| ensures Get(KeyedItems(np, xs), KeyedItems(np, ys)[j].key).Some? {
        var k := KeyedItems(np, ys)[j].key;
        assert SameItem(xs, ys, np, k);
        KeyPresent(np, xs, k);
        KeyPresent(np, ys, k);
      }
    }
  }

  lemma {:induction false} FieldExactly(a: Json, k: Text, b: Json, p: Text, np: Text, ctx: Option<Text>)
    requires a.Obj? && b.Obj? && Valid(a) && Valid(b) && (Get(a.entries, k).Some? || Get(b.entries, k).Some?)
    ensures FieldDifference(a, k, b, p, np, ctx) == [] <==> (Semantic(k) ==> SameField(a.entries, b.entries, np, k))
    decreases a, 0
  {
    hide Valid, Differences, Get, Semantic, SameLast;
    FieldValid(a, k);
    FieldValid(b, k);
    if Get(a.entries, k).Some? && Get(b.entries, k).Some? {
      NothingAddedExactly(Get(a.entries, k).value, Get(b.entries, k).value, Child(p, k), Child(np, k), ctx);
    }
  }

  lemma {:induction false} ObjectsExactly(a: Json, b: Json, p: Text, np: Text, ctx: Option<Text>)
    requires a.Obj? && b.Obj? && Valid(a) && Valid(b)
    ensures Differences(a, b, p, np, ctx) == [] <==> SameFields(a.entries, b.entries, np)
    decreases a, 1
  {
    hide Put, Valid, FieldDifferences, FieldDifference, Get, SameLast, NewKeys, KeysOf, Semantic;
    var es, fs := a.entries, b.entries;
    var ks := KeysOf(es) + NewKeys(es, fs);
    assert Differences(a, b, p, np, ctx) == FieldDifferences(a, ks, b, p, np, ctx);
    hide Differences;
    NoFieldDifference(a, ks, b, p, np, ctx);
    forall k: Text
      ensures k in ks <==> Get(es, k).Some? || Get(fs, k).Some?
      ensures k in ks ==> (FieldDifference(a, k, b, p, np, ctx) == [] <==> (Semantic(k) ==> SameField(es, fs, np, k)))
    {
      KeysOfHas(es, k);
      if Get(es, k).Some? || Get(fs, k).Some? {
        FieldExactly(a, k, b, p, np, ctx);
      }
    }
    assert (forall i :: 0 <= i < |ks| ==> FieldDifference(a, ks[i], b, p, np, ctx) == [])
      <==> forall k :: k in ks ==> FieldDifference(a, k, b, p, np, ctx) == [];
  }

}
