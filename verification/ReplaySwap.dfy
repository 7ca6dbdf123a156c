/** Swapping the compared trees (scripts/compare-replay-effects.ts). */
module ReplaySwap {
  import opened Options
  import opened Text
  import opened JsonPrinter
  import opened ReplayDiff
  import opened ReplayEquality
  import Sorting

  // ---------------------------------------------------------------------------------------------
  // What a difference shows, and what it shows when the sides are exchanged.

  datatype Face = Face(path: Text, at: Text, change: Change)

  function Flip(change: Change): Change {
    match change
    case Added => Removed
    case Removed => Added
    case Changed => Changed
  }

  function FaceOf(d: Difference, flip: bool): Face {
    Face(d.path, d.at, if flip then Flip(d.change) else d.change)
  }

  ghost function Faces(ds: seq<Difference>, flip: bool): multiset<Face> {
    if ds == [] then multiset{} else multiset{FaceOf(ds[0], flip)} + Faces(ds[1..], flip)
  }

  lemma {:induction false} FacesConcat(x: seq<Difference>, y: seq<Difference>, flip: bool)
    ensures Faces(x + y, flip) == Faces(x, flip) + Faces(y, flip)
  {
    if x == [] {
      assert x + y == y;
    } else {
      assert (x + y)[1..] == x[1..] + y;
      FacesConcat(x[1..], y, flip);
    }
  }

  ghost function SumOver(ks: seq<Text>, w: Text -> multiset<Face>): multiset<Face> {
    if ks == [] then multiset{} else w(ks[0]) + SumOver(ks[1..], w)
  }

  lemma {:induction false} SumConcat(ks: seq<Text>, ls: seq<Text>, w: Text -> multiset<Face>)
    ensures SumOver(ks + ls, w) == SumOver(ks, w) + SumOver(ls, w)
  {
    if ks == [] {
      assert ks + ls == ls;
    } else {
      assert (ks + ls)[1..] == ks[1..] + ls;
      SumConcat(ks[1..], ls, w);
    }
  }

  lemma {:induction false} SumPermutes(ks: seq<Text>, ls: seq<Text>, w: Text -> multiset<Face>)
    requires multiset(ks) == multiset(ls)
    ensures SumOver(ks, w) == SumOver(ls, w)
    decreases |ks|
  {
    assert |multiset(ks)| == |multiset(ls)|;
    if ks != [] {
      assert ks == [ks[0]] + ks[1..];
      assert ks[0] in multiset(ls);
      var i :| 0 <= i < |ls| && ls[i] == ks[0];
      var rest := ls[..i] + ls[i + 1..];
      assert ls == ls[..i] + ([ls[i]] + ls[i + 1..]);
      assert multiset(ks[1..]) == multiset(ks) - multiset{ks[0]};
      assert multiset(rest) == multiset(ls) - multiset{ks[0]};
      SumPermutes(ks[1..], rest, w);
      SumConcat(ls[..i], ls[i + 1..], w);
      SumConcat(ls[..i], [ls[i]] + ls[i + 1..], w);
      assert ([ls[i]] + ls[i + 1..])[1..] == ls[i + 1..];
    }
  }

  // ---------------------------------------------------------------------------------------------
  // Differences as sums over keys.

  lemma {:induction false} ItemsSum(parent: Json, es: seq<Entry>, kb: seq<Entry>, p: Text, np: Text,
      ctx: Option<Text>, flip: bool, w: Text -> multiset<Face>)
    requires forall e :: e in es ==> Inside(e.value, parent)
    requires forall i :: 0 <= i < |es| ==> Faces(ItemDifference(parent, es[i], kb, p, np, ctx), flip) == w(es[i].key)
    ensures Faces(ItemDifferences(parent, es, kb, p, np, ctx), flip) == SumOver(KeysOf(es), w)
    decreases |es|
  {
    hide ItemDifference, Inside, Faces;
    if es == [] {
      NoFaces(flip);
    } else {
      assert forall i :: 0 < i < |es| ==> es[i] == es[1..][i - 1];
      ItemsSum(parent, es[1..], kb, p, np, ctx, flip, w);
      FacesConcat(ItemDifference(parent, es[0], kb, p, np, ctx), ItemDifferences(parent, es[1..], kb, p, np, ctx),
        flip);
      assert KeysOf(es)[1..] == KeysOf(es[1..]);
    }
  }

  lemma NoFaces(flip: bool)
    ensures Faces([], flip) == multiset{}
  {
  }

  lemma {:induction false} AddedSum(fs: seq<Entry>, ka: seq<Entry>, p: Text, np: Text, ctx: Option<Text>, flip: bool,
      w: Text -> multiset<Face>)
    requires forall i :: 0 <= i < |fs| && Get(ka, fs[i].key).None? ==>
      w(fs[i].key) == multiset{Face(Child(p, fs[i].key), np, if flip then Removed else Added)}
    ensures Faces(AddedItems(fs, ka, p, np, ctx), flip) == SumOver(NewKeys(ka, fs), w)
    decreases |fs|
  {
    hide Get, Child, CaseOf;
    if fs != [] {
      assert forall i :: 0 < i < |fs| ==> fs[i] == fs[1..][i - 1];
      AddedSum(fs[1..], ka, p, np, ctx, flip, w);
      var rest := NewKeys(ka, fs[1..]);
      if Get(ka, fs[0].key).None? {
        var d := Difference(Child(p, fs[0].key), np, Added, CaseOf(fs[0].value, ctx));
        var more := AddedItems(fs[1..], ka, p, np, ctx);
        assert ([d] + more)[1..] == more;
        assert ([fs[0].key] + rest)[1..] == rest;
      } else {
        assert [] + AddedItems(fs[1..], ka, p, np, ctx) == AddedItems(fs[1..], ka, p, np, ctx);
        assert [] + rest == rest;
      }
    }
  }

  lemma {:induction false} FieldsSum(a: Json, ks: seq<Text>, b: Json, p: Text, np: Text, ctx: Option<Text>,
      flip: bool, w: Text -> multiset<Face>)
    requires a.Obj? && b.Obj?
    requires forall i :: 0 <= i < |ks| ==> Faces(FieldDifference(a, ks[i], b, p, np, ctx), flip) == w(ks[i])
    ensures Faces(FieldDifferences(a, ks, b, p, np, ctx), flip) == SumOver(ks, w)
    decreases |ks|
  {
    hide FieldDifference, Faces;
    if ks == [] {
      NoFaces(flip);
    } else {
      assert forall i :: 0 < i < |ks| ==> ks[i] == ks[1..][i - 1];
      FieldsSum(a, ks[1..], b, p, np, ctx, flip, w);
      FacesConcat(FieldDifference(a, ks[0], b, p, np, ctx), FieldDifferences(a, ks[1..], b, p, np, ctx), flip);
    }
  }

  ghost predicate Distinct(ks: seq<Text>) {
    forall i, j :: 0 <= i < j < |ks| ==> ks[i] != ks[j]
  }

  lemma {:induction false} NewKeysDistinct(es: seq<Entry>, fs: seq<Entry>)
    requires DistinctKeys(fs)
    ensures Distinct(NewKeys(es, fs))
  {
    hide Get;
    if fs != [] {
      NewKeysDistinct(es, fs[1..]);
      GetNone(fs[1..], fs[0].key);
    }
  }

  function Union(es: seq<Entry>, fs: seq<Entry>): seq<Text> {
    KeysOf(es) + NewKeys(es, fs)
  }

  lemma UnionDistinct(es: seq<Entry>, fs: seq<Entry>)
    requires DistinctKeys(es) && DistinctKeys(fs)
    ensures Distinct(Union(es, fs))
    ensures forall k :: k in Union(es, fs) <==> Get(es, k).Some? || Get(fs, k).Some?
  {
    hide Get, NewKeys;
    NewKeysDistinct(es, fs);
    forall k ensures k in KeysOf(es) <==> Get(es, k).Some? {
      KeysOfHas(es, k);
    }
    var kept, added := KeysOf(es), NewKeys(es, fs);
    var all := kept + added;
    forall i, j | 0 <= i < j < |all| ensures all[i] != all[j] {
      if i < |kept| <= j {
        assert kept[i] in kept && added[j - |kept|] in added;
      }
    }
  }

  lemma UnionsPermute(es: seq<Entry>, fs: seq<Entry>)
    requires DistinctKeys(es) && DistinctKeys(fs)
    ensures multiset(Union(es, fs)) == multiset(Union(fs, es))
  {
    hide Get, Union, DistinctKeys;
    UnionDistinct(es, fs);
    UnionDistinct(fs, es);
    Sorting.SameMembersSameMultiset(Union(es, fs), Union(fs, es));
  }

  // ---------------------------------------------------------------------------------------------
  // The swap.

  /** What the items of key `k` contribute. */
  ghost function ItemFaces(ka: seq<Entry>, kb: seq<Entry>, p: Text, np: Text, k: Text): multiset<Face> {
    var va, vb := Get(ka, k), Get(kb, k);
    if va.None? && vb.None? then multiset{}
    else if va.None? then multiset{Face(Child(p, k), np, Added)}
    else if vb.None? then multiset{Face(Child(p, k), np, Removed)}
    else Faces(Differences(va.value, vb.value, Child(p, k), Child(np, STAR), None), false)
  }

  ghost function FieldFaces(a: Json, b: Json, p: Text, np: Text, k: Text): multiset<Face>
    requires a.Obj? && b.Obj?
  {
    Faces(FieldDifference(a, k, b, p, np, None), false)
  }

  /** Comparing the other way round reports the same places, with added and removed exchanged. */
  lemma {:induction false} SwapExchanges(a: Json, b: Json, p: Text, np: Text, ctx: Option<Text>, ctx': Option<Text>)
    requires Valid(a) && Valid(b)
    ensures Faces(Differences(a, b, p, np, ctx), false) == Faces(Differences(b, a, p, np, ctx'), true)
    decreases a, 3
  {
    hide Key, Put, KeyedItems, ItemDifferences, AddedItems, FieldDifferences, Valid, KeysOf, NewKeys, Child;
    if a.Arr? && b.Arr? {
      ArraysSwap(a, b, p, np, ctx, ctx');
    } else if a.Obj? && b.Obj? {
      ObjectsSwap(a, b, p, np, ctx, ctx');
    } else {
      LeavesSwap(a, b, p, np, ctx, ctx');
    }
  }

  lemma LeavesSwap(a: Json, b: Json, p: Text, np: Text, ctx: Option<Text>, ctx': Option<Text>)
    requires !(a.Arr? && b.Arr?) && !(a.Obj? && b.Obj?)
    ensures Faces(Differences(a, b, p, np, ctx), false) == Faces(Differences(b, a, p, np, ctx'), true)
  {
    hide Put, Child, Faces;
    OneFace(Difference(p, np, Changed, ctx), false);
    OneFace(Difference(p, np, Changed, ctx'), true);
    NoFaces(false);
    NoFaces(true);
  }

  lemma OneFace(d: Difference, flip: bool)
    ensures Faces([d], flip) == multiset{FaceOf(d, flip)}
  {
    assert [d][1..] == [];
  }

  lemma KeyedItemValid(a: Json, ka: seq<Entry>, np: Text, k: Text)
    requires a.Arr? && Valid(a) && ka == KeyedItems(np, a.items) && Get(ka, k).Some?
    ensures Valid(Get(ka, k).value) && Inside(Get(ka, k).value, a)
  {
    hide Key, KeyedItems;
    ItemValid(a, Get(ka, k).value);
  }

  /** The item of key `k`, compared from the first side. */
  lemma {:induction false} ItemForward(a: Json, b: Json, p: Text, np: Text, ctx: Option<Text>, e: Entry)
    requires a.Arr? && b.Arr? && Valid(a) && Valid(b)
    requires Get(KeyedItems(np, a.items), e.key) == Some(e.value) && Inside(e.value, a)
    ensures Faces(ItemDifference(a, e, KeyedItems(np, b.items), p, np, ctx), false)
         == ItemFaces(KeyedItems(np, a.items), KeyedItems(np, b.items), p, np, e.key)
    decreases a, 0
  {
    hide Key, Put, KeyedItems, Get, Valid, Child, Differences, Faces;
    var ka, kb, k := KeyedItems(np, a.items), KeyedItems(np, b.items), e.key;
    KeyedItemValid(a, ka, np, k);
    if Get(kb, k).Some? {
      KeyedItemValid(b, kb, np, k);
      var v := Get(kb, k).value;
      SwapExchanges(e.value, v, Child(p, k), Child(np, STAR), CaseOf(e.value, ctx), None);
      SwapExchanges(e.value, v, Child(p, k), Child(np, STAR), None, None);
    } else {
      OneFace(Difference(Child(p, k), np, Removed, CaseOf(e.value, ctx)), false);
    }
  }

  /** And from the second. */
  lemma {:induction false} ItemBackward(a: Json, b: Json, p: Text, np: Text, ctx: Option<Text>, f: Entry)
    requires a.Arr? && b.Arr? && Valid(a) && Valid(b)
    requires Get(KeyedItems(np, b.items), f.key) == Some(f.value) && Inside(f.value, b)
    ensures Faces(ItemDifference(b, f, KeyedItems(np, a.items), p, np, ctx), true)
         == ItemFaces(KeyedItems(np, a.items), KeyedItems(np, b.items), p, np, f.key)
    decreases a, 0
  {
    hide Key, Put, KeyedItems, Get, Valid, Child, Differences, Faces;
    var ka, kb, k := KeyedItems(np, a.items), KeyedItems(np, b.items), f.key;
    KeyedItemValid(b, kb, np, k);
    if Get(ka, k).Some? {
      KeyedItemValid(a, ka, np, k);
      SwapExchanges(Get(ka, k).value, f.value, Child(p, k), Child(np, STAR), None, CaseOf(f.value, ctx));
    } else {
      OneFace(Difference(Child(p, k), np, Removed, CaseOf(f.value, ctx)), true);
    }
  }

  lemma {:induction false} ArrayForward(a: Json, b: Json, p: Text, np: Text, ctx: Option<Text>)
    requires a.Arr? && b.Arr? && Valid(a) && Valid(b)
    ensures var ka, kb := KeyedItems(np, a.items), KeyedItems(np, b.items);
      Faces(Differences(a, b, p, np, ctx), false) == SumOver(Union(ka, kb), k => ItemFaces(ka, kb, p, np, k))
    decreases a, 1
  {
    hide Key, Put, KeyedItems, ItemDifferences, ItemDifference, AddedItems, Valid, KeysOf, NewKeys, Child, Get,
      ItemFaces, Faces, SumOver;
    var ka, kb := KeyedItems(np, a.items), KeyedItems(np, b.items);
    var w: Text -> multiset<Face> := k => ItemFaces(ka, kb, p, np, k);
    assert Differences(a, b, p, np, ctx) == ItemDifferences(a, ka, kb, p, np, ctx) + AddedItems(kb, ka, p, np, ctx);
    hide Differences;
    forall i | 0 <= i < |ka| ensures Faces(ItemDifference(a, ka[i], kb, p, np, ctx), false) == w(ka[i].key) {
      ItemsGet(a, np, i);
      ItemForward(a, b, p, np, ctx, ka[i]);
    }
    ItemsSum(a, ka, kb, p, np, ctx, false, w);
    forall i | 0 <= i < |kb| && Get(ka, kb[i].key).None?
      ensures w(kb[i].key) == multiset{Face(Child(p, kb[i].key), np, Added)} {
      ItemsGet(b, np, i);
      OnlySecond(ka, kb, p, np, kb[i].key);
    }
    AddedSum(kb, ka, p, np, ctx, false, w);
    FacesConcat(ItemDifferences(a, ka, kb, p, np, ctx), AddedItems(kb, ka, p, np, ctx), false);
    SumConcat(KeysOf(ka), NewKeys(ka, kb), w);
  }

  lemma OnlySecond(ka: seq<Entry>, kb: seq<Entry>, p: Text, np: Text, k: Text)
    requires Get(ka, k).None? && Get(kb, k).Some?
    ensures ItemFaces(ka, kb, p, np, k) == multiset{Face(Child(p, k), np, Added)}
  {
  }

  lemma OnlyFirst(ka: seq<Entry>, kb: seq<Entry>, p: Text, np: Text, k: Text)
    requires Get(ka, k).Some? && Get(kb, k).None?
    ensures ItemFaces(ka, kb, p, np, k) == multiset{Face(Child(p, k), np, Removed)}
  {
  }

  lemma {:induction false} ArrayBackward(a: Json, b: Json, p: Text, np: Text, ctx: Option<Text>)
    requires a.Arr? && b.Arr? && Valid(a) && Valid(b)
    ensures var ka, kb := KeyedItems(np, a.items), KeyedItems(np, b.items);
      Faces(Differences(b, a, p, np, ctx), true) == SumOver(Union(kb, ka), k => ItemFaces(ka, kb, p, np, k))
    decreases a, 1
  {
    hide Key, Put, KeyedItems, ItemDifferences, ItemDifference, AddedItems, Valid, KeysOf, NewKeys, Child, Get,
      ItemFaces, Faces, SumOver;
    var ka, kb := KeyedItems(np, a.items), KeyedItems(np, b.items);
    var w: Text -> multiset<Face> := k => ItemFaces(ka, kb, p, np, k);
    assert Differences(b, a, p, np, ctx) == ItemDifferences(b, kb, ka, p, np, ctx) + AddedItems(ka, kb, p, np, ctx);
    hide Differences;
    forall i | 0 <= i < |kb| ensures Faces(ItemDifference(b, kb[i], ka, p, np, ctx), true) == w(kb[i].key) {
      ItemsGet(b, np, i);
      ItemBackward(a, b, p, np, ctx, kb[i]);
    }
    ItemsSum(b, kb, ka, p, np, ctx, true, w);
    forall i | 0 <= i < |ka| && Get(kb, ka[i].key).None?
      ensures w(ka[i].key) == multiset{Face(Child(p, ka[i].key), np, Removed)} {
      ItemsGet(a, np, i);
      OnlyFirst(ka, kb, p, np, ka[i].key);
    }
    AddedSum(ka, kb, p, np, ctx, true, w);
    FacesConcat(ItemDifferences(b, kb, ka, p, np, ctx), AddedItems(ka, kb, p, np, ctx), true);
    SumConcat(KeysOf(kb), NewKeys(kb, ka), w);
  }

  lemma {:induction false} ArraysSwap(a: Json, b: Json, p: Text, np: Text, ctx: Option<Text>, ctx': Option<Text>)
    requires a.Arr? && b.Arr? && Valid(a) && Valid(b)
    ensures Faces(Differences(a, b, p, np, ctx), false) == Faces(Differences(b, a, p, np, ctx'), true)
    decreases a, 2
  {
    hide *;
    var ka, kb := KeyedItems(np, a.items), KeyedItems(np, b.items);
    ArrayForward(a, b, p, np, ctx);
    ArrayBackward(a, b, p, np, ctx');
    KeyedDistinct(np, a.items);
    KeyedDistinct(np, b.items);
    UnionsPermute(ka, kb);
    SumPermutes(Union(ka, kb), Union(kb, ka), k => ItemFaces(ka, kb, p, np, k));
  }

  lemma {:induction false} FieldSwaps(a: Json, k: Text, b: Json, p: Text, np: Text, ctx: Option<Text>,
      ctx': Option<Text>)
    requires a.Obj? && b.Obj? && Valid(a) && Valid(b)
    ensures Faces(FieldDifference(a, k, b, p, np, ctx), false) == Faces(FieldDifference(b, k, a, p, np, ctx'), true)
    decreases a, 0
  {
    hide Get, Valid, Child, Differences, Faces, Semantic;
    FieldValid(a, k);
    FieldValid(b, k);
    OneFace(Difference(Child(p, k), Child(np, k), Changed, ctx), false);
    OneFace(Difference(Child(p, k), Child(np, k), Changed, ctx'), true);
    NoFaces(false);
    NoFaces(true);
    if Semantic(k) && Get(a.entries, k).Some? && Get(b.entries, k).Some? {
      SwapExchanges(Get(a.entries, k).value, Get(b.entries, k).value, Child(p, k), Child(np, k), ctx, ctx');
    }
  }

  lemma {:induction false} ObjectsSwap(a: Json, b: Json, p: Text, np: Text, ctx: Option<Text>, ctx': Option<Text>)
    requires a.Obj? && b.Obj? && Valid(a) && Valid(b)
    ensures Faces(Differences(a, b, p, np, ctx), false) == Faces(Differences(b, a, p, np, ctx'), true)
    decreases a, 1
  {
    hide Put, Valid, KeysOf, NewKeys, Child, Get, FieldDifference, FieldDifferences, Faces, SumOver, DistinctKeys;
    var es, fs := a.entries, b.entries;
    var w: Text -> multiset<Face> := k => FieldFaces(a, b, p, np, k);
    assert Differences(a, b, p, np, ctx) == FieldDifferences(a, Union(es, fs), b, p, np, ctx);
    assert Differences(b, a, p, np, ctx') == FieldDifferences(b, Union(fs, es), a, p, np, ctx');
    hide Differences;
    FieldValid(a, []);
    FieldValid(b, []);
    forall k ensures Faces(FieldDifference(a, k, b, p, np, ctx), false) == w(k) {
      FieldSwaps(a, k, b, p, np, ctx, ctx');
      FieldSwaps(a, k, b, p, np, None, ctx');
    }
    forall k ensures Faces(FieldDifference(b, k, a, p, np, ctx'), true) == w(k) {
      FieldSwaps(a, k, b, p, np, None, ctx');
    }
    FieldsSum(a, Union(es, fs), b, p, np, ctx, false, w);
    FieldsSum(b, Union(fs, es), a, p, np, ctx', true, w);
    UnionsPermute(es, fs);
    SumPermutes(Union(es, fs), Union(fs, es), w);
  }
}
