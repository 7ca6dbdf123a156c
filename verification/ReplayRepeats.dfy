/** Trees compared as wholes, and what the replay diff makes of keys that occur more than once in an array
    (scripts/compare-replay-effects.ts). */
module ReplayRepeats {
  import opened Options
  import opened Text
  import opened JsonPrinter
  import opened ReplayDiff
  import opened ReplayEquality

  // ---------------------------------------------------------------------------------------------
  // Equality of trees.

  /** Equal when `non_semantic` is dropped and the items of arrays are matched by key. */
  ghost predicate SameTree(a: Json, b: Json, np: Text)
    decreases a, 0
  {
    match (a, b)
    case (Arr(xs), Arr(ys)) =>
      && (forall i :: 0 <= i < |xs| ==> HasAlike(np, xs[i], i, ys))
      && (forall j :: 0 <= j < |ys| ==> IsAlike(np, xs, ys[j], j))
    case (Obj(es), Obj(fs)) => forall k: Text :: Semantic(k) ==> FieldAlike(np, es, fs, k)
    case _ => a == b
  }

  /** Item `i`, which is `x`, has an equal item of the same key among `ys`. */
  ghost predicate HasAlike(np: Text, x: Json, i: nat, ys: seq<Json>)
    decreases x, 2
  {
    exists j :: 0 <= j < |ys| && Alike(np, x, i, ys[j], j)
  }

  ghost predicate IsAlike(np: Text, xs: seq<Json>, y: Json, j: nat)
    decreases xs, 2
  {
    exists i :: 0 <= i < |xs| && Alike(np, xs[i], i, y, j)
  }

  ghost predicate Alike(np: Text, x: Json, i: nat, y: Json, j: nat)
    decreases x, 1
  {
    Key(np, x, i) == Key(np, y, j) && SameTree(x, y, Child(np, STAR))
  }

  ghost predicate FieldAlike(np: Text, es: seq<Entry>, fs: seq<Entry>, k: Text)
    decreases es, 1
  {
    var x, y := Get(es, k), Get(fs, k);
    (x.None? && y.None?) || (x.Some? && y.Some? && SameTree(x.value, y.value, Child(np, k)))
  }

  lemma {:induction false} TreeReflexive(a: Json, np: Text)
    ensures SameTree(a, a, np)
    decreases a
  {
    hide Key, Semantic;
    match a
    case Arr(items) =>
      forall i | 0 <= i < |items| ensures HasAlike(np, items[i], i, items) && IsAlike(np, items, items[i], i) {
        TreeReflexive(items[i], Child(np, STAR));
        assert Alike(np, items[i], i, items[i], i);
      }
    case Obj(entries) =>
      forall k: Text | Semantic(k) ensures FieldAlike(np, entries, entries, k) {
        if Get(entries, k).Some? {
          TreeReflexive(Get(entries, k).value, Child(np, k));
        }
      }
    case _ =>
  }

  lemma LikeOf(xs: seq<Json>, ys: seq<Json>, np: Text, i: nat) returns (j: nat)
    requires SameTree(Arr(xs), Arr(ys), np) && i < |xs|
    ensures j < |ys| && Alike(np, xs[i], i, ys[j], j)
  {
    hide Key, Alike;
    assert HasAlike(np, xs[i], i, ys);
    j :| 0 <= j < |ys| && Alike(np, xs[i], i, ys[j], j);
  }

  lemma LikedBy(xs: seq<Json>, ys: seq<Json>, np: Text, j: nat) returns (i: nat)
    requires SameTree(Arr(xs), Arr(ys), np) && j < |ys|
    ensures i < |xs| && Alike(np, xs[i], i, ys[j], j)
  {
    hide Key, Alike;
    assert IsAlike(np, xs, ys[j], j);
    i :| 0 <= i < |xs| && Alike(np, xs[i], i, ys[j], j);
  }

  lemma SameArrays(xs: seq<Json>, ys: seq<Json>, np: Text)
    requires forall i :: 0 <= i < |xs| ==> HasAlike(np, xs[i], i, ys)
    requires forall j :: 0 <= j < |ys| ==> IsAlike(np, xs, ys[j], j)
    ensures SameTree(Arr(xs), Arr(ys), np)
  {
    hide Key, Alike;
  }

  lemma LikeFields(es: seq<Entry>, fs: seq<Entry>, np: Text, k: Text)
    requires SameTree(Obj(es), Obj(fs), np) && Semantic(k)
    ensures FieldAlike(np, es, fs, k)
  {
    hide Semantic, Get;
  }

  lemma SameObjects(es: seq<Entry>, fs: seq<Entry>, np: Text)
    requires forall k: Text :: Semantic(k) ==> FieldAlike(np, es, fs, k)
    ensures SameTree(Obj(es), Obj(fs), np)
  {
    hide Semantic, Get;
  }

  lemma {:induction false} AlikeBack(np: Text, x: Json, i: nat, y: Json, j: nat)
    requires Alike(np, x, i, y, j)
    ensures Alike(np, y, j, x, i)
    decreases x, 2
  {
    hide Key;
    TreeSymmetric(x, y, Child(np, STAR));
  }

  lemma {:induction false} ArraysSymmetric(xs: seq<Json>, ys: seq<Json>, np: Text)
    requires SameTree(Arr(xs), Arr(ys), np)
    ensures SameTree(Arr(ys), Arr(xs), np)
    decreases xs, 3
  {
    hide Key, Alike, SameTree;
    forall j | 0 <= j < |ys| ensures HasAlike(np, ys[j], j, xs) {
      var i := LikedBy(xs, ys, np, j);
      AlikeBack(np, xs[i], i, ys[j], j);
    }
    forall i | 0 <= i < |xs| ensures IsAlike(np, ys, xs[i], i) {
      var j := LikeOf(xs, ys, np, i);
      AlikeBack(np, xs[i], i, ys[j], j);
    }
    SameArrays(ys, xs, np);
  }

  lemma {:induction false} TreeSymmetric(a: Json, b: Json, np: Text)
    requires SameTree(a, b, np)
    ensures SameTree(b, a, np)
    decreases a, 1
  {
    hide Key, Semantic, Alike;
    match (a, b)
    case (Arr(xs), Arr(ys)) => ArraysSymmetric(xs, ys, np);
    case (Obj(es), Obj(fs)) =>
      forall k: Text | Semantic(k) ensures FieldAlike(np, fs, es, k) {
        LikeFields(es, fs, np, k);
        if Get(es, k).Some? {
          TreeSymmetric(Get(es, k).value, Get(fs, k).value, Child(np, k));
        }
      }
      SameObjects(fs, es, np);
    case _ =>
  }

  lemma {:induction false} AlikeTwice(np: Text, x: Json, i: nat, y: Json, j: nat, z: Json, k: nat)
    requires Alike(np, x, i, y, j) && Alike(np, y, j, z, k)
    ensures Alike(np, x, i, z, k)
    decreases x, 2
  {
    hide Key;
    TreeTransitive(x, y, z, Child(np, STAR));
  }

  lemma {:induction false} ArraysTransitive(xs: seq<Json>, ys: seq<Json>, zs: seq<Json>, np: Text)
    requires SameTree(Arr(xs), Arr(ys), np) && SameTree(Arr(ys), Arr(zs), np)
    ensures SameTree(Arr(xs), Arr(zs), np)
    decreases xs, 3
  {
    hide Key, Alike, SameTree;
    forall i | 0 <= i < |xs| ensures HasAlike(np, xs[i], i, zs) {
      var j := LikeOf(xs, ys, np, i);
      var k := LikeOf(ys, zs, np, j);
      AlikeTwice(np, xs[i], i, ys[j], j, zs[k], k);
    }
    forall k | 0 <= k < |zs| ensures IsAlike(np, xs, zs[k], k) {
      var j := LikedBy(ys, zs, np, k);
      var i := LikedBy(xs, ys, np, j);
      AlikeTwice(np, xs[i], i, ys[j], j, zs[k], k);
    }
    SameArrays(xs, zs, np);
  }

  lemma {:induction false} TreeTransitive(a: Json, b: Json, c: Json, np: Text)
    requires SameTree(a, b, np) && SameTree(b, c, np)
    ensures SameTree(a, c, np)
    decreases a, 1
  {
    hide Key, Semantic, Alike;
    match (a, b, c)
    case (Arr(xs), Arr(ys), Arr(zs)) => ArraysTransitive(xs, ys, zs, np);
    case (Obj(es), Obj(fs), Obj(gs)) =>
      forall k: Text | Semantic(k) ensures FieldAlike(np, es, gs, k) {
        LikeFields(es, fs, np, k);
        LikeFields(fs, gs, np, k);
        if Get(es, k).Some? {
          TreeTransitive(Get(es, k).value, Get(fs, k).value, Get(gs, k).value, Child(np, k));
        }
      }
      SameObjects(es, gs, np);
    case _ =>
  }

  // ---------------------------------------------------------------------------------------------
  // Trees on which looking at last items is enough.

  /** In every array, items of one key are equal. */
  ghost predicate Coherent(a: Json, np: Text)
    decreases a
  {
    match a
    case Arr(items) =>
      && (forall i :: 0 <= i < |items| ==> Coherent(items[i], Child(np, STAR)))
      && (forall i, j :: 0 <= i < |items| && 0 <= j < |items| && Key(np, items[i], i) == Key(np, items[j], j) ==>
            SameTree(items[i], items[j], Child(np, STAR)))
    case Obj(entries) =>
      forall i :: 0 <= i < |entries| && Semantic(entries[i].key) ==>
        Coherent(entries[i].value, Child(np, entries[i].key))
    case _ => true
  }

  lemma CoherentField(entries: seq<Entry>, np: Text, k: Text)
    requires Coherent(Obj(entries), np) && Semantic(k) && Get(entries, k).Some?
    ensures Coherent(Get(entries, k).value, Child(np, k))
  {
    var i :| 0 <= i < |entries| && entries[i] == Entry(k, Get(entries, k).value);
  }

  lemma CoherentItems(items: seq<Json>, np: Text, i: nat, j: nat)
    requires Coherent(Arr(items), np) && i < |items| && j < |items|
    ensures Coherent(items[i], Child(np, STAR))
    ensures Key(np, items[i], i) == Key(np, items[j], j) ==> Alike(np, items[i], i, items[j], j)
  {
    hide Key;
  }

  /** On coherent trees, equality of last items is equality. */
  lemma {:induction false} LastIsEnough(a: Json, b: Json, np: Text)
    requires Coherent(a, np) && Coherent(b, np)
    ensures SameLast(a, b, np) <==> SameTree(a, b, np)
    decreases a, 2
  {
    hide Key, Semantic, LastOf, Get, Coherent;
    match (a, b)
    case (Arr(xs), Arr(ys)) =>
      if SameLast(a, b, np) {
        forall i | 0 <= i < |xs| ensures HasAlike(np, xs[i], i, ys) {
          ItemHasAlike(xs, ys, np, i);
        }
        forall j | 0 <= j < |ys| ensures IsAlike(np, xs, ys[j], j) {
          ItemIsAlike(xs, ys, np, j);
        }
      }
      if SameTree(a, b, np) {
        forall k: Text ensures SameItem(xs, ys, np, k) {
          AlikeSameItem(xs, ys, np, k);
        }
        SameLastArrays(xs, ys, np);
      }
    case (Obj(es), Obj(fs)) =>
      if SameLast(a, b, np) {
        forall k: Text | Semantic(k) ensures FieldAlike(np, es, fs, k) {
          SameLastField(es, fs, np, k);
          FieldEnough(es, fs, np, k);
        }
        SameObjects(es, fs, np);
      }
      if SameTree(a, b, np) {
        forall k: Text | Semantic(k) ensures SameField(es, fs, np, k) {
          LikeFields(es, fs, np, k);
          FieldEnough(es, fs, np, k);
        }
        SameLastObjects(es, fs, np);
      }
    case _ =>
  }

  lemma {:induction false} FieldEnough(es: seq<Entry>, fs: seq<Entry>, np: Text, k: Text)
    requires Coherent(Obj(es), np) && Coherent(Obj(fs), np) && Semantic(k)
    ensures SameField(es, fs, np, k) <==> FieldAlike(np, es, fs, k)
    decreases es, 1
  {
    hide Key, Semantic, Coherent;
    if Get(es, k).Some? && Get(fs, k).Some? {
      CoherentField(es, np, k);
      CoherentField(fs, np, k);
      LastIsEnough(Get(es, k).value, Get(fs, k).value, Child(np, k));
    }
  }

  /** The last items of a key, on both sides, are alike. */
  lemma {:induction false} LastAlike(xs: seq<Json>, ys: seq<Json>, np: Text, k: Text) returns (m: nat, n: nat)
    requires Coherent(Arr(xs), np) && Coherent(Arr(ys), np)
    requires SameItem(xs, ys, np, k) && LastOf(np, xs, k).Some?
    ensures m < |xs| && n < |ys| && Key(np, xs[m], m) == k && Alike(np, xs[m], m, ys[n], n)
    decreases xs, 0
  {
    hide Key, LastOf, Coherent;
    m := LastIndex(np, xs, k);
    n := LastIndex(np, ys, k);
    CoherentItems(xs, np, m, m);
    CoherentItems(ys, np, n, n);
    LastIsEnough(xs[m], ys[n], Child(np, STAR));
  }

  lemma {:induction false} ItemHasAlike(xs: seq<Json>, ys: seq<Json>, np: Text, i: nat)
    requires Coherent(Arr(xs), np) && Coherent(Arr(ys), np) && SameItems(xs, ys, np) && i < |xs|
    ensures HasAlike(np, xs[i], i, ys)
    decreases xs, 1
  {
    hide Key, LastOf, Coherent;
    var k := Key(np, xs[i], i);
    assert SameItem(xs, ys, np, k);
    LastNone(np, xs, k);
    var m, n := LastAlike(xs, ys, np, k);
    CoherentItems(xs, np, i, m);
    AlikeTwice(np, xs[i], i, xs[m], m, ys[n], n);
  }

  lemma {:induction false} ItemIsAlike(xs: seq<Json>, ys: seq<Json>, np: Text, j: nat)
    requires Coherent(Arr(xs), np) && Coherent(Arr(ys), np) && SameItems(xs, ys, np) && j < |ys|
    ensures IsAlike(np, xs, ys[j], j)
    decreases xs, 1
  {
    hide Key, LastOf, Coherent;
    var k := Key(np, ys[j], j);
    assert SameItem(xs, ys, np, k);
    LastNone(np, ys, k);
    var m, n := LastAlike(xs, ys, np, k);
    CoherentItems(ys, np, n, j);
    AlikeTwice(np, xs[m], m, ys[n], n, ys[j], j);
  }

  lemma KeysPresentAlike(xs: seq<Json>, ys: seq<Json>, np: Text, k: Text)
    requires SameTree(Arr(xs), Arr(ys), np)
    ensures LastOf(np, xs, k).Some? <==> LastOf(np, ys, k).Some?
  {
    hide Key, LastOf, SameTree;
    LastNone(np, xs, k);
    LastNone(np, ys, k);
    if LastOf(np, xs, k).Some? {
      var m := LastIndex(np, xs, k);
      var j := LikeOf(xs, ys, np, m);
    }
    if LastOf(np, ys, k).Some? {
      var n := LastIndex(np, ys, k);
      var i := LikedBy(xs, ys, np, n);
    }
  }

  lemma {:induction false} AlikeSameItem(xs: seq<Json>, ys: seq<Json>, np: Text, k: Text)
    requires Coherent(Arr(xs), np) && Coherent(Arr(ys), np) && SameTree(Arr(xs), Arr(ys), np)
    ensures SameItem(xs, ys, np, k)
    decreases xs, 1
  {
    hide Key, LastOf, Coherent;
    KeysPresentAlike(xs, ys, np, k);
    if LastOf(np, xs, k).Some? {
      var m := LastIndex(np, xs, k);
      var n := LastIndex(np, ys, k);
      var j := LikeOf(xs, ys, np, m);
      CoherentItems(xs, np, m, m);
      CoherentItems(ys, np, j, n);
      CoherentItems(ys, np, n, n);
      AlikeTwice(np, xs[m], m, ys[j], j, ys[n], n);
      LastIsEnough(xs[m], ys[n], Child(np, STAR));
    }
  }

  /** So on trees whose items of one key are equal, the diff adds nothing exactly when the trees are. */
  lemma NothingAddedCoherent(a: Json, b: Json, p: Text, np: Text, ctx: Option<Text>)
    requires Valid(a) && Valid(b) && Coherent(a, np) && Coherent(b, np)
    ensures Differences(a, b, p, np, ctx) == [] <==> SameTree(a, b, np)
  {
    NothingAddedExactly(a, b, p, np, ctx);
    LastIsEnough(a, b, np);
  }

  // ---------------------------------------------------------------------------------------------
  // Trees without repeated keys.

  ghost predicate UniqueItems(np: Text, items: seq<Json>) {
    forall i, j :: 0 <= i < j < |items| ==> Key(np, items[i], i) != Key(np, items[j], j)
  }

  /** No array that is compared holds two items of one key. */
  ghost predicate UniqueKeys(a: Json, np: Text)
    decreases a
  {
    match a
    case Arr(items) => UniqueItems(np, items) && forall i :: 0 <= i < |items| ==> UniqueKeys(items[i], Child(np, STAR))
    case Obj(entries) =>
      forall i :: 0 <= i < |entries| && Semantic(entries[i].key) ==>
        UniqueKeys(entries[i].value, Child(np, entries[i].key))
    case _ => true
  }

  lemma {:induction false} UniqueIsCoherent(a: Json, np: Text)
    requires UniqueKeys(a, np)
    ensures Coherent(a, np)
    decreases a
  {
    hide Key, Semantic;
    match a
    case Arr(items) =>
      forall i | 0 <= i < |items| ensures Coherent(items[i], Child(np, STAR)) {
        UniqueIsCoherent(items[i], Child(np, STAR));
      }
      forall i, j | 0 <= i < |items| && 0 <= j < |items| && Key(np, items[i], i) == Key(np, items[j], j)
        ensures SameTree(items[i], items[j], Child(np, STAR))
      {
        assert i == j;
        TreeReflexive(items[i], Child(np, STAR));
      }
    case Obj(entries) =>
      forall i | 0 <= i < |entries| && Semantic(entries[i].key)
        ensures Coherent(entries[i].value, Child(np, entries[i].key)) {
        UniqueIsCoherent(entries[i].value, Child(np, entries[i].key));
      }
    case _ =>
  }

  /** For trees whose arrays hold no key twice: the diff adds nothing exactly when they are equal up to
      `non_semantic` and the order of keyed items. */
  lemma NothingAdded(a: Json, b: Json, p: Text, np: Text, ctx: Option<Text>)
    requires Valid(a) && Valid(b) && UniqueKeys(a, np) && UniqueKeys(b, np)
    ensures Differences(a, b, p, np, ctx) == [] <==> SameTree(a, b, np)
  {
    UniqueIsCoherent(a, np);
    UniqueIsCoherent(b, np);
    NothingAddedCoherent(a, b, p, np, ctx);
  }
}
