/** A stable sort by a comparison, as `Array.prototype.sort` is specified to be. */
module Sorting {

  ghost predicate Total<T(!new)>(le: (T, T) -> bool) {
    && (forall x, y :: le(x, y) || le(y, x))
    && (forall x, y, z :: le(x, y) && le(y, z) ==> le(x, z))
  }

  ghost predicate Ascending<T>(xs: seq<T>, le: (T, T) -> bool) {
    forall i, j :: 0 <= i < j < |xs| ==> le(xs[i], xs[j])
  }

  function Insert<T>(x: T, xs: seq<T>, le: (T, T) -> bool): seq<T>
    decreases |xs|
  {
    if xs == [] || le(x, xs[0]) then [x] + xs else [xs[0]] + Insert(x, xs[1..], le)
  }

  function Sort<T>(xs: seq<T>, le: (T, T) -> bool): seq<T>
    decreases |xs|
  {
    if xs == [] then [] else Insert(xs[0], Sort(xs[1..], le), le)
  }

  lemma {:induction false} InsertPermutes<T>(x: T, xs: seq<T>, le: (T, T) -> bool)
    ensures multiset(Insert(x, xs, le)) == multiset(xs) + multiset{x}
    decreases |xs|
  {
    if xs != [] && !le(x, xs[0]) {
      InsertPermutes(x, xs[1..], le);
      assert xs == [xs[0]] + xs[1..];
    }
  }

  lemma {:induction false} SortPermutes<T>(xs: seq<T>, le: (T, T) -> bool)
    ensures multiset(Sort(xs, le)) == multiset(xs)
    decreases |xs|
  {
    if xs != [] {
      SortPermutes(xs[1..], le);
      InsertPermutes(xs[0], Sort(xs[1..], le), le);
      assert xs == [xs[0]] + xs[1..];
    }
  }

  lemma {:induction false} InsertAscends<T(!new)>(x: T, xs: seq<T>, le: (T, T) -> bool)
    requires Total(le) && Ascending(xs, le)
    ensures Ascending(Insert(x, xs, le), le)
    decreases |xs|
  {
    if xs != [] && !le(x, xs[0]) {
      var rest := Insert(x, xs[1..], le);
      InsertAscends(x, xs[1..], le);
      InsertPermutes(x, xs[1..], le);
      forall j | 0 <= j < |rest| ensures le(xs[0], rest[j]) {
        assert rest[j] in multiset(rest);
      }
    }
  }

  lemma {:induction false} SortAscends<T(!new)>(xs: seq<T>, le: (T, T) -> bool)
    requires Total(le)
    ensures Ascending(Sort(xs, le), le)
    decreases |xs|
  {
    if xs != [] {
      SortAscends(xs[1..], le);
      InsertAscends(xs[0], Sort(xs[1..], le), le);
    }
  }

  lemma SameElements<T>(xs: seq<T>, ys: seq<T>)
    requires multiset(xs) == multiset(ys)
    ensures |xs| == |ys| && forall x :: x in xs <==> x in ys
  {
    assert |multiset(xs)| == |multiset(ys)|;
    forall x ensures x in xs <==> x in ys {
      assert x in xs <==> x in multiset(xs);
      assert x in ys <==> x in multiset(ys);
    }
  }

  lemma LeastFirst<T(!new)>(xs: seq<T>, ys: seq<T>, le: (T, T) -> bool)
    requires xs != [] && ys != [] && Ascending(xs, le) && Ascending(ys, le) && forall x :: x in xs <==> x in ys
    requires forall x, y :: x in xs && y in xs && le(x, y) && le(y, x) ==> x == y
    ensures xs[0] == ys[0]
  {
    assert xs[0] in ys && ys[0] in xs;
  }

  lemma WithoutFirst<T>(xs: seq<T>)
    requires xs != []
    ensures xs == [xs[0]] + xs[1..] && multiset(xs[1..]) == multiset(xs) - multiset{xs[0]}
  {
  }

  /** Two ascending arrangements of the same elements are the same, when ties are equal elements. */
  lemma {:induction false} AscendingUnique<T(!new)>(xs: seq<T>, ys: seq<T>, le: (T, T) -> bool)
    requires multiset(xs) == multiset(ys) && Ascending(xs, le) && Ascending(ys, le)
    requires forall x, y :: x in xs && y in xs && le(x, y) && le(y, x) ==> x == y
    ensures xs == ys
    decreases |xs|
  {
    SameElements(xs, ys);
    if xs != [] {
      LeastFirst(xs, ys, le);
      WithoutFirst(xs);
      WithoutFirst(ys);
      AscendingUnique(xs[1..], ys[1..], le);
    }
  }

  /** Without repetitions, the members determine the multiset. */
  lemma SameMembersSameMultiset<T>(xs: seq<T>, ys: seq<T>)
    requires forall i, j :: 0 <= i < j < |xs| ==> xs[i] != xs[j]
    requires forall i, j :: 0 <= i < j < |ys| ==> ys[i] != ys[j]
    requires forall x :: x in xs <==> x in ys
    ensures multiset(xs) == multiset(ys)
  {
    forall x ensures multiset(xs)[x] == multiset(ys)[x] {
      OccursOnce(xs, x);
      OccursOnce(ys, x);
    }
  }

  lemma {:induction false} OccursOnce<T>(xs: seq<T>, x: T)
    requires forall i, j :: 0 <= i < j < |xs| ==> xs[i] != xs[j]
    ensures multiset(xs)[x] == if x in xs then 1 else 0
  {
    if xs != [] {
      OccursOnce(xs[1..], x);
      assert xs == [xs[0]] + xs[1..];
      assert xs[0] !in xs[1..];
    }
  }

  function Map<T, U>(f: T -> U, xs: seq<T>): seq<U> {
    if xs == [] then [] else [f(xs[0])] + Map(f, xs[1..])
  }

  /** Sorting and then mapping is mapping and then sorting, when the map keeps the comparison. */
  lemma {:induction false} SortMap<T(!new), U>(f: T -> U, xs: seq<T>, le: (T, T) -> bool, le': (U, U) -> bool)
    requires forall x, y :: le(x, y) <==> le'(f(x), f(y))
    ensures Map(f, Sort(xs, le)) == Sort(Map(f, xs), le')
  {
    if xs != [] {
      SortMap(f, xs[1..], le, le');
      InsertMap(f, xs[0], Sort(xs[1..], le), le, le');
    }
  }

  lemma {:induction false} InsertMap<T(!new), U>(f: T -> U, x: T, xs: seq<T>, le: (T, T) -> bool, le': (U, U) -> bool)
    requires forall x, y :: le(x, y) <==> le'(f(x), f(y))
    ensures Map(f, Insert(x, xs, le)) == Insert(f(x), Map(f, xs), le')
    decreases |xs|
  {
    if xs == [] || le(x, xs[0]) {
      assert ([x] + xs)[1..] == xs;
    } else {
      InsertMap(f, x, xs[1..], le, le');
      var rest := Insert(x, xs[1..], le);
      assert ([xs[0]] + rest)[1..] == rest;
      assert Map(f, xs)[1..] == Map(f, xs[1..]);
    }
  }

  lemma SortKeeps<T>(xs: seq<T>, le: (T, T) -> bool)
    ensures forall x :: x in Sort(xs, le) <==> x in xs
    ensures |Sort(xs, le)| == |xs|
  {
    SortPermutes(xs, le);
    SameElements(Sort(xs, le), xs);
  }
}
