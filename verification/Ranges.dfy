/** Byte ranges and the offsets they cover. */
module Ranges {

  datatype Range = Range(start: int, end: int) {
    predicate NonEmpty() {
      start < end
    }

    /** The two share an offset: ranges that merely touch do not overlap. */
    predicate Overlaps(other: Range) {
      start < other.end && other.start < end
    }

    predicate Within(outer: Range) {
      outer.start <= start && end <= outer.end
    }
  }

  /** Non-empty, ascending, and disjoint. */
  ghost predicate Normal(rs: seq<Range>) {
    && (forall r :: r in rs ==> r.NonEmpty())
    && (forall i, j :: 0 <= i < j < |rs| ==> rs[i].end <= rs[j].start)
  }

  ghost function Interval(start: int, end: int): (r: set<int>)
    ensures forall x :: x in r <==> start <= x < end
    ensures |r| == if start < end then end - start else 0
    decreases end - start
  {
    if start < end then Interval(start, end - 1) + {end - 1} else {}
  }

  ghost function Offsets(rs: seq<Range>): set<int> {
    if rs == [] then {} else Interval(rs[0].start, rs[0].end) + Offsets(rs[1..])
  }

  lemma {:induction false} OffsetsAre(rs: seq<Range>)
    ensures forall x :: x in Offsets(rs) <==> exists r :: r in rs && r.start <= x < r.end
  {
    if rs != [] {
      OffsetsAre(rs[1..]);
      assert rs == [rs[0]] + rs[1..];
    }
  }

  /** Adding up the lengths, as the source's reductions do. */
  function TotalLength(rs: seq<Range>): int {
    if rs == [] then 0 else rs[0].end - rs[0].start + TotalLength(rs[1..])
  }

  function Max(a: int, b: int): int {
    if a < b then b else a
  }

  function Min(a: int, b: int): int {
    if a < b then a else b
  }

  lemma NormalTail(rs: seq<Range>)
    requires Normal(rs) && rs != []
    ensures Normal(rs[1..]) && Interval(rs[0].start, rs[0].end) !! Offsets(rs[1..])
  {
    OffsetsAre(rs[1..]);
  }

  lemma {:induction false} NormalTotal(rs: seq<Range>)
    requires Normal(rs)
    ensures TotalLength(rs) == |Offsets(rs)|
  {
    if rs != [] {
      NormalTail(rs);
      NormalTotal(rs[1..]);
      assert rs[0] in rs;
      var first, rest := Interval(rs[0].start, rs[0].end), Offsets(rs[1..]);
      assert |first + rest| == |first| + |rest|;
    }
  }
}
