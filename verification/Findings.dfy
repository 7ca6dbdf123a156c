/** Reading an adversarial pack's first run (benchmarks/lib/adversarial-first-run.ts). */
module Findings {
  import opened Ranges
  import Sorting

  // ---------------------------------------------------------------------------------------------
  // Normalizing.

  ghost predicate Straddled(x: int, fs: seq<Range>) {
    exists f :: f in fs && f.start < x < f.end
  }

  ghost predicate Starts(x: int, fs: seq<Range>) {
    exists f :: f in fs && f.NonEmpty() && f.start == x
  }

  ghost predicate Ends(x: int, fs: seq<Range>) {
    exists f :: f in fs && f.NonEmpty() && f.end == x
  }

  ghost predicate Contained(f: Range, rs: seq<Range>) {
    exists r :: r in rs && f.Within(r)
  }

  /** `merged` holds every non-empty finding, starts and ends where findings do, and can be cut
      nowhere without cutting a finding. */
  ghost predicate Merges(merged: seq<Range>, fs: seq<Range>) {
    && Normal(merged)
    && (forall r :: r in merged ==> Starts(r.start, fs) && Ends(r.end, fs))
    && (forall f :: f in fs && f.NonEmpty() ==> Contained(f, merged))
    && (forall r, x :: r in merged && r.start < x < r.end ==> Straddled(x, fs))
  }

  ghost predicate SameNonEmpty(fs: seq<Range>, gs: seq<Range>) {
    forall f: Range :: f.NonEmpty() ==> (f in fs <==> f in gs)
  }

  predicate Earlier(a: Range, b: Range) {
    a.start < b.start || (a.start == b.start && a.end <= b.end)
  }

  function NonEmptyOnes(fs: seq<Range>): (r: seq<Range>)
    ensures forall f :: f in r <==> f in fs && f.NonEmpty()
  {
    if fs == [] then []
    else (if fs[0].NonEmpty() then [fs[0]] else []) + NonEmptyOnes(fs[1..])
  }

  method NormalizeFindings(findings: seq<Range>) returns (merged: seq<Range>)
    ensures Merges(merged, findings)
  {
    hide Merges;
    var sorted := Sorting.Sort(NonEmptyOnes(findings), Earlier);
    SortedFindings(findings);
    merged := [];
    NothingMerged();
    for i := 0 to |sorted|
      invariant Merges(merged, sorted[..i])
      invariant i < |sorted| ==> forall r :: r in merged ==> r.start <= sorted[i].start
    {
      var f := sorted[i];
      ghost var before := merged;
      assert f in sorted && sorted[..i + 1] == sorted[..i] + [f];
      if merged != [] && f.start < merged[|merged| - 1].end {
        var last := merged[|merged| - 1];
        assert last in merged;
        merged := merged[|merged| - 1 := last.(end := Max(last.end, f.end))];
        Extended(before, sorted[..i], f, merged);
      } else {
        merged := merged + [f];
        Appended(before, sorted[..i], f);
      }
    }
    assert sorted[..|sorted|] == sorted;
    SameFindings(merged, sorted, findings);
  }

  lemma NothingMerged()
    ensures Merges([], [])
  {
  }

  lemma SortedFindings(findings: seq<Range>)
    ensures var sorted := Sorting.Sort(NonEmptyOnes(findings), Earlier);
      && SameNonEmpty(sorted, findings)
      && (forall f :: f in sorted ==> f.NonEmpty())
      && (forall i, j :: 0 <= i < j < |sorted| ==> sorted[i].start <= sorted[j].start)
  {
    var kept := NonEmptyOnes(findings);
    Sorting.SortPermutes(kept, Earlier);
    Sorting.SortAscends(kept, Earlier);
    Sorting.SameElements(Sorting.Sort(kept, Earlier), kept);
  }

  lemma Anchored(merged: seq<Range>, fs: seq<Range>, r: Range) returns (first: Range, last: Range)
    requires Merges(merged, fs) && r in merged
    ensures first in fs && first.NonEmpty() && first.start == r.start
    ensures last in fs && last.NonEmpty() && last.end == r.end
  {
    assert Starts(r.start, fs) && Ends(r.end, fs);
    first :| first in fs && first.NonEmpty() && first.start == r.start;
    last :| last in fs && last.NonEmpty() && last.end == r.end;
  }

  lemma Holder(merged: seq<Range>, fs: seq<Range>, f: Range) returns (r: Range)
    requires Merges(merged, fs) && f in fs && f.NonEmpty()
    ensures r in merged && f.Within(r)
  {
    assert Contained(f, merged);
    r :| r in merged && f.Within(r);
  }

  lemma Straddler(merged: seq<Range>, fs: seq<Range>, r: Range, x: int) returns (f: Range)
    requires Merges(merged, fs) && r in merged && r.start < x < r.end
    ensures f in fs && f.start < x < f.end
  {
    assert Straddled(x, fs);
    f :| f in fs && f.start < x < f.end;
  }

  lemma MergedAreNormal(merged: seq<Range>, fs: seq<Range>)
    requires Merges(merged, fs)
    ensures Normal(merged)
  {
  }

  lemma IsMerged(merged: seq<Range>, fs: seq<Range>)
    requires Normal(merged)
    requires forall r :: r in merged ==> Starts(r.start, fs) && Ends(r.end, fs)
    requires forall f :: f in fs && f.NonEmpty() ==> Contained(f, merged)
    requires forall r, x :: r in merged && r.start < x < r.end ==> Straddled(x, fs)
    ensures Merges(merged, fs)
  {
  }

  lemma SameFindings(merged: seq<Range>, fs: seq<Range>, gs: seq<Range>)
    requires Merges(merged, fs) && SameNonEmpty(fs, gs)
    ensures Merges(merged, gs)
  {
    hide Merges, Normal, Contained;
    MergedAreNormal(merged, fs);
    forall r | r in merged ensures Starts(r.start, gs) && Ends(r.end, gs) {
      var first, last := Anchored(merged, fs, r);
    }
    forall f | f in gs && f.NonEmpty() ensures Contained(f, merged) {
      var r := Holder(merged, fs, f);
      assert Contained(f, merged) by { ContainedIn(f, r, merged); }
    }
    forall r, x | r in merged && r.start < x < r.end ensures Straddled(x, gs) {
      var f := Straddler(merged, fs, r, x);
      assert f.NonEmpty();
    }
    IsMerged(merged, gs);
  }

  lemma ContainedIn(f: Range, r: Range, rs: seq<Range>)
    requires r in rs && f.Within(r)
    ensures Contained(f, rs)
  {
  }

  lemma AnchoredMore(merged: seq<Range>, fs: seq<Range>, r: Range, f: Range)
    requires Merges(merged, fs) && r in merged
    ensures Starts(r.start, fs + [f]) && Ends(r.end, fs + [f])
  {
    hide Merges;
    var first, last := Anchored(merged, fs, r);
    assert first in fs + [f] && last in fs + [f];
  }

  lemma StraddledMore(merged: seq<Range>, fs: seq<Range>, r: Range, x: int, f: Range)
    requires Merges(merged, fs) && r in merged && r.start < x < r.end
    ensures Straddled(x, fs + [f])
  {
    hide Merges;
    var g := Straddler(merged, fs, r, x);
    assert g in fs + [f];
  }

  lemma Extended(before: seq<Range>, fs: seq<Range>, f: Range, after: seq<Range>)
    requires Merges(before, fs) && before != [] && f.NonEmpty()
    requires var last := before[|before| - 1];
      && last.start <= f.start < last.end
      && after == before[|before| - 1 := last.(end := Max(last.end, f.end))]
    ensures Merges(after, fs + [f])
  {
    hide Merges, Contained, Starts, Ends, Straddled;
    MergedAreNormal(before, fs);
    var n := |before| - 1;
    forall r | r in after ensures Starts(r.start, fs + [f]) && Ends(r.end, fs + [f]) {
      var i :| 0 <= i < |after| && after[i] == r;
      AnchoredMore(before, fs, before[i], f);
      NonEmptyAnchors(f, fs + [f]);
    }
    forall g | g in fs + [f] && g.NonEmpty() ensures Contained(g, after) {
      if g == f {
        ContainedIn(g, after[n], after);
      } else {
        var r := Holder(before, fs, g);
        var i :| 0 <= i < |before| && before[i] == r;
        ContainedIn(g, after[i], after);
      }
    }
    forall r, x | r in after && r.start < x < r.end ensures Straddled(x, fs + [f]) {
      var i :| 0 <= i < |after| && after[i] == r;
      if x < before[i].end {
        StraddledMore(before, fs, before[i], x, f);
      } else {
        StraddledBy(f, x, fs + [f]);
      }
    }
    ExtendedNormal(before, f.end);
    IsMerged(after, fs + [f]);
  }

  lemma ExtendedNormal(before: seq<Range>, end: int)
    requires Normal(before) && before != []
    ensures Normal(before[|before| - 1 := before[|before| - 1].(end := Max(before[|before| - 1].end, end))])
  {
    assert before[|before| - 1].NonEmpty();
  }

  lemma NonEmptyAnchors(f: Range, fs: seq<Range>)
    requires f in fs && f.NonEmpty()
    ensures Starts(f.start, fs) && Ends(f.end, fs)
  {
  }

  lemma StraddledBy(f: Range, x: int, fs: seq<Range>)
    requires f in fs && f.start < x < f.end
    ensures Straddled(x, fs)
  {
  }

  lemma Appended(before: seq<Range>, fs: seq<Range>, f: Range)
    requires Merges(before, fs) && f.NonEmpty()
    requires before != [] ==> before[|before| - 1].end <= f.start
    ensures Merges(before + [f], fs + [f])
  {
    hide Merges, Contained, Starts, Ends, Straddled;
    MergedAreNormal(before, fs);
    var after := before + [f];
    AppendedNormal(before, f);
    NonEmptyAnchors(f, fs + [f]);
    forall r | r in after ensures Starts(r.start, fs + [f]) && Ends(r.end, fs + [f]) {
      if r in before {
        AnchoredMore(before, fs, r, f);
      }
    }
    forall g | g in fs + [f] && g.NonEmpty() ensures Contained(g, after) {
      if g in fs {
        var r := Holder(before, fs, g);
        ContainedIn(g, r, after);
      } else {
        ContainedIn(g, f, after);
      }
    }
    forall r, x | r in after && r.start < x < r.end ensures Straddled(x, fs + [f]) {
      if r in before {
        StraddledMore(before, fs, r, x, f);
      } else {
        StraddledBy(f, x, fs + [f]);
      }
    }
    IsMerged(after, fs + [f]);
  }

  lemma AppendedNormal(before: seq<Range>, f: Range)
    requires Normal(before) && f.NonEmpty() && (before != [] ==> before[|before| - 1].end <= f.start)
    ensures Normal(before + [f])
  {
    forall i | 0 <= i < |before| ensures before[i].end <= f.start {
      if i < |before| - 1 {
        assert before[i].end <= before[|before| - 1].start;
        assert before[|before| - 1].NonEmpty();
      }
    }
  }

  /** The merged ranges are determined by the set of non-empty findings: their order and repetition
      do not matter. */
  lemma MergedUniquely(a: seq<Range>, fs: seq<Range>, b: seq<Range>, gs: seq<Range>)
    requires Merges(a, fs) && Merges(b, gs) && SameNonEmpty(fs, gs)
    ensures a == b
  {
    hide Merges, SameNonEmpty, Normal;
    SameFindings(a, fs, gs);
    forall r ensures r in a <==> r in b {
      if r in a {
        MergedAlike(a, b, gs, r);
      }
      if r in b {
        MergedAlike(b, a, gs, r);
      }
    }
    MergedAreNormal(a, fs);
    MergedAreNormal(b, gs);
    SameMembers(a, b);
  }

  lemma OnlyOne(rs: seq<Range>, r: Range, s: Range, x: int)
    requires Normal(rs) && r in rs && s in rs && r.start <= x < r.end && s.start <= x < s.end
    ensures r == s
  {
    var i, j :| 0 <= i < |rs| && 0 <= j < |rs| && rs[i] == r && rs[j] == s;
    assert i < j ==> rs[i].end <= rs[j].start;
    assert j < i ==> rs[j].end <= rs[i].start;
  }

  /** No finding reaches across the start or the end of a merged range. */
  lemma NotCut(rs: seq<Range>, fs: seq<Range>, r: Range, f: Range)
    requires Merges(rs, fs) && r in rs && f in fs
    ensures !(f.start < r.start < f.end) && !(f.start < r.end < f.end)
  {
    hide Merges;
    MergedAreNormal(rs, fs);
    if f.NonEmpty() {
      var s := Holder(rs, fs, f);
      assert r.NonEmpty();
      if f.start < r.start < f.end {
        OnlyOne(rs, r, s, r.start);
      }
      if f.start < r.end < f.end {
        OnlyOne(rs, r, s, r.end - 1);
      }
    }
  }

  lemma MergedAlike(a: seq<Range>, b: seq<Range>, fs: seq<Range>, r: Range)
    requires Merges(a, fs) && Merges(b, fs) && r in a
    ensures r in b
  {
    hide Merges, Normal;
    var f, g := Anchored(a, fs, r);
    var s := Holder(b, fs, f);
    MergedAreNormal(a, fs);
    assert r.NonEmpty() by { NormalNonEmpty(a, r); }
    if s.start < r.start {
      var h := Straddler(b, fs, s, r.start);
      NotCut(a, fs, r, h);
    } else if s.end < r.end {
      var h := Straddler(a, fs, r, s.end);
      NotCut(b, fs, s, h);
    } else if r.end < s.end {
      var h := Straddler(b, fs, s, r.end);
      NotCut(a, fs, r, h);
    }
  }

  lemma NormalNonEmpty(rs: seq<Range>, r: Range)
    requires Normal(rs) && r in rs
    ensures r.NonEmpty()
  {
  }

  lemma {:induction false} SameMembers(a: seq<Range>, b: seq<Range>)
    requires Normal(a) && Normal(b) && forall r :: r in a <==> r in b
    ensures a == b
    decreases |a|
  {
    assert a != [] ==> a[0] in b;
    assert b != [] ==> b[0] in a;
    if a != [] {
      FirstIsLeast(a);
      FirstIsLeast(b);
      assert a[0] == b[0];
      assert a == [a[0]] + a[1..] && b == [b[0]] + b[1..];
      forall r ensures r in a[1..] <==> r in b[1..] {
        assert r in a <==> r == a[0] || r in a[1..];
        assert r in b <==> r == b[0] || r in b[1..];
      }
      SameMembers(a[1..], b[1..]);
    }
  }

  lemma FirstIsLeast(rs: seq<Range>)
    requires Normal(rs)
    ensures rs != [] ==> forall r :: r in rs[1..] ==> rs[0].end <= r.start && rs[0].start < r.start
  {
    if rs != [] {
      assert rs[0] in rs;
    }
  }

  /** Normalizing what is already normal changes nothing, touching ranges included. */
  lemma NormalMergesToItself(rs: seq<Range>, merged: seq<Range>)
    requires Normal(rs) && Merges(merged, rs)
    ensures merged == rs
  {
    hide Merges, Starts, Ends, Contained, Straddled;
    forall r | r in rs ensures Starts(r.start, rs) && Ends(r.end, rs) {
      NonEmptyAnchors(r, rs);
    }
    forall r, x | r in rs && r.start < x < r.end ensures Straddled(x, rs) {
      StraddledBy(r, x, rs);
    }
    forall r | r in rs && r.NonEmpty() ensures Contained(r, rs) {
      ContainedIn(r, r, rs);
    }
    IsMerged(rs, rs);
    MergedUniquely(merged, rs, rs, rs);
  }

  /** No covered offset is lost or gained. */
  lemma MergedCoverage(merged: seq<Range>, fs: seq<Range>)
    requires Merges(merged, fs)
    ensures Offsets(merged) == Offsets(fs)
  {
    hide Merges, Offsets;
    OffsetsAre(merged);
    OffsetsAre(fs);
    forall x ensures x in Offsets(merged) <==> x in Offsets(fs) {
      if x in Offsets(merged) {
        var r :| r in merged && r.start <= x < r.end;
        if r.start == x {
          var f, g := Anchored(merged, fs, r);
        } else {
          var f := Straddler(merged, fs, r, x);
        }
      }
      if x in Offsets(fs) {
        var f :| f in fs && f.start <= x < f.end;
        var r := Holder(merged, fs, f);
      }
    }
  }

  // ---------------------------------------------------------------------------------------------
  // Merged ranges are the connected components of strict overlap.

  ghost predicate Chain(path: seq<Range>, fs: seq<Range>) {
    && path != []
    && (forall f :: f in path ==> f in fs && f.NonEmpty())
    && (forall i :: 0 <= i < |path| - 1 ==> path[i].Overlaps(path[i + 1]))
  }

  ghost predicate Joins(path: seq<Range>, f: Range, g: Range, fs: seq<Range>) {
    Chain(path, fs) && path[0] == f && path[|path| - 1] == g
  }

  ghost predicate Linked(f: Range, g: Range, fs: seq<Range>) {
    exists path :: Joins(path, f, g, fs)
  }

  ghost predicate Together(f: Range, g: Range, rs: seq<Range>) {
    exists r :: r in rs && f.Within(r) && g.Within(r)
  }

  /** Two findings end up in one merged range exactly when a chain of overlaps joins them. */
  lemma Components(merged: seq<Range>, fs: seq<Range>, f: Range, g: Range)
    requires Merges(merged, fs) && f in fs && g in fs && f.NonEmpty() && g.NonEmpty()
    ensures Linked(f, g, fs) <==> Together(f, g, merged)
  {
    hide Merges, Normal;
    if Linked(f, g, fs) {
      var r := Holder(merged, fs, f);
      var path :| Joins(path, f, g, fs);
      ChainStays(merged, fs, r, path);
    }
    if Together(f, g, merged) {
      var r :| r in merged && f.Within(r) && g.Within(r);
      if f.start <= g.start {
        var path := Reach(merged, fs, r, f, g);
        assert Joins(path, f, g, fs);
      } else {
        var path := Reach(merged, fs, r, g, f);
        var back := Reversed(path, fs);
        assert Joins(back, f, g, fs);
      }
    }
  }

  lemma Reversed(path: seq<Range>, fs: seq<Range>) returns (back: seq<Range>)
    requires Chain(path, fs)
    ensures Chain(back, fs) && back[0] == path[|path| - 1] && back[|back| - 1] == path[0]
  {
    back := seq(|path|, i requires 0 <= i < |path| => path[|path| - 1 - i]);
    forall i | 0 <= i < |back| - 1 ensures back[i].Overlaps(back[i + 1]) {
      assert path[|path| - 2 - i].Overlaps(path[|path| - 2 - i + 1]);
    }
  }

  lemma {:induction false} ChainStays(merged: seq<Range>, fs: seq<Range>, r: Range, path: seq<Range>)
    requires Merges(merged, fs) && r in merged && Chain(path, fs) && path[0].Within(r)
    ensures path[|path| - 1].Within(r)
    decreases |path|
  {
    hide Merges;
    if |path| > 1 {
      var f, g := path[0], path[1];
      assert f.Overlaps(g) && f.NonEmpty() && g.NonEmpty();
      var s := Holder(merged, fs, g);
      MergedAreNormal(merged, fs);
      OnlyOne(merged, r, s, Max(f.start, g.start));
      var rest := path[1..];
      forall i | 0 <= i < |rest| - 1 ensures rest[i].Overlaps(rest[i + 1]) {
        assert path[i + 1].Overlaps(path[i + 1 + 1]);
      }
      ChainStays(merged, fs, r, rest);
    }
  }

  /** Some finding straddles the end of `f`, and ends later; so on until `g` is overlapped. */
  lemma {:induction false} Reach(merged: seq<Range>, fs: seq<Range>, r: Range, f: Range, g: Range)
      returns (path: seq<Range>)
    requires Merges(merged, fs) && r in merged && f in fs && g in fs && f.NonEmpty() && g.NonEmpty()
    requires f.Within(r) && g.Within(r) && f.start < g.end
    ensures Joins(path, f, g, fs)
    decreases r.end - f.end
  {
    hide Merges, Normal;
    if g.start < f.end {
      path := [f, g];
    } else {
      var h := Straddler(merged, fs, r, f.end);
      var s := Holder(merged, fs, h);
      MergedAreNormal(merged, fs);
      OnlyOne(merged, r, s, f.end);
      var rest := Reach(merged, fs, r, h, g);
      path := [f] + rest;
    }
  }
}
