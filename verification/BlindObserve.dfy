/** `observe` (benchmarks/blind/lifecycle.ts): one fixture scanned several times, its findings compared as text. */
module BlindObserve {
  import opened Options
  import opened Text
  import opened Numerals
  import opened Ranges
  import Sorting

  datatype Finding = Finding(path: Text, range: Range)
  datatype Observed = Measured(findings: seq<Range>) | Unstable | ScanError

  const COLON: CodeUnit := 0x3A
  const SPACE: CodeUnit := 0x20

  function TupleText(r: Range): Text {
    IntegerText(r.start) + [COLON] + IntegerText(r.end)
  }

  function TupleTexts(rs: seq<Range>): (r: seq<Text>)
    ensures |r| == |rs| && forall i :: 0 <= i < |r| ==> r[i] == TupleText(rs[i])
  {
    seq(|rs|, i requires 0 <= i < |rs| => TupleText(rs[i]))
  }

  /** `[...new Set(xs)]` */
  function Unique<T(==, !new)>(xs: seq<T>): (r: seq<T>)
    ensures forall x :: x in r <==> x in xs
    ensures forall i, j :: 0 <= i < j < |r| ==> r[i] != r[j]
  {
    if xs == [] then []
    else
      var n := |xs| - 1;
      var rest := Unique(xs[..n]);
      assert xs == xs[..n] + [xs[n]];
      if xs[n] in rest then rest else rest + [xs[n]]
  }

  function JoinSpaces(texts: seq<Text>): Text {
    if texts == [] then []
    else if |texts| == 1 then texts[0]
    else texts[0] + [SPACE] + JoinSpaces(texts[1..])
  }

  predicate TextOrder(a: Text, b: Text) {
    AtMost(a, b)
  }

  /** `tuples`: the distinct ranges, sorted as text and joined. */
  function Tuples(rs: seq<Range>): Text {
    JoinSpaces(Sorting.Sort(Unique(TupleTexts(rs)), TextOrder))
  }

  function Mine(findings: seq<Finding>, path: Text): (r: seq<Range>) {
    if findings == [] then []
    else (if findings[0].path == path then [findings[0].range] else []) + Mine(findings[1..], path)
  }

  /** The ranges found in the file, and those only. */
  lemma {:induction false} MineIs(findings: seq<Finding>, path: Text, r: Range)
    ensures r in Mine(findings, path) <==> exists f :: f in findings && f.path == path && f.range == r
  {
    if findings != [] {
      MineIs(findings[1..], path, r);
      assert findings[0] in findings;
      assert findings == [findings[0]] + findings[1..];
    }
  }

  ghost predicate SameRanges(a: seq<Range>, b: seq<Range>) {
    forall r :: r in a <==> r in b
  }

  /** What the replays show; `None` is a replay that throws. */
  ghost predicate Right(o: Observed, scans: seq<Option<seq<Finding>>>, path: Text)
    requires scans != []
  {
    if exists i :: 0 <= i < |scans| && scans[i].None? then o == ScanError
    else if exists i ::
      0 <= i < |scans| && !SameRanges(Mine(scans[i].value, path), Mine(scans[0].value, path)) then o == Unstable
    else
      && o.Measured?
      && SameRanges(o.findings, Mine(scans[0].value, path))
      && forall i, j :: 0 <= i < j < |o.findings| ==> o.findings[i] != o.findings[j]
  }

  /** The observation is right about sets of ranges, though it compares texts. */
  method Observe(scans: seq<Option<seq<Finding>>>, path: Text) returns (o: Observed)
    requires scans != []
    ensures Right(o, scans, path)
  {
    hide Tuples, Mine, SameRanges;
    var runs: seq<seq<Range>> := [];
    for i := 0 to |scans|
      invariant |runs| == i && forall j :: 0 <= j < i ==> scans[j].Some? && runs[j] == Mine(scans[j].value, path)
    {
      if scans[i].None? {
        return ScanError;
      }
      runs := runs + [Mine(scans[i].value, path)];
    }
    for i := 0 to |runs|
      invariant forall j :: 0 <= j < i ==> SameRanges(runs[j], runs[0])
    {
      TuplesTell(runs[i], runs[0]);
      if Tuples(runs[i]) != Tuples(runs[0]) {
        assert !SameRanges(Mine(scans[i].value, path), Mine(scans[0].value, path));
        return Unstable;
      }
    }
    UniqueSame(runs[0]);
    o := Measured(Unique(runs[0]));
  }

  lemma UniqueSame(rs: seq<Range>)
    ensures SameRanges(Unique(rs), rs)
  {
  }

  // ---------------------------------------------------------------------------------------------
  // Equal texts, equal sets.

  lemma TupleParts(r: Range)
    ensures Free(IntegerText(r.start), COLON) && Free(TupleText(r), SPACE) && TupleText(r) != []
  {
    hide IntegerText;
  }

  lemma TupleTextInjective(r: Range, s: Range)
    requires TupleText(r) == TupleText(s)
    ensures r == s
  {
    hide IntegerText;
    TupleParts(r);
    TupleParts(s);
    SplitOnce(IntegerText(r.start), IntegerText(r.end), IntegerText(s.start), IntegerText(s.end), COLON);
    IntegerTextInjective(r.start, s.start);
    IntegerTextInjective(r.end, s.end);
  }

  ghost predicate Words(texts: seq<Text>) {
    forall t :: t in texts ==> t != [] && Free(t, SPACE)
  }

  lemma NoSpace(t: Text, a: Text, x: Text)
    requires Free(t, SPACE)
    ensures t != a + [SPACE] + x
  {
    assert (a + [SPACE] + x)[|a|] == SPACE;
  }

  lemma {:induction false} JoinInjective(xs: seq<Text>, ys: seq<Text>)
    requires Words(xs) && Words(ys) && JoinSpaces(xs) == JoinSpaces(ys)
    ensures xs == ys
    decreases |xs|
  {
    JoinNotEmpty(xs);
    JoinNotEmpty(ys);
    if xs != [] && ys != [] {
      assert xs == [xs[0]] + xs[1..] && ys == [ys[0]] + ys[1..];
      if |xs| > 1 && |ys| > 1 {
        TailWords(xs);
        TailWords(ys);
        assert xs[0] in xs && ys[0] in ys;
        SplitOnce(xs[0], JoinSpaces(xs[1..]), ys[0], JoinSpaces(ys[1..]), SPACE);
        JoinInjective(xs[1..], ys[1..]);
      } else if |xs| > 1 {
        NoSpace(ys[0], xs[0], JoinSpaces(xs[1..]));
      } else if |ys| > 1 {
        NoSpace(xs[0], ys[0], JoinSpaces(ys[1..]));
      }
    }
  }

  lemma TailWords(xs: seq<Text>)
    requires Words(xs) && xs != []
    ensures Words(xs[1..])
  {
    assert forall t :: t in xs[1..] ==> t in xs;
  }

  lemma JoinNotEmpty(xs: seq<Text>)
    requires Words(xs)
    ensures JoinSpaces(xs) == [] <==> xs == []
  {
    assert xs != [] ==> xs[0] in xs;
  }

  lemma TextOrderTotal()
    ensures Sorting.Total(TextOrder)
  {
    forall a, b ensures TextOrder(a, b) || TextOrder(b, a) {
      LessTotal(a, b);
    }
    forall a, b, c | TextOrder(a, b) && TextOrder(b, c) ensures TextOrder(a, c) {
      AtMostTransitive(a, b, c);
    }
  }

  lemma SortedSame(xs: seq<Text>, ys: seq<Text>)
    requires forall i, j :: 0 <= i < j < |xs| ==> xs[i] != xs[j]
    requires forall i, j :: 0 <= i < j < |ys| ==> ys[i] != ys[j]
    requires forall t :: t in xs <==> t in ys
    ensures Sorting.Sort(xs, TextOrder) == Sorting.Sort(ys, TextOrder)
  {
    TextOrderTotal();
    Sorting.SortAscends(xs, TextOrder);
    Sorting.SortAscends(ys, TextOrder);
    Sorting.SortPermutes(xs, TextOrder);
    Sorting.SortPermutes(ys, TextOrder);
    Sorting.SameMembersSameMultiset(xs, ys);
    forall a, b | TextOrder(a, b) && TextOrder(b, a) ensures a == b {
      LessTotal(a, b);
    }
    Sorting.AscendingUnique(Sorting.Sort(xs, TextOrder), Sorting.Sort(ys, TextOrder), TextOrder);
  }

  ghost predicate SameTexts(a: seq<Range>, b: seq<Range>) {
    forall t :: t in TupleTexts(a) <==> t in TupleTexts(b)
  }

  lemma TextsOf(rs: seq<Range>, r: Range)
    ensures TupleText(r) in TupleTexts(rs) <==> r in rs
  {
    hide TupleText;
    if TupleText(r) in TupleTexts(rs) {
      var i :| 0 <= i < |rs| && TupleTexts(rs)[i] == TupleText(r);
      TupleTextInjective(rs[i], r);
    }
    if r in rs {
      var i :| 0 <= i < |rs| && rs[i] == r;
      assert TupleTexts(rs)[i] == TupleText(r);
    }
  }

  lemma TextsOrRanges(a: seq<Range>, b: seq<Range>)
    ensures SameTexts(a, b) <==> SameRanges(a, b)
  {
    hide TupleText;
    if SameTexts(a, b) {
      forall r ensures r in a <==> r in b {
        TextsOf(a, r);
        TextsOf(b, r);
      }
    }
    if SameRanges(a, b) {
      forall t ensures t in TupleTexts(a) <==> t in TupleTexts(b) {
        if t in TupleTexts(a) {
          var i :| 0 <= i < |a| && TupleTexts(a)[i] == t;
          TextsOf(b, a[i]);
          assert a[i] in a;
        }
        if t in TupleTexts(b) {
          var i :| 0 <= i < |b| && TupleTexts(b)[i] == t;
          TextsOf(a, b[i]);
          assert b[i] in b;
        }
      }
    }
  }

  lemma SortedWords(rs: seq<Range>)
    ensures Words(Sorting.Sort(Unique(TupleTexts(rs)), TextOrder))
    ensures forall t :: t in Sorting.Sort(Unique(TupleTexts(rs)), TextOrder) <==> t in TupleTexts(rs)
  {
    hide TupleText;
    Sorting.SortKeeps(Unique(TupleTexts(rs)), TextOrder);
    forall t | t in TupleTexts(rs) ensures t != [] && Free(t, SPACE) {
      var i :| 0 <= i < |rs| && TupleTexts(rs)[i] == t;
      TupleParts(rs[i]);
    }
  }

  /** Two scans' texts are equal exactly when they found the same set of ranges. */
  lemma TuplesTell(a: seq<Range>, b: seq<Range>)
    ensures Tuples(a) == Tuples(b) <==> SameRanges(a, b)
  {
    hide TupleText, TupleTexts, JoinSpaces, Words, SameRanges;
    TextsOrRanges(a, b);
    SortedWords(a);
    SortedWords(b);
    if Tuples(a) == Tuples(b) {
      JoinInjective(Sorting.Sort(Unique(TupleTexts(a)), TextOrder), Sorting.Sort(Unique(TupleTexts(b)), TextOrder));
    }
    if SameTexts(a, b) {
      SortedSame(Unique(TupleTexts(a)), Unique(TupleTexts(b)));
    }
  }
}
