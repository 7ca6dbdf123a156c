/** Scoring a scanner's result against a fixture's expected ranges, and the table of outcomes
    (benchmarks/lib/adversarial-first-run.ts). */
module Outcomes {
  import opened Ranges
  import opened Text
  import opened IntakeTypes
  import Findings

  // ---------------------------------------------------------------------------------------------
  // What the sums of lengths mean.

  /** `covered`: how much of [start, end) the ranges cover. */
  function Covered(rs: seq<Range>, start: int, end: int): int {
    if rs == [] then 0
    else Max(0, Min(end, rs[0].end) - Max(start, rs[0].start)) + Covered(rs[1..], start, end)
  }

  /** The sum of `covered` over the expected ranges. */
  function Hit(findings: seq<Range>, expected: seq<Range>): int {
    if expected == [] then 0
    else Covered(findings, expected[0].start, expected[0].end) + Hit(findings, expected[1..])
  }

  lemma {:induction false} CoveredCounts(rs: seq<Range>, start: int, end: int)
    requires Normal(rs)
    ensures Covered(rs, start, end) == |Offsets(rs) * Interval(start, end)|
  {
    if rs != [] {
      NormalTail(rs);
      CoveredCounts(rs[1..], start, end);
      WindowSplits(Interval(rs[0].start, rs[0].end), Offsets(rs[1..]), Interval(start, end));
      Window(rs[0], start, end);
    }
  }

  lemma WindowSplits(first: set<int>, rest: set<int>, window: set<int>)
    requires first !! rest
    ensures |(first + rest) * window| == |first * window| + |rest * window|
  {
    assert (first + rest) * window == first * window + rest * window;
  }

  lemma Window(r: Range, start: int, end: int)
    ensures |Interval(r.start, r.end) * Interval(start, end)| == Max(0, Min(end, r.end) - Max(start, r.start))
  {
    var low, high := Max(start, r.start), Min(end, r.end);
    assert Interval(r.start, r.end) * Interval(start, end) == Interval(low, high);
  }

  /** Bytes of `expected` in `bytes`, counted once for each expected range that holds them. */
  ghost function HitBytes(bytes: set<int>, expected: seq<Range>): nat {
    if expected == [] then 0
    else |bytes * Interval(expected[0].start, expected[0].end)| + HitBytes(bytes, expected[1..])
  }

  lemma {:induction false} HitCounts(findings: seq<Range>, expected: seq<Range>)
    requires Normal(findings)
    ensures Hit(findings, expected) == HitBytes(Offsets(findings), expected)
    decreases |expected|
  {
    if expected != [] {
      CoveredCounts(findings, expected[0].start, expected[0].end);
      HitCounts(findings, expected[1..]);
    }
  }

  // ---------------------------------------------------------------------------------------------
  // One result.

  /** The outcome of one result, from the offsets its findings cover. */
  ghost function Judged(action: Action, expected: seq<Range>, result: RunResult): Outcome {
    var bytes := Offsets(result.findings);
    if result.failed then ScannerFailed
    else if action.MustNotFlag? then if bytes == {} then Clean else Flagged
    else if HitBytes(bytes, expected) == 0 then Missed
    else if HitBytes(bytes, expected) < TotalLength(expected) then Partial
    else if |bytes| > TotalLength(expected) then Overbroad
    else Redacted
  }

  method CompareResult(action: Action, expected: seq<Range>, result: RunResult) returns (outcome: Outcome)
    ensures outcome == Judged(action, expected, result)
  {
    if result.failed {
      return ScannerFailed;
    }
    var findings := Findings.NormalizeFindings(result.findings);
    Findings.MergedAreNormal(findings, result.findings);
    Findings.MergedCoverage(findings, result.findings);
    NoOffsets(findings);
    if action.MustNotFlag? {
      return if findings == [] then Clean else Flagged;
    }
    var hit := Hit(findings, expected);
    HitCounts(findings, expected);
    NormalTotal(findings);
    if hit == 0 {
      return Missed;
    }
    if hit < TotalLength(expected) {
      return Partial;
    }
    return if TotalLength(findings) > TotalLength(expected) then Overbroad else Redacted;
  }

  lemma NoOffsets(rs: seq<Range>)
    requires Normal(rs)
    ensures Offsets(rs) == {} <==> rs == []
  {
    OffsetsAre(rs);
    if rs != [] {
      assert rs[0] in rs && rs[0].start in Offsets(rs);
    }
  }

  /** What the outcome is meant to say about the set of bytes found and the set expected. */
  ghost predicate SaysRight(outcome: Outcome, bytes: set<int>, wanted: set<int>) {
    match outcome
    case Missed => bytes * wanted == {}
    case Partial => bytes * wanted != {} && !(wanted <= bytes)
    case Overbroad => bytes * wanted != {} && wanted < bytes
    case Redacted => bytes * wanted != {} && wanted == bytes
    case _ => false
  }

  ghost predicate Forward(rs: seq<Range>) {
    forall r :: r in rs ==> r.NonEmpty()
  }

  ghost predicate Disjoint(rs: seq<Range>) {
    forall i, j :: 0 <= i < j < |rs| ==> !rs[i].Overlaps(rs[j])
  }

  lemma {:induction false} HitBySets(bytes: set<int>, expected: seq<Range>)
    requires Forward(expected)
    ensures HitBytes(bytes, expected) == 0 <==> bytes * Offsets(expected) == {}
    ensures HitBytes(bytes, expected) < TotalLength(expected) <==> !(Offsets(expected) <= bytes)
    ensures HitBytes(bytes, expected) <= TotalLength(expected)
    decreases |expected|
  {
    if expected != [] {
      var first := Interval(expected[0].start, expected[0].end);
      assert expected[0] in expected;
      HitBySets(bytes, expected[1..]);
      assert bytes * (first + Offsets(expected[1..])) == bytes * first + bytes * Offsets(expected[1..]);
      SubsetSize(bytes * first, first);
      assert first <= bytes <==> bytes * first == first;
    }
  }

  lemma SubsetSize(a: set<int>, b: set<int>)
    requires a <= b
    ensures |a| <= |b| && (|a| == |b| <==> a == b)
  {
    assert b == a + (b - a);
    assert |b| == |a| + |b - a|;
    assert |b - a| == 0 ==> b - a == {};
  }

  /** The lengths add up to the size of the set exactly when no two ranges overlap. */
  lemma {:induction false} TotalOfDisjoint(rs: seq<Range>)
    requires Forward(rs)
    ensures |Offsets(rs)| <= TotalLength(rs) && (|Offsets(rs)| == TotalLength(rs) <==> Disjoint(rs))
  {
    if rs != [] {
      var first, rest := Interval(rs[0].start, rs[0].end), Offsets(rs[1..]);
      assert rs[0] in rs;
      TotalOfDisjoint(rs[1..]);
      assert first + rest == first + (rest - first);
      assert |first + rest| == |first| + |rest - first|;
      SubsetSize(rest - first, rest);
      DisjointTail(rs);
      assert rest - first == rest <==> first !! rest;
    }
  }

  lemma DisjointTail(rs: seq<Range>)
    requires Forward(rs) && rs != []
    ensures Disjoint(rs) <==> Disjoint(rs[1..]) && Interval(rs[0].start, rs[0].end) !! Offsets(rs[1..])
  {
    var first, rest := Interval(rs[0].start, rs[0].end), Offsets(rs[1..]);
    OffsetsAre(rs[1..]);
    assert rs[0] in rs;
    if Disjoint(rs) {
      forall i, j | 0 <= i < j < |rs[1..]| ensures !rs[1..][i].Overlaps(rs[1..][j]) {
        assert !rs[i + 1].Overlaps(rs[j + 1]);
      }
      forall x | x in rest ensures x !in first {
        var r :| r in rs[1..] && r.start <= x < r.end;
        var j :| 0 <= j < |rs[1..]| && rs[1..][j] == r;
        assert !rs[0].Overlaps(rs[j + 1]);
      }
    }
    if Disjoint(rs[1..]) && first !! rest {
      forall i, j | 0 <= i < j < |rs| ensures !rs[i].Overlaps(rs[j]) {
        if i == 0 {
          var r, x := rs[j], Max(rs[0].start, rs[j].start);
          assert r == rs[1..][j - 1] && r in rs[1..] && r in rs;
          assert x in first ==> x !in rest;
        } else {
          assert !rs[1..][i - 1].Overlaps(rs[1..][j - 1]);
        }
      }
    }
  }

  /** For expected ranges that are disjoint, every result is judged as its bytes deserve. */
  lemma JudgedBySets(expected: seq<Range>, result: RunResult)
    requires Forward(expected) && Disjoint(expected) && !result.failed
    ensures SaysRight(Judged(MustRedact, expected, result), Offsets(result.findings), Offsets(expected))
  {
    var bytes, wanted := Offsets(result.findings), Offsets(expected);
    HitBySets(bytes, expected);
    TotalOfDisjoint(expected);
    if wanted <= bytes {
      SubsetSize(wanted, bytes);
    }
  }

  /** And only for those: with overlapping expected ranges, one stray byte is forgiven. */
  lemma RightExactlyWhenDisjoint(expected: seq<Range>)
    requires Forward(expected)
    ensures Disjoint(expected) <==>
      forall result: RunResult :: !result.failed ==>
        SaysRight(Judged(MustRedact, expected, result), Offsets(result.findings), Offsets(expected))
  {
    if Disjoint(expected) {
      forall result: RunResult | !result.failed
        ensures SaysRight(Judged(MustRedact, expected, result), Offsets(result.findings), Offsets(expected))
      {
        JudgedBySets(expected, result);
      }
    } else {
      var result := Forgiven(expected);
      assert !SaysRight(Judged(MustRedact, expected, result), Offsets(result.findings), Offsets(expected));
    }
  }

  lemma Forgiven(expected: seq<Range>) returns (result: RunResult)
    requires Forward(expected) && !Disjoint(expected)
    ensures !result.failed && Judged(MustRedact, expected, result) == Redacted
    ensures Offsets(expected) < Offsets(result.findings)
  {
    hide Disjoint;
    var wanted := Offsets(expected);
    var stray := Beyond(expected);
    result := RunResult([], [], false, [Range(stray, stray + 1)] + expected);
    OffsetsWithStray(stray, expected);
    var bytes := {stray} + wanted;
    assert |bytes| == 1 + |wanted|;
    TotalOfDisjoint(expected);
    HitBySets(bytes, expected);
    SomethingWanted(expected);
    assert bytes * wanted == wanted;
  }

  lemma OffsetsWithStray(stray: int, rs: seq<Range>)
    ensures Offsets([Range(stray, stray + 1)] + rs) == {stray} + Offsets(rs)
  {
    var all := [Range(stray, stray + 1)] + rs;
    assert all[1..] == rs;
    assert Interval(stray, stray + 1) == {stray};
  }

  lemma SomethingWanted(rs: seq<Range>)
    requires Forward(rs) && !Disjoint(rs)
    ensures Offsets(rs) != {}
  {
    OffsetsAre(rs);
    assert rs[0] in rs && rs[0].start in Offsets(rs);
  }

  lemma {:induction false} Beyond(rs: seq<Range>) returns (x: int)
    ensures forall r :: r in rs ==> r.end <= x
    ensures x !in Offsets(rs)
  {
    OffsetsAre(rs);
    if rs == [] {
      x := 0;
    } else {
      var y := Beyond(rs[1..]);
      x := Max(y, rs[0].end);
      assert rs == [rs[0]] + rs[1..];
    }
  }

  /** What the intake check accepts is forward and disjoint (benchmarks/lib/adversarial-intake.ts:172-184). */
  lemma NormalIsDisjoint(rs: seq<Range>)
    requires Normal(rs)
    ensures Forward(rs) && Disjoint(rs)
  {
  }

  // ---------------------------------------------------------------------------------------------
  // The table.

  type Row = map<Outcome, nat>

  const BLANK: Row :=
    map[Redacted := 0, Overbroad := 0, Partial := 0, Missed := 0, Clean := 0, Flagged := 0, ScannerFailed := 0]

  /** `new Map(fixtures.map(f => [f.id, f]))`: of two fixtures with one id, the later. */
  function ById(fixtures: seq<Fixture>): (r: map<Text, Fixture>)
    ensures forall id :: id in r <==> exists f :: f in fixtures && f.id == id
    decreases |fixtures|
  {
    if fixtures == [] then map[]
    else
      var last := |fixtures| - 1;
      assert fixtures == fixtures[..last] + [fixtures[last]];
      ById(fixtures[..last])[fixtures[last].id := fixtures[last]]
  }

  /** Fixture `i` is the last of its id. */
  ghost predicate LastOfId(fixtures: seq<Fixture>, i: nat) {
    i < |fixtures| && forall k :: i < k < |fixtures| ==> fixtures[k].id != fixtures[i].id
  }

  lemma {:induction false} ByIdFindsLast(fixtures: seq<Fixture>, i: nat)
    requires LastOfId(fixtures, i)
    ensures fixtures[i].id in ById(fixtures) && ById(fixtures)[fixtures[i].id] == fixtures[i]
    decreases |fixtures|
  {
    hide ById;
    ByIdStep(fixtures);
    var last := |fixtures| - 1;
    if i < last {
      assert fixtures[..last][i] == fixtures[i] && fixtures[last].id != fixtures[i].id;
      assert LastOfId(fixtures[..last], i);
      ByIdFindsLast(fixtures[..last], i);
    }
  }

  lemma ByIdStep(fixtures: seq<Fixture>)
    requires fixtures != []
    ensures var last := |fixtures| - 1;
      ById(fixtures) == ById(fixtures[..last])[fixtures[last].id := fixtures[last]]
  {
  }

  ghost predicate Falls(result: RunResult, byId: map<Text, Fixture>, scanner: Text, outcome: Outcome) {
    result.scanner == scanner && result.fixtureId in byId
      && Judged(byId[result.fixtureId].action, byId[result.fixtureId].expected, result) == outcome
  }

  /** How many results of a scanner have the outcome. */
  ghost function Tally(results: seq<RunResult>, byId: map<Text, Fixture>, scanner: Text, outcome: Outcome): nat
    decreases |results|
  {
    if results == [] then 0
    else
      var last := |results| - 1;
      Tally(results[..last], byId, scanner, outcome) + if Falls(results[last], byId, scanner, outcome) then 1 else 0
  }

  ghost predicate Tallied(table: map<Text, Row>, results: seq<RunResult>, byId: map<Text, Fixture>) {
    forall s :: s in table ==> forall o: Outcome :: o in table[s] && table[s][o] == Tally(results, byId, s, o)
  }

  lemma BlankIsZero()
    ensures forall o: Outcome :: o in BLANK && BLANK[o] == 0
  {
    forall o: Outcome ensures o in BLANK && BLANK[o] == 0 {
      match o {
        case Redacted =>
        case Overbroad =>
        case Partial =>
        case Missed =>
        case Clean =>
        case Flagged =>
        case ScannerFailed =>
      }
    }
  }

  method OutcomeTable(fixtures: seq<Fixture>, scanners: seq<Text>, results: seq<RunResult>)
      returns (table: map<Text, Row>)
    ensures forall s :: s in table <==> s in scanners
    ensures Tallied(table, results, ById(fixtures))
    ensures (forall i, j :: 0 <= i < j < |fixtures| ==> fixtures[i].id != fixtures[j].id) ==>
      forall s, o: Outcome :: s in table ==> o in table[s] && table[s][o] == |ScoringPairs(fixtures, results, s, o)|
  {
    var byId := ById(fixtures);
    table := map[];
    for i := 0 to |scanners|
      invariant forall s :: s in table <==> s in scanners[..i]
      invariant forall s :: s in table ==> table[s] == BLANK
    {
      table := table[scanners[i] := BLANK];
    }
    assert scanners[..|scanners|] == scanners;
    BlankIsZero();
    for i := 0 to |results|
      invariant forall s :: s in table <==> s in scanners
      invariant Tallied(table, results[..i], byId)
    {
      var result := results[i];
      assert results[..i + 1][..i] == results[..i];
      if result.fixtureId in byId && result.scanner in table {
        var fixture, row := byId[result.fixtureId], table[result.scanner];
        var outcome := CompareResult(fixture.action, fixture.expected, result);
        table := table[result.scanner := row[outcome := row[outcome] + 1]];
      }
    }
    assert results[..|results|] == results;
    if forall i, j :: 0 <= i < j < |fixtures| ==> fixtures[i].id != fixtures[j].id {
      forall s, o: Outcome | s in table
        ensures o in table[s] && table[s][o] == |ScoringPairs(fixtures, results, s, o)| {
        CellsCountPairs(fixtures, results, s, o);
      }
    }
  }

  /** Result `k` is the scanner's on fixture `i`, and is judged so. */
  ghost predicate Scores(fixtures: seq<Fixture>, i: nat, results: seq<RunResult>, k: nat, scanner: Text,
      outcome: Outcome)
    requires i < |fixtures| && k < |results|
  {
    && results[k].scanner == scanner && results[k].fixtureId == fixtures[i].id
    && Judged(fixtures[i].action, fixtures[i].expected, results[k]) == outcome
  }

  /** For distinct ids: the pairs of a fixture and a result on it that are judged so. */
  ghost function ScoringPairs(fixtures: seq<Fixture>, results: seq<RunResult>, scanner: Text, outcome: Outcome)
      : set<(nat, nat)>
  {
    set i: nat, k: nat | i < |fixtures| && k < |results| && Scores(fixtures, i, results, k, scanner, outcome) :: (i, k)
  }

  /** A cell of the table is the number of those pairs. */
  lemma {:induction false} CellsCountPairs(fixtures: seq<Fixture>, results: seq<RunResult>, scanner: Text,
      outcome: Outcome)
    requires forall i, j :: 0 <= i < j < |fixtures| ==> fixtures[i].id != fixtures[j].id
    ensures Tally(results, ById(fixtures), scanner, outcome) == |ScoringPairs(fixtures, results, scanner, outcome)|
    decreases |results|
  {
    hide ById, Judged;
    if results == [] {
      assert ScoringPairs(fixtures, results, scanner, outcome) == {};
    } else {
      var n := |results| - 1;
      CellsCountPairs(fixtures, results[..n], scanner, outcome);
      OneMorePair(fixtures, results, scanner, outcome);
    }
  }

  lemma OneMorePair(fixtures: seq<Fixture>, results: seq<RunResult>, scanner: Text, outcome: Outcome)
    requires results != [] && forall i, j :: 0 <= i < j < |fixtures| ==> fixtures[i].id != fixtures[j].id
    ensures var n := |results| - 1;
      |ScoringPairs(fixtures, results, scanner, outcome)|
      == |ScoringPairs(fixtures, results[..n], scanner, outcome)|
        + if Falls(results[n], ById(fixtures), scanner, outcome) then 1 else 0
  {
    var n := |results| - 1;
    var before := ScoringPairs(fixtures, results[..n], scanner, outcome);
    var after := ScoringPairs(fixtures, results, scanner, outcome);
    EarlierPairs(fixtures, results, scanner, outcome);
    var i := NewPair(fixtures, results, scanner, outcome);
    hide *;
    OneMoreOrNone(before, after, i, n, Falls(results[n], ById(fixtures), scanner, outcome));
  }

  lemma OneMoreOrNone(before: set<(nat, nat)>, after: set<(nat, nat)>, i: nat, n: nat, more: bool)
    requires forall p :: p in before <==> p in after && p.1 < n
    requires forall p :: p in after ==> p.1 <= n
    requires forall p: (nat, nat) :: p.1 == n ==> (p in after <==> more && p.0 == i)
    ensures |after| == |before| + if more then 1 else 0
  {
    if more {
      forall p: (nat, nat) ensures p in after <==> p in before + {(i, n)} {
      }
      assert after == before + {(i, n)};
    } else {
      forall p: (nat, nat) ensures p in after <==> p in before {
      }
      assert after == before;
    }
  }

  lemma EarlierPairs(fixtures: seq<Fixture>, results: seq<RunResult>, scanner: Text, outcome: Outcome)
    requires results != []
    ensures var n := |results| - 1;
      forall p :: p in ScoringPairs(fixtures, results[..n], scanner, outcome) <==>
        p in ScoringPairs(fixtures, results, scanner, outcome) && p.1 < n
  {
    hide Judged;
    var n := |results| - 1;
    assert forall k :: 0 <= k < n ==> results[..n][k] == results[k];
    assert forall i: nat, k: nat :: i < |fixtures| && k < n ==>
      (Scores(fixtures, i, results[..n], k, scanner, outcome) <==> Scores(fixtures, i, results, k, scanner, outcome));
  }

  lemma NewPair(fixtures: seq<Fixture>, results: seq<RunResult>, scanner: Text, outcome: Outcome) returns (i: nat)
    requires results != [] && forall i, j :: 0 <= i < j < |fixtures| ==> fixtures[i].id != fixtures[j].id
    ensures var n := |results| - 1;
      && (forall p :: p in ScoringPairs(fixtures, results, scanner, outcome) ==> p.1 <= n)
      && forall p: (nat, nat) :: p.1 == n ==> (p in ScoringPairs(fixtures, results, scanner, outcome) <==>
           Falls(results[n], ById(fixtures), scanner, outcome) && p.0 == i)
  {
    hide ById, Judged;
    var n := |results| - 1;
    i := 0;
    if results[n].fixtureId in ById(fixtures) {
      var f :| f in fixtures && f.id == results[n].fixtureId;
      i :| 0 <= i < |fixtures| && fixtures[i] == f;
      ByIdFindsLast(fixtures, i);
    }
  }

  function RowTotal(row: Row): nat
    requires forall o: Outcome :: o in row
  {
    row[Redacted] + row[Overbroad] + row[Partial] + row[Missed] + row[Clean] + row[Flagged] + row[ScannerFailed]
  }

  ghost predicate Answers(result: RunResult, fixture: Fixture, scanner: Text) {
    result.fixtureId == fixture.id && result.scanner == scanner
  }

  /** One fixture for each id; one result for each fixture and scanner, and none besides. */
  ghost predicate Complete(fixtures: seq<Fixture>, scanner: Text, results: seq<RunResult>) {
    && (forall i, j :: 0 <= i < j < |fixtures| ==> fixtures[i].id != fixtures[j].id)
    && (forall i, j :: 0 <= i < j < |results| ==>
          results[i].fixtureId != results[j].fixtureId || results[i].scanner != results[j].scanner)
    && OnlyKnown(fixtures, scanner, results)
    && EachAnswered(fixtures, scanner, results)
  }

  ghost predicate OnlyKnown(fixtures: seq<Fixture>, scanner: Text, results: seq<RunResult>) {
    forall r :: r in results && r.scanner == scanner ==> exists f :: f in fixtures && f.id == r.fixtureId
  }

  ghost predicate EachAnswered(fixtures: seq<Fixture>, scanner: Text, results: seq<RunResult>) {
    forall f :: f in fixtures ==> exists r :: r in results && Answers(r, f, scanner)
  }

  ghost function IdSet(fixtures: seq<Fixture>): set<Text> {
    set f | f in fixtures :: f.id
  }

  ghost function AnsweredIds(results: seq<RunResult>, scanner: Text): set<Text> {
    set r | r in results && r.scanner == scanner :: r.fixtureId
  }

  lemma {:induction false} IdSetSize(fixtures: seq<Fixture>)
    requires forall i, j :: 0 <= i < j < |fixtures| ==> fixtures[i].id != fixtures[j].id
    ensures |IdSet(fixtures)| == |fixtures|
  {
    if fixtures != [] {
      var rest := fixtures[1..];
      IdSetSize(rest);
      assert fixtures == [fixtures[0]] + rest;
      assert IdSet(fixtures) == {fixtures[0].id} + IdSet(rest);
      assert fixtures[0].id !in IdSet(rest);
    }
  }

  /** Every result of a known fixture falls under exactly one outcome. */
  ghost function TallyAll(results: seq<RunResult>, byId: map<Text, Fixture>, scanner: Text): nat {
    Tally(results, byId, scanner, Redacted) + Tally(results, byId, scanner, Overbroad)
      + Tally(results, byId, scanner, Partial)
      + Tally(results, byId, scanner, Missed) + Tally(results, byId, scanner, Clean)
        + Tally(results, byId, scanner, Flagged)
      + Tally(results, byId, scanner, ScannerFailed)
  }

  lemma {:induction false} TallyAllCounts(results: seq<RunResult>, byId: map<Text, Fixture>, scanner: Text)
    requires forall i, j :: 0 <= i < j < |results| ==>
      results[i].fixtureId != results[j].fixtureId || results[i].scanner != results[j].scanner
    requires forall r :: r in results && r.scanner == scanner ==> r.fixtureId in byId
    ensures TallyAll(results, byId, scanner) == |AnsweredIds(results, scanner)|
    decreases |results|
  {
    hide Falls;
    if results != [] {
      var n := |results| - 1;
      var rest, last := results[..n], results[n];
      assert results == rest + [last];
      TallyAllCounts(rest, byId, scanner);
      TallyAllStep(rest, last, byId, scanner);
      AnsweredStep(results, scanner);
    }
  }

  lemma AnsweredStep(results: seq<RunResult>, scanner: Text)
    requires results != []
    requires forall i, j :: 0 <= i < j < |results| ==>
      results[i].fixtureId != results[j].fixtureId || results[i].scanner != results[j].scanner
    ensures var last := |results| - 1;
      |AnsweredIds(results, scanner)| == |AnsweredIds(results[..last], scanner)| + if results[last].scanner == scanner
        then 1 else 0
  {
    var rest, last := results[..|results| - 1], results[|results| - 1];
    assert results == rest + [last];
    if last.scanner == scanner {
      assert AnsweredIds(results, scanner) == AnsweredIds(rest, scanner) + {last.fixtureId};
      assert last.fixtureId !in AnsweredIds(rest, scanner);
    } else {
      assert AnsweredIds(results, scanner) == AnsweredIds(rest, scanner);
    }
  }

  lemma TallyAllStep(rest: seq<RunResult>, last: RunResult, byId: map<Text, Fixture>, scanner: Text)
    ensures TallyAll(rest + [last], byId, scanner) ==
      TallyAll(rest, byId, scanner) + if last.scanner == scanner && last.fixtureId in byId then 1 else 0
  {
    hide Judged;
    assert (rest + [last])[..|rest|] == rest;
  }

  /** When each fixture has exactly one result of the scanner, its row adds up to the fixtures. */
  lemma RowAddsUp(table: map<Text, Row>, fixtures: seq<Fixture>, scanner: Text, results: seq<RunResult>)
    requires Tallied(table, results, ById(fixtures)) && scanner in table && Complete(fixtures, scanner, results)
    ensures RowTotal(table[scanner]) == |fixtures|
  {
    hide Tally, Judged, Complete, IdSet, AnsweredIds;
    var byId := ById(fixtures);
    assert RowTotal(table[scanner]) == TallyAll(results, byId, scanner);
    CompleteCounts(fixtures, scanner, results);
  }

  lemma CompleteCounts(fixtures: seq<Fixture>, scanner: Text, results: seq<RunResult>)
    requires Complete(fixtures, scanner, results)
    ensures TallyAll(results, ById(fixtures), scanner) == |fixtures|
  {
    hide Judged, TallyAll;
    TallyAllCounts(results, ById(fixtures), scanner);
    IdSetSize(fixtures);
    AllAnswered(fixtures, scanner, results);
  }

  lemma AllAnswered(fixtures: seq<Fixture>, scanner: Text, results: seq<RunResult>)
    requires OnlyKnown(fixtures, scanner, results) && EachAnswered(fixtures, scanner, results)
    ensures IdSet(fixtures) == AnsweredIds(results, scanner)
  {
    hide IdSet, AnsweredIds, OnlyKnown, EachAnswered;
    AnsweredAreKnown(fixtures, scanner, results);
    KnownAreAnswered(fixtures, scanner, results);
  }

  lemma AnsweredAreKnown(fixtures: seq<Fixture>, scanner: Text, results: seq<RunResult>)
    requires OnlyKnown(fixtures, scanner, results)
    ensures AnsweredIds(results, scanner) <= IdSet(fixtures)
  {
  }

  lemma KnownAreAnswered(fixtures: seq<Fixture>, scanner: Text, results: seq<RunResult>)
    requires EachAnswered(fixtures, scanner, results)
    ensures IdSet(fixtures) <= AnsweredIds(results, scanner)
  {
    forall f | f in fixtures ensures f.id in AnsweredIds(results, scanner) {
      var r :| r in results && Answers(r, f, scanner);
    }
  }
}
