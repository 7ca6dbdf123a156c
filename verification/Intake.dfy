/** Intake of adversarial packs: the rules `validateIntake` enforces beyond the schema
    (benchmarks/lib/adversarial-intake.ts). Each method reports a problem exactly when it exists. */
module Intake {
  import opened Options
  import opened Text
  import opened Ranges
  import opened IntakeTypes
  import opened Expectations
  import Utf8

  datatype HistoryEntry = HistoryEntry(status: Status, at: Text)
  datatype Edit = Edit(at: Text, material: bool, fixtures: seq<Text>)
  datatype Review = Review(reviewedAt: Text, passed: bool)

  datatype Record = Record(
    id: Text,
    status: Status,
    qualification: Qualification,
    affiliation: Affiliation,
    provenance: CredentialStatus,
    redistribution: bool,
    threatCategories: seq<Text>,
    scannerOutputConsulted: bool,
    digest: Digest,
    fixtures: seq<Fixture>,
    submittedAt: Text,
    safetyReview: Option<Review>,
    firstRun: Option<Digest>,
    rejection: Option<RejectionReason>,
    history: seq<HistoryEntry>,
    maintainerEdits: seq<Edit>)

  /** What the text of `first-run.json` turns out to be; parsing and its schema are not modelled. */
  datatype Content = NotJson | Misshapen | Run(run: FirstRun<Digest>)
  datatype File = File(text: Text, content: Content)

  /** `^[a-z][a-z0-9-]*$` */
  predicate IsId(t: Text) {
    t != [] && forall i :: 0 <= i < |t| ==> 0x61 <= t[i] <= 0x7A || (i > 0 && (0x30 <= t[i] <= 0x39 || t[i] == 0x2D))
  }

  /** The part of the schemas the checks below rely on. */
  predicate ShapedRecord(record: Record) {
    record.history != [] && forall f :: f in record.fixtures ==> IsId(f.id)
  }

  predicate ShapedFile(file: Option<File>) {
    file.Some? && file.value.content.Run? ==> forall r :: r in file.value.content.run.results ==> IsId(r.fixtureId)
  }

  // ---------------------------------------------------------------------------------------------
  // Ranges.

  datatype RangeProblem = NotARange(index: nat) | Disordered(index: nat)

  ghost predicate ByteRange(r: Range, bytes: seq<Utf8.Byte>) {
    0 <= r.start < r.end <= |bytes| && Utf8.Boundary(bytes, r.start) && Utf8.Boundary(bytes, r.end)
  }

  ghost predicate RangeWrong(ranges: seq<Range>, content: Text, p: RangeProblem) {
    && p.index < |ranges|
    && match p
       case NotARange(i) => !ByteRange(ranges[i], Utf8.Encode(content))
       case Disordered(i) => ranges[i].start < if i == 0 then -1 else ranges[i - 1].end
  }

  method RangeProblems(ranges: seq<Range>, content: Text) returns (problems: seq<RangeProblem>)
    ensures forall p :: p in problems <==> RangeWrong(ranges, content, p)
  {
    hide Utf8.Boundary, Utf8.Encode;
    var bytes, boundaries := Utf8.Utf8Boundaries(content);
    problems := [];
    var previousEnd := -1;
    for i := 0 to |ranges|
      invariant previousEnd == if i == 0 then -1 else ranges[i - 1].end
      invariant forall p: RangeProblem :: p in problems <==> p.index < i && RangeWrong(ranges, content, p)
    {
      var range := ranges[i];
      if !(range.start < range.end) || range.end > bytes || range.start !in boundaries || range.end !in boundaries {
        problems := problems + [NotARange(i)];
      }
      if range.start < previousEnd {
        problems := problems + [Disordered(i)];
      }
      previousEnd := range.end;
    }
  }

  /** Ranges without a problem are in normal form: non-empty, ascending, disjoint. */
  lemma AcceptedRanges(ranges: seq<Range>, content: Text)
    ensures (forall p :: !RangeWrong(ranges, content, p)) <==>
      Normal(ranges) && forall r :: r in ranges ==> ByteRange(r, Utf8.Encode(content))
  {
    hide ByteRange, Utf8.Encode;
    var bytes := Utf8.Encode(content);
    if forall p :: !RangeWrong(ranges, content, p) {
      forall i | 0 <= i < |ranges| ensures ByteRange(ranges[i], bytes) && ranges[i].NonEmpty() {
        assert !RangeWrong(ranges, content, NotARange(i));
        ByteRangeNonEmpty(ranges[i], bytes);
      }
      forall i | 0 < i < |ranges| ensures ranges[i - 1].end <= ranges[i].start {
        assert !RangeWrong(ranges, content, Disordered(i));
      }
      forall i, j | 0 <= i < j < |ranges| ensures ranges[i].end <= ranges[j].start {
        StepByStep(ranges, i, j);
      }
    }
    if Normal(ranges) && forall r :: r in ranges ==> ByteRange(r, bytes) {
      forall p ensures !RangeWrong(ranges, content, p) {
        if p.index < |ranges| {
          assert ranges[p.index] in ranges;
          ByteRangeNonEmpty(ranges[p.index], bytes);
        }
      }
    }
  }

  lemma ByteRangeNonEmpty(r: Range, bytes: seq<Utf8.Byte>)
    requires ByteRange(r, bytes)
    ensures r.NonEmpty() && 0 <= r.start
  {
  }

  lemma {:induction false} StepByStep(ranges: seq<Range>, i: nat, j: nat)
    requires i < j < |ranges|
    requires forall k :: 0 <= k < |ranges| ==> ranges[k].NonEmpty()
    requires forall k :: 0 < k < |ranges| ==> ranges[k - 1].end <= ranges[k].start
    ensures ranges[i].end <= ranges[j].start
  {
    if i < j - 1 {
      StepByStep(ranges, i, j - 1);
    }
  }

  // ---------------------------------------------------------------------------------------------
  // The lifecycle.

  /** `TRANSITIONS`: allowed lifecycle edges. */
  function Transitions(status: Status): set<Status> {
    match status
    case Submitted => {SafetyReview, Rejected}
    case SafetyReview => {FrozenFirstRun, Rejected}
    case FrozenFirstRun => {Accepted, Rejected, ConvertedToMaintainerRegression}
    case Accepted => {ConvertedToMaintainerRegression}
    case Rejected => {}
    case ConvertedToMaintainerRegression => {}
  }

  /** The edges, one by one. */
  lemma TransitionsAre(from: Status, to: Status)
    ensures to in Transitions(from) <==>
      || (from == Submitted && (to == SafetyReview || to == Rejected))
      || (from == SafetyReview && (to == FrozenFirstRun || to == Rejected))
      || (from == FrozenFirstRun && (to == Accepted || to == Rejected || to == ConvertedToMaintainerRegression))
      || (from == Accepted && to == ConvertedToMaintainerRegression)
  {
  }

  predicate AfterFirstRun(status: Status) {
    status in {FrozenFirstRun, Accepted, ConvertedToMaintainerRegression}
  }

  datatype HistoryProblem = BadStart | NotAllowed(from: Status, to: Status) | Predates(index: nat) | StatusMismatch

  ghost predicate Follows(history: seq<HistoryEntry>, n: nat, from: Status, to: Status) {
    exists i :: 0 < i < n <= |history| && history[i - 1].status == from && history[i].status == to
  }

  ghost predicate HistoryWrong(record: Record, p: HistoryProblem)
    requires record.history != []
  {
    var history := record.history;
    match p
    case BadStart => history[0].status != Submitted || history[0].at != record.submittedAt
    case NotAllowed(from, to) => to !in Transitions(from) && Follows(history, |history|, from, to)
    case Predates(i) => 0 < i < |history| && Less(history[i].at, history[i - 1].at)
    case StatusMismatch => history[|history| - 1].status != record.status
  }

  lemma FollowsStep(history: seq<HistoryEntry>, i: nat)
    requires 0 < i < |history|
    ensures forall a, b :: Follows(history, i + 1, a, b) <==>
      Follows(history, i, a, b) || (a == history[i - 1].status && b == history[i].status)
  {
    forall a, b | Follows(history, i + 1, a, b) && !Follows(history, i, a, b)
      ensures a == history[i - 1].status && b == history[i].status
    {
      var k :| 0 < k < i + 1 && history[k - 1].status == a && history[k].status == b;
    }
  }

  method HistoryProblems(record: Record) returns (problems: seq<HistoryProblem>)
    requires record.history != []
    ensures forall p :: p in problems <==> HistoryWrong(record, p)
  {
    hide Transitions, Less;
    var history := record.history;
    problems := [];
    if history[0].status != Submitted || history[0].at != record.submittedAt {
      problems := [BadStart];
    }
    for i := 1 to |history|
      invariant forall p :: p in problems <==>
        match p
        case BadStart => HistoryWrong(record, p)
        case NotAllowed(from, to) => to !in Transitions(from) && Follows(history, i, from, to)
        case Predates(k) => k < i && HistoryWrong(record, p)
        case StatusMismatch => false
    {
      var from, to := history[i - 1], history[i];
      FollowsStep(history, i);
      if to.status !in Transitions(from.status) {
        problems := problems + [NotAllowed(from.status, to.status)];
      }
      if Less(to.at, from.at) {
        problems := problems + [Predates(i)];
      }
    }
    if history[|history| - 1].status != record.status {
      problems := problems + [StatusMismatch];
    }
  }

  ghost predicate CleanHistory(record: Record)
    requires record.history != []
  {
    forall p :: !HistoryWrong(record, p)
  }

  lemma CleanSteps(record: Record, i: nat)
    requires record.history != [] && CleanHistory(record) && 0 < i < |record.history|
    ensures record.history[i].status in Transitions(record.history[i - 1].status)
    ensures AtMost(record.history[i - 1].at, record.history[i].at)
  {
    hide Transitions, Less;
    assert !HistoryWrong(record, Predates(i));
    var from, to := record.history[i - 1].status, record.history[i].status;
    assert !HistoryWrong(record, NotAllowed(from, to));
    assert Follows(record.history, |record.history|, from, to);
  }

  /** How far along the lifecycle a status is. */
  function Rank(status: Status): nat {
    match status
    case Submitted => 0
    case SafetyReview => 1
    case FrozenFirstRun => 2
    case Accepted => 3
    case Rejected => 4
    case ConvertedToMaintainerRegression => 4
  }

  lemma {:induction false} RankGrows(record: Record, i: nat)
    requires record.history != [] && CleanHistory(record) && i < |record.history|
    ensures i <= Rank(record.history[i].status)
    ensures forall k :: 0 <= k < i ==> Rank(record.history[k].status) < Rank(record.history[i].status)
    ensures forall k :: 0 <= k <= i ==> AtMost(record.history[k].at, record.history[i].at)
  {
    hide CleanHistory, Less;
    if i == 0 {
      LessTotal(record.history[0].at, record.history[0].at);
    } else {
      RankGrows(record, i - 1);
      CleanSteps(record, i);
      LessTotal(record.history[i].at, record.history[i].at);
      forall k | 0 <= k < i ensures AtMost(record.history[k].at, record.history[i].at) {
        AtMostTransitive(record.history[k].at, record.history[i - 1].at, record.history[i].at);
      }
    }
  }

  /** No valid history has more than five entries, none repeats a status, and its times never go back. */
  lemma HistoryBounded(record: Record)
    requires record.history != [] && CleanHistory(record)
    ensures |record.history| <= 5
    ensures forall i, k :: 0 <= i < k < |record.history| ==>
      record.history[i].status != record.history[k].status && AtMost(record.history[i].at, record.history[k].at)
  {
    hide CleanHistory, Less;
    RankGrows(record, |record.history| - 1);
    forall i, k | 0 <= i < k < |record.history|
      ensures record.history[i].status != record.history[k].status && AtMost(record.history[i].at, record.history[k].at)
    {
      RankGrows(record, k);
    }
  }

  const ACCEPTED_PATH: seq<Status> := [Submitted, SafetyReview, FrozenFirstRun, Accepted]

  lemma OneWayToAccepted(record: Record)
    requires record.history != [] && CleanHistory(record) && record.status == Accepted
    ensures |record.history| == 4 && forall i :: 0 <= i < 4 ==> record.history[i].status == ACCEPTED_PATH[i]
  {
    assert !HistoryWrong(record, BadStart) && !HistoryWrong(record, StatusMismatch);
    hide CleanHistory, Less, HistoryWrong;
    var n := |record.history| - 1;
    RankGrows(record, n);
    CleanSteps(record, n);
    assert record.history[n - 1].status == FrozenFirstRun;
    RankGrows(record, n - 1);
    CleanSteps(record, n - 1);
    assert record.history[n - 2].status == SafetyReview;
    RankGrows(record, n - 2);
    CleanSteps(record, n - 2);
    assert record.history[n - 3].status == Submitted;
    RankGrows(record, n - 3);
  }

  // ---------------------------------------------------------------------------------------------
  // Fixtures.

  datatype FixtureProblem =
    | IdTwice(id: Text)
    | PathTwice(id: Text, path: Text)
    | BenignExpectsRanges(id: Text)
    | RedactExpectsNothing(id: Text)
    | ExpectedRange(id: Text, problem: RangeProblem)
    | Undeclared(id: Text, category: Text)
    | Unused(category: Text)

  ghost predicate FixtureWrongAt(record: Record, i: nat, p: FixtureProblem)
    requires i < |record.fixtures|
  {
    var f := record.fixtures[i];
    match p
    case IdTwice(id) => f.id == id && exists k :: 0 <= k < i && record.fixtures[k].id == id
    case PathTwice(id, path) => f.id == id && f.path == path && exists k ::
      0 <= k < i && record.fixtures[k].path == path
    case BenignExpectsRanges(id) => f.id == id && f.action == MustNotFlag && f.expected != []
    case RedactExpectsNothing(id) => f.id == id && f.action == MustRedact && f.expected == []
    case ExpectedRange(id, problem) => f.id == id && RangeWrong(f.expected, f.content, problem)
    case Undeclared(id, category) => f.id == id && category in f.threatCategories
      && category !in record.threatCategories
    case Unused(_) => false
  }

  ghost predicate Used(record: Record, category: Text) {
    exists f :: f in record.fixtures && category in f.threatCategories
  }

  ghost predicate FixtureWrong(record: Record, p: FixtureProblem) {
    || (exists i :: 0 <= i < |record.fixtures| && FixtureWrongAt(record, i, p))
    || (p.Unused? && p.category in record.threatCategories && !Used(record, p.category))
  }

  function InFixture(id: Text, problems: seq<RangeProblem>): (r: seq<FixtureProblem>)
    ensures forall p :: p in r <==> p.ExpectedRange? && p.id == id && p.problem in problems
  {
    if problems == [] then [] else [ExpectedRange(id, problems[0])] + InFixture(id, problems[1..])
  }

  method CategoryProblems(record: Record, fixture: Fixture) returns (problems: seq<FixtureProblem>)
    ensures forall p :: p in problems <==>
      p.Undeclared? && p.id == fixture.id && p.category in fixture.threatCategories
        && p.category !in record.threatCategories
  {
    problems := [];
    for k := 0 to |fixture.threatCategories|
      invariant forall p :: p in problems <==>
        p.Undeclared? && p.id == fixture.id && p.category in fixture.threatCategories[..k]
          && p.category !in record.threatCategories
    {
      if fixture.threatCategories[k] !in record.threatCategories {
        problems := problems + [Undeclared(fixture.id, fixture.threatCategories[k])];
      }
    }
  }

  method OneFixtureProblems(record: Record, i: nat, ids: set<Text>, paths: set<Text>)
      returns (problems: seq<FixtureProblem>)
    requires i < |record.fixtures|
    requires forall id :: id in ids <==> exists k :: 0 <= k < i && record.fixtures[k].id == id
    requires forall path :: path in paths <==> exists k :: 0 <= k < i && record.fixtures[k].path == path
    ensures forall p :: p in problems <==> FixtureWrongAt(record, i, p)
  {
    hide RangeWrong;
    var fixture := record.fixtures[i];
    problems := [];
    if fixture.id in ids {
      problems := problems + [IdTwice(fixture.id)];
    }
    if fixture.path in paths {
      problems := problems + [PathTwice(fixture.id, fixture.path)];
    }
    if fixture.action == MustNotFlag && fixture.expected != [] {
      problems := problems + [BenignExpectsRanges(fixture.id)];
    }
    if fixture.action == MustRedact && fixture.expected == [] {
      problems := problems + [RedactExpectsNothing(fixture.id)];
    }
    var ranges := RangeProblems(fixture.expected, fixture.content);
    var categories := CategoryProblems(record, fixture);
    problems := problems + InFixture(fixture.id, ranges) + categories;
  }

  method FixtureProblems(record: Record) returns (problems: seq<FixtureProblem>)
    ensures forall p :: p in problems <==> FixtureWrong(record, p)
  {
    hide FixtureWrongAt;
    problems := [];
    var ids: set<Text>, paths: set<Text>, used: set<Text> := {}, {}, {};
    for i := 0 to |record.fixtures|
      invariant forall id :: id in ids <==> exists k :: 0 <= k < i && record.fixtures[k].id == id
      invariant forall path :: path in paths <==> exists k :: 0 <= k < i && record.fixtures[k].path == path
      invariant forall c :: c in used <==> exists f :: f in record.fixtures[..i] && c in f.threatCategories
      invariant forall p :: p in problems <==> exists k :: 0 <= k < i && FixtureWrongAt(record, k, p)
    {
      var found := OneFixtureProblems(record, i, ids, paths);
      problems := problems + found;
      ids := ids + {record.fixtures[i].id};
      paths := paths + {record.fixtures[i].path};
      used := used + (set c | c in record.fixtures[i].threatCategories);
      assert record.fixtures[..i + 1] == record.fixtures[..i] + [record.fixtures[i]];
    }
    assert record.fixtures[..|record.fixtures|] == record.fixtures;
    ghost var before := problems;
    for k := 0 to |record.threatCategories|
      invariant forall p :: p in problems <==>
        p in before || (p.Unused? && p.category in record.threatCategories[..k] && !Used(record, p.category))
    {
      if record.threatCategories[k] !in used {
        problems := problems + [Unused(record.threatCategories[k])];
      }
    }
  }
}
