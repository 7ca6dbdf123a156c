/** `firstRunProblems` (benchmarks/lib/adversarial-intake.ts): the first run against its intake record. */
module FirstRunCheck {
  import opened Options
  import opened Text
  import opened IntakeTypes
  import opened Expectations
  import opened Intake
  import Outcomes

  datatype RunProblem =
    | FileMissing
    | FileChanged
    | FileNotJson
    | FileMisshapen
    | WrongPack
    | WrongDigest
    | BeforeSubmission
    | BeforeReview
    | FrozenBeforeRun
    | ScannerTwice(scanner: Text)
    | ResultTwice(id: Text, scanner: Text)
    | UnlistedScanner(scanner: Text)
    | UnknownFixture(id: Text)
    | FailedWithFindings(id: Text, scanner: Text)
    | FindingRange(id: Text, scanner: Text, problem: RangeProblem)
    | ResultMissing(id: Text, scanner: Text)

  /** `record.history.find(entry => entry.status === 'frozen-first-run')` */
  function FrozenEntry(history: seq<HistoryEntry>): Option<HistoryEntry> {
    if history == [] then None
    else if history[0].status == FrozenFirstRun then Some(history[0])
    else FrozenEntry(history[1..])
  }

  predicate Unedited(record: Record) {
    forall e :: e in record.maintainerEdits ==> !e.material
  }

  ghost predicate Listed(scanner: Text, run: FirstRun<Digest>) {
    scanner in run.scanners
  }

  ghost predicate HasResult(results: seq<RunResult>, id: Text, scanner: Text) {
    exists k :: 0 <= k < |results| && results[k].fixtureId == id && results[k].scanner == scanner
  }

  /** What is wrong with result `i`. */
  ghost predicate ResultWrong(record: Record, run: FirstRun<Digest>, i: nat, p: RunProblem)
    requires i < |run.results|
  {
    var r, fixtures := run.results[i], Outcomes.ById(record.fixtures);
    match p
    case ResultTwice(id, scanner) => r.fixtureId == id && r.scanner == scanner
      && HasResult(run.results[..i], id, scanner)
    case UnlistedScanner(scanner) => r.scanner == scanner && !Listed(scanner, run)
    case UnknownFixture(id) => Unedited(record) && r.fixtureId == id && id !in fixtures
    case FailedWithFindings(id, scanner) =>
      r.fixtureId == id && r.scanner == scanner && id in fixtures && r.failed && r.findings != []
    case FindingRange(id, scanner, problem) =>
      Unedited(record) && r.fixtureId == id && r.scanner == scanner && id in fixtures
        && RangeWrong(r.findings, fixtures[id].content, problem)
    case _ => false
  }

  ghost predicate ListedTwice(scanners: seq<Text>, scanner: Text) {
    exists i, k :: 0 <= i < k < |scanners| && scanners[i] == scanner && scanners[k] == scanner
  }

  ghost predicate Missing(record: Record, run: FirstRun<Digest>, id: Text, scanner: Text) {
    Unedited(record) && Listed(scanner, run) && (exists f :: f in record.fixtures && f.id == id)
      && !HasResult(run.results, id, scanner)
  }

  ghost predicate Mismatch(record: Record, run: FirstRun<Digest>, p: RunProblem) {
    match p
    case WrongPack => run.packId != record.id
    case WrongDigest => run.expectationsDigest != record.digest
    case BeforeSubmission => Less(run.recordedAt, record.submittedAt)
    case BeforeReview => record.safetyReview.Some? && Less(run.recordedAt, record.safetyReview.value.reviewedAt)
    case FrozenBeforeRun =>
      FrozenEntry(record.history).Some? && Less(FrozenEntry(record.history).value.at, run.recordedAt)
    case ScannerTwice(scanner) => ListedTwice(run.scanners, scanner)
    case ResultMissing(id, scanner) => Missing(record, run, id, scanner)
    case _ => exists i :: 0 <= i < |run.results| && ResultWrong(record, run, i, p)
  }

  ghost predicate RunWrong(record: Record, file: Option<File>, p: RunProblem) {
    record.firstRun.Some? &&
    if file.None? then p == FileMissing
    else if p.FileChanged? then HashText(file.value.text) != record.firstRun.value
    else
      match file.value.content
      case NotJson => p == FileNotJson
      case Misshapen => p == FileMisshapen
      case Run(run) => !p.FileMissing? && !p.FileNotJson? && !p.FileMisshapen? && Mismatch(record, run, p)
  }

  // ---------------------------------------------------------------------------------------------
  // The key of a result: fixture id, NUL, scanner.

  function Key(id: Text, scanner: Text): Text {
    id + [0] + scanner
  }

  /** No id contains NUL, so a key stands for one fixture and one scanner. */
  lemma KeyInjective(id: Text, scanner: Text, id': Text, scanner': Text)
    requires Free(id, 0) && Free(id', 0) && Key(id, scanner) == Key(id', scanner')
    ensures id == id' && scanner == scanner'
  {
    SplitOnce(id, scanner, id', scanner', 0);
  }

  lemma IdHasNoNul(id: Text)
    requires IsId(id)
    ensures Free(id, 0)
  {
  }

  ghost predicate Seen(seen: set<Text>, results: seq<RunResult>) {
    forall id, scanner :: IsId(id) ==> (Key(id, scanner) in seen <==> HasResult(results, id, scanner))
  }

  lemma SeenOneMore(seen: set<Text>, results: seq<RunResult>, r: RunResult)
    requires Seen(seen, results) && IsId(r.fixtureId)
    ensures Seen(seen + {Key(r.fixtureId, r.scanner)}, results + [r])
  {
    hide IsId, Key;
    var more := results + [r];
    IdHasNoNul(r.fixtureId);
    forall id, scanner | IsId(id)
      ensures Key(id, scanner) in seen + {Key(r.fixtureId, r.scanner)} <==> HasResult(more, id, scanner)
    {
      IdHasNoNul(id);
      if Key(id, scanner) == Key(r.fixtureId, r.scanner) {
        KeyInjective(id, scanner, r.fixtureId, r.scanner);
        assert more[|results|] == r;
      }
      if HasResult(results, id, scanner) {
        var k :| 0 <= k < |results| && results[k].fixtureId == id && results[k].scanner == scanner;
        assert more[k] == results[k];
      }
      if HasResult(more, id, scanner) {
        var k :| 0 <= k < |more| && more[k].fixtureId == id && more[k].scanner == scanner;
        assert k < |results| ==> results[k] == more[k];
      }
    }
  }

  // ---------------------------------------------------------------------------------------------
  // The checks.

  function InFinding(id: Text, scanner: Text, problems: seq<RangeProblem>): (r: seq<RunProblem>)
    ensures forall p :: p in r <==> p.FindingRange? && p.id == id && p.scanner == scanner && p.problem in problems
  {
    if problems == [] then [] else [FindingRange(id, scanner, problems[0])] + InFinding(id, scanner, problems[1..])
  }

  method OneResultProblems(record: Record, run: FirstRun<Digest>, i: nat, scanners: set<Text>,
      fixtures: map<Text, Fixture>, seen: set<Text>)
    returns (problems: seq<RunProblem>)
    requires i < |run.results| && IsId(run.results[i].fixtureId)
    requires (forall s :: s in scanners <==> Listed(s, run)) && fixtures == Outcomes.ById(record.fixtures)
    requires Seen(seen, run.results[..i])
    ensures forall p :: p in problems <==> ResultWrong(record, run, i, p)
  {
    hide RangeWrong, Outcomes.ById, Key, IsId, HasResult, Listed, Unedited;
    var result, unedited := run.results[i], Unedited(record);
    problems := [];
    if Key(result.fixtureId, result.scanner) in seen {
      problems := problems + [ResultTwice(result.fixtureId, result.scanner)];
    }
    if result.scanner !in scanners {
      problems := problems + [UnlistedScanner(result.scanner)];
    }
    if result.fixtureId !in fixtures {
      if unedited {
        problems := problems + [UnknownFixture(result.fixtureId)];
      }
      return;
    }
    if result.failed && result.findings != [] {
      problems := problems + [FailedWithFindings(result.fixtureId, result.scanner)];
    }
    if unedited {
      var ranges := RangeProblems(result.findings, fixtures[result.fixtureId].content);
      problems := problems + InFinding(result.fixtureId, result.scanner, ranges);
    }
  }

  method ScannerProblems(run: FirstRun<Digest>) returns (problems: seq<RunProblem>, scanners: set<Text>)
    ensures forall p :: p in problems <==> p.ScannerTwice? && ListedTwice(run.scanners, p.scanner)
    ensures forall s :: s in scanners <==> Listed(s, run)
  {
    problems, scanners := [], {};
    for i := 0 to |run.scanners|
      invariant forall s :: s in scanners <==> s in run.scanners[..i]
      invariant forall p :: p in problems <==> p.ScannerTwice? && ListedTwice(run.scanners[..i], p.scanner)
    {
      var name := run.scanners[i];
      ListedOneMore(run.scanners, i);
      if name in scanners {
        problems := problems + [ScannerTwice(name)];
      }
      scanners := scanners + {name};
    }
    assert run.scanners[..|run.scanners|] == run.scanners;
  }

  lemma ListedOneMore(scanners: seq<Text>, i: nat)
    requires i < |scanners|
    ensures forall s :: ListedTwice(scanners[..i + 1], s) <==>
      ListedTwice(scanners[..i], s) || (s == scanners[i] && s in scanners[..i])
  {
    var less, more := scanners[..i], scanners[..i + 1];
    forall s ensures ListedTwice(more, s) <==> ListedTwice(less, s) || (s == scanners[i] && s in less) {
      if ListedTwice(more, s) {
        var j, k :| 0 <= j < k < |more| && more[j] == s && more[k] == s;
        assert less[j] == s;
        assert k < i ==> less[k] == s;
      }
      if ListedTwice(less, s) {
        var j, k :| 0 <= j < k < |less| && less[j] == s && less[k] == s;
        assert more[j] == s && more[k] == s;
      }
      if s == scanners[i] && s in less {
        var j :| 0 <= j < |less| && less[j] == s;
        assert more[j] == s && more[i] == s;
      }
    }
  }

  predicate ResultKind(p: RunProblem) {
    p.ResultTwice? || p.UnlistedScanner? || p.UnknownFixture? || p.FailedWithFindings? || p.FindingRange?
  }

  method ResultProblems(record: Record, run: FirstRun<Digest>, scanners: set<Text>)
      returns (problems: seq<RunProblem>, seen: set<Text>)
    requires forall r :: r in run.results ==> IsId(r.fixtureId)
    requires forall s :: s in scanners <==> Listed(s, run)
    ensures forall p :: p in problems <==> exists i :: 0 <= i < |run.results| && ResultWrong(record, run, i, p)
    ensures Seen(seen, run.results)
  {
    hide ResultWrong, IsId, Key;
    var fixtures := Outcomes.ById(record.fixtures);
    problems, seen := [], {};
    for i := 0 to |run.results|
      invariant forall p :: p in problems <==> exists k :: 0 <= k < i && ResultWrong(record, run, k, p)
      invariant Seen(seen, run.results[..i])
    {
      var result := run.results[i];
      assert result in run.results;
      var found := OneResultProblems(record, run, i, scanners, fixtures, seen);
      problems := problems + found;
      SeenOneMore(seen, run.results[..i], result);
      assert run.results[..i + 1] == run.results[..i] + [result];
      seen := seen + {Key(result.fixtureId, result.scanner)};
    }
    assert run.results[..|run.results|] == run.results;
  }

  method MissingForFixture(fixture: Fixture, run: FirstRun<Digest>, scanners: set<Text>, seen: set<Text>)
      returns (problems: seq<RunProblem>)
    requires IsId(fixture.id) && Seen(seen, run.results)
    ensures forall p :: p in problems <==>
      p.ResultMissing? && p.id == fixture.id && p.scanner in scanners && !HasResult(run.results, p.id, p.scanner)
  {
    hide IsId, Key, HasResult;
    problems := [];
    var left := scanners;
    while left != {}
      invariant left <= scanners
      invariant forall p :: p in problems <==>
        p.ResultMissing? && p.id == fixture.id && p.scanner in scanners - left
          && !HasResult(run.results, p.id, p.scanner)
      decreases |left|
    {
      var scanner :| scanner in left;
      if Key(fixture.id, scanner) !in seen {
        problems := problems + [ResultMissing(fixture.id, scanner)];
      }
      left := left - {scanner};
    }
  }

  method MissingProblems(record: Record, run: FirstRun<Digest>, scanners: set<Text>, seen: set<Text>)
      returns (problems: seq<RunProblem>)
    requires (forall f :: f in record.fixtures ==> IsId(f.id)) && Seen(seen, run.results)
    requires forall s :: s in scanners <==> Listed(s, run)
    ensures forall p :: p in problems <==> p.ResultMissing? && Missing(record, run, p.id, p.scanner)
  {
    hide IsId, Key, HasResult, Listed, Seen;
    problems := [];
    if Unedited(record) {
      for i := 0 to |record.fixtures|
        invariant forall p :: p in problems <==>
          p.ResultMissing? && (exists f :: f in record.fixtures[..i] && f.id == p.id) && Listed(p.scanner, run)
            && !HasResult(run.results, p.id, p.scanner)
      {
        var found := MissingForFixture(record.fixtures[i], run, scanners, seen);
        problems := problems + found;
        assert record.fixtures[..i + 1] == record.fixtures[..i] + [record.fixtures[i]];
      }
      assert record.fixtures[..|record.fixtures|] == record.fixtures;
    }
  }

  predicate HeaderKind(p: RunProblem) {
    p.WrongPack? || p.WrongDigest? || p.BeforeSubmission? || p.BeforeReview? || p.FrozenBeforeRun?
  }

  method HeaderProblems(record: Record, run: FirstRun<Digest>) returns (problems: seq<RunProblem>)
    ensures forall p :: p in problems <==> HeaderKind(p) && Mismatch(record, run, p)
  {
    hide Less, FrozenEntry;
    problems := [];
    if run.packId != record.id {
      problems := problems + [WrongPack];
    }
    if run.expectationsDigest != record.digest {
      problems := problems + [WrongDigest];
    }
    if Less(run.recordedAt, record.submittedAt) {
      problems := problems + [BeforeSubmission];
    }
    if record.safetyReview.Some? && Less(run.recordedAt, record.safetyReview.value.reviewedAt) {
      problems := problems + [BeforeReview];
    }
    var frozen := FrozenEntry(record.history);
    if frozen.Some? && Less(frozen.value.at, run.recordedAt) {
      problems := problems + [FrozenBeforeRun];
    }
  }

  method FirstRunProblems(record: Record, file: Option<File>) returns (problems: seq<RunProblem>)
    requires ShapedRecord(record) && ShapedFile(file)
    ensures forall p :: p in problems <==> RunWrong(record, file, p)
  {
    hide ResultWrong, ListedTwice, Missing, Less, HashText, IsId;
    if record.firstRun.None? {
      return [];
    }
    if file.None? {
      return [FileMissing];
    }
    problems := [];
    if HashText(file.value.text) != record.firstRun.value {
      problems := problems + [FileChanged];
    }
    match file.value.content {
      case NotJson =>
        problems := problems + [FileNotJson];
      case Misshapen =>
        problems := problems + [FileMisshapen];
      case Run(run) =>
        var header := HeaderProblems(record, run);
        var twice, scanners := ScannerProblems(run);
        var results, seen := ResultProblems(record, run, scanners);
        var missing := MissingProblems(record, run, scanners, seen);
        OnlyResultKinds(record, run);
        problems := problems + header + twice + results + missing;
    }
  }

  lemma OnlyResultKinds(record: Record, run: FirstRun<Digest>)
    ensures forall i, p :: 0 <= i < |run.results| && ResultWrong(record, run, i, p) ==> ResultKind(p)
  {
  }
}
