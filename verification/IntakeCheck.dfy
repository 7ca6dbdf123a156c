/** `validateIntake` (benchmarks/lib/adversarial-intake.ts), and what a record without problems is known to be. */
module IntakeCheck {
  import opened Options
  import opened Text
  import opened Ranges
  import opened IntakeTypes
  import opened Expectations
  import opened Intake
  import opened FirstRunCheck
  import Outcomes
  import Utf8

  datatype Problem =
    | RejectionMissing
    | RejectionOmitsGround
    | RejectionNotAllowed
    | MustBeRejected(reason: RejectionReason)
    | ReviewNotPassed
    | FirstRunRequired
    | FirstRunTooEarly
    | ReviewTooEarly
    | NothingConverted
    | EditedNotConverted
    | EditPredates(index: nat)
    | EditNamesNothing(index: nat)
    | WrongQualification
    | ExpectationsChanged
    | InFixtures(fixture: FixtureProblem)
    | InHistory(history: HistoryProblem)
    | InFirstRun(run: RunProblem)

  /** Grounds that force rejection. */
  ghost predicate Ground(record: Record, reason: RejectionReason) {
    match reason
    case RealCredentialMaterial =>
      record.provenance != Synthetic || exists f :: f in record.fixtures && f.credentialStatus != Synthetic
    case ScannerDerivedExpectations => record.scannerOutputConsulted
    case NoRedistributionPermission => !record.redistribution
    case FailedSafetyReview => record.safetyReview.Some? && !record.safetyReview.value.passed
    case _ => false
  }

  function RejectionGrounds(record: Record): (grounds: seq<RejectionReason>)
    ensures forall reason :: reason in grounds <==> Ground(record, reason)
  {
    (if record.provenance != Synthetic || exists f :: f in record.fixtures && f.credentialStatus != Synthetic
     then [RealCredentialMaterial] else [])
      + (if record.scannerOutputConsulted then [ScannerDerivedExpectations] else [])
      + (if !record.redistribution then [NoRedistributionPermission] else [])
      + (if record.safetyReview.Some? && !record.safetyReview.value.passed then [FailedSafetyReview] else [])
  }

  /** `derivedQualification` */
  function DerivedQualification(record: Record): Qualification {
    if record.affiliation != External || record.status == ConvertedToMaintainerRegression || !Unedited(record)
    then MaintainerRegression else ExternallyAuthored
  }

  ghost predicate StateWrong(record: Record, p: Problem) {
    match p
    case RejectionMissing => record.status == Rejected && record.rejection.None?
    case RejectionOmitsGround =>
      record.status == Rejected && record.rejection.Some? && !Ground(record, record.rejection.value)
        && exists reason :: Ground(record, reason)
    case RejectionNotAllowed => record.status != Rejected && record.rejection.Some?
    case MustBeRejected(reason) => record.status != Rejected && Ground(record, reason)
    case ReviewNotPassed => AfterFirstRun(record.status)
      && !(record.safetyReview.Some? && record.safetyReview.value.passed)
    case FirstRunRequired => AfterFirstRun(record.status) && record.firstRun.None?
    case FirstRunTooEarly => !AfterFirstRun(record.status) && record.firstRun.Some? && record.status != Rejected
    case ReviewTooEarly => record.status == Submitted && record.safetyReview.Some?
    case NothingConverted => record.status == ConvertedToMaintainerRegression && Unedited(record)
    case EditedNotConverted =>
      !Unedited(record) && record.status != ConvertedToMaintainerRegression && record.status != Rejected
    case EditPredates(i) => i < |record.maintainerEdits| && Less(record.maintainerEdits[i].at, record.submittedAt)
    case EditNamesNothing(i) =>
      i < |record.maintainerEdits| && record.maintainerEdits[i].material && record.maintainerEdits[i].fixtures == []
    case WrongQualification => record.qualification != DerivedQualification(record)
    case ExpectationsChanged => ExpectationsDigest(record.fixtures) != record.digest && Unedited(record)
    case _ => false
  }

  /** Everything that can be wrong with a record and its first run. */
  ghost predicate Wrong(record: Record, file: Option<File>, p: Problem)
    requires record.history != []
  {
    match p
    case InFixtures(problem) => FixtureWrong(record, problem)
    case InHistory(problem) => HistoryWrong(record, problem)
    case InFirstRun(problem) => RunWrong(record, file, problem)
    case _ => StateWrong(record, p)
  }

  predicate RejectionKind(p: Problem) {
    p.RejectionMissing? || p.RejectionOmitsGround? || p.RejectionNotAllowed? || p.MustBeRejected?
  }

  function EachMustBeRejected(grounds: seq<RejectionReason>): (r: seq<Problem>)
    ensures forall p :: p in r <==> p.MustBeRejected? && p.reason in grounds
  {
    if grounds == [] then [] else [MustBeRejected(grounds[0])] + EachMustBeRejected(grounds[1..])
  }

  method RejectionProblems(record: Record) returns (problems: seq<Problem>)
    ensures forall p :: p in problems <==> RejectionKind(p) && StateWrong(record, p)
  {
    hide Ground, Unedited, ExpectationsDigest, Less;
    var grounds := RejectionGrounds(record);
    problems := [];
    if record.status == Rejected {
      if record.rejection.None? {
        problems := [RejectionMissing];
      } else if grounds != [] && record.rejection.value !in grounds {
        assert Ground(record, grounds[0]);
        problems := [RejectionOmitsGround];
      }
    } else {
      if record.rejection.Some? {
        problems := [RejectionNotAllowed];
      }
      problems := problems + EachMustBeRejected(grounds);
    }
  }

  predicate EditKind(p: Problem) {
    p.EditPredates? || p.EditNamesNothing?
  }

  method EditProblems(record: Record) returns (problems: seq<Problem>)
    ensures forall p :: p in problems <==> EditKind(p) && StateWrong(record, p)
  {
    hide Less, ExpectationsDigest, Unedited, Ground;
    problems := [];
    for i := 0 to |record.maintainerEdits|
      invariant forall p :: p in problems <==> EditKind(p) && p.index < i && StateWrong(record, p)
    {
      var edit := record.maintainerEdits[i];
      if Less(edit.at, record.submittedAt) {
        problems := problems + [EditPredates(i)];
      }
      if edit.material && edit.fixtures == [] {
        problems := problems + [EditNamesNothing(i)];
      }
    }
  }

  predicate ReviewKind(p: Problem) {
    p.ReviewNotPassed? || p.FirstRunRequired? || p.FirstRunTooEarly? || p.ReviewTooEarly?
  }

  method ReviewProblems(record: Record) returns (problems: seq<Problem>)
    ensures forall p :: p in problems <==> ReviewKind(p) && StateWrong(record, p)
  {
    hide Less, ExpectationsDigest, Unedited, Ground;
    problems := [];
    if AfterFirstRun(record.status) {
      if !(record.safetyReview.Some? && record.safetyReview.value.passed) {
        problems := problems + [ReviewNotPassed];
      }
      if record.firstRun.None? {
        problems := problems + [FirstRunRequired];
      }
    } else if record.firstRun.Some? && record.status != Rejected {
      problems := problems + [FirstRunTooEarly];
    }
    if record.status == Submitted && record.safetyReview.Some? {
      problems := problems + [ReviewTooEarly];
    }
  }

  predicate MaterialKind(p: Problem) {
    p.NothingConverted? || p.EditedNotConverted? || p.WrongQualification? || p.ExpectationsChanged?
  }

  method MaterialProblems(record: Record) returns (problems: seq<Problem>)
    ensures forall p :: p in problems <==> MaterialKind(p) && StateWrong(record, p)
  {
    hide Less, ExpectationsDigest, Unedited, Ground, DerivedQualification;
    problems := [];
    var material := !Unedited(record);
    if record.status == ConvertedToMaintainerRegression && !material {
      problems := problems + [NothingConverted];
    }
    if material && record.status != ConvertedToMaintainerRegression && record.status != Rejected {
      problems := problems + [EditedNotConverted];
    }
    if record.qualification != DerivedQualification(record) {
      problems := problems + [WrongQualification];
    }
    if ExpectationsDigest(record.fixtures) != record.digest && !material {
      problems := problems + [ExpectationsChanged];
    }
  }

  function OfFixtures(problems: seq<FixtureProblem>): (r: seq<Problem>)
    ensures forall p :: p in r <==> p.InFixtures? && p.fixture in problems
  {
    if problems == [] then [] else [InFixtures(problems[0])] + OfFixtures(problems[1..])
  }

  function OfHistory(problems: seq<HistoryProblem>): (r: seq<Problem>)
    ensures forall p :: p in r <==> p.InHistory? && p.history in problems
  {
    if problems == [] then [] else [InHistory(problems[0])] + OfHistory(problems[1..])
  }

  function OfFirstRun(problems: seq<RunProblem>): (r: seq<Problem>)
    ensures forall p :: p in r <==> p.InFirstRun? && p.run in problems
  {
    if problems == [] then [] else [InFirstRun(problems[0])] + OfFirstRun(problems[1..])
  }

  method ValidateIntake(record: Record, file: Option<File>) returns (problems: seq<Problem>)
    requires ShapedRecord(record) && ShapedFile(file)
    ensures forall p :: p in problems <==> Wrong(record, file, p)
  {
    hide FixtureWrong, HistoryWrong, RunWrong, StateWrong;
    var rejection := RejectionProblems(record);
    var review := ReviewProblems(record);
    var material := MaterialProblems(record);
    var edits := EditProblems(record);
    var fixtures := FixtureProblems(record);
    var history := HistoryProblems(record);
    var run := FirstRunProblems(record, file);
    problems := rejection + review + material + edits + OfFixtures(fixtures) + OfHistory(history) + OfFirstRun(run);
    OneKind(record);
  }

  lemma OneKind(record: Record)
    ensures forall p :: StateWrong(record, p) ==> RejectionKind(p) || ReviewKind(p) || MaterialKind(p) || EditKind(p)
  {
  }

  // ---------------------------------------------------------------------------------------------
  // Records without problems.

  ghost predicate Clean(record: Record, file: Option<File>) {
    ShapedRecord(record) && ShapedFile(file) && forall p :: !Wrong(record, file, p)
  }

  lemma CleanParts(record: Record, file: Option<File>)
    requires Clean(record, file)
    ensures CleanHistory(record)
    ensures forall p :: !FixtureWrong(record, p)
    ensures forall p :: !RunWrong(record, file, p)
    ensures forall p :: !StateWrong(record, p)
  {
    hide FixtureWrong, HistoryWrong, RunWrong, StateWrong;
    forall p ensures !FixtureWrong(record, p) {
      assert !Wrong(record, file, InFixtures(p));
    }
    forall p ensures !HistoryWrong(record, p) {
      assert !Wrong(record, file, InHistory(p));
    }
    forall p ensures !RunWrong(record, file, p) {
      assert !Wrong(record, file, InFirstRun(p));
    }
    forall p ensures !StateWrong(record, p) {
      assert !Wrong(record, file, p) || p.InFixtures? || p.InHistory? || p.InFirstRun?;
      NotAState(record, p);
    }
  }

  lemma NotAState(record: Record, p: Problem)
    ensures p.InFixtures? || p.InHistory? || p.InFirstRun? ==> !StateWrong(record, p)
  {
  }

  /** The first run of a clean record that has one is there, intact, and answers the committed expectations. */
  lemma CleanRun(record: Record, file: Option<File>)
    requires record.firstRun.Some? && forall p :: !RunWrong(record, file, p)
    ensures file.Some? && file.value.content.Run? && HashText(file.value.text) == record.firstRun.value
    ensures forall p :: !Mismatch(record, file.value.content.run, p)
  {
    hide Mismatch;
    assert !RunWrong(record, file, FileMissing);
    assert !RunWrong(record, file, FileChanged);
    assert !RunWrong(record, file, FileNotJson);
    assert !RunWrong(record, file, FileMisshapen);
    forall p ensures !Mismatch(record, file.value.content.run, p) {
      assert !RunWrong(record, file, p);
      NotAboutTheFile(record, file.value.content.run, p);
    }
  }

  lemma NotAboutTheFile(record: Record, run: FirstRun<Digest>, p: RunProblem)
    ensures p.FileMissing? || p.FileNotJson? || p.FileMisshapen? || p.FileChanged? ==> !Mismatch(record, run, p)
  {
  }

  /** A record that validates as accepted went submitted, reviewed, frozen, accepted, in that order of time. */
  lemma AcceptedHistory(record: Record, file: Option<File>)
    requires Clean(record, file) && record.status == Accepted
    ensures |record.history| == 4 && forall i :: 0 <= i < 4 ==> record.history[i].status == ACCEPTED_PATH[i]
    ensures forall i, k :: 0 <= i < k < 4 ==> AtMost(record.history[i].at, record.history[k].at)
    ensures record.history[0].at == record.submittedAt
  {
    hide Less, FixtureWrong, RunWrong, StateWrong;
    CleanParts(record, file);
    assert !HistoryWrong(record, BadStart);
    hide CleanHistory, HistoryWrong, Clean;
    OneWayToAccepted(record);
    HistoryBounded(record);
  }

  /** Its first run was recorded after the review and before the freeze, against the expectations
      committed at submission, and has not been touched since. */
  lemma AcceptedFirstRun(record: Record, file: Option<File>)
    requires Clean(record, file) && record.status == Accepted
    ensures |record.history| == 4 && record.history[2].status == FrozenFirstRun
    ensures record.safetyReview.Some? && record.safetyReview.value.passed
    ensures file.Some? && file.value.content.Run? && Some(HashText(file.value.text)) == record.firstRun
    ensures var run := file.value.content.run;
      && run.packId == record.id
      && run.expectationsDigest == record.digest == ExpectationsDigest(record.fixtures)
      && AtMost(record.submittedAt, run.recordedAt)
      && AtMost(record.safetyReview.value.reviewedAt, run.recordedAt)
      && AtMost(run.recordedAt, record.history[2].at)
  {
    hide *;
    AcceptedHistory(record, file);
    CleanParts(record, file);
    AcceptedState(record);
    CleanRun(record, file);
    MatchingRun(record, file.value.content.run);
    FrozenThird(record.history);
  }

  lemma AcceptedState(record: Record)
    requires record.status == Accepted && forall p :: !StateWrong(record, p)
    ensures record.safetyReview.Some? && record.safetyReview.value.passed && record.firstRun.Some? && Unedited(record)
    ensures record.digest == ExpectationsDigest(record.fixtures)
  {
    hide Less, ExpectationsDigest, Unedited;
    assert !StateWrong(record, ReviewNotPassed) && !StateWrong(record, FirstRunRequired);
    assert !StateWrong(record, EditedNotConverted) && !StateWrong(record, ExpectationsChanged);
  }

  lemma MatchingRun(record: Record, run: FirstRun<Digest>)
    requires forall p :: !Mismatch(record, run, p)
    ensures run.packId == record.id && run.expectationsDigest == record.digest
      && AtMost(record.submittedAt, run.recordedAt)
    ensures record.safetyReview.Some? ==> AtMost(record.safetyReview.value.reviewedAt, run.recordedAt)
    ensures FrozenEntry(record.history).Some? ==> AtMost(run.recordedAt, FrozenEntry(record.history).value.at)
  {
    hide Less, FrozenEntry;
    assert !Mismatch(record, run, WrongPack) && !Mismatch(record, run, WrongDigest);
    assert !Mismatch(record, run, BeforeSubmission) && !Mismatch(record, run, BeforeReview)
      && !Mismatch(record, run, FrozenBeforeRun);
  }

  lemma {:induction false} FrozenThird(history: seq<HistoryEntry>)
    requires |history| == 4 && forall i :: 0 <= i < 4 ==> history[i].status == ACCEPTED_PATH[i]
    ensures history[2].status == FrozenFirstRun && FrozenEntry(history) == Some(history[2])
  {
    assert FrozenEntry(history) == FrozenEntry(history[1..]) == FrozenEntry(history[1..][1..]);
    assert history[1..][1..][0] == history[2];
  }

  /** Two clean records with the same committed digest, and no material edit, have the same expectations. */
  lemma CommittedExpectations(a: Record, fileA: Option<File>, b: Record, fileB: Option<File>)
    requires Clean(a, fileA) && Clean(b, fileB) && Unedited(a) && Unedited(b) && a.digest == b.digest
    ensures |a.fixtures| == |b.fixtures| && forall i ::
      0 <= i < |a.fixtures| ==> SameExpectations(a.fixtures[i], b.fixtures[i])
  {
    hide Clean, Unedited, ExpectationsDigest;
    CleanParts(a, fileA);
    CleanParts(b, fileB);
    assert !StateWrong(a, ExpectationsChanged) && !StateWrong(b, ExpectationsChanged);
    DigestCommits(a.fixtures, b.fixtures);
  }

  // ---------------------------------------------------------------------------------------------
  // The table of outcomes of a clean record.

  lemma CleanFixtureIds(record: Record)
    requires forall p :: !FixtureWrong(record, p)
    ensures forall i, k :: 0 <= i < k < |record.fixtures| ==> record.fixtures[i].id != record.fixtures[k].id
  {
    forall i, k | 0 <= i < k < |record.fixtures| ensures record.fixtures[i].id != record.fixtures[k].id {
      var p := IdTwice(record.fixtures[k].id);
      assert !FixtureWrong(record, p);
      assert !FixtureWrongAt(record, k, p);
    }
  }

  lemma CleanResults(record: Record, run: FirstRun<Digest>, scanner: Text)
    requires Unedited(record) && Listed(scanner, run)
    requires forall p :: !Mismatch(record, run, p)
    requires forall i, k :: 0 <= i < k < |record.fixtures| ==> record.fixtures[i].id != record.fixtures[k].id
    ensures Outcomes.Complete(record.fixtures, scanner, run.results)
  {
    hide Unedited, Listed;
    var results := run.results;
    forall i, k | 0 <= i < k < |results|
      ensures results[i].fixtureId != results[k].fixtureId || results[i].scanner != results[k].scanner {
      var p := ResultTwice(results[k].fixtureId, results[k].scanner);
      assert !Mismatch(record, run, p);
      assert !ResultWrong(record, run, k, p);
      assert results[..k][i] == results[i];
    }
    forall r | r in results && r.scanner == scanner ensures exists f :: f in record.fixtures && f.id == r.fixtureId {
      var k :| 0 <= k < |results| && results[k] == r;
      var p := UnknownFixture(r.fixtureId);
      assert !Mismatch(record, run, p);
      assert !ResultWrong(record, run, k, p);
    }
    forall f | f in record.fixtures ensures exists r :: r in results && Outcomes.Answers(r, f, scanner) {
      assert !Mismatch(record, run, ResultMissing(f.id, scanner));
      assert HasResult(results, f.id, scanner);
      var k :| 0 <= k < |results| && results[k].fixtureId == f.id && results[k].scanner == scanner;
      assert Outcomes.Answers(results[k], f, scanner);
    }
  }

  /** For a clean record with a first run and no material edit, every scanner's outcomes add up to the
      number of fixtures. */
  lemma RowsAddUp(record: Record, file: Option<File>, table: map<Text, Outcomes.Row>, scanner: Text)
    requires Clean(record, file) && record.firstRun.Some? && Unedited(record)
    ensures file.Some? && file.value.content.Run?
    ensures var run := file.value.content.run;
      scanner in run.scanners && scanner in table
        && Outcomes.Tallied(table, run.results, Outcomes.ById(record.fixtures))
      ==> Outcomes.RowTotal(table[scanner]) == |record.fixtures|
  {
    hide FixtureWrong, RunWrong, StateWrong, CleanHistory, Outcomes.Complete, Clean;
    CleanParts(record, file);
    CleanFixtureIds(record);
    CleanRun(record, file);
    var run := file.value.content.run;
    if scanner in run.scanners && scanner in table
      && Outcomes.Tallied(table, run.results, Outcomes.ById(record.fixtures)) {
      CleanResults(record, run, scanner);
      Outcomes.RowAddsUp(table, record.fixtures, scanner, run.results);
    }
  }

  /** And what a clean record expects of a must-redact fixture is judged by sets of bytes. */
  lemma CleanJudgements(record: Record, file: Option<File>, f: Fixture, result: RunResult)
    requires Clean(record, file) && f in record.fixtures && f.action == MustRedact && !result.failed
    ensures Outcomes.SaysRight(Outcomes.Judged(f.action, f.expected, result), Offsets(result.findings),
      Offsets(f.expected))
  {
    hide Clean, RangeWrong, Outcomes.SaysRight, Outcomes.Judged, StateWrong, RunWrong, CleanHistory, Utf8.Encode;
    CleanParts(record, file);
    var i :| 0 <= i < |record.fixtures| && record.fixtures[i] == f;
    forall q ensures !RangeWrong(f.expected, f.content, q) {
      var p := ExpectedRange(f.id, q);
      assert FixtureWrongAt(record, i, p) <==> RangeWrong(f.expected, f.content, q);
      assert !FixtureWrong(record, p);
    }
    AcceptedRanges(f.expected, f.content);
    Outcomes.NormalIsDisjoint(f.expected);
    Outcomes.JudgedBySets(f.expected, result);
  }

  // ---------------------------------------------------------------------------------------------
  // First runs are added, never rewritten.

  /** The digest of each pack's first run at a revision, where there is one. */
  type Revision = map<Text, Option<Digest>>

  predicate Pinned(revision: Revision, pack: Text, digest: Digest) {
    pack in revision && revision[pack] == Some(digest)
  }

  datatype Rewrite = Removed(pack: Text) | Changed(pack: Text)

  ghost predicate Rewritten(current: Revision, base: Revision, p: Rewrite) {
    && p.pack in base && base[p.pack].Some?
    && var now := if p.pack in current then current[p.pack] else None;
       if p.Removed? then now.None? else now.Some? && now != base[p.pack]
  }

  method FirstRunImmutabilityProblems(current: Revision, base: Revision) returns (problems: seq<Rewrite>)
    ensures forall p :: p in problems <==> Rewritten(current, base, p)
  {
    problems := [];
    var left := base.Keys;
    while left != {}
      invariant left <= base.Keys
      invariant forall p :: p in problems <==> p.pack !in left && Rewritten(current, base, p)
      decreases |left|
    {
      var pack :| pack in left;
      left := left - {pack};
      if base[pack].Some? {
        var now := if pack in current then current[pack] else None;
        if now.None? {
          problems := problems + [Removed(pack)];
        } else if now != base[pack] {
          problems := problems + [Changed(pack)];
        }
      }
    }
  }

  ghost predicate Immutable(current: Revision, base: Revision) {
    forall p :: !Rewritten(current, base, p)
  }

  /** Along any chain of revisions that pass, a first run's digest once there is there for ever. */
  lemma {:induction false} PinnedForever(revisions: seq<Revision>, i: nat, k: nat, pack: Text, digest: Digest)
    requires i <= k < |revisions|
    requires forall n :: 0 < n < |revisions| ==> Immutable(revisions[n], revisions[n - 1])
    requires Pinned(revisions[i], pack, digest)
    ensures Pinned(revisions[k], pack, digest)
  {
    if i < k {
      PinnedForever(revisions, i, k - 1, pack, digest);
      assert Immutable(revisions[k], revisions[k - 1]);
      assert !Rewritten(revisions[k], revisions[k - 1], Removed(pack));
      assert !Rewritten(revisions[k], revisions[k - 1], Changed(pack));
    }
  }

  /** And only such chains keep it: a revision that passes is exactly one that drops and changes nothing pinned. */
  lemma ImmutableExactly(current: Revision, base: Revision)
    ensures Immutable(current, base) <==>
      forall pack, digest :: Pinned(base, pack, digest) ==> Pinned(current, pack, digest)
  {
    if Immutable(current, base) {
      forall pack, digest | Pinned(base, pack, digest) ensures Pinned(current, pack, digest) {
        assert !Rewritten(current, base, Removed(pack)) && !Rewritten(current, base, Changed(pack));
      }
    }
    if forall pack, digest :: Pinned(base, pack, digest) ==> Pinned(current, pack, digest) {
      forall p ensures !Rewritten(current, base, p) {
        if p.pack in base && base[p.pack].Some? {
          assert Pinned(base, p.pack, base[p.pack].value);
        }
      }
    }
  }
}
