/** What every execution of the holdout protocol keeps. */
module HoldoutSafety {
  import opened FileContents
  import opened HoldoutProtocol

  // ---------------------------------------------------------------------------------------------
  // The invariant.

  function Where(p: Process): Directory
    requires !p.task.Seal? && !p.phase.Reading? && p.phase.Live() && p.WellFormed()
  {
    DirectoryOf(p.task.file, p.phase.m)
  }

  function EpochOf(p: Process): Directory
    requires p.task.Seal?
  {
    DirectoryOf(p.task.file, SealedManifest(p.task.corpus))
  }

  ghost predicate HasState(s: System, d: Directory) {
    d in s.disk.states && s.disk.states[d].Whole?
  }

  function StateAt(s: System, d: Directory): RunState
    requires HasState(s, d)
  {
    s.disk.states[d].value
  }

  /** The corpus bytes on disk are those the manifest committed to, unless edited by hand. */
  ghost predicate CorpusIntact(s: System, d: Directory, m: Manifest) {
    d in s.history.edited || CorpusOf(s.disk, d, m).Some?
  }

  /** The store directory a manifest names is complete and belongs to it. */
  ghost predicate Complete(s: System, d: Directory, m: Manifest) {
    && d in s.disk.directories
    && HasState(s, d) && StateAt(s, d).corpusHash == m.corpusHash
    && CorpusIntact(s, d, m)
  }

  ghost predicate UserFits(s: System, pid: nat, p: Process)
    requires p.WellFormed() && !p.task.Seal?
  {
    p.phase.Live() && !p.phase.Reading? ==>
      var d, m := Where(p), p.phase.m;
      && (d, m) in s.history.known && m.Valid()
      && (p.phase.Critical() ==> d in s.disk.locks && s.disk.locks[d] == pid)
      && (p.phase.Writing? ==>
            && HasState(s, d) && StateAt(s, d) == p.phase.found && p.phase.found.corpusHash == m.corpusHash
            && (p.task.Run? ==> p.phase.found.status.Sealed? && |p.phase.found.runs| < m.maxRuns))
      && (p.phase.Reserved() ==>
            && HasState(s, d) && StateAt(s, d).status.Sealed?
            && |StateAt(s, d).runs| == p.phase.slot + 1 && StateAt(s, d).runs[p.phase.slot] == p.task.runId)
      && (p.phase.Unstarted() ==> forall e :: e in s.history.evaluations && e.directory == d ==> e.slot < p.phase.slot)
      && (p.phase.Starting? ==> OfCorpus(p.phase.corpus) == m.corpusHash && OfSeed(p.phase.corpus.seed) == m.seedHash)
  }

  ghost predicate SealFits(s: System, pid: nat, p: Process)
    requires p.WellFormed() && p.task.Seal?
  {
    p.phase.Populating() ==>
      var d, m := EpochOf(p), SealedManifest(p.task.corpus);
      && d in s.history.makers && s.history.makers[d] == pid
      && (p.phase.CreatingCorpus? || p.phase.FillingCorpus? ==> d !in s.disk.states)
      && (p.phase.FillingCorpus? ==> d in s.history.edited || (d in s.disk.corpora && s.disk.corpora[d].Torn?))
      && (p.phase.CreatingState? ==> d !in s.disk.states && CorpusIntact(s, d, m))
      && (p.phase.FillingState? ==> d in s.disk.states && s.disk.states[d].Torn? && CorpusIntact(s, d, m))
      && (p.phase.CreatingManifest? || p.phase.FillingManifest? ==> Complete(s, d, m))
  }

  ghost predicate ProcessFits(s: System, pid: nat)
    requires pid in s.processes
  {
    var p := s.processes[pid];
    p.WellFormed() && if p.task.Seal? then SealFits(s, pid, p) else UserFits(s, pid, p)
  }

  ghost predicate ProcessesFit(s: System) {
    forall pid :: pid in s.processes ==> ProcessFits(s, pid)
  }

  ghost predicate DirectoriesFit(s: System) {
    && s.history.makers.Keys == s.disk.directories
    && (forall d :: d in s.history.makers ==> s.history.makers[d] in s.processes)
    && (forall d :: d in s.disk.states ==> d in s.disk.directories)
    && (forall d :: d in s.disk.locks ==> s.disk.locks[d] in s.processes)
  }

  ghost predicate Affordable(known: set<(Directory, Manifest)>, d: Directory, runs: nat) {
    exists m :: (d, m) in known && m.Valid() && runs <= m.maxRuns
  }

  ghost predicate BudgetsKept(s: System) {
    forall d :: HasState(s, d) && StateAt(s, d).runs != [] ==> Affordable(s.history.known, d, |StateAt(s, d).runs|)
  }

  /** A call of `evaluate` has its own reservation on disk, and saw the committed corpus. */
  ghost predicate Backed(s: System, e: Evaluation) {
    && HasState(s, e.directory)
    && e.slot < |StateAt(s, e.directory).runs| && StateAt(s, e.directory).runs[e.slot] == e.runId
    && (e.directory, e.manifest) in s.history.known
    && OfCorpus(e.corpus) == e.manifest.corpusHash && OfSeed(e.corpus.seed) == e.manifest.seedHash
  }

  ghost predicate DistinctSlots(evaluations: seq<Evaluation>) {
    forall i, j :: 0 <= i < j < |evaluations| && evaluations[i].directory == evaluations[j].directory
      ==> evaluations[i].slot != evaluations[j].slot
  }

  ghost predicate EvaluationsBacked(s: System) {
    && (forall e :: e in s.history.evaluations ==> Backed(s, e))
    && DistinctSlots(s.history.evaluations)
  }

  ghost predicate Distinct<T>(xs: seq<T>) {
    forall i, j :: 0 <= i < j < |xs| ==> xs[i] != xs[j]
  }

  ghost predicate StateFilesOnce(s: System) {
    && Distinct(s.history.stateFiles)
    && (forall d :: d in s.history.stateFiles <==> d in s.disk.states)
  }

  ghost predicate ManifestsFit(s: System) {
    && (forall f :: f in s.disk.manifests && s.disk.manifests[f].Whole? ==>
          (DirectoryOf(f, s.disk.manifests[f].value), s.disk.manifests[f].value) in s.history.known)
    && (forall d, m :: (d, m) in s.history.known ==> (d, m) in s.history.issued || d in s.history.placed)
    && (forall d, m :: (d, m) in s.history.issued ==> m.maxRuns == 1 && Complete(s, d, m))
  }

  ghost predicate Invariant(s: System) {
    && ProcessesFit(s)
    && DirectoriesFit(s)
    && BudgetsKept(s)
    && EvaluationsBacked(s)
    && StateFilesOnce(s)
    && ManifestsFit(s)
  }

  // ---------------------------------------------------------------------------------------------
  // Every action keeps it.

  /** Process `pid` is between taking and removing the lock of `d`. */
  ghost predicate Holds(s: System, pid: nat, d: Directory) {
    && pid in s.processes && s.processes[pid].WellFormed() && !s.processes[pid].task.Seal?
    && s.processes[pid].phase.Critical() && Where(s.processes[pid]) == d
  }

  /** Two holders of one lock are one process. */
  lemma MutualExclusion(s: System, p: nat, q: nat, d: Directory)
    requires ProcessesFit(s) && Holds(s, p, d) && Holds(s, q, d)
    ensures p == q
  {
    hide SealFits, Affordable, Complete, CorpusIntact;
    assert ProcessFits(s, p) && ProcessFits(s, q);
  }

  /** Histories only grow, and so does what they record about directories. */
  ghost predicate Grows(s: System, s': System) {
    && s.disk.directories <= s'.disk.directories
    && s.history.known <= s'.history.known
    && s.history.issued <= s'.history.issued
    && s.history.placed <= s'.history.placed
    && s.history.edited <= s'.history.edited
    && s.history.evaluations <= s'.history.evaluations
    && s.history.openings <= s'.history.openings
    && s.history.stateFiles <= s'.history.stateFiles
    && s.history.makers.Keys <= s'.history.makers.Keys
    && (forall d :: d in s.history.makers ==> s'.history.makers[d] == s.history.makers[d])
    && (forall d :: d in s.disk.corpora && d !in s'.history.edited ==> Kept(s.disk.corpora, s'.disk.corpora, d))
  }

  ghost predicate Kept<T>(before: map<Directory, Content<T>>, after: map<Directory, Content<T>>, d: Directory) {
    d in before ==> d in after && (before[d].Whole? ==> after[d] == before[d])
  }

  /** A process that does not move, and whose directory nobody else wrote, still fits. */
  ghost predicate Undisturbed(s: System, s': System, p: Process)
    requires p.WellFormed()
  {
    if p.task.Seal? then
      p.phase.Populating() ==>
        var d := EpochOf(p);
        && (p.phase.CreatingManifest? || p.phase.FillingManifest? ==>
          Complete(s, d, SealedManifest(p.task.corpus)) ==> Complete(s', d, SealedManifest(p.task.corpus)))
        && (!p.phase.CreatingManifest? && !p.phase.FillingManifest? ==> SameAt(s.disk.states, s'.disk.states, d))
        && (p.phase.FillingCorpus? ==> d in s'.history.edited || SameAt(s.disk.corpora, s'.disk.corpora, d))
    else
      p.phase.Live() && !p.phase.Reading? ==>
        var d := Where(p);
        && (p.phase.Critical() ==> d in s.disk.locks ==> d in s'.disk.locks && s'.disk.locks[d] == s.disk.locks[d])
        && (p.phase.Writing? || p.phase.Reserved() ==> SameAt(s.disk.states, s'.disk.states, d))
        && (p.phase.Unstarted() ==>
          forall e :: e in s'.history.evaluations && e.directory == d ==> e in s.history.evaluations)
  }

  ghost predicate SameAt<T>(before: map<Directory, Content<T>>, after: map<Directory, Content<T>>, d: Directory) {
    (d in before <==> d in after) && (d in before ==> after[d] == before[d])
  }

  lemma StaysFit(s: System, s': System, pid: nat)
    requires pid in s.processes && pid in s'.processes && s'.processes[pid] == s.processes[pid]
    requires ProcessFits(s, pid) && Grows(s, s') && Undisturbed(s, s', s.processes[pid])
    ensures ProcessFits(s', pid)
  {
  }

  lemma OthersStayFit(s: System, s': System, pid: nat)
    requires ProcessesFit(s) && Grows(s, s')
    requires s'.processes.Keys == s.processes.Keys + {pid}
    requires forall q ::
      q in s.processes && q != pid ==> s'.processes[q] == s.processes[q] && Undisturbed(s, s', s.processes[q])
    requires ProcessFits(s', pid)
    ensures ProcessesFit(s')
  {
    forall q | q in s'.processes ensures ProcessFits(s', q) {
      if q != pid {
        StaysFit(s, s', q);
      }
    }
  }

  /** A step that writes no state, manifest, corpus or directory. */
  ghost predicate Quiet(s: System, s': System) {
    && s'.disk.states == s.disk.states && s'.disk.corpora == s.disk.corpora
    && s'.disk.manifests == s.disk.manifests && s'.disk.directories == s.disk.directories
    && s'.history == s.history.(openings := s'.history.openings)
    && s.history.openings <= s'.history.openings
    && s.processes.Keys <= s'.processes.Keys
    && forall d :: d in s'.disk.locks ==> s'.disk.locks[d] in s'.processes
  }

  lemma QuietKeepsStore(s: System, s': System)
    requires Invariant(s) && Quiet(s, s')
    ensures Grows(s, s')
    ensures DirectoriesFit(s') && BudgetsKept(s') && EvaluationsBacked(s') && StateFilesOnce(s') && ManifestsFit(s')
  {
    forall d | HasState(s', d) && StateAt(s', d).runs != []
      ensures Affordable(s'.history.known, d, |StateAt(s', d).runs|)
    {
      assert HasState(s, d);
    }
    forall e | e in s'.history.evaluations ensures Backed(s', e) {
      assert Backed(s, e);
    }
    forall d, m | (d, m) in s'.history.issued ensures m.maxRuns == 1 && Complete(s', d, m) {
      assert Complete(s, d, m);
    }
  }

  /** Only process `pid` moves, quietly, and other holders keep their locks. */
  ghost predicate QuietMove(s: System, s': System, pid: nat) {
    && Quiet(s, s')
    && s'.processes.Keys == s.processes.Keys + {pid}
    && (forall q :: q in s.processes && q != pid ==> s'.processes[q] == s.processes[q])
    && (forall d :: d in s.disk.locks && s.disk.locks[d] != pid ==>
      d in s'.disk.locks && s'.disk.locks[d] == s.disk.locks[d])
  }

  lemma QuietMoveKeeps(s: System, s': System, pid: nat)
    requires Invariant(s) && QuietMove(s, s', pid) && ProcessFits(s', pid)
    ensures Invariant(s')
  {
    hide BudgetsKept, EvaluationsBacked, StateFilesOnce, ManifestsFit;
    QuietKeepsStore(s, s');
    forall q | q in s.processes && q != pid ensures Undisturbed(s, s', s.processes[q]) {
      assert ProcessFits(s, q);
    }
    OthersStayFit(s, s', pid);
  }

  lemma SpawnKeeps(s: System, pid: nat, task: Task)
    requires Invariant(s) && Enabled(s, Spawn(pid, task))
    ensures Invariant(Apply(s, Spawn(pid, task)))
  {
    hide BudgetsKept, EvaluationsBacked, StateFilesOnce, ManifestsFit;
    QuietMoveKeeps(s, Apply(s, Spawn(pid, task)), pid);
  }

  /** A lock holder may always go on to remove its lock, and any process may stop. */
  lemma MoveFits(s: System, pid: nat, phase: Phase)
    requires pid in s.processes && ProcessFits(s, pid)
    requires !phase.Live() || (s.processes[pid].phase.Critical() && phase == Releasing(s.processes[pid].phase.m))
    ensures ProcessFits(MoveTo(s, pid, phase), pid)
  {
    hide Complete, CorpusIntact;
  }

  lemma MoveToKeeps(s: System, pid: nat, phase: Phase)
    requires Invariant(s) && pid in s.processes
    requires !phase.Live() || (s.processes[pid].phase.Critical() && phase == Releasing(s.processes[pid].phase.m))
    ensures Invariant(MoveTo(s, pid, phase))
  {
    hide UserFits, SealFits, BudgetsKept, EvaluationsBacked, StateFilesOnce, ManifestsFit;
    MoveFits(s, pid, phase);
    QuietMoveKeeps(s, MoveTo(s, pid, phase), pid);
  }

  lemma LeaveLockKeeps(s: System, pid: nat)
    requires Invariant(s) && Enabled(s, LeaveLock(pid))
    ensures Invariant(Apply(s, LeaveLock(pid)))
  {
    hide BudgetsKept, EvaluationsBacked, StateFilesOnce, ManifestsFit;
    assert ProcessFits(s, pid);
    QuietMoveKeeps(s, Apply(s, LeaveLock(pid)), pid);
  }

  lemma RemoveStaleLockKeeps(s: System, d: Directory)
    requires Invariant(s) && Enabled(s, RemoveStaleLock(d))
    ensures Invariant(Apply(s, RemoveStaleLock(d)))
  {
    hide BudgetsKept, EvaluationsBacked, StateFilesOnce, ManifestsFit, AdvanceSeal, AdvanceRun, AdvanceContaminate;
    var s' := Apply(s, RemoveStaleLock(d));
    QuietKeepsStore(s, s');
    forall q | q in s'.processes ensures ProcessFits(s', q) {
      assert ProcessFits(s, q);
    }
  }

  lemma PlaceManifestKeeps(s: System, file: File, m: Manifest)
    requires Invariant(s)
    ensures Invariant(Apply(s, PlaceManifest(file, m)))
  {
    var s' := Apply(s, PlaceManifest(file, m));
    forall q | q in s'.processes ensures ProcessFits(s', q) {
      assert ProcessFits(s, q);
      StaysFit(s, s', q);
    }
    KnownGrowsKeeps(s, s');
    forall d, n | (d, n) in s'.history.issued ensures n.maxRuns == 1 && Complete(s', d, n) {
      assert Complete(s, d, n);
    }
  }

  /** Budgets and evaluations stay accounted for while the states they rest on stay. */
  lemma KnownGrowsKeeps(s: System, s': System)
    requires BudgetsKept(s) && EvaluationsBacked(s)
    requires s.history.known <= s'.history.known && s'.disk.states == s.disk.states
    requires s'.history.evaluations == s.history.evaluations
    ensures BudgetsKept(s') && EvaluationsBacked(s')
  {
    forall d | HasState(s', d) && StateAt(s', d).runs != []
      ensures Affordable(s'.history.known, d, |StateAt(s', d).runs|)
    {
      assert HasState(s, d);
      var m :| (d, m) in s.history.known && m.Valid() && |StateAt(s, d).runs| <= m.maxRuns;
      assert (d, m) in s'.history.known;
    }
    forall e | e in s'.history.evaluations ensures Backed(s', e) {
      assert Backed(s, e);
    }
  }

  lemma EditCorpusKeeps(s: System, d: Directory, content: Content<Corpus>)
    requires Invariant(s) && Enabled(s, EditCorpus(d, content))
    ensures Invariant(Apply(s, EditCorpus(d, content)))
  {
    var s' := Apply(s, EditCorpus(d, content));
    forall q | q in s'.processes ensures ProcessFits(s', q) {
      assert ProcessFits(s, q);
      StaysFit(s, s', q);
    }
    KnownGrowsKeeps(s, s');
    forall e, n | (e, n) in s'.history.issued ensures n.maxRuns == 1 && Complete(s', e, n) {
      assert Complete(s, e, n);
    }
  }

  // ---------------------------------------------------------------------------------------------
  // Steps of `runHoldout` and `contaminateHoldout`.

  lemma ManifestKnown(s: System, f: File)
    requires ManifestsFit(s) && ManifestOf(s.disk, f).Some?
    ensures (DirectoryOf(f, ManifestOf(s.disk, f).value), ManifestOf(s.disk, f).value) in s.history.known
  {
    hide Complete;
  }

  lemma ReadingFits(s: System, pid: nat)
    requires DirectoriesFit(s) && Enabled(s, Advance(pid)) && ProcessFits(s, pid) && !s.processes[pid].task.Seal?
      && s.processes[pid].phase.Reading?
    requires ManifestsFit(s)
    ensures QuietMove(s, Apply(s, Advance(pid)), pid) && ProcessFits(Apply(s, Advance(pid)), pid)
  {
    hide SealFits, AdvanceSeal;
    if ManifestOf(s.disk, s.processes[pid].task.file).Some? {
      ManifestKnown(s, s.processes[pid].task.file);
    }
  }

  lemma LocatingFits(s: System, pid: nat)
    requires DirectoriesFit(s) && Enabled(s, Advance(pid)) && ProcessFits(s, pid) && !s.processes[pid].task.Seal?
      && s.processes[pid].phase.Locating?
    ensures QuietMove(s, Apply(s, Advance(pid)), pid) && ProcessFits(Apply(s, Advance(pid)), pid)
  {
    hide SealFits, AdvanceSeal;
  }

  lemma LockingTakes(s: System, pid: nat)
    requires Enabled(s, Advance(pid)) && !s.processes[pid].task.Seal? && s.processes[pid].phase.Locking?
    ensures Apply(s, Advance(pid)) == TakeLock(s, pid, s.processes[pid].task.file, s.processes[pid].phase.m)
  {
    hide AdvanceSeal, TakeLock;
  }

  lemma LockingFits(s: System, pid: nat)
    requires DirectoriesFit(s) && Enabled(s, Advance(pid)) && ProcessFits(s, pid) && !s.processes[pid].task.Seal?
      && s.processes[pid].phase.Locking?
    ensures QuietMove(s, Apply(s, Advance(pid)), pid) && ProcessFits(Apply(s, Advance(pid)), pid)
  {
    LockingTakes(s, pid);
    hide SealFits, Apply, ManifestOf, StateOf, CorpusOf;
  }

  lemma CheckingFits(s: System, pid: nat)
    requires DirectoriesFit(s) && Enabled(s, Advance(pid)) && ProcessFits(s, pid) && !s.processes[pid].task.Seal?
      && s.processes[pid].phase.Checking?
    ensures QuietMove(s, Apply(s, Advance(pid)), pid) && ProcessFits(Apply(s, Advance(pid)), pid)
  {
    hide SealFits, AdvanceSeal;
  }

  lemma RunAdvances(s: System, pid: nat)
    requires Enabled(s, Advance(pid)) && s.processes[pid].task.Run?
    ensures var p := s.processes[pid];
      Apply(s, Advance(pid)) == AdvanceRun(s, pid, p.task.file, p.task.runId, p.phase)
  {
    hide AdvanceRun;
  }

  lemma PlanningFits(s: System, pid: nat)
    requires DirectoriesFit(s) && Enabled(s, Advance(pid)) && ProcessFits(s, pid) && s.processes[pid].task.Run?
      && s.processes[pid].phase.Planning?
    ensures QuietMove(s, Apply(s, Advance(pid)), pid) && ProcessFits(Apply(s, Advance(pid)), pid)
  {
    RunAdvances(s, pid);
    hide SealFits, Apply, ManifestOf, StateOf, CorpusOf;
  }

  lemma OpeningFits(s: System, pid: nat)
    requires DirectoriesFit(s) && Enabled(s, Advance(pid)) && ProcessFits(s, pid) && s.processes[pid].task.Run?
      && s.processes[pid].phase.Opening?
    ensures QuietMove(s, Apply(s, Advance(pid)), pid) && ProcessFits(Apply(s, Advance(pid)), pid)
  {
    hide SealFits, AdvanceSeal, AdvanceContaminate;
  }

  lemma ReportingFits(s: System, pid: nat)
    requires DirectoriesFit(s) && Enabled(s, Advance(pid)) && ProcessFits(s, pid) && s.processes[pid].task.Run?
      && s.processes[pid].phase.Reporting?
    ensures QuietMove(s, Apply(s, Advance(pid)), pid) && ProcessFits(Apply(s, Advance(pid)), pid)
  {
    RunAdvances(s, pid);
    hide SealFits, Apply, ManifestOf, StateOf, CorpusOf;
  }

  lemma ReleasingFits(s: System, pid: nat)
    requires DirectoriesFit(s) && Enabled(s, Advance(pid)) && ProcessFits(s, pid) && !s.processes[pid].task.Seal?
      && s.processes[pid].phase.Releasing?
    ensures QuietMove(s, Apply(s, Advance(pid)), pid) && ProcessFits(Apply(s, Advance(pid)), pid)
  {
    hide SealFits, AdvanceSeal;
  }

  ghost predicate QuietStep(p: Process) {
    p.WellFormed() && !p.task.Seal? && p.phase.Live() && !p.phase.Writing? && !p.phase.Starting?
  }

  lemma QuietStepFits(s: System, pid: nat)
    requires Enabled(s, Advance(pid)) && ProcessFits(s, pid) && DirectoriesFit(s) && ManifestsFit(s)
      && QuietStep(s.processes[pid])
    ensures QuietMove(s, Apply(s, Advance(pid)), pid) && ProcessFits(Apply(s, Advance(pid)), pid)
  {
    hide SealFits, UserFits, DirectoriesFit, ManifestsFit, Apply, Quiet;
    match s.processes[pid].phase {
      case Reading => ReadingFits(s, pid);
      case Locating(_) => LocatingFits(s, pid);
      case Locking(_) => LockingFits(s, pid);
      case Checking(_) => CheckingFits(s, pid);
      case Planning(_, _) => PlanningFits(s, pid);
      case Opening(_, _) => OpeningFits(s, pid);
      case Reporting(_, _) => ReportingFits(s, pid);
      case Releasing(_) => ReleasingFits(s, pid);
    }
  }

  lemma QuietStepKeeps(s: System, pid: nat)
    requires Invariant(s) && Enabled(s, Advance(pid)) && QuietStep(s.processes[pid])
    ensures Invariant(Apply(s, Advance(pid)))
  {
    hide UserFits, SealFits, BudgetsKept, EvaluationsBacked, StateFilesOnce, ManifestsFit, DirectoriesFit, Apply,
      QuietMove;
    assert ProcessFits(s, pid);
    QuietStepFits(s, pid);
    QuietMoveKeeps(s, Apply(s, Advance(pid)), pid);
  }

  /** A lock holder rewrites its state file: same corpus, reservations only added. */
  ghost predicate Rewrites(s: System, s': System, pid: nat, d: Directory) {
    && HasState(s, d) && HasState(s', d)
    && s'.disk == s.disk.(states := s.disk.states[d := s'.disk.states[d]])
    && s'.history == s.history
    && StateAt(s', d).corpusHash == StateAt(s, d).corpusHash
    && StateAt(s, d).runs <= StateAt(s', d).runs
    && Affordable(s.history.known, d, |StateAt(s', d).runs|)
  }

  lemma RewriteKeepsStore(s: System, s': System, pid: nat, d: Directory)
    requires Invariant(s) && Rewrites(s, s', pid, d) && s'.processes.Keys == s.processes.Keys
    ensures Grows(s, s')
    ensures DirectoriesFit(s') && BudgetsKept(s') && EvaluationsBacked(s') && StateFilesOnce(s') && ManifestsFit(s')
    ensures forall e, m :: Complete(s, e, m) ==> Complete(s', e, m)
  {
    hide ProcessesFit;
    forall e | HasState(s', e) && StateAt(s', e).runs != []
      ensures Affordable(s'.history.known, e, |StateAt(s', e).runs|)
    {
      assert HasState(s, e);
    }
    forall e | e in s'.history.evaluations ensures Backed(s', e) {
      assert Backed(s, e);
    }
    assert forall e, m :: Complete(s, e, m) ==> Complete(s', e, m);
  }

  lemma OtherUserUndisturbed(s: System, s': System, pid: nat, q: nat)
    requires ProcessesFit(s) && pid in s.processes && q in s.processes && q != pid
    requires s.processes[pid].phase.Critical() && s.processes[q].WellFormed() && !s.processes[q].task.Seal?
    requires s'.disk.locks == s.disk.locks
    requires forall d :: d != Where(s.processes[pid]) ==> SameAt(s.disk.states, s'.disk.states, d)
    requires forall e ::
      e in s'.history.evaluations && e.directory != Where(s.processes[pid]) ==> e in s.history.evaluations
    ensures Undisturbed(s, s', s.processes[q])
  {
    hide SealFits, UserFits;
    assert ProcessFits(s, pid) && ProcessFits(s, q);
    if s.processes[q].phase.Critical() && Where(s.processes[q]) == Where(s.processes[pid]) {
      MutualExclusion(s, pid, q, Where(s.processes[pid]));
    }
  }

  lemma RewriteKeeps(s: System, s': System, pid: nat)
    requires Invariant(s) && pid in s.processes && s.processes[pid].phase.Critical()
    requires Rewrites(s, s', pid, Where(s.processes[pid]))
    requires s'.processes.Keys == s.processes.Keys
    requires forall q :: q in s.processes && q != pid ==> s'.processes[q] == s.processes[q]
    requires ProcessFits(s', pid)
    ensures Invariant(s')
  {
    hide BudgetsKept, EvaluationsBacked, StateFilesOnce, ManifestsFit, DirectoriesFit, UserFits;
    var d := Where(s.processes[pid]);
    RewriteKeepsStore(s, s', pid, d);
    forall q | q in s.processes && q != pid ensures Undisturbed(s, s', s.processes[q]) {
      assert ProcessFits(s, q);
      if !s.processes[q].task.Seal? {
        OtherUserUndisturbed(s, s', pid, q);
      }
    }
    OthersStayFit(s, s', pid);
  }

  lemma WritingKeeps(s: System, pid: nat)
    requires Invariant(s) && Enabled(s, Advance(pid)) && s.processes[pid].phase.Writing?
    ensures Invariant(Apply(s, Advance(pid)))
  {
    hide SealFits, BudgetsKept, StateFilesOnce, ManifestsFit, DirectoriesFit;
    var p, s' := s.processes[pid], Apply(s, Advance(pid));
    assert ProcessFits(s, pid);
    WritingFits(s, pid);
    RewriteKeeps(s, s', pid);
  }

  lemma WritingFits(s: System, pid: nat)
    requires Enabled(s, Advance(pid)) && ProcessFits(s, pid) && s.processes[pid].phase.Writing?
    requires EvaluationsBacked(s) && BudgetsKept(s)
    ensures pid in Apply(s, Advance(pid)).processes && ProcessFits(Apply(s, Advance(pid)), pid)
    ensures Rewrites(s, Apply(s, Advance(pid)), pid, Where(s.processes[pid]))
  {
    hide SealFits, AdvanceSeal;
    var p, s' := s.processes[pid], Apply(s, Advance(pid));
    var d := Where(p);
    assert (d, p.phase.m) in s.history.known;
    forall e | e in s.history.evaluations && e.directory == d ensures e.slot < |p.phase.found.runs| {
      assert Backed(s, e);
    }
  }

  lemma StartingFits(s: System, pid: nat)
    requires Enabled(s, Advance(pid)) && ProcessFits(s, pid) && s.processes[pid].phase.Starting?
    ensures pid in Apply(s, Advance(pid)).processes && ProcessFits(Apply(s, Advance(pid)), pid)
    ensures exists e :: Starts(s, Apply(s, Advance(pid)), pid, e)
  {
    hide SealFits, AdvanceSeal, AdvanceContaminate, ManifestOf, StateOf, CorpusOf;
    var p := s.processes[pid];
    assert Starts(s, Apply(s, Advance(pid)), pid,
      Evaluation(Where(p), p.phase.slot, p.task.runId, p.phase.m, p.phase.corpus));
  }

  /** Process `pid` starts evaluation `e`, on a slot of its own. */
  ghost predicate Starts(s: System, s': System, pid: nat, e: Evaluation)
    requires pid in s.processes && s.processes[pid].phase.Critical() && s.processes[pid].WellFormed()
      && !s.processes[pid].task.Seal?
  {
    && e.directory == Where(s.processes[pid])
    && Backed(s, e)
    && (forall f :: f in s.history.evaluations && f.directory == e.directory ==> f.slot < e.slot)
    && s'.disk == s.disk
    && s'.history == s.history.(evaluations := s.history.evaluations + [e])
    && s'.processes.Keys == s.processes.Keys
    && (forall q :: q in s.processes && q != pid ==> s'.processes[q] == s.processes[q])
  }

  lemma StartKeepsStore(s: System, s': System, pid: nat, e: Evaluation)
    requires Invariant(s) && pid in s.processes && s.processes[pid].phase.Starting? && s.processes[pid].task.Run?
    requires Starts(s, s', pid, e)
    ensures Grows(s, s')
    ensures DirectoriesFit(s') && BudgetsKept(s') && EvaluationsBacked(s') && StateFilesOnce(s') && ManifestsFit(s')
    ensures forall d, m :: Complete(s, d, m) ==> Complete(s', d, m)
  {
    hide ProcessesFit;
    forall d | HasState(s', d) && StateAt(s', d).runs != []
      ensures Affordable(s'.history.known, d, |StateAt(s', d).runs|)
    {
      assert HasState(s, d);
    }
    forall f | f in s'.history.evaluations ensures Backed(s', f) {
      assert f in s.history.evaluations ==> Backed(s, f);
    }
    assert forall d, m :: Complete(s, d, m) ==> Complete(s', d, m);
  }

  lemma StartingKeeps(s: System, pid: nat)
    requires Invariant(s) && Enabled(s, Advance(pid)) && s.processes[pid].phase.Starting?
    ensures Invariant(Apply(s, Advance(pid)))
  {
    hide SealFits, UserFits, BudgetsKept, StateFilesOnce, ManifestsFit, DirectoriesFit, EvaluationsBacked, Apply;
    var s' := Apply(s, Advance(pid));
    assert ProcessFits(s, pid);
    StartingFits(s, pid);
    var e :| Starts(s, s', pid, e);
    StartKeepsStore(s, s', pid, e);
    forall q | q in s.processes && q != pid ensures Undisturbed(s, s', s.processes[q]) {
      assert ProcessFits(s, q);
      if !s.processes[q].task.Seal? {
        OtherUserUndisturbed(s, s', pid, q);
      }
    }
    OthersStayFit(s, s', pid);
  }

  // ---------------------------------------------------------------------------------------------
  // Steps of `sealProtectedCorpusValue`.

  /** Process `pid` changes only what its own epoch directory `d` holds, and manifest files. */
  ghost predicate SealStep(s: System, s': System, pid: nat, d: Directory) {
    && s'.processes.Keys == s.processes.Keys + {pid}
    && (forall q :: q in s.processes && q != pid ==> s'.processes[q] == s.processes[q])
    && s'.disk.locks == s.disk.locks && s'.disk.plans == s.disk.plans && s'.disk.aggregates == s.disk.aggregates
    && s'.history.evaluations == s.history.evaluations && s'.history.openings == s.history.openings
    && s'.history.edited == s.history.edited && s'.history.placed == s.history.placed
    && s.history.known <= s'.history.known && s.history.issued <= s'.history.issued
    && s'.disk.directories == s.disk.directories + {d}
    && s'.history.makers == s.history.makers[d := pid] && (d in s.history.makers ==> s.history.makers[d] == pid)
    && SameBut(s.disk.states, s'.disk.states, d) && SameBut(s.disk.corpora, s'.disk.corpora, d)
    && (d in s.disk.corpora ==> d in s'.disk.corpora)
    && (d in s.disk.corpora && s.disk.corpora[d].Whole? && d !in s.history.edited ==>
      SameAt(s.disk.corpora, s'.disk.corpora, d))
    && ((SameAt(s.disk.states, s'.disk.states, d) && s'.history.stateFiles == s.history.stateFiles)
        || FreshState(s, s', d))
  }

  ghost predicate SameBut<T>(before: map<Directory, Content<T>>, after: map<Directory, Content<T>>, d: Directory) {
    && (forall e :: e in before && e != d ==> e in after && after[e] == before[e])
    && (forall e :: e in after && e != d ==> e in before)
  }

  /** The state file of `d` is created, or filled with an unused budget. */
  ghost predicate FreshState(s: System, s': System, d: Directory) {
    && !HasState(s, d) && d in s'.disk.states
    && (HasState(s', d) ==> StateAt(s', d).runs == [])
    && s'.history.stateFiles == if d in s.disk.states then s.history.stateFiles else s.history.stateFiles + [d]
  }

  lemma SealKeepsStore(s: System, s': System, pid: nat, d: Directory)
    requires DirectoriesFit(s) && BudgetsKept(s) && EvaluationsBacked(s) && StateFilesOnce(s) && SealStep(s, s', pid, d)
    ensures Grows(s, s')
    ensures DirectoriesFit(s') && BudgetsKept(s') && EvaluationsBacked(s') && StateFilesOnce(s')
  {
    forall e | HasState(s', e) && StateAt(s', e).runs != []
      ensures Affordable(s'.history.known, e, |StateAt(s', e).runs|)
    {
      assert HasState(s, e);
      var m :| (e, m) in s.history.known && m.Valid() && |StateAt(s, e).runs| <= m.maxRuns;
      assert (e, m) in s'.history.known;
    }
    forall e | e in s'.history.evaluations ensures Backed(s', e) {
      assert Backed(s, e);
    }
  }

  lemma SealKeepsComplete(s: System, s': System, pid: nat, d: Directory, e: Directory, m: Manifest)
    requires SealStep(s, s', pid, d) && Complete(s, e, m)
    ensures Complete(s', e, m)
  {
  }

  lemma SealLeavesOthers(s: System, s': System, pid: nat, d: Directory, q: nat)
    requires SealStep(s, s', pid, d) && q in s.processes && q != pid && ProcessFits(s, q)
    ensures Undisturbed(s, s', s.processes[q])
  {
    hide CorpusIntact;
    var p := s.processes[q];
    if p.task.Seal? && p.phase.Populating() {
      assert EpochOf(p) != d;
      if Complete(s, EpochOf(p), SealedManifest(p.task.corpus)) {
        SealKeepsComplete(s, s', pid, d, EpochOf(p), SealedManifest(p.task.corpus));
      }
    }
  }

  lemma SealStepKeeps(s: System, s': System, pid: nat, d: Directory)
    requires Invariant(s) && SealStep(s, s', pid, d) && ProcessFits(s', pid) && ManifestsFit(s')
    ensures Invariant(s')
  {
    hide BudgetsKept, EvaluationsBacked, StateFilesOnce, DirectoriesFit, ManifestsFit, UserFits, SealFits, Undisturbed;
    SealKeepsStore(s, s', pid, d);
    forall q | q in s.processes && q != pid
      ensures s'.processes[q] == s.processes[q] && Undisturbed(s, s', s.processes[q]) {
      assert ProcessFits(s, q);
      SealLeavesOthers(s, s', pid, d, q);
    }
    OthersStayFit(s, s', pid);
  }

  /** The seal did not stop at a file that exists already. */
  ghost predicate SealGoesOn(p: Process, p': Process) {
    !p'.phase.Ended? || p.phase.FillingManifest?
  }

  lemma MakingDirectoryFits(s: System, pid: nat)
    requires Enabled(s, Advance(pid)) && ProcessFits(s, pid) && DirectoriesFit(s) && s.processes[pid].task.Seal?
      && s.processes[pid].phase.MakingDirectory?
    requires pid in Apply(s, Advance(pid)).processes
      && SealGoesOn(s.processes[pid], Apply(s, Advance(pid)).processes[pid])
    ensures ProcessFits(Apply(s, Advance(pid)), pid)
    ensures SealStep(s, Apply(s, Advance(pid)), pid, EpochOf(s.processes[pid]))
  {
    hide UserFits, AdvanceRun, AdvanceContaminate;
  }

  lemma CreatingCorpusFits(s: System, pid: nat)
    requires Enabled(s, Advance(pid)) && ProcessFits(s, pid) && DirectoriesFit(s) && s.processes[pid].task.Seal?
      && s.processes[pid].phase.CreatingCorpus?
    requires pid in Apply(s, Advance(pid)).processes
      && SealGoesOn(s.processes[pid], Apply(s, Advance(pid)).processes[pid])
    ensures ProcessFits(Apply(s, Advance(pid)), pid)
    ensures SealStep(s, Apply(s, Advance(pid)), pid, EpochOf(s.processes[pid]))
  {
    hide UserFits, AdvanceRun, AdvanceContaminate;
  }

  lemma FillingCorpusFits(s: System, pid: nat)
    requires Enabled(s, Advance(pid)) && ProcessFits(s, pid) && DirectoriesFit(s) && s.processes[pid].task.Seal?
      && s.processes[pid].phase.FillingCorpus?
    requires pid in Apply(s, Advance(pid)).processes
      && SealGoesOn(s.processes[pid], Apply(s, Advance(pid)).processes[pid])
    ensures ProcessFits(Apply(s, Advance(pid)), pid)
    ensures SealStep(s, Apply(s, Advance(pid)), pid, EpochOf(s.processes[pid]))
  {
    hide UserFits, AdvanceRun, AdvanceContaminate;
  }

  lemma CreatingStateFits(s: System, pid: nat)
    requires Enabled(s, Advance(pid)) && ProcessFits(s, pid) && DirectoriesFit(s) && s.processes[pid].task.Seal?
      && s.processes[pid].phase.CreatingState?
    requires pid in Apply(s, Advance(pid)).processes
      && SealGoesOn(s.processes[pid], Apply(s, Advance(pid)).processes[pid])
    ensures ProcessFits(Apply(s, Advance(pid)), pid)
    ensures SealStep(s, Apply(s, Advance(pid)), pid, EpochOf(s.processes[pid]))
  {
    hide UserFits, AdvanceRun, AdvanceContaminate;
  }

  lemma FillingStateFits(s: System, pid: nat)
    requires Enabled(s, Advance(pid)) && ProcessFits(s, pid) && DirectoriesFit(s) && s.processes[pid].task.Seal?
      && s.processes[pid].phase.FillingState?
    requires pid in Apply(s, Advance(pid)).processes
      && SealGoesOn(s.processes[pid], Apply(s, Advance(pid)).processes[pid])
    ensures ProcessFits(Apply(s, Advance(pid)), pid)
    ensures SealStep(s, Apply(s, Advance(pid)), pid, EpochOf(s.processes[pid]))
  {
    hide UserFits, AdvanceRun, AdvanceContaminate;
  }

  lemma CreatingManifestFits(s: System, pid: nat)
    requires Enabled(s, Advance(pid)) && ProcessFits(s, pid) && DirectoriesFit(s) && s.processes[pid].task.Seal?
      && s.processes[pid].phase.CreatingManifest?
    requires pid in Apply(s, Advance(pid)).processes
      && SealGoesOn(s.processes[pid], Apply(s, Advance(pid)).processes[pid])
    ensures ProcessFits(Apply(s, Advance(pid)), pid)
    ensures SealStep(s, Apply(s, Advance(pid)), pid, EpochOf(s.processes[pid]))
  {
    hide UserFits, AdvanceRun, AdvanceContaminate;
  }

  lemma FillingManifestFits(s: System, pid: nat)
    requires Enabled(s, Advance(pid)) && ProcessFits(s, pid) && DirectoriesFit(s) && s.processes[pid].task.Seal?
      && s.processes[pid].phase.FillingManifest?
    requires pid in Apply(s, Advance(pid)).processes
      && SealGoesOn(s.processes[pid], Apply(s, Advance(pid)).processes[pid])
    ensures ProcessFits(Apply(s, Advance(pid)), pid)
    ensures SealStep(s, Apply(s, Advance(pid)), pid, EpochOf(s.processes[pid]))
  {
    hide UserFits, AdvanceRun, AdvanceContaminate;
  }

  lemma SealFitsNext(s: System, pid: nat)
    requires Enabled(s, Advance(pid)) && ProcessFits(s, pid) && DirectoriesFit(s) && s.processes[pid].task.Seal?
    requires pid in Apply(s, Advance(pid)).processes
      && SealGoesOn(s.processes[pid], Apply(s, Advance(pid)).processes[pid])
    ensures ProcessFits(Apply(s, Advance(pid)), pid)
    ensures SealStep(s, Apply(s, Advance(pid)), pid, EpochOf(s.processes[pid]))
  {
    hide UserFits, SealFits, Apply, SealStep, DirectoriesFit, SealGoesOn;
    match s.processes[pid].phase {
      case MakingDirectory => MakingDirectoryFits(s, pid);
      case CreatingCorpus => CreatingCorpusFits(s, pid);
      case FillingCorpus => FillingCorpusFits(s, pid);
      case CreatingState => CreatingStateFits(s, pid);
      case FillingState => FillingStateFits(s, pid);
      case CreatingManifest => CreatingManifestFits(s, pid);
      case FillingManifest => FillingManifestFits(s, pid);
    }
  }

  lemma SealKeepsManifests(s: System, pid: nat)
    requires Enabled(s, Advance(pid)) && ProcessFits(s, pid) && ManifestsFit(s) && s.processes[pid].task.Seal?
    requires SealStep(s, Apply(s, Advance(pid)), pid, EpochOf(s.processes[pid]))
    ensures ManifestsFit(Apply(s, Advance(pid)))
  {
    hide UserFits, AdvanceRun, AdvanceContaminate, SealStep;
    var p, s' := s.processes[pid], Apply(s, Advance(pid));
    forall e, m | (e, m) in s'.history.issued ensures m.maxRuns == 1 && Complete(s', e, m) {
      if (e, m) in s.history.issued {
        SealKeepsComplete(s, s', pid, EpochOf(p), e, m);
      } else {
        SealKeepsComplete(s, s', pid, EpochOf(p), EpochOf(p), SealedManifest(p.task.corpus));
      }
    }
  }

  lemma SealingKeeps(s: System, pid: nat)
    requires Invariant(s) && Enabled(s, Advance(pid)) && s.processes[pid].task.Seal?
    ensures Invariant(Apply(s, Advance(pid)))
  {
    hide UserFits, SealFits, SealStep, BudgetsKept, EvaluationsBacked, StateFilesOnce, DirectoriesFit, ManifestsFit,
      AdvanceRun, AdvanceContaminate;
    assert ProcessFits(s, pid);
    var p, s' := s.processes[pid], Apply(s, Advance(pid));
    if s'.processes[pid].phase.Ended? && !p.phase.FillingManifest? {
      MoveToKeeps(s, pid, Ended);
    } else {
      SealFitsNext(s, pid);
      SealKeepsManifests(s, pid);
      SealStepKeeps(s, s', pid, EpochOf(p));
    }
  }

  // ---------------------------------------------------------------------------------------------
  // All actions.

  lemma ActionKeeps(s: System, a: Action)
    requires Invariant(s) && Enabled(s, a)
    ensures Invariant(Apply(s, a))
  {
    hide ProcessesFit, BudgetsKept, EvaluationsBacked, StateFilesOnce, DirectoriesFit, ManifestsFit, AdvanceSeal,
      AdvanceRun, AdvanceContaminate;
    match a {
      case Spawn(pid, task) => SpawnKeeps(s, pid, task);
      case Advance(pid) =>
        if s.processes[pid].task.Seal? {
          SealingKeeps(s, pid);
        } else if s.processes[pid].phase.Writing? {
          WritingKeeps(s, pid);
        } else if s.processes[pid].phase.Starting? {
          StartingKeeps(s, pid);
        } else {
          QuietStepKeeps(s, pid);
        }
      case Fail(pid) =>
        var phase := s.processes[pid].phase;
        MoveToKeeps(s, pid, if phase.Critical() && !phase.Releasing? then Releasing(phase.m) else Ended);
      case LeaveLock(pid) => LeaveLockKeeps(s, pid);
      case Crash(pid) => MoveToKeeps(s, pid, Crashed);
      case RemoveStaleLock(d) => RemoveStaleLockKeeps(s, d);
      case PlaceManifest(file, m) => PlaceManifestKeeps(s, file, m);
      case EditCorpus(d, content) => EditCorpusKeeps(s, d, content);
    }
  }
}
