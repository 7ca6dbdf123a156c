/** The holdout calls as the source writes them: one process changing the store, file by file. Every
    file operation is a step of the protocol, so what holds of all executions holds of the store. */
module HoldoutStore {
  import opened Options
  import opened FileContents
  import opened HoldoutProtocol

  /** `HoldoutError` codes; any other exception becomes `AccessExecutionOrValidationFailed`. */
  datatype Code =
    | InvalidManifest | NotProtected | InvalidState | CorpusNotSealed | RunBudgetExhausted
    | CorpusIntegrityMismatch | SeedIntegrityMismatch | CorpusAlreadySealed | AccessExecutionOrValidationFailed
    | InvalidPlan | UnsupportedScanner | InvalidScannerVersion | CandidateChanged | ManifestEvaluationMismatch
    | InvalidContaminationReason

  /** `Elsewhere`: a public conformance manifest, whose run happens in a disposable store of its own. */
  datatype Outcome = Done | Elsewhere | Rejected(code: Code)

  /** File operations, and the evaluation, which may throw without effect. */
  datatype Operation =
    | FindDirectory | WriteLock | ReadState | WriteState | WritePlan | ReadCorpus | Evaluate | WriteAggregate
    | MakeStore | CreateCorpus | FillCorpus | CreateState | FillState | CreateManifest | FillManifest

  // ---------------------------------------------------------------------------------------------
  // The plan, settled before the store is looked for.

  /** What a scanner answers when asked its version. */
  datatype Version = Unavailable | Malformed | Semantic

  datatype Scanner = Scanner(id: string, ranges: bool, version: Version)

  /** What a run is started with. `wellFormed`: run id and the candidate's hashes have their form.
      `candidateKept`, `evaluationAgrees`: what two calls outside the store answer, if they do not throw.
      `named`: domain identity, holdout method and report contract are complete. */
  datatype Plan = Plan(
    wellFormed: bool,
    scanners: seq<Scanner>,
    candidateKept: Option<bool>,
    named: bool,
    evaluationAgrees: Option<bool>)

  predicate DistinctScanners(scanners: seq<Scanner>) {
    forall i, j :: 0 <= i < j < |scanners| ==> scanners[i].id != scanners[j].id
  }

  function ScannerVerdict(s: Scanner): Outcome {
    if !s.ranges then Rejected(UnsupportedScanner)
    else if s.version.Unavailable? then Rejected(AccessExecutionOrValidationFailed)
    else if s.version.Malformed? then Rejected(InvalidScannerVersion)
    else Done
  }

  /** The verdict on the first scanner that is refused. */
  function ScannersVerdict(scanners: seq<Scanner>): Outcome {
    if scanners == [] then Done
    else if ScannerVerdict(scanners[0]).Done? then ScannersVerdict(scanners[1..])
    else ScannerVerdict(scanners[0])
  }

  function PlanVerdict(plan: Plan): Outcome {
    if !plan.wellFormed || plan.scanners == [] || !DistinctScanners(plan.scanners) then Rejected(InvalidPlan)
    else if !ScannersVerdict(plan.scanners).Done? then ScannersVerdict(plan.scanners)
    else if plan.candidateKept.None? then Rejected(AccessExecutionOrValidationFailed)
    else if !plan.candidateKept.value then Rejected(CandidateChanged)
    else if !plan.named then Rejected(InvalidPlan)
    else if plan.evaluationAgrees.None? then Rejected(AccessExecutionOrValidationFailed)
    else if !plan.evaluationAgrees.value then Rejected(ManifestEvaluationMismatch)
    else Done
  }

  lemma {:induction false} ScannersAccepted(scanners: seq<Scanner>)
    ensures ScannersVerdict(scanners).Done? <==> forall s :: s in scanners ==> s.ranges && s.version.Semantic?
  {
    if scanners != [] {
      ScannersAccepted(scanners[1..]);
      assert scanners == [scanners[0]] + scanners[1..];
    }
  }

  /** A plan passes exactly when everything about it is in order. */
  lemma PlanAccepted(plan: Plan)
    ensures PlanVerdict(plan).Done? <==>
      && plan.wellFormed && plan.named && plan.scanners != [] && DistinctScanners(plan.scanners)
      && (forall s :: s in plan.scanners ==> s.ranges && s.version.Semantic?)
      && plan.candidateKept == Some(true) && plan.evaluationAgrees == Some(true)
  {
    ScannersAccepted(plan.scanners);
  }

  method CheckPlan(plan: Plan) returns (verdict: Outcome)
    ensures verdict == PlanVerdict(plan)
  {
    if !plan.wellFormed || plan.scanners == [] || !DistinctScanners(plan.scanners) {
      return Rejected(InvalidPlan);
    }
    for i := 0 to |plan.scanners|
      invariant ScannersVerdict(plan.scanners) == ScannersVerdict(plan.scanners[i..])
    {
      var s := plan.scanners[i];
      if !s.ranges {
        return Rejected(UnsupportedScanner);
      }
      if s.version == Unavailable {
        return Rejected(AccessExecutionOrValidationFailed);
      }
      if s.version == Malformed {
        return Rejected(InvalidScannerVersion);
      }
    }
    if plan.candidateKept.None? {
      return Rejected(AccessExecutionOrValidationFailed);
    }
    if !plan.candidateKept.value {
      return Rejected(CandidateChanged);
    }
    if !plan.named {
      return Rejected(InvalidPlan);
    }
    if plan.evaluationAgrees.None? {
      return Rejected(AccessExecutionOrValidationFailed);
    }
    return if plan.evaluationAgrees.value then Done else Rejected(ManifestEvaluationMismatch);
  }

  const CONTAMINATION_REASONS := {"exposed", "used-for-tuning", "unreviewed-change"}

  class Store {
    var disk: Disk
    ghost var states: seq<System>
    ghost var actions: seq<Action>

    /** The store is where some execution of the protocol left it. */
    ghost predicate Valid()
      reads this
    {
      Execution(states, actions) && Now().disk == disk
    }

    ghost function Now(): System
      requires |states| > 0
      reads this
    {
      states[|states| - 1]
    }

    ghost predicate At(me: nat, task: Task, phase: Phase)
      reads this
    {
      |states| > 0 && me in Now().processes && Now().processes[me] == Process(task, phase)
    }

    /** Since `before`, only process `me` has acted. */
    ghost predicate OnlyMine(before: seq<Action>, me: nat)
      reads this
    {
      before <= actions && forall i :: |before| <= i < |actions| ==>
        actions[i] == Advance(me) || actions[i] == Fail(me) || (actions[i].Spawn? && actions[i].pid == me)
    }

    constructor ()
      ensures Valid() && disk == EMPTY_DISK && actions == []
    {
      disk := EMPTY_DISK;
      states := [INITIAL];
      actions := [];
    }

    ghost method Record(a: Action)
      requires Execution(states, actions) && Enabled(Now(), a)
      modifies this`states, this`actions
      ensures Execution(states, actions) && actions == old(actions) + [a] && Now() == Apply(old(Now()), a)
    {
      hide Enabled, Apply;
      states := states + [Apply(Now(), a)];
      actions := actions + [a];
    }

    // -------------------------------------------------------------------------------------------
    // The operations.

    method Start(me: nat, task: Task)
      requires Valid() && me !in Now().processes
      modifies this
      ensures Valid() && disk == old(disk) && OnlyMine(old(actions), me)
      ensures At(me, task, if task.Seal? then MakingDirectory else Reading)
    {
      Record(Spawn(me, task));
    }

    /** An exception: the process goes to its `finally`, if it has the lock, or ends. */
    method Throw(me: nat, task: Task, phase: Phase)
      requires Valid() && At(me, task, phase) && phase.Live() && !phase.Releasing?
      modifies this
      ensures Valid() && disk == old(disk) && OnlyMine(old(actions), me)
      ensures At(me, task, if phase.Critical() then Releasing(phase.m) else Ended)
    {
      Record(Fail(me));
    }

    /** `readManifest`. */
    method ReadManifest(me: nat, task: Task) returns (m: Option<Manifest>)
      requires Valid() && At(me, task, Reading) && !task.Seal?
      modifies this
      ensures Valid() && disk == old(disk) && OnlyMine(old(actions), me)
      ensures m == ManifestOf(disk, task.file)
      ensures At(me, task, if m.Some? && m.value.purpose.Protected? then Locating(m.value) else Ended)
    {
      hide AdvanceSeal;
      m := ManifestOf(disk, task.file);
      Record(Advance(me));
    }

    /** `storeDirectory`. */
    method FindStore(me: nat, task: Task, m: Manifest) returns (found: bool)
      requires Valid() && At(me, task, Locating(m)) && !task.Seal?
      modifies this
      ensures Valid() && disk == old(disk) && OnlyMine(old(actions), me)
      ensures found <==> DirectoryOf(task.file, m) in disk.directories
      ensures At(me, task, if found then Locking(m) else Ended)
    {
      hide AdvanceSeal;
      found := DirectoryOf(task.file, m) in disk.directories;
      Record(Advance(me));
    }

    /** The exclusive creation of `.lock`. */
    method Lock(me: nat, task: Task, m: Manifest) returns (locked: bool)
      requires Valid() && At(me, task, Locking(m)) && !task.Seal?
      modifies this
      ensures Valid() && OnlyMine(old(actions), me)
      ensures var d := DirectoryOf(task.file, m);
        && (locked <==> d !in old(disk).locks)
        && disk == if locked then old(disk).(locks := old(disk).locks[d := me]) else old(disk)
      ensures At(me, task, if locked then Checking(m) else Ended)
    {
      hide AdvanceSeal;
      var d := DirectoryOf(task.file, m);
      locked := d !in disk.locks;
      if locked {
        disk := disk.(locks := disk.locks[d := me]);
      }
      Record(Advance(me));
    }

    /** The forced removal of `.lock`. */
    method Unlock(me: nat, task: Task, m: Manifest)
      requires Valid() && At(me, task, Releasing(m)) && !task.Seal?
      modifies this
      ensures Valid() && OnlyMine(old(actions), me)
      ensures disk == old(disk).(locks := old(disk).locks - {DirectoryOf(task.file, m)})
      ensures At(me, task, Ended)
    {
      hide AdvanceSeal;
      disk := disk.(locks := disk.locks - {DirectoryOf(task.file, m)});
      Record(Advance(me));
    }

    // -------------------------------------------------------------------------------------------
    // `runHoldout`, between taking and removing the lock.

    /** Where the run stands with the state file, and why it may not go on. */
    static function StateVerdict(disk: Disk, d: Directory, m: Manifest): Outcome {
      if d !in disk.states || disk.states[d].Torn? then Rejected(AccessExecutionOrValidationFailed)
      else if disk.states[d].value.corpusHash != m.corpusHash then Rejected(InvalidState)
      else if !disk.states[d].value.status.Sealed? then Rejected(CorpusNotSealed)
      else if |disk.states[d].value.runs| >= m.maxRuns then Rejected(RunBudgetExhausted)
      else Done
    }

    static function CorpusVerdict(disk: Disk, d: Directory, m: Manifest): Outcome {
      if d !in disk.corpora || disk.corpora[d].Torn? then Rejected(AccessExecutionOrValidationFailed)
      else if OfCorpus(disk.corpora[d].value) != m.corpusHash then Rejected(CorpusIntegrityMismatch)
      else if OfSeed(disk.corpora[d].value.seed) != m.seedHash then Rejected(SeedIntegrityMismatch)
      else Done
    }

    /** Read the state and check the status and the budget. */
    method CheckState(me: nat, task: Task, m: Manifest) returns (verdict: Outcome)
      requires Valid() && At(me, task, Checking(m)) && task.Run?
      modifies this
      ensures Valid() && disk == old(disk) && OnlyMine(old(actions), me)
      ensures verdict == StateVerdict(disk, DirectoryOf(task.file, m), m)
      ensures At(me, task,
        if verdict.Done? then Writing(m, disk.states[DirectoryOf(task.file, m)].value) else Releasing(m))
    {
      hide AdvanceSeal, AdvanceContaminate;
      var d := DirectoryOf(task.file, m);
      verdict := Done;
      if d !in disk.states || disk.states[d].Torn? {
        verdict := Rejected(AccessExecutionOrValidationFailed);
      } else if disk.states[d].value.corpusHash != m.corpusHash {
        verdict := Rejected(InvalidState);
      } else if disk.states[d].value.status != Sealed {
        verdict := Rejected(CorpusNotSealed);
      } else if |disk.states[d].value.runs| >= m.maxRuns {
        verdict := Rejected(RunBudgetExhausted);
      }
      Record(Advance(me));
    }

    /** Push the reservation and replace the state file. */
    method Reserve(me: nat, task: Task, m: Manifest, found: RunState)
      requires Valid() && At(me, task, Writing(m, found)) && task.Run?
      modifies this
      ensures Valid() && OnlyMine(old(actions), me)
      ensures var d := DirectoryOf(task.file, m);
        disk == old(disk).(states := old(disk).states[d := Whole(found.(runs := found.runs + [task.runId]))])
      ensures At(me, task, Planning(m, |found.runs|))
    {
      hide AdvanceSeal, AdvanceContaminate;
      disk := disk.(states :=
        disk.states[DirectoryOf(task.file, m) := Whole(found.(runs := found.runs + [task.runId]))]);
      Record(Advance(me));
    }

    method RecordPlan(me: nat, task: Task, m: Manifest, slot: nat) returns (created: bool)
      requires Valid() && At(me, task, Planning(m, slot)) && task.Run?
      modifies this
      ensures Valid() && OnlyMine(old(actions), me)
      ensures var entry := (DirectoryOf(task.file, m), task.runId);
        && (created <==> entry !in old(disk).plans)
        && disk == old(disk).(plans := old(disk).plans + {entry})
      ensures At(me, task, if created then Opening(m, slot) else Releasing(m))
    {
      hide AdvanceSeal, AdvanceContaminate;
      var entry := (DirectoryOf(task.file, m), task.runId);
      created := entry !in disk.plans;
      if created {
        disk := disk.(plans := disk.plans + {entry});
      } else {
        assert disk.plans + {entry} == disk.plans;
      }
      Record(Advance(me));
    }

    method OpenCorpus(me: nat, task: Task, m: Manifest, slot: nat) returns (verdict: Outcome)
      requires Valid() && At(me, task, Opening(m, slot)) && task.Run?
      modifies this
      ensures Valid() && disk == old(disk) && OnlyMine(old(actions), me)
      ensures verdict == CorpusVerdict(disk, DirectoryOf(task.file, m), m)
      ensures At(me, task,
        if verdict.Done? then Starting(m, slot, disk.corpora[DirectoryOf(task.file, m)].value) else Releasing(m))
    {
      hide AdvanceSeal, AdvanceContaminate;
      var d := DirectoryOf(task.file, m);
      verdict := Done;
      if d !in disk.corpora || disk.corpora[d].Torn? {
        verdict := Rejected(AccessExecutionOrValidationFailed);
      } else if OfCorpus(disk.corpora[d].value) != m.corpusHash {
        verdict := Rejected(CorpusIntegrityMismatch);
      } else if OfSeed(disk.corpora[d].value.seed) != m.seedHash {
        verdict := Rejected(SeedIntegrityMismatch);
      }
      Record(Advance(me));
    }

    method Begin(me: nat, task: Task, m: Manifest, slot: nat, corpus: Corpus)
      requires Valid() && At(me, task, Starting(m, slot, corpus)) && task.Run?
      modifies this
      ensures Valid() && disk == old(disk) && OnlyMine(old(actions), me)
      ensures At(me, task, Reporting(m, slot))
    {
      hide AdvanceSeal, AdvanceContaminate;
      Record(Advance(me));
    }

    method RecordAggregate(me: nat, task: Task, m: Manifest, slot: nat) returns (created: bool)
      requires Valid() && At(me, task, Reporting(m, slot)) && task.Run?
      modifies this
      ensures Valid() && OnlyMine(old(actions), me)
      ensures var entry := (DirectoryOf(task.file, m), task.runId);
        && (created <==> entry !in old(disk).aggregates)
        && disk == old(disk).(aggregates := old(disk).aggregates + {entry})
      ensures At(me, task, Releasing(m))
    {
      hide AdvanceSeal, AdvanceContaminate;
      var entry := (DirectoryOf(task.file, m), task.runId);
      created := entry !in disk.aggregates;
      if created {
        disk := disk.(aggregates := disk.aggregates + {entry});
      } else {
        assert disk.aggregates + {entry} == disk.aggregates;
      }
      Record(Advance(me));
    }

    // -------------------------------------------------------------------------------------------
    // The calls.

    /** The manifest is a protected one whose store directory exists, unlocked. */
    static predicate MayLock(disk: Disk, file: File) {
      && ManifestOf(disk, file).Some? && ManifestOf(disk, file).value.purpose.Protected?
      && DirectoryOf(file, ManifestOf(disk, file).value) in disk.directories
      && DirectoryOf(file, ManifestOf(disk, file).value) !in disk.locks
    }

    /** A run gets as far as spending a reservation. */
    static predicate Spends(disk: Disk, file: File, plan: Plan, faults: set<Operation>) {
      && MayLock(disk, file) && PlanVerdict(plan).Done? && faults !! {FindDirectory, WriteLock, ReadState, WriteState}
      && StateVerdict(disk, DirectoryOf(file, ManifestOf(disk, file).value), ManifestOf(disk, file).value).Done?
    }

    /** The disk once `runId` has been added to the reservations of `d`. */
    static function Reserving(disk: Disk, d: Directory, runId: string): Disk
      requires d in disk.states && disk.states[d].Whole?
    {
      var found := disk.states[d].value;
      disk.(states := disk.states[d := Whole(found.(runs := found.runs + [runId]))])
    }

    /** What a run answers that spends no reservation. */
    static function Refusal(disk: Disk, file: File, plan: Plan, faults: set<Operation>): Outcome {
      if ManifestOf(disk, file).None? then Rejected(InvalidManifest)
      else
        var m := ManifestOf(disk, file).value;
        var verdict := StateVerdict(disk, DirectoryOf(file, m), m);
        if !PlanVerdict(plan).Done? then PlanVerdict(plan)
        else if m.purpose.PublicConformance? then Elsewhere
        else if !MayLock(disk, file) || !(faults !! {FindDirectory, WriteLock, ReadState}) || verdict.Done?
          then Rejected(AccessExecutionOrValidationFailed)
        else verdict
    }

    /** After the reservation, a run only adds its plan and, exactly when everything goes well and
        both names are new, its aggregate. */
    static ghost predicate Finishes(before: Disk, after: Disk, d: Directory, m: Manifest, runId: string,
        faults: set<Operation>, outcome: Outcome) {
      var entry, verdict := (d, runId), CorpusVerdict(before, d, m);
      && after == before.(plans := before.plans + (if WritePlan in faults then {} else {entry}),
                          aggregates := before.aggregates + (if outcome.Done? then {entry} else {}))
      && (outcome.Done? <==>
            (&& faults !! {WritePlan, ReadCorpus, Evaluate, WriteAggregate}
             && entry !in before.plans && entry !in before.aggregates && verdict.Done?))
      && outcome ==
           if !(faults !! {WritePlan, ReadCorpus}) || entry in before.plans
             then Rejected(AccessExecutionOrValidationFailed)
           else if verdict.Rejected? then verdict
           else if !(faults !! {Evaluate, WriteAggregate}) || entry in before.aggregates
             then Rejected(AccessExecutionOrValidationFailed)
           else Done
    }

    /** Removing the lock leaves what the run did without it. */
    static lemma UnlockedFinishes(before: Disk, inside: Disk, me: nat, d: Directory, m: Manifest, runId: string,
        faults: set<Operation>, outcome: Outcome)
      requires d !in before.locks && d in before.states && before.states[d].Whole?
      requires Finishes(Reserving(before.(locks := before.locks[d := me]), d, runId), inside, d, m, runId, faults,
        outcome)
      ensures Finishes(Reserving(before, d, runId), inside.(locks := inside.locks - {d}), d, m, runId, faults, outcome)
    {
      assert before.locks[d := me] - {d} == before.locks;
    }

    /** `runHoldout`: the reservation is on disk before the corpus is opened and stays spent whatever
        happens after; the lock is removed again; nothing else changes. */
    method RunHoldout(me: nat, file: File, runId: string, plan: Plan, faults: set<Operation>) returns (outcome: Outcome)
      requires Valid() && me !in Now().processes
      modifies this
      ensures Valid() && OnlyMine(old(actions), me) && At(me, Run(file, runId), Ended)
      ensures !Spends(old(disk), file, plan, faults) ==> disk == old(disk) && !outcome.Done?
      ensures Spends(old(disk), file, plan, faults) ==>
        var m := ManifestOf(old(disk), file).value;
        var d := DirectoryOf(file, m);
        Finishes(Reserving(old(disk), d, runId), disk, d, m, runId, faults, outcome)
      ensures !Spends(old(disk), file, plan, faults) ==> outcome == Refusal(old(disk), file, plan, faults)
    {
      hide Enabled, Apply, Execution, Finishes, PlanVerdict, CorpusVerdict;
      var task := Run(file, runId);
      outcome := Rejected(AccessExecutionOrValidationFailed);
      Start(me, task);
      var manifest := ReadManifest(me, task);
      if manifest.None? {
        return Rejected(InvalidManifest);
      }
      var m := manifest.value;
      var verdict := CheckPlan(plan);
      if m.purpose.PublicConformance? {
        return if verdict.Done? then Elsewhere else verdict;
      }
      if !verdict.Done? {
        Throw(me, task, Locating(m));
        return verdict;
      }
      var locked := Enter(me, task, m, faults);
      if locked {
        outcome := WhileLocked(me, task, m, faults);
        if Spends(old(disk), file, plan, faults) {
          UnlockedFinishes(old(disk), disk, me, DirectoryOf(file, m), m, runId, faults, outcome);
        }
        assert old(disk).locks[DirectoryOf(file, m) := me] - {DirectoryOf(file, m)} == old(disk).locks;
        Unlock(me, task, m);
      }
    }

    /** `storeDirectory`, then the lock. */
    method Enter(me: nat, task: Task, m: Manifest, faults: set<Operation>) returns (locked: bool)
      requires Valid() && At(me, task, Locating(m)) && !task.Seal?
      modifies this
      ensures Valid() && OnlyMine(old(actions), me)
      ensures var d := DirectoryOf(task.file, m);
        && (locked <==> faults !! {FindDirectory, WriteLock} && d in old(disk).directories && d !in old(disk).locks)
        && disk == if locked then old(disk).(locks := old(disk).locks[d := me]) else old(disk)
      ensures At(me, task, if locked then Checking(m) else Ended)
    {
      hide Enabled, Apply, Execution;
      if FindDirectory in faults {
        Throw(me, task, Locating(m));
        return false;
      }
      var found := FindStore(me, task, m);
      if !found {
        return false;
      }
      if WriteLock in faults {
        Throw(me, task, Locking(m));
        return false;
      }
      locked := Lock(me, task, m);
    }

    /** The `try` block of a run that holds the lock. */
    method WhileLocked(me: nat, task: Task, m: Manifest, faults: set<Operation>) returns (outcome: Outcome)
      requires Valid() && At(me, task, Checking(m)) && task.Run?
      modifies this
      ensures Valid() && OnlyMine(old(actions), me) && At(me, task, Releasing(m))
      ensures var d := DirectoryOf(task.file, m);
        var verdict := StateVerdict(old(disk), d, m);
        && (ReadState !in faults && verdict.Rejected? ==> outcome == verdict)
        && (ReadState in faults || WriteState in faults || !verdict.Done? ==> disk == old(disk))
        && (ReadState in faults || (WriteState in faults && verdict.Done?) ==>
              outcome == Rejected(AccessExecutionOrValidationFailed))
        && (ReadState !in faults && WriteState !in faults && verdict.Done? ==>
              Finishes(Reserving(old(disk), d, task.runId), disk, d, m, task.runId, faults, outcome))
    {
      hide Enabled, Apply, Execution, Finishes;
      outcome := Rejected(AccessExecutionOrValidationFailed);
      if ReadState in faults {
        Throw(me, task, Checking(m));
        return;
      }
      var verdict := CheckState(me, task, m);
      if !verdict.Done? {
        return verdict;
      }
      var found := disk.states[DirectoryOf(task.file, m)].value;
      if WriteState in faults {
        Throw(me, task, Writing(m, found));
        return;
      }
      Reserve(me, task, m, found);
      outcome := OnceReserved(me, task, m, |found.runs|, faults);
    }

    method OnceReserved(me: nat, task: Task, m: Manifest, slot: nat, faults: set<Operation>) returns (outcome: Outcome)
      requires Valid() && At(me, task, Planning(m, slot)) && task.Run?
      modifies this
      ensures Valid() && OnlyMine(old(actions), me) && At(me, task, Releasing(m))
      ensures Finishes(old(disk), disk, DirectoryOf(task.file, m), m, task.runId, faults, outcome)
    {
      hide Enabled, Apply, Execution;
      outcome := Rejected(AccessExecutionOrValidationFailed);
      if WritePlan in faults {
        Throw(me, task, Planning(m, slot));
        return;
      }
      var planned := RecordPlan(me, task, m, slot);
      if !planned {
        return;
      }
      if ReadCorpus in faults {
        Throw(me, task, Opening(m, slot));
        return;
      }
      var verdict := OpenCorpus(me, task, m, slot);
      if !verdict.Done? {
        return verdict;
      }
      Begin(me, task, m, slot, disk.corpora[DirectoryOf(task.file, m)].value);
      if Evaluate in faults || WriteAggregate in faults {
        Throw(me, task, Reporting(m, slot));
        return;
      }
      var published := RecordAggregate(me, task, m, slot);
      if published {
        outcome := Done;
      }
    }

    /** What a contamination answers that marks nothing; an error without a code is counted with the last. */
    static function NotMarked(disk: Disk, file: File, reason: string, faults: set<Operation>): Outcome {
      if reason !in CONTAMINATION_REASONS then Rejected(InvalidContaminationReason)
      else if ManifestOf(disk, file).None? then Rejected(InvalidManifest)
      else if ManifestOf(disk, file).value.purpose.PublicConformance? then Rejected(NotProtected)
      else if MayLock(disk, file) && faults !! {FindDirectory, WriteLock, ReadState} then
        WrongState(disk, DirectoryOf(file, ManifestOf(disk, file).value), ManifestOf(disk, file).value)
      else Rejected(AccessExecutionOrValidationFailed)
    }

    /** A readable state of another corpus is an invalid one. */
    static function WrongState(disk: Disk, d: Directory, m: Manifest): Outcome {
      if d in disk.states && disk.states[d].Whole? && disk.states[d].value.corpusHash != m.corpusHash
      then Rejected(InvalidState) else Rejected(AccessExecutionOrValidationFailed)
    }

    /** `contaminateHoldout`: a readable state of the manifest's own corpus is marked, its reservations
        untouched; on any other path nothing changes. */
    method ContaminateHoldout(me: nat, file: File, reason: string, faults: set<Operation>) returns (outcome: Outcome)
      requires Valid() && me !in Now().processes
      modifies this
      ensures Valid() && OnlyMine(old(actions), me) && At(me, Contaminate(file, reason), Ended)
      ensures outcome.Done? <==>
        (&& reason in CONTAMINATION_REASONS
         && MayLock(old(disk), file) && faults !! {FindDirectory, WriteLock, ReadState, WriteState}
         && StateOf(old(disk), DirectoryOf(file, ManifestOf(old(disk), file).value),
           ManifestOf(old(disk), file).value).Some?)
      ensures outcome.Done? ==>
        var d := DirectoryOf(file, ManifestOf(old(disk), file).value);
        disk == old(disk).(states :=
          old(disk).states[d := Whole(old(disk).states[d].value.(status := Contaminated, reason := Some(reason)))])
      ensures !outcome.Done? ==> disk == old(disk)
      ensures !outcome.Done? ==> outcome == NotMarked(old(disk), file, reason, faults)
    {
      hide Enabled, Apply, Execution;
      var task := Contaminate(file, reason);
      outcome := Rejected(AccessExecutionOrValidationFailed);
      Start(me, task);
      if reason !in CONTAMINATION_REASONS {
        Throw(me, task, Reading);
        return Rejected(InvalidContaminationReason);
      }
      var manifest := ReadManifest(me, task);
      if manifest.None? {
        return Rejected(InvalidManifest);
      }
      var m := manifest.value;
      if m.purpose.PublicConformance? {
        return Rejected(NotProtected);
      }
      var locked := Enter(me, task, m, faults);
      if locked {
        outcome := Mark(me, task, m, faults);
        assert old(disk).locks[DirectoryOf(file, m) := me] - {DirectoryOf(file, m)} == old(disk).locks;
        Unlock(me, task, m);
      }
    }

    /** The `try` block of a contamination. */
    method Mark(me: nat, task: Task, m: Manifest, faults: set<Operation>) returns (outcome: Outcome)
      requires Valid() && At(me, task, Checking(m)) && task.Contaminate?
      modifies this
      ensures Valid() && OnlyMine(old(actions), me) && At(me, task, Releasing(m))
      ensures var d := DirectoryOf(task.file, m);
        && (outcome.Done? <==> faults !! {ReadState, WriteState} && StateOf(old(disk), d, m).Some?)
        && (!outcome.Done? ==>
              outcome == if ReadState in faults then Rejected(AccessExecutionOrValidationFailed)
                         else WrongState(old(disk), d, m))
        && disk == if outcome.Done?
                   then old(disk).(states :=
                     old(disk).states[d :=
                     Whole(old(disk).states[d].value.(status := Contaminated, reason := Some(task.reason)))])
                   else old(disk)
    {
      hide Enabled, Apply, Execution;
      outcome := Rejected(AccessExecutionOrValidationFailed);
      if ReadState in faults {
        Throw(me, task, Checking(m));
        return;
      }
      var d := DirectoryOf(task.file, m);
      if d in disk.states && disk.states[d].Whole? && disk.states[d].value.corpusHash != m.corpusHash {
        outcome := Rejected(InvalidState);
      }
      var found := FindState(me, task, m);
      if found.None? {
        return;
      }
      if WriteState in faults {
        Throw(me, task, Writing(m, found.value));
        return;
      }
      MarkState(me, task, m, found.value);
      outcome := Done;
    }

    method FindState(me: nat, task: Task, m: Manifest) returns (found: Option<RunState>)
      requires Valid() && At(me, task, Checking(m)) && task.Contaminate?
      modifies this
      ensures Valid() && disk == old(disk) && OnlyMine(old(actions), me)
      ensures found == StateOf(disk, DirectoryOf(task.file, m), m)
      ensures At(me, task, if found.Some? then Writing(m, found.value) else Releasing(m))
    {
      hide AdvanceRun, AdvanceSeal;
      found := StateOf(disk, DirectoryOf(task.file, m), m);
      Record(Advance(me));
    }

    method MarkState(me: nat, task: Task, m: Manifest, found: RunState)
      requires Valid() && At(me, task, Writing(m, found)) && task.Contaminate?
      modifies this
      ensures Valid() && OnlyMine(old(actions), me)
      ensures disk == old(disk).(states :=
        old(disk).states[DirectoryOf(task.file, m) :=
        Whole(found.(status := Contaminated, reason := Some(task.reason)))])
      ensures At(me, task, Releasing(m))
    {
      hide AdvanceRun, AdvanceSeal;
      disk := disk.(states :=
        disk.states[DirectoryOf(task.file, m) := Whole(found.(status := Contaminated, reason := Some(task.reason)))]);
      Record(Advance(me));
    }

    /** An exclusive creation that writes the whole file. */
    static predicate Lands<K, T>(files: map<K, Content<T>>, key: K, create: Operation, fill: Operation,
        faults: set<Operation>) {
      key !in files && create !in faults && fill !in faults
    }

    /** What it leaves: a write that throws once the file exists leaves it torn. */
    static function Landed<K, T>(files: map<K, Content<T>>, key: K, value: T, create: Operation, fill: Operation,
        faults: set<Operation>): map<K, Content<T>> {
      if key in files || create in faults then files else files[key := if fill in faults then Torn else Whole(value)]
    }

    /** Corpus, state and manifest are written one after the other, each only when the one before is complete. */
    static ghost predicate SealsUpTo(before: Disk, after: Disk, file: File, corpus: Corpus, faults: set<Operation>,
        outcome: Outcome) {
      var m := SealedManifest(corpus);
      var d := DirectoryOf(file, m);
      var made := d !in before.directories && MakeStore !in faults;
      var filled := made && Lands(before.corpora, d, CreateCorpus, FillCorpus, faults);
      var unused := filled && Lands(before.states, d, CreateState, FillState, faults);
      && (outcome.Done? <==> unused && Lands(before.manifests, file, CreateManifest, FillManifest, faults))
      && after == before.(
           directories := if made then before.directories + {d} else before.directories,
           corpora := if made then Landed(before.corpora, d, corpus, CreateCorpus, FillCorpus, faults)
             else before.corpora,
           states := if filled
             then Landed(before.states, d, RunState(OfCorpus(corpus), Sealed, [], None), CreateState, FillState,
             faults) else before.states,
           manifests := if unused then Landed(before.manifests, file, m, CreateManifest, FillManifest, faults)
             else before.manifests)
    }

    /** The manifest commits to the corpus and allows one run, which nothing but a lock keeps from opening it. */
    static ghost predicate Runnable(disk: Disk, file: File, corpus: Corpus) {
      var m := Manifest(Protected, OfCorpus(corpus), OfSeed(corpus.seed), ForDigest(OfCorpus(corpus)), 1);
      var d := DirectoryOf(file, m);
      && ManifestOf(disk, file) == Some(m)
      && (d in disk.locks || MayLock(disk, file))
      && StateVerdict(disk, d, m).Done? && CorpusVerdict(disk, d, m).Done?
    }

    /** `sealProtectedCorpusValue`: a new epoch directory with corpus, unused state and one-attempt
        manifest; where a write throws, what was complete before it stays, the file itself may be torn, and
        nothing after it is written. A manifest is readable only once everything is there. */
    method SealProtectedCorpusValue(me: nat, file: File, corpus: Corpus, faults: set<Operation>)
        returns (outcome: Outcome)
      requires Valid() && me !in Now().processes
      modifies this
      ensures Valid() && OnlyMine(old(actions), me) && At(me, Seal(file, corpus), Ended)
      ensures SealsUpTo(old(disk), disk, file, corpus, faults, outcome)
      ensures var d := DirectoryOf(file, SealedManifest(corpus));
        outcome == Rejected(CorpusAlreadySealed) <==> d in old(disk).directories && MakeStore !in faults
      ensures outcome in {Done, Rejected(CorpusAlreadySealed), Rejected(AccessExecutionOrValidationFailed)}
      ensures ManifestOf(disk, file) == if outcome.Done? then Some(SealedManifest(corpus))
        else ManifestOf(old(disk), file)
      ensures var d := DirectoryOf(file, SealedManifest(corpus));
        disk.manifests != old(disk).manifests ==>
          && d in disk.corpora && disk.corpora[d] == Whole(corpus)
          && d in disk.states && disk.states[d] == Whole(RunState(OfCorpus(corpus), Sealed, [], None))
      ensures outcome.Done? ==> Runnable(disk, file, corpus)
    {
      hide Enabled, Apply, Execution;
      var task := Seal(file, corpus);
      var d := DirectoryOf(file, SealedManifest(corpus));
      outcome := Rejected(AccessExecutionOrValidationFailed);
      Start(me, task);
      if MakeStore in faults {
        Throw(me, task, MakingDirectory);
        return;
      }
      var made := MakeDirectory(me, task, d);
      if !made {
        return Rejected(CorpusAlreadySealed);
      }
      var created := WriteCorpus(me, task, d, faults);
      if !created {
        return;
      }
      created := WriteFreshState(me, task, d, faults);
      if !created {
        return;
      }
      created := WriteManifest(me, task, d, faults);
      if created {
        outcome := Done;
      }
    }

    /** The non-recursive creation of the epoch directory. */
    method MakeDirectory(me: nat, task: Task, d: Directory) returns (made: bool)
      requires Valid() && task.Seal? && d == DirectoryOf(task.file, SealedManifest(task.corpus))
        && At(me, task, MakingDirectory)
      modifies this
      ensures Valid() && OnlyMine(old(actions), me)
      ensures made <==> d !in old(disk).directories
      ensures disk == old(disk).(directories := old(disk).directories + {d})
      ensures At(me, task, if made then CreatingCorpus else Ended)
    {
      hide AdvanceRun, AdvanceContaminate;
      made := d !in disk.directories;
      if made {
        disk := disk.(directories := disk.directories + {d});
      } else {
        assert disk.directories + {d} == disk.directories;
      }
      Record(Advance(me));
    }

    /** The exclusive creation of the corpus file: its name first, then its bytes. */
    method WriteCorpus(me: nat, task: Task, d: Directory, faults: set<Operation>) returns (written: bool)
      requires Valid() && task.Seal? && d == DirectoryOf(task.file, SealedManifest(task.corpus))
      requires At(me, task, CreatingCorpus)
      modifies this
      ensures Valid() && OnlyMine(old(actions), me)
      ensures written <==> Lands(old(disk).corpora, d, CreateCorpus, FillCorpus, faults)
      ensures disk == old(disk).(corpora :=
        Landed(old(disk).corpora, d, task.corpus, CreateCorpus, FillCorpus, faults))
      ensures At(me, task, if written then CreatingState else Ended)
    {
      hide Enabled, Apply, Execution;
      if CreateCorpus in faults {
        Throw(me, task, CreatingCorpus);
        return false;
      }
      var created := CreateCorpusFile(me, task, d);
      if !created {
        return false;
      }
      if FillCorpus in faults {
        Throw(me, task, FillingCorpus);
        return false;
      }
      FillCorpusFile(me, task, d);
      written := true;
    }

    method CreateCorpusFile(me: nat, task: Task, d: Directory) returns (created: bool)
      requires Valid() && task.Seal? && d == DirectoryOf(task.file, SealedManifest(task.corpus))
      requires At(me, task, CreatingCorpus)
      modifies this
      ensures Valid() && OnlyMine(old(actions), me)
      ensures created <==> d !in old(disk).corpora
      ensures disk == if created then old(disk).(corpora := old(disk).corpora[d := Torn]) else old(disk)
      ensures At(me, task, if created then FillingCorpus else Ended)
    {
      hide AdvanceRun, AdvanceContaminate;
      created := d !in disk.corpora;
      if created {
        disk := disk.(corpora := disk.corpora[d := Torn]);
      }
      Record(Advance(me));
    }

    method FillCorpusFile(me: nat, task: Task, d: Directory)
      requires Valid() && task.Seal? && d == DirectoryOf(task.file, SealedManifest(task.corpus))
      requires At(me, task, FillingCorpus)
      modifies this
      ensures Valid() && OnlyMine(old(actions), me)
      ensures disk == old(disk).(corpora := old(disk).corpora[d := Whole(task.corpus)])
      ensures At(me, task, CreatingState)
    {
      hide AdvanceRun, AdvanceContaminate;
      disk := disk.(corpora := disk.corpora[d := Whole(task.corpus)]);
      Record(Advance(me));
    }

    method WriteFreshState(me: nat, task: Task, d: Directory, faults: set<Operation>) returns (written: bool)
      requires Valid() && task.Seal? && d == DirectoryOf(task.file, SealedManifest(task.corpus))
      requires At(me, task, CreatingState)
      modifies this
      ensures Valid() && OnlyMine(old(actions), me)
      ensures written <==> Lands(old(disk).states, d, CreateState, FillState, faults)
      ensures disk == old(disk).(states :=
        Landed(old(disk).states, d, RunState(OfCorpus(task.corpus), Sealed, [], None), CreateState, FillState, faults))
      ensures At(me, task, if written then CreatingManifest else Ended)
    {
      hide Enabled, Apply, Execution;
      if CreateState in faults {
        Throw(me, task, CreatingState);
        return false;
      }
      var created := CreateStateFile(me, task, d);
      if !created {
        return false;
      }
      if FillState in faults {
        Throw(me, task, FillingState);
        return false;
      }
      FillStateFile(me, task, d);
      written := true;
    }

    method CreateStateFile(me: nat, task: Task, d: Directory) returns (created: bool)
      requires Valid() && task.Seal? && d == DirectoryOf(task.file, SealedManifest(task.corpus))
      requires At(me, task, CreatingState)
      modifies this
      ensures Valid() && OnlyMine(old(actions), me)
      ensures created <==> d !in old(disk).states
      ensures disk == if created then old(disk).(states := old(disk).states[d := Torn]) else old(disk)
      ensures At(me, task, if created then FillingState else Ended)
    {
      hide AdvanceRun, AdvanceContaminate;
      created := d !in disk.states;
      if created {
        disk := disk.(states := disk.states[d := Torn]);
      }
      Record(Advance(me));
    }

    method FillStateFile(me: nat, task: Task, d: Directory)
      requires Valid() && task.Seal? && d == DirectoryOf(task.file, SealedManifest(task.corpus))
      requires At(me, task, FillingState)
      modifies this
      ensures Valid() && OnlyMine(old(actions), me)
      ensures disk == old(disk).(states :=
        old(disk).states[d := Whole(RunState(OfCorpus(task.corpus), Sealed, [], None))])
      ensures At(me, task, CreatingManifest)
    {
      hide AdvanceRun, AdvanceContaminate;
      disk := disk.(states := disk.states[d := Whole(RunState(OfCorpus(task.corpus), Sealed, [], None))]);
      Record(Advance(me));
    }

    method WriteManifest(me: nat, task: Task, d: Directory, faults: set<Operation>) returns (written: bool)
      requires Valid() && task.Seal? && d == DirectoryOf(task.file, SealedManifest(task.corpus))
      requires At(me, task, CreatingManifest)
      modifies this
      ensures Valid() && OnlyMine(old(actions), me)
      ensures written <==> Lands(old(disk).manifests, task.file, CreateManifest, FillManifest, faults)
      ensures disk == old(disk).(manifests :=
        Landed(old(disk).manifests, task.file, SealedManifest(task.corpus), CreateManifest, FillManifest, faults))
      ensures At(me, task, if written then Ended else Ended)
    {
      hide Enabled, Apply, Execution;
      if CreateManifest in faults {
        Throw(me, task, CreatingManifest);
        return false;
      }
      var created := CreateManifestFile(me, task, d);
      if !created {
        return false;
      }
      if FillManifest in faults {
        Throw(me, task, FillingManifest);
        return false;
      }
      FillManifestFile(me, task, d);
      written := true;
    }

    method CreateManifestFile(me: nat, task: Task, d: Directory) returns (created: bool)
      requires Valid() && task.Seal? && d == DirectoryOf(task.file, SealedManifest(task.corpus))
      requires At(me, task, CreatingManifest)
      modifies this
      ensures Valid() && OnlyMine(old(actions), me)
      ensures created <==> task.file !in old(disk).manifests
      ensures disk == if created then old(disk).(manifests := old(disk).manifests[task.file := Torn]) else old(disk)
      ensures At(me, task, if created then FillingManifest else Ended)
    {
      hide AdvanceRun, AdvanceContaminate;
      created := task.file !in disk.manifests;
      if created {
        disk := disk.(manifests := disk.manifests[task.file := Torn]);
      }
      Record(Advance(me));
    }

    method FillManifestFile(me: nat, task: Task, d: Directory)
      requires Valid() && task.Seal? && d == DirectoryOf(task.file, SealedManifest(task.corpus))
      requires At(me, task, FillingManifest)
      modifies this
      ensures Valid() && OnlyMine(old(actions), me)
      ensures disk == old(disk).(manifests := old(disk).manifests[task.file := Whole(SealedManifest(task.corpus))])
      ensures At(me, task, Ended)
    {
      hide AdvanceRun, AdvanceContaminate;
      disk := disk.(manifests := disk.manifests[task.file := Whole(SealedManifest(task.corpus))]);
      Record(Advance(me));
    }
  }
}
