/** The blind calls as the source writes them: one process changing the private root, file by file.
    Every file operation is a step of the protocol, so what holds of all executions holds of the store. */
module BlindStore {
  import opened Options
  import opened FileContents
  import opened BlindProtocol
  import BlindExact

  /** `BlindError` codes; what else is thrown is `OtherError`. */
  datatype Code =
    | CorpusChangedWithoutNewEpoch | CorpusReusedUnderNewEpoch | CandidateAlreadyEvaluatedOnEpoch
    | BenchmarkCheckoutDirty | ReplaysBelowTwo | FreezeAlreadyPending
    | InvalidFreeze | CorpusChangedAfterFreeze | EnvironmentChangedAfterFreeze | BenchmarkChangedAfterFreeze
    | ConfigurationChangedAfterFreeze | CandidateChangedAfterFreeze | OutputNotNewAbsolute | OutputInsidePrivateRoot
    | RunInProgress | BlindRunFailed | OtherError

  /** Where a run is to release its report. */
  datatype Output = Acceptable | NotNewAbsolute | InsidePrivateRoot

  datatype Outcome = Done | Rejected(code: Code)

  /** What may throw. `ScanFixtures` is everything between the move of the freeze and the last ledger write;
      `MarkIncomplete` is the write in the `catch` block. */
  datatype Operation =
    | ReadFreeze | ReadCorpus | ReadLedger | ResolveCandidate | AskBenchmark | WriteFreeze | FillFreeze
    | WriteLock | WriteLedger | MoveFreeze | ScanFixtures | CloseLedger | MarkIncomplete | RemoveLock

  /** `checkEpoch`, entry by entry. */
  function EpochVerdict(epochs: seq<EpochEntry>, c: Corpus): Outcome {
    if epochs == [] then Done
    else if epochs[0].epoch == c.epoch && epochs[0].commitment != CommitmentOf(c)
      then Rejected(CorpusChangedWithoutNewEpoch)
    else if epochs[0].epoch != c.epoch && epochs[0].fixturesDigest == c.fixtures
      then Rejected(CorpusReusedUnderNewEpoch)
    else EpochVerdict(epochs[1..], c)
  }

  lemma {:induction false} EpochVerdictIs(epochs: seq<EpochEntry>, runs: seq<RunEntry>, c: Corpus)
    ensures EpochVerdict(epochs, c).Done? <==> EpochAllowed(Ledger(epochs, runs), c)
  {
    if epochs != [] {
      assert epochs == [epochs[0]] + epochs[1..];
      EpochVerdictIs(epochs[1..], runs, c);
    }
  }

  function LedgerVerdict(ledger: Ledger, c: Corpus, candidate: string): Outcome {
    var verdict := EpochVerdict(ledger.epochs, c);
    if verdict.Rejected? then verdict
    else if !NotYetEvaluated(ledger, c.epoch, candidate) then Rejected(CandidateAlreadyEvaluatedOnEpoch)
    else Done
  }

  lemma LedgerVerdictIs(ledger: Ledger, c: Corpus, candidate: string)
    ensures LedgerVerdict(ledger, c, candidate).Done? <==> MayRun(ledger, c, candidate)
  {
    hide EpochAllowed, NotYetEvaluated;
    EpochVerdictIs(ledger.epochs, ledger.runs, c);
  }

  lemma LedgerVerdictSteps(ledger: Ledger, c: Corpus, candidate: string)
    ensures LedgerVerdict(ledger, c, candidate) ==
      if EpochVerdict(ledger.epochs, c).Rejected? then EpochVerdict(ledger.epochs, c)
      else if NotYetEvaluated(ledger, c.epoch, candidate) then Done else Rejected(CandidateAlreadyEvaluatedOnEpoch)
  {
  }

  /** Whether a freeze of `candidate` passes its checks. */
  function FreezeVerdict(
    ledger: Ledger, c: Corpus, candidate: string, context: Context, faults: set<Operation>): Outcome
  {
    var epoch := EpochVerdict(ledger.epochs, c);
    if ReadLedger in faults then Rejected(OtherError)
    else if epoch.Rejected? then epoch
    else if ResolveCandidate in faults then Rejected(OtherError)
    else if !NotYetEvaluated(ledger, c.epoch, candidate) then Rejected(CandidateAlreadyEvaluatedOnEpoch)
    else if AskBenchmark in faults then Rejected(OtherError)
    else if context.dirty then Rejected(BenchmarkCheckoutDirty)
    else if context.replays < 2 then Rejected(ReplaysBelowTwo)
    else Done
  }

  /** What a freeze answers. */
  function FreezeOutcome(disk: Disk, candidate: string, context: Context, faults: set<Operation>): Outcome {
    if disk.corpus.None? || ReadCorpus in faults then Rejected(OtherError)
    else
      var verdict := FreezeVerdict(LedgerOf(disk), disk.corpus.value, candidate, context, faults);
      if verdict.Rejected? then verdict
      else if WriteFreeze in faults then Rejected(OtherError)
      else if disk.freeze.Some? then Rejected(FreezeAlreadyPending)
      else if FillFreeze in faults then Rejected(OtherError)
      else Done
  }

  lemma CheckedBeforeFilling(ledger: Ledger, c: Corpus, candidate: string, context: Context, faults: set<Operation>)
    ensures FreezeVerdict(ledger, c, candidate, context, faults - {FillFreeze})
      == FreezeVerdict(ledger, c, candidate, context, faults)
  {
  }

  lemma FreezeVerdictIs(ledger: Ledger, c: Corpus, candidate: string, context: Context, faults: set<Operation>)
    ensures FreezeVerdict(ledger, c, candidate, context, faults).Done? <==>
      MayFreeze(ledger, c, candidate, context) && faults !! {ReadLedger, ResolveCandidate, AskBenchmark}
  {
    hide EpochAllowed, NotYetEvaluated;
    EpochVerdictIs(ledger.epochs, ledger.runs, c);
  }

  /** Whether a run in `context` still finds what its freeze recorded. */
  function ContextVerdict(freeze: Freeze, task: Task, faults: set<Operation>): Outcome {
    var now, frozen := task.context, freeze.context;
    if now.environment != frozen.environment then Rejected(EnvironmentChangedAfterFreeze)
    else if AskBenchmark in faults then Rejected(OtherError)
    else if now.dirty || now.benchmark != frozen.benchmark then Rejected(BenchmarkChangedAfterFreeze)
    else if now.configuration != frozen.configuration || now.replays != frozen.replays
      then Rejected(ConfigurationChangedAfterFreeze)
    else if ResolveCandidate in faults then Rejected(OtherError)
    else if task.candidate != freeze.candidate then Rejected(CandidateChangedAfterFreeze)
    else Done
  }

  /** It does exactly when nothing it compares has changed. */
  lemma ContextVerdictIs(freeze: Freeze, task: Task, faults: set<Operation>)
    ensures ContextVerdict(freeze, task, faults).Done? <==>
      && faults !! {AskBenchmark, ResolveCandidate}
      && task.context.Keeps(freeze.context) && task.candidate == freeze.candidate
  {
  }

  function OutputVerdict(output: Output): Outcome {
    match output
    case Acceptable => Done
    case NotNewAbsolute => Rejected(OutputNotNewAbsolute)
    case InsidePrivateRoot => Rejected(OutputInsidePrivateRoot)
  }

  /** Whether a run passes its checks. */
  function RunVerdict(disk: Disk, task: Task, output: Output, faults: set<Operation>): Outcome {
    if disk.freeze.None? || disk.freeze.value.Torn? || ReadFreeze in faults then Rejected(InvalidFreeze)
    else
      var freeze := disk.freeze.value.value;
      if disk.corpus.None? || ReadCorpus in faults then Rejected(OtherError)
      else if CommitmentOf(disk.corpus.value) != freeze.commitment || disk.corpus.value.epoch != freeze.epoch
        then Rejected(CorpusChangedAfterFreeze)
      else if ContextVerdict(freeze, task, faults).Rejected? then ContextVerdict(freeze, task, faults)
      else if output != Acceptable then OutputVerdict(output)
      else if ReadLedger in faults then Rejected(OtherError)
      else if LedgerVerdict(LedgerOf(disk), disk.corpus.value, freeze.candidate).Rejected?
        then LedgerVerdict(LedgerOf(disk), disk.corpus.value, freeze.candidate)
      else if disk.lock.Some? then Rejected(RunInProgress)
      else Done
  }

  /** `checkEpoch`. */
  method CheckEpoch(ledger: Ledger, c: Corpus) returns (verdict: Outcome)
    ensures verdict == EpochVerdict(ledger.epochs, c)
  {
    for i := 0 to |ledger.epochs|
      invariant EpochVerdict(ledger.epochs, c) == EpochVerdict(ledger.epochs[i..], c)
    {
      var entry := ledger.epochs[i];
      if entry.epoch == c.epoch && (entry.commitment.nonce != c.nonce || entry.commitment.fixtures != c.fixtures) {
        return Rejected(CorpusChangedWithoutNewEpoch);
      }
      if entry.epoch != c.epoch && entry.fixturesDigest == c.fixtures {
        return Rejected(CorpusReusedUnderNewEpoch);
      }
    }
    return Done;
  }

  /** `checkNotYetEvaluated`. */
  method CheckAttempt(ledger: Ledger, epoch: string, candidate: string) returns (verdict: Outcome)
    ensures verdict ==
      if NotYetEvaluated(ledger, epoch, candidate) then Done else Rejected(CandidateAlreadyEvaluatedOnEpoch)
  {
    for i := 0 to |ledger.runs|
      invariant forall k :: 0 <= k < i ==> ledger.runs[k].epoch != epoch || ledger.runs[k].candidate != candidate
    {
      if ledger.runs[i].epoch == epoch && ledger.runs[i].candidate == candidate {
        return Rejected(CandidateAlreadyEvaluatedOnEpoch);
      }
    }
    return Done;
  }

  /** The checks of a freeze, in the source's order. */
  method CheckFreeze(ledger: Ledger, c: Corpus, candidate: string, context: Context, faults: set<Operation>)
      returns (verdict: Outcome)
    ensures verdict == FreezeVerdict(ledger, c, candidate, context, faults)
  {
    hide NotYetEvaluated;
    if ReadLedger in faults {
      return Rejected(OtherError);
    }
    verdict := CheckEpoch(ledger, c);
    if verdict.Rejected? {
      return;
    }
    if ResolveCandidate in faults {
      return Rejected(OtherError);
    }
    verdict := CheckAttempt(ledger, c.epoch, candidate);
    if verdict.Rejected? {
      return;
    }
    if AskBenchmark in faults {
      return Rejected(OtherError);
    }
    if context.dirty {
      return Rejected(BenchmarkCheckoutDirty);
    }
    if context.replays < 2 {
      return Rejected(ReplaysBelowTwo);
    }
  }

  /** The checks of a run against its freeze, in the source's order. */
  method CheckContext(freeze: Freeze, task: Task, faults: set<Operation>) returns (verdict: Outcome)
    ensures verdict == ContextVerdict(freeze, task, faults)
  {
    if task.context.environment != freeze.context.environment {
      return Rejected(EnvironmentChangedAfterFreeze);
    }
    if AskBenchmark in faults {
      return Rejected(OtherError);
    }
    if task.context.dirty || task.context.benchmark != freeze.context.benchmark {
      return Rejected(BenchmarkChangedAfterFreeze);
    }
    if task.context.configuration != freeze.context.configuration || task.context.replays != freeze.context.replays {
      return Rejected(ConfigurationChangedAfterFreeze);
    }
    if ResolveCandidate in faults {
      return Rejected(OtherError);
    }
    if task.candidate != freeze.candidate {
      return Rejected(CandidateChangedAfterFreeze);
    }
    return Done;
  }

  /** What a run that passed its checks held before the lock. */
  function Held(disk: Disk): Locals
    requires disk.freeze.Some? && disk.freeze.value.Whole? && disk.corpus.Some?
  {
    Locals(disk.freeze.value.value, disk.corpus.value, LedgerOf(disk))
  }

  function Settled(ledger: Ledger, runId: nat, status: RunStatus): Ledger {
    ledger.(runs := Settling(ledger.runs, runId, status))
  }

  /** The ledger with one more attempt at the end, and its epoch if no entry has it. */
  function With(ledger: Ledger, runId: nat, freeze: Freeze, c: Corpus, status: RunStatus): Ledger {
    Ledger(
      ledger.epochs
        + (if exists e :: e in ledger.epochs && e.epoch == c.epoch then []
           else [EpochEntry(c.epoch, Commitment(c.nonce, c.fixtures), c.fixtures)]),
      ledger.runs + [RunEntry(runId, freeze.freezeId, c.epoch, freeze.candidate, status)])
  }

  /** The disk a run leaves that took the lock: the attempt is spent in the ledger unless both writes of it
      fail, complete exactly when nothing failed and the run was clean;
        the freeze is consumed once the attempt is on disk. */
  function Ran(disk: Disk, me: nat, clean: bool, faults: set<Operation>): Disk
    requires disk.freeze.Some? && disk.freeze.value.Whole? && disk.corpus.Some?
  {
    var scanned := faults !! {WriteLedger, MoveFreeze};
    disk.(
      ledger :=
        if {WriteLedger, MarkIncomplete} <= faults then disk.ledger
        else Some(With(LedgerOf(disk), me, disk.freeze.value.value, disk.corpus.value,
          if scanned && faults !! {ScanFixtures, CloseLedger} then (if clean then Complete else Incomplete)
          else if MarkIncomplete !in faults then Incomplete else Reserved)),
      freeze := if scanned then None else disk.freeze,
      moved := if scanned then disk.moved[me := disk.freeze.value] else disk.moved,
      lock := if RemoveLock in faults then Some(me) else None)
  }

  class Store {
    var disk: Disk
    ghost var states: seq<System>
    ghost var actions: seq<Action>

    /** The store is where some execution of the protocol left it. */
    ghost predicate Valid()
      reads this
    {
      Execution(states, actions) && Now().disk == disk
    }

    ghost function Now(): System
      requires |states| > 0
      reads this
    {
      states[|states| - 1]
    }

    ghost predicate At(me: nat, task: Task, phase: Phase)
      reads this
    {
      |states| > 0 && me in Now().processes && Now().processes[me] == Process(task, phase)
    }

    /** Since `before`, only process `me` has acted. */
    ghost predicate OnlyMine(before: seq<Action>, me: nat)
      reads this
    {
      before <= actions && forall i :: |before| <= i < |actions| ==>
        actions[i] == Advance(me) || actions[i] == Fail(me) || (actions[i].Spawn? && actions[i].pid == me)
    }

    constructor ()
      ensures Valid() && disk == INITIAL.disk && actions == []
    {
      disk := INITIAL.disk;
      states := [INITIAL];
      actions := [];
    }

    ghost method Record(a: Action)
      requires Execution(states, actions) && Enabled(Now(), a)
      modifies this`states, this`actions
      ensures Execution(states, actions) && actions == old(actions) + [a] && Now() == Apply(old(Now()), a)
    {
      hide Enabled, Apply;
      states := states + [Apply(Now(), a)];
      actions := actions + [a];
    }

    method Start(me: nat, task: Task)
      requires Valid() && me !in Now().processes
      modifies this
      ensures Valid() && disk == old(disk) && OnlyMine(old(actions), me)
      ensures At(me, task, if task.FreezeBlind? then ReadingCorpus else ReadingFreeze)
    {
      hide AdvanceRun, AdvanceFreeze;
      Record(Spawn(me, task));
    }

    /** An exception. */
    method Throw(me: nat, task: Task, phase: Phase)
      requires Valid() && At(me, task, phase) && phase.Live()
      modifies this
      ensures Valid() && disk == old(disk) && OnlyMine(old(actions), me)
      ensures At(me, task, AfterFailure(phase))
    {
      hide AdvanceRun, AdvanceFreeze, AfterFailure;
      Record(Fail(me));
    }

    /** A step that only reads. */
    method Read(me: nat, task: Task, phase: Phase, next: Phase)
      requires Valid() && At(me, task, phase) && phase.Live()
      requires Apply(Now(), Advance(me)) == MoveTo(Now(), me, next)
      modifies this
      ensures Valid() && disk == old(disk) && OnlyMine(old(actions), me) && At(me, task, next)
    {
      hide Apply;
      Record(Advance(me));
    }

    // -------------------------------------------------------------------------------------------
    // `freezeBlind`.

    method FreezeBlind(me: nat, candidate: string, context: Context, faults: set<Operation>) returns (outcome: Outcome)
      requires Valid() && me !in Now().processes
      modifies this
      ensures Valid() && OnlyMine(old(actions), me) && At(me, Task.FreezeBlind(candidate, context), Ended)
      ensures outcome.Done? <==>
        (&& old(disk).corpus.Some?
          && faults !! {ReadCorpus, ReadLedger, ResolveCandidate, AskBenchmark, WriteFreeze, FillFreeze}
         && MayFreeze(LedgerOf(old(disk)), old(disk).corpus.value, candidate, context) && old(disk).freeze.None?)
      ensures outcome == FreezeOutcome(old(disk), candidate, context, faults)
      ensures disk ==
        if outcome.Done? then
          var c := old(disk).corpus.value;
          old(disk).(freeze :=
            Some(Whole(Freeze(me, c.epoch, Commitment(c.nonce, c.fixtures), candidate, context))))
        else if FreezeOutcome(old(disk), candidate, context, faults - {FillFreeze}).Done? then
          old(disk).(freeze := Some(Torn))
        else old(disk)
    {
      hide Enabled, Execution, MayFreeze, FreezeVerdict, AdvanceRun;
      var task := Task.FreezeBlind(candidate, context);
      outcome := Rejected(OtherError);
      Start(me, task);
      if ReadCorpus in faults {
        Throw(me, task, ReadingCorpus);
        return;
      }
      if disk.corpus.None? {
        Read(me, task, ReadingCorpus, Ended);
        return;
      }
      var c := disk.corpus.value;
      Read(me, task, ReadingCorpus, CheckingLedger(c));
      FreezeVerdictIs(LedgerOf(disk), c, candidate, context, faults);
      CheckedBeforeFilling(LedgerOf(disk), c, candidate, context, faults);
      var verdict := CheckFreeze(LedgerOf(disk), c, candidate, context, faults);
      if verdict.Rejected? {
        Throw(me, task, CheckingLedger(c));
        return verdict;
      }
      var freeze := Freeze(me, c.epoch, CommitmentOf(c), candidate, context);
      Read(me, task, CheckingLedger(c), CreatingFreeze(freeze));
      outcome := WriteNewFreeze(me, task, freeze, faults);
    }

    /** The exclusive creation of the freeze file: its name first, then its bytes. */
    method WriteNewFreeze(me: nat, task: Task, freeze: Freeze, faults: set<Operation>) returns (outcome: Outcome)
      requires Valid() && At(me, task, CreatingFreeze(freeze))
      modifies this
      ensures Valid() && OnlyMine(old(actions), me) && At(me, task, Ended)
      ensures outcome ==
        if WriteFreeze in faults then Rejected(OtherError)
        else if old(disk).freeze.Some? then Rejected(FreezeAlreadyPending)
        else if FillFreeze in faults then Rejected(OtherError) else Done
      ensures outcome.Done? ==> disk == old(disk).(freeze := Some(Whole(freeze)))
      ensures !outcome.Done? ==>
        disk == if WriteFreeze !in faults && old(disk).freeze.None? then old(disk).(freeze := Some(Torn)) else old(disk)
    {
      hide Enabled, Execution, AdvanceRun;
      outcome := Rejected(OtherError);
      if WriteFreeze in faults {
        Throw(me, task, CreatingFreeze(freeze));
        return;
      }
      if disk.freeze.Some? {
        Read(me, task, CreatingFreeze(freeze), Ended);
        return Rejected(FreezeAlreadyPending);
      }
      CreateFreeze(me, task, freeze);
      if FillFreeze in faults {
        Throw(me, task, FillingFreeze(freeze));
        return;
      }
      FillWholeFreeze(me, task, freeze);
      outcome := Done;
    }

    method CreateFreeze(me: nat, task: Task, freeze: Freeze)
      requires Valid() && At(me, task, CreatingFreeze(freeze)) && disk.freeze.None?
      modifies this
      ensures Valid() && OnlyMine(old(actions), me) && At(me, task, FillingFreeze(freeze))
      ensures disk == old(disk).(freeze := Some(Torn))
    {
      hide AdvanceRun;
      disk := disk.(freeze := Some(Torn));
      Record(Advance(me));
    }

    method FillWholeFreeze(me: nat, task: Task, freeze: Freeze)
      requires Valid() && At(me, task, FillingFreeze(freeze))
      modifies this
      ensures Valid() && OnlyMine(old(actions), me) && At(me, task, Ended)
      ensures disk == old(disk).(freeze := Some(Whole(freeze)))
    {
      hide AdvanceRun;
      disk := disk.(freeze := Some(Whole(freeze)));
      Record(Advance(me));
    }

    // -------------------------------------------------------------------------------------------
    // `runBlind`.

    method RunBlind(me: nat, task: Task, output: Output, faults: set<Operation>) returns (outcome: Outcome)
      requires Valid() && me !in Now().processes && task.RunBlind?
      modifies this
      ensures Valid() && OnlyMine(old(actions), me) && At(me, task, Ended)
      ensures var verdict := RunVerdict(old(disk), task, output, faults);
        && (verdict.Rejected? ==> outcome == verdict && disk == old(disk))
        && (verdict.Done? && WriteLock in faults ==> outcome == Rejected(RunInProgress) && disk == old(disk))
      ensures RunVerdict(old(disk), task, output, faults).Done? && WriteLock !in faults ==>
        && disk == Ran(old(disk), me, task.clean, faults)
        && AttemptRecorded(old(disk), disk, me, task, faults)
        && outcome == if faults !! {WriteLedger, MoveFreeze, ScanFixtures, CloseLedger} then Done
                      else Rejected(BlindRunFailed)
    {
      hide Enabled, Execution, Apply, LedgerVerdict, Ran, AfterFailure, Unused;
      NewToTheLedger(states, actions, me);
      Start(me, task);
      outcome := CheckRun(me, task, output, faults);
      if outcome.Rejected? {
        return;
      }
      var held := Held(disk);
      if WriteLock in faults {
        Throw(me, task, Locking(held));
        FailedLock(held);
        return Rejected(RunInProgress);
      }
      ghost var before := disk;
      Lock(me, task, held);
      outcome := WhileLocked(me, task, held, PushAttempt(held, me), faults, before);
      RanRecords(old(disk), me, task, output, faults);
    }

    static lemma FailedLock(held: Locals)
      ensures AfterFailure(Locking(held)) == Ended
    {
    }

    /** Everything before the lock. */
    method CheckRun(me: nat, task: Task, output: Output, faults: set<Operation>) returns (verdict: Outcome)
      requires Valid() && task.RunBlind? && At(me, task, ReadingFreeze)
      modifies this
      ensures Valid() && OnlyMine(old(actions), me) && disk == old(disk)
      ensures verdict == RunVerdict(disk, task, output, faults)
      ensures verdict.Rejected? ==> At(me, task, Ended)
      ensures verdict.Done? ==> At(me, task, Locking(Held(disk)))
    {
      hide Enabled, Execution, MayRun, LedgerVerdict, AdvanceFreeze;
      if disk.freeze.None? || disk.freeze.value.Torn? || ReadFreeze in faults {
        Throw(me, task, ReadingFreeze);
        return Rejected(InvalidFreeze);
      }
      var freeze := disk.freeze.value.value;
      Read(me, task, ReadingFreeze, MatchingCorpus(freeze));
      if disk.corpus.None? || ReadCorpus in faults {
        Throw(me, task, MatchingCorpus(freeze));
        return Rejected(OtherError);
      }
      var c := disk.corpus.value;
      if CommitmentOf(c) != freeze.commitment || c.epoch != freeze.epoch {
        Read(me, task, MatchingCorpus(freeze), Ended);
        return Rejected(CorpusChangedAfterFreeze);
      }
      verdict := CheckContext(freeze, task, faults);
      if verdict.Rejected? {
        Throw(me, task, MatchingCorpus(freeze));
        return;
      }
      Read(me, task, MatchingCorpus(freeze), ReadingLedger(freeze, c));
      if output != Acceptable {
        Throw(me, task, ReadingLedger(freeze, c));
        if output == NotNewAbsolute {
          return Rejected(OutputNotNewAbsolute);
        }
        return Rejected(OutputInsidePrivateRoot);
      }
      if ReadLedger in faults {
        Throw(me, task, ReadingLedger(freeze, c));
        return Rejected(OtherError);
      }
      verdict := CheckLedger(me, task, freeze, c);
    }

    method CheckLedger(me: nat, task: Task, freeze: Freeze, c: Corpus) returns (verdict: Outcome)
      requires Valid() && task.RunBlind? && At(me, task, ReadingLedger(freeze, c))
      modifies this
      ensures Valid() && OnlyMine(old(actions), me) && disk == old(disk)
      ensures verdict ==
        if LedgerVerdict(LedgerOf(disk), c, freeze.candidate).Rejected?
          then LedgerVerdict(LedgerOf(disk), c, freeze.candidate)
        else if disk.lock.Some? then Rejected(RunInProgress) else Done
      ensures At(me, task, if verdict.Rejected? then Ended else Locking(Locals(freeze, c, LedgerOf(disk))))
    {
      hide Enabled, Execution, MayRun, LedgerVerdict, AdvanceFreeze;
      LedgerVerdictIs(LedgerOf(disk), c, freeze.candidate);
      verdict := CheckEpoch(LedgerOf(disk), c);
      if verdict.Done? {
        verdict := CheckAttempt(LedgerOf(disk), c.epoch, freeze.candidate);
      }
      assert verdict == LedgerVerdict(LedgerOf(disk), c, freeze.candidate) by {
        LedgerVerdictSteps(LedgerOf(disk), c, freeze.candidate);
      }
      if verdict.Rejected? {
        Read(me, task, ReadingLedger(freeze, c), Ended);
        return;
      }
      var held := Locals(freeze, c, LedgerOf(disk));
      Read(me, task, ReadingLedger(freeze, c), Locking(held));
      if disk.lock.Some? {
        Read(me, task, Locking(held), Ended);
        verdict := Rejected(RunInProgress);
      }
    }

    /** The exclusive creation of `.lock`. */
    method Lock(me: nat, task: Task, held: Locals)
      requires Valid() && At(me, task, Locking(held)) && disk.lock.None?
      modifies this
      ensures Valid() && OnlyMine(old(actions), me) && disk == old(disk).(lock := Some(me))
      ensures At(me, task, WritingLedger(PushAttempt(held, me)))
    {
      hide AdvanceFreeze, PushAttempt;
      disk := disk.(lock := Some(me));
      Record(Advance(me));
    }

    /** The `try`, `catch` and `finally` blocks of a run that holds the lock. */
    method WhileLocked(me: nat, task: Task, held: Locals, pushed: Locals, faults: set<Operation>, ghost before: Disk)
        returns (outcome: Outcome)
      requires Valid() && task.RunBlind? && At(me, task, WritingLedger(pushed)) && pushed == PushAttempt(held, me)
      requires before.freeze.Some? && before.freeze.value.Whole? && before.corpus.Some? && held == Held(before)
      requires disk == before.(lock := Some(me)) && before.lock.None? && Unused(LedgerOf(before), me)
      modifies this
      ensures Valid() && OnlyMine(old(actions), me) && At(me, task, Ended)
        && disk == Ran(before, me, task.clean, faults)
      ensures outcome == if faults !! {WriteLedger, MoveFreeze, ScanFixtures, CloseLedger} then Done
                         else Rejected(BlindRunFailed)
    {
      hide Enabled, Execution, Apply, PushAttempt, Settling, With, Unused;
      PushedIsWith(before, me);
      SettledIsWith(before, me, Complete);
      SettledIsWith(before, me, Incomplete);
      var scanned := Spend(me, task, pushed, faults);
      if scanned && faults !! {ScanFixtures, CloseLedger} {
        var status := if task.clean then Complete else Incomplete;
        Read(me, task, Scanning(pushed), Closing(pushed, status, false)) by { ScanEnds(Now(), me, task, pushed); }
        Close(me, task, pushed, status, false);
        outcome := Done;
      } else {
        outcome := Rejected(BlindRunFailed);
        if scanned {
          FailScan(me, task, pushed, faults);
        }
        if MarkIncomplete in faults {
          Throw(me, task, Closing(pushed, Incomplete, true));
        } else {
          Close(me, task, pushed, Incomplete, true);
        }
      }
      Unlock(me, task, faults);
    }

    static lemma ScanEnds(s: System, me: nat, task: Task, pushed: Locals)
      requires me in s.processes && s.processes[me] == Process(task, Scanning(pushed)) && task.RunBlind?
      ensures Apply(s, Advance(me))
        == MoveTo(s, me, Closing(pushed, if task.clean then Complete else Incomplete, false))
    {
      hide AdvanceFreeze;
    }

    /** The scan, or the write of its result, throws. */
    method FailScan(me: nat, task: Task, pushed: Locals, faults: set<Operation>)
      requires Valid() && task.RunBlind? && At(me, task, Scanning(pushed))
      modifies this
      ensures Valid() && OnlyMine(old(actions), me) && disk == old(disk)
      ensures At(me, task, Closing(pushed, Incomplete, true))
    {
      hide Enabled, Execution, Apply;
      if ScanFixtures in faults {
        Throw(me, task, Scanning(pushed));
      } else {
        var status := if task.clean then Complete else Incomplete;
        ScanEnds(Now(), me, task, pushed);
        Read(me, task, Scanning(pushed), Closing(pushed, status, false));
        Throw(me, task, Closing(pushed, status, false));
      }
    }

    /** Reserve the attempt, then consume the freeze. */
    method Spend(me: nat, task: Task, pushed: Locals, faults: set<Operation>) returns (scanned: bool)
      requires Valid() && At(me, task, WritingLedger(pushed)) && disk.freeze.Some?
      modifies this
      ensures Valid() && OnlyMine(old(actions), me) && (scanned <==> faults !! {WriteLedger, MoveFreeze})
      ensures At(me, task, if scanned then Scanning(pushed) else Closing(pushed, Incomplete, true))
      ensures disk == old(disk).(
        ledger := if WriteLedger in faults then old(disk).ledger else Some(pushed.ledger),
        freeze := if scanned then None else old(disk).freeze,
        moved := if scanned then old(disk).moved[me := old(disk).freeze.value] else old(disk).moved)
    {
      hide Enabled, Execution, AdvanceFreeze;
      if WriteLedger in faults {
        Throw(me, task, WritingLedger(pushed));
        return false;
      }
      WriteReservation(me, task, pushed);
      if MoveFreeze in faults {
        Throw(me, task, MovingFreeze(pushed));
        return false;
      }
      ConsumeFreeze(me, task, pushed);
      scanned := true;
    }

    method WriteReservation(me: nat, task: Task, pushed: Locals)
      requires Valid() && At(me, task, WritingLedger(pushed))
      modifies this
      ensures Valid() && OnlyMine(old(actions), me) && disk == old(disk).(ledger := Some(pushed.ledger))
        && At(me, task, MovingFreeze(pushed))
    {
      hide AdvanceFreeze;
      disk := disk.(ledger := Some(pushed.ledger));
      Record(Advance(me));
    }

    method ConsumeFreeze(me: nat, task: Task, pushed: Locals)
      requires Valid() && At(me, task, MovingFreeze(pushed)) && disk.freeze.Some?
      modifies this
      ensures Valid() && OnlyMine(old(actions), me) && At(me, task, Scanning(pushed))
      ensures disk == old(disk).(freeze := None, moved := old(disk).moved[me := old(disk).freeze.value])
    {
      hide AdvanceFreeze;
      disk := disk.(freeze := None, moved := disk.moved[me := disk.freeze.value]);
      Record(Advance(me));
    }

    method Close(me: nat, task: Task, pushed: Locals, status: RunStatus, caught: bool)
      requires Valid() && At(me, task, Closing(pushed, status, caught))
      modifies this
      ensures Valid() && OnlyMine(old(actions), me) && At(me, task, Phase.Releasing)
      ensures disk == old(disk).(ledger := Some(Settled(pushed.ledger, me, status)))
    {
      hide AdvanceFreeze, Settling;
      disk := disk.(ledger := Some(Settled(pushed.ledger, me, status)));
      Record(Advance(me));
    }

    method Unlock(me: nat, task: Task, faults: set<Operation>)
      requires Valid() && At(me, task, Phase.Releasing)
      modifies this
      ensures Valid() && OnlyMine(old(actions), me) && At(me, task, Ended)
      ensures disk == if RemoveLock in faults then old(disk) else old(disk).(lock := None)
    {
      hide AdvanceFreeze;
      if RemoveLock in faults {
        Throw(me, task, Phase.Releasing);
      } else {
        disk := disk.(lock := None);
        Record(Advance(me));
      }
    }
  }

  ghost predicate Unused(ledger: Ledger, runId: nat) {
    forall r :: r in ledger.runs ==> r.runId != runId
  }

  /** A process that has not started has no attempt in the ledger. */
  lemma NewToTheLedger(states: seq<System>, actions: seq<Action>, me: nat)
    requires Execution(states, actions) && me !in states[|states| - 1].processes
    ensures Unused(LedgerOf(states[|states| - 1].disk), me)
  {
    BlindExact.ExecutionTraced(states, actions, |states| - 1);
  }

  /** Settling an attempt changes its status, and nothing else. */
  lemma {:induction false} SettlesTheLast(runs: seq<RunEntry>, entry: RunEntry, status: RunStatus)
    requires forall r :: r in runs ==> r.runId != entry.runId
    ensures Settling(runs + [entry], entry.runId, status) == runs + [entry.(status := status)]
  {
    if runs == [] {
      assert runs + [entry] == [entry];
    } else {
      assert (runs + [entry])[1..] == runs[1..] + [entry];
      SettlesTheLast(runs[1..], entry, status);
      assert runs + [entry.(status := status)] == [runs[0]] + (runs[1..] + [entry.(status := status)]);
    }
  }

  lemma PushedIsWith(disk: Disk, me: nat)
    requires disk.freeze.Some? && disk.freeze.value.Whole? && disk.corpus.Some?
    ensures PushAttempt(Held(disk), me).ledger
      == With(LedgerOf(disk), me, disk.freeze.value.value, disk.corpus.value, Reserved)
  {
  }

  lemma SettledIsWith(disk: Disk, me: nat, status: RunStatus)
    requires disk.freeze.Some? && disk.freeze.value.Whole? && disk.corpus.Some? && Unused(LedgerOf(disk), me)
    ensures Settled(PushAttempt(Held(disk), me).ledger, me, status)
      == With(LedgerOf(disk), me, disk.freeze.value.value, disk.corpus.value, status)
  {
    hide Settling;
    PushedIsWith(disk, me);
    var freeze, c := disk.freeze.value.value, disk.corpus.value;
    SettlesTheLast(LedgerOf(disk).runs, RunEntry(me, freeze.freezeId, c.epoch, freeze.candidate, Reserved), status);
  }

  lemma PassedChecks(disk: Disk, task: Task, output: Output, faults: set<Operation>)
    requires RunVerdict(disk, task, output, faults).Done?
    ensures disk.freeze.Some? && disk.freeze.value.Whole? && disk.corpus.Some?
    ensures var freeze := disk.freeze.value.value;
      freeze.epoch == disk.corpus.value.epoch && freeze.candidate == task.candidate
        && task.context.Keeps(freeze.context)
  {
    hide LedgerVerdict;
  }

  /** The ledger after a run that took the lock: the attempts that were there, as they were, then the run's
      own, complete exactly when nothing failed and the run was clean, still reserved exactly when its last
      write and the one in the `catch` block both failed. If the first write failed too, nothing is written. */
  ghost predicate AttemptRecorded(before: Disk, after: Disk, me: nat, task: Task, faults: set<Operation>)
    requires task.RunBlind?
    requires before.freeze.Some? && before.freeze.value.Whole? && before.corpus.Some?
  {
    var was, now := LedgerOf(before).runs, LedgerOf(after).runs;
    if WriteLedger in faults && MarkIncomplete in faults then after.ledger == before.ledger
    else
      && |now| == |was| + 1
      && (forall i :: 0 <= i < |was| ==> now[i] == was[i])
      && now[|was|].runId == me && now[|was|].freezeId == before.freeze.value.value.freezeId
      && now[|was|].epoch == before.corpus.value.epoch && now[|was|].candidate == task.candidate
      && (now[|was|].status.Complete? <==>
            task.clean && faults !! {WriteLedger, MoveFreeze, ScanFixtures, CloseLedger})
      && (now[|was|].status.Reserved? <==>
            MarkIncomplete in faults && !(faults !! {MoveFreeze, ScanFixtures, CloseLedger}))
  }

  lemma RanRecords(disk: Disk, me: nat, task: Task, output: Output, faults: set<Operation>)
    requires task.RunBlind? && RunVerdict(disk, task, output, faults).Done?
    ensures disk.freeze.Some? && disk.freeze.value.Whole? && disk.corpus.Some?
    ensures AttemptRecorded(disk, Ran(disk, me, task.clean, faults), me, task, faults)
  {
    PassedChecks(disk, task, output, faults);
    hide RunVerdict;
  }

  /** A run spends its attempt: whatever fails after the lock, short of both ledger writes, the ledger on
      disk then refuses the candidate for that epoch. */
  lemma AttemptSpent(disk: Disk, me: nat, task: Task, output: Output, faults: set<Operation>)
    requires task.RunBlind? && RunVerdict(disk, task, output, faults).Done?
      && !({WriteLedger, MarkIncomplete} <= faults)
    ensures !NotYetEvaluated(LedgerOf(Ran(disk, me, task.clean, faults)), disk.corpus.value.epoch, task.candidate)
  {
    PassedChecks(disk, task, output, faults);
    hide RunVerdict;
    var runs := LedgerOf(Ran(disk, me, task.clean, faults)).runs;
    assert runs[|runs| - 1] in runs;
  }
}
