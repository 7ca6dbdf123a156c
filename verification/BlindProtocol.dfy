/** The blind evaluation ledger: `freezeBlind` and `runBlind` (benchmarks/blind/lifecycle.ts) over the
    private root (benchmarks/blind/storage.ts), one step for each file operation, with a crash possible
    between any two steps and any number of processes interleaved. */
module BlindProtocol {
  import opened Options
  import opened FileContents

  /** `nonce` and `fixtures` stand for their bytes; SHA-256 is taken as injective. */
  datatype Corpus = Corpus(epoch: string, nonce: string, fixtures: string)
  datatype Commitment = Commitment(nonce: string, fixtures: string)

  /** `corpusIdentity`: the published commitment covers nonce and fixtures, the private digest the fixtures. */
  function CommitmentOf(c: Corpus): Commitment {
    Commitment(c.nonce, c.fixtures)
  }

  datatype EpochEntry = EpochEntry(epoch: string, commitment: Commitment, fixturesDigest: string)
  datatype RunStatus = Reserved | Complete | Incomplete
  /** Run and freeze ids are fresh: the process that draws one is its id. */
  datatype RunEntry = RunEntry(runId: nat, freezeId: nat, epoch: string, candidate: string, status: RunStatus)
  datatype Ledger = Ledger(epochs: seq<EpochEntry>, runs: seq<RunEntry>)

  /** What surrounds a call: environment, benchmark checkout, scanner configuration, replays. */
  datatype Context = Context(environment: string, benchmark: string, dirty: bool, configuration: string, replays: nat) {
    /** What `runBlind` compares with the freeze. */
    predicate Keeps(frozen: Context) {
      && environment == frozen.environment && benchmark == frozen.benchmark && !dirty
      && configuration == frozen.configuration && replays == frozen.replays
    }
  }

  datatype Freeze = Freeze(
    freezeId: nat, epoch: string, commitment: Commitment, candidate: string, context: Context)

  datatype Disk = Disk(
    corpus: Option<Corpus>,
    freeze: Option<Content<Freeze>>,
    ledger: Option<Ledger>,
    lock: Option<nat>,
    moved: map<nat, Content<Freeze>>)

  /** `readLedger`: a missing file is the empty ledger. */
  function LedgerOf(disk: Disk): Ledger {
    match disk.ledger
    case None => Ledger([], [])
    case Some(ledger) => ledger
  }

  /** `checkEpoch`: an epoch label carries one corpus, and a set of fixtures one epoch label. */
  predicate EpochAllowed(ledger: Ledger, c: Corpus) {
    forall e :: e in ledger.epochs ==>
      && (e.epoch == c.epoch ==> e.commitment == CommitmentOf(c))
      && (e.epoch != c.epoch ==> e.fixturesDigest != c.fixtures)
  }

  /** `checkNotYetEvaluated`: one attempt per candidate and epoch, crashed attempts included. */
  predicate NotYetEvaluated(ledger: Ledger, epoch: string, candidate: string) {
    forall r :: r in ledger.runs ==> !(r.epoch == epoch && r.candidate == candidate)
  }

  predicate MayRun(ledger: Ledger, c: Corpus, candidate: string) {
    EpochAllowed(ledger, c) && NotYetEvaluated(ledger, c.epoch, candidate)
  }

  /** What `freezeBlind` checks. */
  predicate MayFreeze(ledger: Ledger, c: Corpus, candidate: string, context: Context) {
    MayRun(ledger, c, candidate) && !context.dirty && context.replays >= 2
  }

  predicate HasEpoch(ledger: Ledger, epoch: string) {
    exists e :: e in ledger.epochs && e.epoch == epoch
  }

  predicate SameAttempt(r: RunEntry, q: RunEntry) {
    r.runId == q.runId && r.freezeId == q.freezeId && r.epoch == q.epoch && r.candidate == q.candidate
  }

  /** The attempts of `before`, in the same places; only statuses may differ. */
  predicate KeepsAttempts(before: seq<RunEntry>, after: seq<RunEntry>) {
    |before| <= |after| && forall i :: 0 <= i < |before| ==> SameAttempt(before[i], after[i])
  }

  /** Nothing of `before` is missing from `after`; only statuses may differ. */
  predicate LedgerGrows(before: Ledger, after: Ledger) {
    KeepsAttempts(before.runs, after.runs) && forall e :: e in before.epochs ==> e in after.epochs
  }

  /** The ledger with the attempt pushed, and its epoch if that is new. */
  function Reserving(ledger: Ledger, runId: nat, c: Corpus, freeze: Freeze): Ledger {
    var entry := RunEntry(runId, freeze.freezeId, c.epoch, freeze.candidate, Reserved);
    Ledger(if HasEpoch(ledger, c.epoch) then ledger.epochs
           else ledger.epochs + [EpochEntry(c.epoch, CommitmentOf(c), c.fixtures)],
           ledger.runs + [entry])
  }

  /** The ledger with the status of the first run `runId` replaced. */
  function Settling(runs: seq<RunEntry>, runId: nat, status: RunStatus): seq<RunEntry> {
    if runs == [] then []
    else if runs[0].runId == runId then [runs[0].(status := status)] + runs[1..]
    else [runs[0]] + Settling(runs[1..], runId, status)
  }

  // ---------------------------------------------------------------------------------------------
  // Processes.

  /** `candidate` is the artifact in the directory the call was given; `clean`: no scan is withheld for an
      error, and the candidate is still the same afterwards. */
  datatype Task =
    | FreezeBlind(candidate: string, context: Context)
    | RunBlind(candidate: string, context: Context, clean: bool)

  /** The local variables of a run that has passed its checks. */
  datatype Locals = Locals(freeze: Freeze, corpus: Corpus, ledger: Ledger)

  datatype Phase =
    | ReadingCorpus                             // freeze
    | CheckingLedger(corpus: Corpus)
    | CreatingFreeze(planned: Freeze)
    | FillingFreeze(planned: Freeze)
    | ReadingFreeze                             // run
    | MatchingCorpus(freeze: Freeze)
    | ReadingLedger(freeze: Freeze, corpus: Corpus)
    | Locking(locals: Locals)
    | WritingLedger(locals: Locals)
    | MovingFreeze(locals: Locals)
    | Scanning(locals: Locals)
    | Closing(locals: Locals, status: RunStatus, caught: bool)   // `caught`: in the `catch` block
    | Releasing
    | Ended
    | Crashed
  {
    predicate Live() {
      !Ended? && !Crashed?
    }

    predicate Critical() {
      WritingLedger? || Spent() || Releasing?
    }

    /** After the reservation was pushed. */
    predicate Spent() {
      MovingFreeze? || Scanning? || Closing?
    }

    predicate Freezing() {
      ReadingCorpus? || CheckingLedger? || CreatingFreeze? || FillingFreeze?
    }
  }

  datatype Process = Process(task: Task, phase: Phase)

  /** A run that entered its scan phase. */
  datatype Scan = Scan(runId: nat, candidate: string, corpus: Corpus, context: Context)

  /** `lossy`: some lock was taken by a run whose ledger lacked an attempt or an epoch that was on disk. */
  datatype System = System(disk: Disk, processes: map<nat, Process>, scans: seq<Scan>, lossy: bool)

  datatype Action =
    | Spawn(pid: nat, task: Task)
    | Advance(pid: nat)
    | Fail(pid: nat)                 // the operation throws without effect
    | LeaveLock(pid: nat)            // the lock file is created, then writing it throws
    | Crash(pid: nat)
    | RemoveStaleLock                // the custodian, once no process owns the lock
    | SetCorpus(corpus: Corpus)      // the custodian rotates the corpus
    | ClearFreeze                    // the custodian removes a pending freeze, torn or whole, while no call is live

  const INITIAL := System(Disk(None, None, None, None, map[]), map[], [], false)

  predicate NobodyLive(s: System) {
    forall pid :: pid in s.processes ==> !s.processes[pid].phase.Live()
  }

  predicate Enabled(s: System, a: Action) {
    match a
    case Spawn(pid, _) => pid !in s.processes
    case Advance(pid) => pid in s.processes && s.processes[pid].phase.Live()
    case Fail(pid) => pid in s.processes && s.processes[pid].phase.Live()
    case LeaveLock(pid) => pid in s.processes && s.processes[pid].phase.Locking? && s.disk.lock.None?
    case Crash(pid) => pid in s.processes && s.processes[pid].phase.Live()
    case RemoveStaleLock =>
      s.disk.lock.Some? && (s.disk.lock.value in s.processes ==> !s.processes[s.disk.lock.value].phase.Live())
    case SetCorpus(_) => true
    case ClearFreeze => NobodyLive(s)
  }

  function MoveTo(s: System, pid: nat, phase: Phase): System
    requires pid in s.processes
  {
    s.(processes := s.processes[pid := s.processes[pid].(phase := phase)])
  }

  function Apply(s: System, a: Action): System
    requires Enabled(s, a)
  {
    match a
    case Spawn(pid, task) =>
      s.(processes := s.processes[pid := Process(task, if task.FreezeBlind? then ReadingCorpus else ReadingFreeze)])
    case Advance(pid) =>
      if s.processes[pid].phase.Freezing() then AdvanceFreeze(s, pid, s.processes[pid].task, s.processes[pid].phase)
      else AdvanceRun(s, pid, s.processes[pid].task, s.processes[pid].phase)
    case Fail(pid) => MoveTo(s, pid, AfterFailure(s.processes[pid].phase))
    case LeaveLock(pid) => MoveTo(s.(disk := s.disk.(lock := Some(pid))), pid, Ended)
    case Crash(pid) => MoveTo(s, pid, Crashed)
    case RemoveStaleLock => s.(disk := s.disk.(lock := None))
    case SetCorpus(corpus) => s.(disk := s.disk.(corpus := Some(corpus)))
    case ClearFreeze => s.(disk := s.disk.(freeze := None))
  }

  /** The `catch` block marks the pushed attempt incomplete, if it can; `finally` removes the lock. */
  function AfterFailure(phase: Phase): Phase {
    match phase
    case WritingLedger(l) => Closing(l, Incomplete, true)
    case MovingFreeze(l) => Closing(l, Incomplete, true)
    case Scanning(l) => Closing(l, Incomplete, true)
    case Closing(l, _, caught) => if caught then Releasing else Closing(l, Incomplete, true)
    case _ => Ended
  }

  /** `freezeBlind`. */
  function AdvanceFreeze(s: System, pid: nat, task: Task, phase: Phase): System
    requires pid in s.processes && phase.Freezing()
  {
    match phase
    case ReadingCorpus =>
      MoveTo(s, pid, if s.disk.corpus.Some? then CheckingLedger(s.disk.corpus.value) else Ended)
    case CheckingLedger(c) =>
      MoveTo(s, pid, if MayFreeze(LedgerOf(s.disk), c, task.candidate, task.context)
                     then CreatingFreeze(Freeze(pid, c.epoch, CommitmentOf(c), task.candidate, task.context))
                       else Ended)
    case CreatingFreeze(planned) =>
      if s.disk.freeze.Some? then MoveTo(s, pid, Ended)
      else MoveTo(s.(disk := s.disk.(freeze := Some(Torn))), pid, FillingFreeze(planned))
    case FillingFreeze(planned) => MoveTo(s.(disk := s.disk.(freeze := Some(Whole(planned)))), pid, Ended)
  }

  /** `runBlind`. */
  function AdvanceRun(s: System, pid: nat, task: Task, phase: Phase): System
    requires pid in s.processes && phase.Live() && !phase.Freezing()
  {
    match phase
    case ReadingFreeze =>
      MoveTo(s, pid,
        if s.disk.freeze.Some? && s.disk.freeze.value.Whole? then MatchingCorpus(s.disk.freeze.value.value) else Ended)
    case MatchingCorpus(freeze) =>
      MoveTo(s, pid, if s.disk.corpus.Some? && CommitmentOf(s.disk.corpus.value) == freeze.commitment
                        && s.disk.corpus.value.epoch == freeze.epoch
                        && task.context.Keeps(freeze.context) && task.candidate == freeze.candidate
                     then ReadingLedger(freeze, s.disk.corpus.value) else Ended)
    case ReadingLedger(freeze, c) =>
      MoveTo(s, pid,
        if MayRun(LedgerOf(s.disk), c, freeze.candidate) then Locking(Locals(freeze, c, LedgerOf(s.disk))) else Ended)
    case Locking(l) =>
      if s.disk.lock.Some? then MoveTo(s, pid, Ended)
      else MoveTo(s.(disk := s.disk.(lock := Some(pid)),
        lossy := s.lossy || !LedgerGrows(LedgerOf(s.disk), l.ledger)), pid, WritingLedger(PushAttempt(l, pid)))
    case WritingLedger(l) => MoveTo(s.(disk := s.disk.(ledger := Some(l.ledger))), pid, MovingFreeze(l))
    case MovingFreeze(l) =>
      if s.disk.freeze.None? then MoveTo(s, pid, Closing(l, Incomplete, true))
      else MoveTo(s.(disk := s.disk.(freeze := None, moved := s.disk.moved[pid := s.disk.freeze.value]),
                     scans := s.scans + [Scan(pid, l.freeze.candidate, l.corpus, task.context)]), pid, Scanning(l))
    case Scanning(l) => MoveTo(s, pid, Closing(l, if task.RunBlind? && task.clean then Complete else Incomplete, false))
    case Closing(l, status, _) =>
      MoveTo(s.(disk := s.disk.(ledger := Some(l.ledger.(runs := Settling(l.ledger.runs, pid, status))))), pid,
        Releasing)
    case Releasing => MoveTo(s.(disk := s.disk.(lock := None)), pid, Ended)
  }

  /** The attempt is pushed onto the ledger in memory, then the ledger is written. */
  function PushAttempt(l: Locals, pid: nat): Locals {
    l.(ledger := Reserving(l.ledger, pid, l.corpus, l.freeze))
  }

  ghost predicate Execution(states: seq<System>, actions: seq<Action>) {
    && |states| == |actions| + 1
    && states[0] == INITIAL
    && forall i :: 0 <= i < |actions| ==>
      Enabled(states[i], actions[i]) && states[i + 1] == Apply(states[i], actions[i])
  }
}
