/** The holdout store as processes sharing a file system: `runHoldout` and `contaminateHoldout`
    (holdout/lifecycle.ts) and `sealProtectedCorpusValue` (holdout/storage.ts), one step for each
    file operation, in any interleaving, with a crash possible between any two steps. */
module HoldoutProtocol {
  import opened Options
  import opened FileContents

  // ---------------------------------------------------------------------------------------------
  // Files.

  datatype Corpus = Corpus(seed: string, fixtures: string)

  /** SHA-256, taken as injective: a digest is what it was computed from. */
  datatype Digest = OfCorpus(corpus: Corpus) | OfSeed(seed: string)

  datatype DirectoryName = Named(name: string) | ForDigest(digest: Digest)

  datatype Purpose = PublicConformance | Protected

  datatype Manifest = Manifest(purpose: Purpose, corpusHash: Digest, seedHash: Digest, directory: DirectoryName,
    maxRuns: int) {
    /** What `validateManifest` demands of the run budget. */
    predicate Valid() {
      1 <= maxRuns <= 10
    }
  }

  /** A manifest file, and a store directory, live under one parent directory. */
  datatype File = File(parent: string, name: string)
  datatype Directory = Directory(parent: string, name: DirectoryName)

  datatype Status = Sealed | Contaminated | Retired
  datatype RunState = RunState(corpusHash: Digest, status: Status, runs: seq<string>, reason: Option<string>)

  datatype Disk = Disk(
    manifests: map<File, Content<Manifest>>,
    directories: set<Directory>,
    locks: map<Directory, nat>,
    corpora: map<Directory, Content<Corpus>>,
    states: map<Directory, Content<RunState>>,
    plans: set<(Directory, string)>,
    aggregates: set<(Directory, string)>)

  function DirectoryOf(file: File, m: Manifest): Directory {
    Directory(file.parent, m.directory)
  }

  function SealedManifest(c: Corpus): Manifest {
    Manifest(Protected, OfCorpus(c), OfSeed(c.seed), ForDigest(OfCorpus(c)), 1)
  }

  /** `stateOf`: the persisted state, when it is readable and belongs to the manifest. */
  function StateOf(disk: Disk, d: Directory, m: Manifest): Option<RunState> {
    if d in disk.states && disk.states[d].Whole? && disk.states[d].value.corpusHash == m.corpusHash
    then Some(disk.states[d].value) else None
  }

  /** The corpus, when its bytes and its seed are the ones the manifest committed to. */
  function CorpusOf(disk: Disk, d: Directory, m: Manifest): Option<Corpus> {
    if d in disk.corpora && disk.corpora[d].Whole?
       && OfCorpus(disk.corpora[d].value) == m.corpusHash && OfSeed(disk.corpora[d].value.seed) == m.seedHash
    then Some(disk.corpora[d].value) else None
  }

  /** `readManifest`. */
  function ManifestOf(disk: Disk, file: File): Option<Manifest> {
    if file in disk.manifests && disk.manifests[file].Whole? && disk.manifests[file].value.Valid()
    then Some(disk.manifests[file].value) else None
  }

  // ---------------------------------------------------------------------------------------------
  // Processes.

  datatype Task =
    | Run(file: File, runId: string)
    | Contaminate(file: File, reason: string)
    | Seal(file: File, corpus: Corpus)

  /** What a process does next. `slot` is the index of its reservation. */
  datatype Phase =
    | Reading
    | Locating(m: Manifest)
    | Locking(m: Manifest)
    | Checking(m: Manifest)
    | Writing(m: Manifest, found: RunState)
    | Planning(m: Manifest, slot: nat)
    | Opening(m: Manifest, slot: nat)
    | Starting(m: Manifest, slot: nat, corpus: Corpus)
    | Reporting(m: Manifest, slot: nat)
    | Releasing(m: Manifest)
    | MakingDirectory
    | CreatingCorpus
    | FillingCorpus
    | CreatingState
    | FillingState
    | CreatingManifest
    | FillingManifest
    | Ended
    | Crashed
  {
    predicate Live() {
      !Ended? && !Crashed?
    }

    /** Between taking the lock and removing it. */
    predicate Critical() {
      Checking? || Writing? || Reserved() || Releasing?
    }

    /** Between the reservation and the release. */
    predicate Reserved() {
      Unstarted() || Reporting?
    }

    /** Reserved, and evaluation has not begun. */
    predicate Unstarted() {
      Planning? || Opening? || Starting?
    }

    /** Between making the epoch directory and publishing its manifest. */
    predicate Populating() {
      CreatingCorpus? || FillingCorpus? || CreatingState? || FillingState? || CreatingManifest? || FillingManifest?
    }
  }

  datatype Process = Process(task: Task, phase: Phase) {
    predicate WellFormed() {
      match task
      case Seal(_, _) => phase.MakingDirectory? || phase.Populating() || phase.Ended? || phase.Crashed?
      case Contaminate(_, _) => phase.Reading? || phase.Locating? || phase.Locking? || phase.Checking? || phase.Writing?
                                || phase.Releasing? || phase.Ended? || phase.Crashed?
      case Run(_, _) => !phase.MakingDirectory? && !phase.Populating()
    }
  }

  // ---------------------------------------------------------------------------------------------
  // The system: the disk, the processes, and what an observer has recorded.

  datatype Evaluation = Evaluation(directory: Directory, slot: nat, runId: string, manifest: Manifest, corpus: Corpus)

  datatype History = History(
    evaluations: seq<Evaluation>,             // calls of `evaluate`, in order
    openings: seq<Directory>,                 // reads of a corpus by a run, in order
    stateFiles: seq<Directory>,               // creations of a state file, in order
    known: set<(Directory, Manifest)>,        // manifests ever visible, with the directory they name
    issued: set<(Directory, Manifest)>,       // those written by a seal
    placed: set<Directory>,                   // directories named by any other manifest
    edited: set<Directory>,                   // directories whose corpus bytes were changed by hand
    makers: map<Directory, nat>)              // the seal that made each directory

  datatype System = System(disk: Disk, processes: map<nat, Process>, history: History)

  datatype Action =
    | Spawn(pid: nat, task: Task)
    | Advance(pid: nat)
    | Fail(pid: nat)                           // the operation throws without effect
    | LeaveLock(pid: nat)                      // the lock file is created, then writing it throws
    | Crash(pid: nat)
    | RemoveStaleLock(directory: Directory)    // the custodian, once no process owns the lock
    | PlaceManifest(file: File, manifest: Manifest)
    | EditCorpus(directory: Directory, content: Content<Corpus>)

  const EMPTY_DISK := Disk(map[], {}, map[], map[], map[], {}, {})
  const NO_HISTORY := History([], [], [], {}, {}, {}, {}, map[])
  const INITIAL := System(EMPTY_DISK, map[], NO_HISTORY)

  function Entry(task: Task): Phase {
    if task.Seal? then MakingDirectory else Reading
  }

  predicate Enabled(s: System, a: Action) {
    match a
    case Spawn(pid, _) => pid !in s.processes
    case Advance(pid) => pid in s.processes && s.processes[pid].WellFormed() && s.processes[pid].phase.Live()
    case Fail(pid) => pid in s.processes && s.processes[pid].phase.Live()
    case LeaveLock(pid) =>
      && pid in s.processes && s.processes[pid].phase.Locking?
      && DirectoryOf(s.processes[pid].task.file, s.processes[pid].phase.m) !in s.disk.locks
    case Crash(pid) => pid in s.processes && s.processes[pid].phase.Live()
    case RemoveStaleLock(d) =>
      d in s.disk.locks && (s.disk.locks[d] in s.processes ==> !s.processes[s.disk.locks[d]].phase.Live())
    case PlaceManifest(_, _) => true
    case EditCorpus(d, _) => d in s.disk.directories
  }

  function Apply(s: System, a: Action): System
    requires Enabled(s, a)
  {
    match a
    case Spawn(pid, task) => s.(processes := s.processes[pid := Process(task, Entry(task))])
    case Advance(pid) =>
      var p := s.processes[pid];
      (match p.task
       case Run(file, runId) => AdvanceRun(s, pid, file, runId, p.phase)
       case Contaminate(file, reason) => AdvanceContaminate(s, pid, file, reason, p.phase)
       case Seal(file, corpus) => AdvanceSeal(s, pid, file, corpus, p.phase))
    case Fail(pid) =>
      var phase := s.processes[pid].phase;
      MoveTo(s, pid, if phase.Critical() && !phase.Releasing? then Releasing(phase.m) else Ended)
    case LeaveLock(pid) =>
      var d := DirectoryOf(s.processes[pid].task.file, s.processes[pid].phase.m);
      MoveTo(s.(disk := s.disk.(locks := s.disk.locks[d := pid])), pid, Ended)
    case Crash(pid) => MoveTo(s, pid, Crashed)
    case RemoveStaleLock(d) => s.(disk := s.disk.(locks := s.disk.locks - {d}))
    case PlaceManifest(file, m) =>
      var d := DirectoryOf(file, m);
      s.(disk := s.disk.(manifests := s.disk.manifests[file := Whole(m)]),
         history := s.history.(known := s.history.known + {(d, m)},
                               placed := if (d, m) in s.history.issued then s.history.placed
                                 else s.history.placed + {d}))
    case EditCorpus(d, content) =>
      s.(disk := s.disk.(corpora := s.disk.corpora[d := content]),
         history := s.history.(edited := s.history.edited + {d}))
  }

  function MoveTo(s: System, pid: nat, phase: Phase): System
    requires pid in s.processes
  {
    s.(processes := s.processes[pid := s.processes[pid].(phase := phase)])
  }

  /** `runHoldout`. */
  function AdvanceRun(s: System, pid: nat, file: File, runId: string, phase: Phase): System
    requires pid in s.processes && phase.Live() && !phase.MakingDirectory? && !phase.Populating()
  {
    match phase
    case Reading =>
      var m := ManifestOf(s.disk, file);
      MoveTo(s, pid, if m.Some? && m.value.purpose.Protected? then Locating(m.value) else Ended)
    case Locating(m) => MoveTo(s, pid, if DirectoryOf(file, m) in s.disk.directories then Locking(m) else Ended)
    case Locking(m) => TakeLock(s, pid, file, m)
    case Checking(m) =>
      var found := StateOf(s.disk, DirectoryOf(file, m), m);
      MoveTo(s, pid, if found.Some? && found.value.status.Sealed? && |found.value.runs| < m.maxRuns
                     then Writing(m, found.value) else Releasing(m))
    case Writing(m, found) =>
      var d := DirectoryOf(file, m);
      var reserved := found.(runs := found.runs + [runId]);
      MoveTo(s.(disk := s.disk.(states := s.disk.states[d := Whole(reserved)])), pid, Planning(m, |found.runs|))
    case Planning(m, slot) =>
      var entry := (DirectoryOf(file, m), runId);
      if entry in s.disk.plans then MoveTo(s, pid, Releasing(m))
      else MoveTo(s.(disk := s.disk.(plans := s.disk.plans + {entry})), pid, Opening(m, slot))
    case Opening(m, slot) =>
      var d := DirectoryOf(file, m);
      var corpus := CorpusOf(s.disk, d, m);
      MoveTo(s.(history := s.history.(openings := s.history.openings + [d])), pid,
             if corpus.Some? then Starting(m, slot, corpus.value) else Releasing(m))
    case Starting(m, slot, corpus) =>
      var started := Evaluation(DirectoryOf(file, m), slot, runId, m, corpus);
      MoveTo(s.(history := s.history.(evaluations := s.history.evaluations + [started])), pid, Reporting(m, slot))
    case Reporting(m, slot) =>
      var entry := (DirectoryOf(file, m), runId);
      if entry in s.disk.aggregates then MoveTo(s, pid, Releasing(m))
      else MoveTo(s.(disk := s.disk.(aggregates := s.disk.aggregates + {entry})), pid, Releasing(m))
    case Releasing(m) => Release(s, pid, file, m)
  }

  /** `contaminateHoldout`. */
  function AdvanceContaminate(s: System, pid: nat, file: File, reason: string, phase: Phase): System
    requires pid in s.processes
    requires phase.Reading? || phase.Locating? || phase.Locking? || phase.Checking? || phase.Writing?
      || phase.Releasing?
  {
    match phase
    case Reading =>
      var m := ManifestOf(s.disk, file);
      MoveTo(s, pid, if m.Some? && m.value.purpose.Protected? then Locating(m.value) else Ended)
    case Locating(m) => MoveTo(s, pid, if DirectoryOf(file, m) in s.disk.directories then Locking(m) else Ended)
    case Locking(m) => TakeLock(s, pid, file, m)
    case Checking(m) =>
      var found := StateOf(s.disk, DirectoryOf(file, m), m);
      MoveTo(s, pid, if found.Some? then Writing(m, found.value) else Releasing(m))
    case Writing(m, found) =>
      var marked := found.(status := Contaminated, reason := Some(reason));
      MoveTo(s.(disk := s.disk.(states := s.disk.states[DirectoryOf(file, m) := Whole(marked)])), pid, Releasing(m))
    case Releasing(m) => Release(s, pid, file, m)
  }

  /** The exclusive (`wx`) creation of the lock file. */
  function TakeLock(s: System, pid: nat, file: File, m: Manifest): System
    requires pid in s.processes
  {
    var d := DirectoryOf(file, m);
    if d in s.disk.locks then MoveTo(s, pid, Ended)
    else MoveTo(s.(disk := s.disk.(locks := s.disk.locks[d := pid])), pid, Checking(m))
  }

  /** The forced removal of the lock file in `finally`. */
  function Release(s: System, pid: nat, file: File, m: Manifest): System
    requires pid in s.processes
  {
    MoveTo(s.(disk := s.disk.(locks := s.disk.locks - {DirectoryOf(file, m)})), pid, Ended)
  }

  /** `sealProtectedCorpusValue`. */
  function AdvanceSeal(s: System, pid: nat, file: File, corpus: Corpus, phase: Phase): System
    requires pid in s.processes && (phase.MakingDirectory? || phase.Populating())
  {
    var m := SealedManifest(corpus);
    var d := DirectoryOf(file, m);
    match phase
    case MakingDirectory =>
      if d in s.disk.directories then MoveTo(s, pid, Ended)
      else MoveTo(s.(disk := s.disk.(directories := s.disk.directories + {d}),
                     history := s.history.(makers := s.history.makers[d := pid])), pid, CreatingCorpus)
    case CreatingCorpus =>
      if d in s.disk.corpora then MoveTo(s, pid, Ended)
      else MoveTo(s.(disk := s.disk.(corpora := s.disk.corpora[d := Torn])), pid, FillingCorpus)
    case FillingCorpus => MoveTo(s.(disk := s.disk.(corpora := s.disk.corpora[d := Whole(corpus)])), pid, CreatingState)
    case CreatingState =>
      if d in s.disk.states then MoveTo(s, pid, Ended)
      else MoveTo(s.(disk := s.disk.(states := s.disk.states[d := Torn]),
                     history := s.history.(stateFiles := s.history.stateFiles + [d])), pid, FillingState)
    case FillingState =>
      MoveTo(s.(disk := s.disk.(states := s.disk.states[d := Whole(RunState(m.corpusHash, Sealed, [], None))])), pid,
        CreatingManifest)
    case CreatingManifest =>
      if file in s.disk.manifests then MoveTo(s, pid, Ended)
      else MoveTo(s.(disk := s.disk.(manifests := s.disk.manifests[file := Torn])), pid, FillingManifest)
    case FillingManifest =>
      MoveTo(s.(disk := s.disk.(manifests := s.disk.manifests[file := Whole(m)]),
                history := s.history.(known := s.history.known + {(d, m)}, issued := s.history.issued + {(d, m)})),
                  pid, Ended)
  }

  // ---------------------------------------------------------------------------------------------
  // Executions.

  /** A run of the whole system: a state after each action. */
  ghost predicate Execution(states: seq<System>, actions: seq<Action>) {
    && |states| == |actions| + 1
    && states[0] == INITIAL
    && forall i :: 0 <= i < |actions| ==>
      Enabled(states[i], actions[i]) && states[i + 1] == Apply(states[i], actions[i])
  }
}
