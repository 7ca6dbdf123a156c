/** Publications that overlap (scripts/atomic-publication.ts): any number of calls on one directory, one
    step for each file operation, an exception or a crash possible at each. An open file is written through
    its handle, whatever name it has by then. */
module PublicationRaces {
  import opened Options
  import opened FileContents
  import opened Publication

  /** Names of files, and what the files hold. */
  datatype Disk = Disk(names: map<Path, nat>, contents: seq<Content<Bytes>>)

  /** No name is dangling and no file has two names. */
  ghost predicate WellFormed(disk: Disk) {
    && (forall p :: p in disk.names ==> disk.names[p] < |disk.contents|)
    && (forall p, q :: p in disk.names && q in disk.names && disk.names[p] == disk.names[q] ==> p == q)
  }

  function View(disk: Disk): Files {
    map p | p in disk.names && disk.names[p] < |disk.contents| :: disk.contents[disk.names[p]]
  }

  datatype Phase =
    | OpeningArtifact
    | FillingArtifact(file: nat)
    | CheckingArtifact
    | MovingArtifact
    | CheckingTarget
    | OpeningIndex
    | FillingIndex(file: nat)
    | CheckingIndex
    | Committing
    | MovingIndex
    | RemovingArtifact
    | RemovingIndex
    | Ended
    | Crashed
  {
    predicate Live() {
      !Ended? && !Crashed?
    }

    /** The artifact has been found in its place. */
    predicate Publishing() {
      OpeningIndex? || FillingIndex? || CheckingIndex? || Committing? || MovingIndex?
    }

    predicate Filling() {
      FillingArtifact? || FillingIndex?
    }
  }

  datatype Caller = Caller(job: Job, phase: Phase)

  datatype System = System(disk: Disk, calls: map<nat, Caller>)

  /** `torn`: the interrupted write leaves a torn file. */
  datatype Action = Start(pid: nat, job: Job) | Advance(pid: nat) | Fail(pid: nat, torn: bool) | Crash(pid: nat,
    torn: bool)

  predicate Enabled(s: System, a: Action) {
    if a.Start? then a.pid !in s.calls else a.pid in s.calls && s.calls[a.pid].phase.Live()
  }

  function Goto(s: System, pid: nat, disk: Disk, phase: Phase): System
    requires pid in s.calls
  {
    System(disk, s.calls[pid := s.calls[pid].(phase := phase)])
  }

  /** Opening for writing truncates a file that exists. */
  function Opened(disk: Disk, path: Path): Disk {
    if path in disk.names && disk.names[path] < |disk.contents|
      then disk.(contents := disk.contents[disk.names[path] := Torn])
    else Disk(disk.names[path := |disk.contents|], disk.contents + [Torn])
  }

  function Handle(disk: Disk, path: Path): nat {
    if path in disk.names then disk.names[path] else |disk.contents|
  }

  /** The bytes are written over what the file holds: the end of a longer content stays. */
  function Filled(disk: Disk, file: nat, bytes: Bytes): Disk {
    if file < |disk.contents|
      then disk.(contents := disk.contents[file := Whole(Overlay(bytes, disk.contents[file]))]) else disk
  }

  function Overlay(bytes: Bytes, was: Content<Bytes>): Bytes {
    if was.Whole? && |was.value| > |bytes| then bytes + was.value[|bytes|..] else bytes
  }

  function TornAt(disk: Disk, file: nat): Disk {
    if file < |disk.contents| then disk.(contents := disk.contents[file := Torn]) else disk
  }

  function Renamed(disk: Disk, from: Path, to: Path): Disk
    requires from in disk.names
  {
    disk.(names := disk.names[to := disk.names[from]] - {from})
  }

  function Removed(disk: Disk, path: Path): Disk {
    disk.(names := disk.names - {path})
  }

  predicate ArtifactValid(disk: Disk, path: Path, rules: Rules, commitment: string) {
    var file := Lookup(View(disk), path);
    file.Some? && file.value.Whole? && rules.artifactOk(commitment, file.value.value)
  }

  predicate IndexValid(disk: Disk, rules: Rules, commitment: string) {
    var file := Lookup(View(disk), IndexTemp);
    file.Some? && file.value.Whole? && rules.names(file.value.value) == Some(commitment)
  }

  function Apply(s: System, a: Action, rules: Rules): System
    requires Enabled(s, a)
  {
    match a
    case Start(pid, job) => s.(calls := s.calls[pid := Caller(job, OpeningArtifact)])
    case Advance(pid) => Step(s, pid, s.calls[pid].job, s.calls[pid].phase, rules)
    case Fail(pid, torn) => Goto(s, pid, Interrupted(s, pid, torn), AfterFailure(s.calls[pid].phase))
    case Crash(pid, torn) => Goto(s, pid, Interrupted(s, pid, torn), Crashed)
  }

  function Interrupted(s: System, pid: nat, torn: bool): Disk
    requires pid in s.calls
  {
    if torn && s.calls[pid].phase.Filling() then TornAt(s.disk, s.calls[pid].phase.file) else s.disk
  }

  /** `finally` removes both temporary files, and exceptions there are swallowed. */
  function AfterFailure(phase: Phase): Phase {
    if phase.RemovingArtifact? then RemovingIndex else if phase.RemovingIndex? then Ended else RemovingArtifact
  }

  function Step(s: System, pid: nat, job: Job, phase: Phase, rules: Rules): System
    requires pid in s.calls && phase.Live()
  {
    var disk, temp, target := s.disk, ArtifactTemp(job.commitment), Artifact(job.commitment);
    match phase
    case OpeningArtifact => Goto(s, pid, Opened(disk, temp), FillingArtifact(Handle(disk, temp)))
    case FillingArtifact(file) => Goto(s, pid, Filled(disk, file, job.artifact), CheckingArtifact)
    case CheckingArtifact => Goto(s, pid, disk,
      if ArtifactValid(disk, temp, rules, job.commitment) then MovingArtifact else RemovingArtifact)
    case MovingArtifact =>
      if temp in disk.names then Goto(s, pid, Renamed(disk, temp, target), CheckingTarget)
        else Goto(s, pid, disk, RemovingArtifact)
    case CheckingTarget => Goto(s, pid, disk,
      if ArtifactValid(disk, target, rules, job.commitment) then OpeningIndex else RemovingArtifact)
    case OpeningIndex => Goto(s, pid, Opened(disk, IndexTemp), FillingIndex(Handle(disk, IndexTemp)))
    case FillingIndex(file) => Goto(s, pid, Filled(disk, file, job.index), CheckingIndex)
    case CheckingIndex => Goto(s, pid, disk,
      if IndexValid(disk, rules, job.commitment) then Committing else RemovingArtifact)
    case Committing => Goto(s, pid, disk, MovingIndex)
    case MovingIndex =>
      if IndexTemp in disk.names then Goto(s, pid, Renamed(disk, IndexTemp, Index), RemovingArtifact)
        else Goto(s, pid, disk, RemovingArtifact)
    case RemovingArtifact => Goto(s, pid, Removed(disk, temp), RemovingIndex)
    case RemovingIndex => Goto(s, pid, Removed(disk, IndexTemp), Ended)
  }

  /** A call that does not crash comes to its end only by way of both removals, whether or not they throw; one
      that does not throw leaves no temporary file. */
  lemma EndsByBothRemovals(s: System, a: Action, rules: Rules)
    requires Enabled(s, a) && (a.Advance? || a.Fail?)
    ensures var s' := Apply(s, a, rules);
      var before, after := s.calls[a.pid].phase, s'.calls[a.pid].phase;
      && (after.Ended? <==> before.RemovingIndex?)
      && (after.RemovingIndex? <==> before.RemovingArtifact?)
      && (a.Fail? && !before.RemovingArtifact? && !before.RemovingIndex? ==> after.RemovingArtifact?)
      && (a.Advance? && before.RemovingArtifact? ==>
            ArtifactTemp(s.calls[a.pid].job.commitment) !in s'.disk.names)
      && (a.Advance? && before.RemovingIndex? ==> IndexTemp !in s'.disk.names)
  {
  }

  /** Any interleaving of calls on a directory that is sound at first. */
  ghost predicate Execution(states: seq<System>, actions: seq<Action>, rules: Rules) {
    && |states| == |actions| + 1
    && WellFormed(states[0].disk) && Sound(View(states[0].disk), rules) && states[0].calls == map[]
    && forall i :: 0 <= i < |actions| ==>
      Enabled(states[i], actions[i]) && states[i + 1] == Apply(states[i], actions[i], rules)
  }

  // ---------------------------------------------------------------------------------------------
  // Validated files that nobody else is writing.

  /** The temporary file a call has validated and not yet moved. */
  function Validated(caller: Caller): Option<Path> {
    if caller.phase.MovingArtifact? then Some(ArtifactTemp(caller.job.commitment))
    else if caller.phase.Committing? || caller.phase.MovingIndex? then Some(IndexTemp)
    else None
  }

  /** Call `q` has the file `path` open for writing. */
  predicate Writing(s: System, q: nat, path: Path) {
    q in s.calls && s.calls[q].phase.Filling() && path in s.disk.names && s.disk.names[path] == s.calls[q].phase.file
  }

  /** Between a call's validation of a file and its rename, no other call writes the file. */
  ghost predicate Exclusive(s: System) {
    forall p, q :: p in s.calls && q in s.calls && Validated(s.calls[p]).Some? ==>
      !Writing(s, q, Validated(s.calls[p]).value)
  }

  /** What a call relies on. */
  ghost predicate Fits(s: System, p: nat, rules: Rules)
    requires p in s.calls
  {
    var job, phase := s.calls[p].job, s.calls[p].phase;
    && (phase.FillingArtifact? ==>
      phase.file < |s.disk.contents| && NamedOnly(s.disk, phase.file, ArtifactTemp(job.commitment)))
    && (phase.FillingIndex? ==> phase.file < |s.disk.contents| && NamedOnly(s.disk, phase.file, IndexTemp))
    && (phase.MovingArtifact? && ArtifactTemp(job.commitment) in s.disk.names ==>
          ArtifactValid(s.disk, ArtifactTemp(job.commitment), rules, job.commitment))
    && ((phase.Committing? || phase.MovingIndex?) && IndexTemp in s.disk.names ==>
      IndexValid(s.disk, rules, job.commitment))
    && (phase.Publishing() ==> Stands(View(s.disk), rules, job.commitment))
  }

  /** The file has the name `path`, or none any more. */
  ghost predicate NamedOnly(disk: Disk, file: nat, path: Path) {
    forall q :: q in disk.names && disk.names[q] == file ==> q == path
  }

  ghost predicate Orderly(s: System, rules: Rules) {
    && WellFormed(s.disk) && Sound(View(s.disk), rules)
    && forall p :: p in s.calls ==> Fits(s, p, rules)
  }

  predicate Temporary(path: Path) {
    path.ArtifactTemp? || path.IndexTemp?
  }

  // ---------------------------------------------------------------------------------------------
  // What one file operation changes.

  /** Only what the name `path` leads to is different. */
  ghost predicate OnlyAt(before: Disk, after: Disk, path: Path) {
    && WellFormed(after) && |before.contents| <= |after.contents|
    && (forall q :: q != path ==> Lookup(View(after), q) == Lookup(View(before), q))
    && (forall f: nat, q :: f < |before.contents| && NamedOnly(before, f, q) ==> NamedOnly(after, f, q))
  }

  lemma OpenedOnlyAt(disk: Disk, path: Path)
    requires WellFormed(disk)
    ensures OnlyAt(disk, Opened(disk, path), path)
    ensures Handle(disk, path) < |Opened(disk, path).contents|
      && NamedOnly(Opened(disk, path), Handle(disk, path), path)
    ensures path in Opened(disk, path).names && Opened(disk, path).names[path] == Handle(disk, path)
  {
    hide OnlyAt;
    if path in disk.names {
      WrittenOnlyAt(disk, disk.names[path], path, Torn);
    } else {
      CreatedOnlyAt(disk, path);
    }
  }

  lemma CreatedOnlyAt(disk: Disk, path: Path)
    requires WellFormed(disk) && path !in disk.names
    ensures OnlyAt(disk, Disk(disk.names[path := |disk.contents|], disk.contents + [Torn]), path)
  {
    var after := Disk(disk.names[path := |disk.contents|], disk.contents + [Torn]);
    forall q | q != path ensures Lookup(View(after), q) == Lookup(View(disk), q) {
      if q in disk.names {
        assert after.names[q] == disk.names[q] && after.contents[disk.names[q]] == disk.contents[disk.names[q]];
      }
    }
  }

  lemma WrittenOnlyAt(disk: Disk, file: nat, path: Path, content: Content<Bytes>)
    requires WellFormed(disk) && file < |disk.contents| && NamedOnly(disk, file, path)
    ensures OnlyAt(disk, disk.(contents := disk.contents[file := content]), path)
    ensures !(path in disk.names && disk.names[path] == file) ==>
      View(disk.(contents := disk.contents[file := content])) == View(disk)
  {
  }

  lemma RemovedOnlyAt(disk: Disk, path: Path)
    requires WellFormed(disk)
    ensures OnlyAt(disk, Removed(disk, path), path) && path !in Removed(disk, path).names
  {
  }

  lemma RenamedMoves(disk: Disk, from: Path, to: Path)
    requires WellFormed(disk) && from in disk.names && from != to
    ensures WellFormed(Renamed(disk, from, to)) && View(Renamed(disk, from, to)) == Moved(View(disk), from, to)
    ensures forall f: nat, q ::
      NamedOnly(disk, f, q) && disk.names[from] != f ==> NamedOnly(Renamed(disk, from, to), f, q)
  {
    hide View, WellFormed;
    RenamedWellFormed(disk, from, to);
    RenamedView(disk, from, to);
  }

  lemma RenamedWellFormed(disk: Disk, from: Path, to: Path)
    requires WellFormed(disk) && from in disk.names && from != to
    ensures WellFormed(Renamed(disk, from, to))
  {
  }

  lemma RenamedView(disk: Disk, from: Path, to: Path)
    requires WellFormed(disk) && from in disk.names && from != to
    ensures from in View(disk) && View(Renamed(disk, from, to)) == Moved(View(disk), from, to)
  {
    var after := Renamed(disk, from, to);
    assert View(after).Keys == Moved(View(disk), from, to).Keys;
    forall q | q in View(after) ensures View(after)[q] == Moved(View(disk), from, to)[q] {
    }
  }

  /** Targets are as before. */
  lemma SoundAnyway(before: Disk, after: Disk, path: Path, rules: Rules)
    requires OnlyAt(before, after, path) && Temporary(path)
    ensures forall c :: Stands(View(before), rules, c) ==> Stands(View(after), rules, c)
    ensures Sound(View(before), rules) ==> Sound(View(after), rules)
  {
  }

  // ---------------------------------------------------------------------------------------------
  // Every action keeps order, as long as it keeps the calls apart.

  /** What the others see of a step of `p`. */
  ghost predicate Seen(s: System, s': System, p: nat, rules: Rules) {
    && WellFormed(s'.disk) && Sound(View(s'.disk), rules) && |s.disk.contents| <= |s'.disk.contents|
    && s'.calls.Keys == s.calls.Keys + {p} && (forall q :: q in s.calls && q != p ==> s'.calls[q] == s.calls[q])
    && (forall c :: Stands(View(s.disk), rules, c) ==> Stands(View(s'.disk), rules, c))
    && (forall path :: Temporary(path) && path in s'.disk.names ==>
          || (path in s.disk.names && Lookup(View(s'.disk), path) == Lookup(View(s.disk), path))
          || Writing(s, p, path) || Writing(s', p, path))
    && (forall f: nat,
      path :: f < |s.disk.contents| && NamedOnly(s.disk, f, path) ==> NamedOnly(s'.disk, f, path) || Moves(s, p, f))
  }

  /** `p` is about to rename the file. */
  predicate Moves(s: System, p: nat, f: nat) {
    p in s.calls && Validated(s.calls[p]).Some? && Validated(s.calls[p]).value in s.disk.names
      && s.disk.names[Validated(s.calls[p]).value] == f
  }

  lemma OtherFits(s: System, s': System, p: nat, q: nat, rules: Rules)
    requires Orderly(s, rules) && Exclusive(s) && Exclusive(s') && Seen(s, s', p, rules) && q in s.calls && q != p
    ensures Fits(s', q, rules)
  {
    hide Stands, Sound, WellFormed;
    assert Fits(s, q, rules) && s'.calls[q] == s.calls[q];
    var phase, job := s.calls[q].phase, s.calls[q].job;
    if phase.Filling() {
      assert !Moves(s, p, phase.file);
    }
    assert Temporary(IndexTemp) && Temporary(ArtifactTemp(job.commitment));
  }

  lemma SeenKeeps(s: System, s': System, p: nat, rules: Rules)
    requires Orderly(s, rules) && Exclusive(s) && Exclusive(s') && Seen(s, s', p, rules)
    requires p in s'.calls && Fits(s', p, rules)
    ensures Orderly(s', rules)
  {
    hide Exclusive, Fits;
    forall q | q in s'.calls ensures Fits(s', q, rules) {
      if q != p {
        OtherFits(s, s', p, q, rules);
      }
    }
  }

  /** A step that only touches the temporary file `path`. */
  lemma OnlyAtSeen(s: System, s': System, p: nat, path: Path, rules: Rules)
    requires Orderly(s, rules) && OnlyAt(s.disk, s'.disk, path) && Temporary(path)
    requires s'.calls.Keys == s.calls.Keys + {p} && forall q :: q in s.calls && q != p ==> s'.calls[q] == s.calls[q]
    requires path !in s'.disk.names || View(s'.disk) == View(s.disk) || Writing(s, p, path) || Writing(s', p, path)
    ensures Seen(s, s', p, rules)
  {
    hide Stands, Sound, Fits;
    SoundAnyway(s.disk, s'.disk, path, rules);
    forall q | Temporary(q) && q in s'.disk.names
      ensures (q in s.disk.names && Lookup(View(s'.disk), q) == Lookup(View(s.disk), q)) || Writing(s, p, q)
        || Writing(s', p, q)
    {
      assert q in View(s'.disk);
      if q != path {
        assert Lookup(View(s'.disk), q) == Lookup(View(s.disk), q);
      }
    }
  }

  lemma QuietKeeps(s: System, s': System, p: nat, rules: Rules)
    requires Orderly(s, rules) && Exclusive(s) && Exclusive(s') && s'.disk == s.disk
    requires s'.calls.Keys == s.calls.Keys + {p} && forall q :: q in s.calls && q != p ==> s'.calls[q] == s.calls[q]
    requires p in s'.calls && Fits(s', p, rules)
    ensures Orderly(s', rules)
  {
    hide Stands, Sound, Fits, Exclusive;
    SeenKeeps(s, s', p, rules);
  }

  lemma OpeningKeeps(s: System, p: nat, path: Path, phase: Phase, rules: Rules)
    requires Orderly(s, rules) && p in s.calls
    requires (phase.FillingArtifact? && path == ArtifactTemp(s.calls[p].job.commitment))
      || (phase.FillingIndex? && path == IndexTemp)
    requires phase.file == Handle(s.disk, path)
    requires phase.FillingIndex? ==> Stands(View(s.disk), rules, s.calls[p].job.commitment)
    requires Exclusive(s) && Exclusive(Goto(s, p, Opened(s.disk, path), phase))
    ensures Orderly(Goto(s, p, Opened(s.disk, path), phase), rules)
    ensures forall c :: Stands(View(s.disk), rules, c) ==> Stands(View(Opened(s.disk, path)), rules, c)
  {
    hide Stands, Sound, OnlyAt, Opened, Exclusive, View, WellFormed;
    OpenedOnlyAt(s.disk, path);
    var s' := Goto(s, p, Opened(s.disk, path), phase);
    SoundAnyway(s.disk, s'.disk, path, rules);
    assert Writing(s', p, path);
    OnlyAtSeen(s, s', p, path, rules);
    SeenKeeps(s, s', p, rules);
  }

  /** The file a call has open gets new contents. */
  lemma WritingKeeps(s: System, p: nat, content: Content<Bytes>, phase: Phase, rules: Rules)
    requires Orderly(s, rules) && p in s.calls && s.calls[p].phase.Filling()
    requires phase.RemovingArtifact? || phase.Crashed?
      || (s.calls[p].phase.FillingArtifact? && phase.CheckingArtifact?)
      || (s.calls[p].phase.FillingIndex? && phase.CheckingIndex?)
    ensures s.calls[p].phase.file < |s.disk.contents|
    ensures var s' := Goto(s, p, s.disk.(contents := s.disk.contents[s.calls[p].phase.file := content]), phase);
      && (Exclusive(s) && Exclusive(s') ==> Orderly(s', rules))
      && forall c :: Stands(View(s.disk), rules, c) ==> Stands(View(s'.disk), rules, c)
  {
    hide Stands, Sound, OnlyAt, Exclusive, View, WellFormed;
    assert Fits(s, p, rules);
    var file := s.calls[p].phase.file;
    var path := if s.calls[p].phase.FillingIndex? then IndexTemp else ArtifactTemp(s.calls[p].job.commitment);
    var s' := Goto(s, p, s.disk.(contents := s.disk.contents[file := content]), phase);
    WrittenOnlyAt(s.disk, file, path, content);
    SoundAnyway(s.disk, s'.disk, path, rules);
    if Exclusive(s) && Exclusive(s') {
      assert Fits(s', p, rules);
      OnlyAtSeen(s, s', p, path, rules);
      SeenKeeps(s, s', p, rules);
    }
  }

  lemma RemovingKeeps(s: System, p: nat, path: Path, phase: Phase, rules: Rules)
    requires Orderly(s, rules) && p in s.calls && Temporary(path) && (phase.RemovingIndex? || phase.Ended?)
    requires Exclusive(s) && Exclusive(Goto(s, p, Removed(s.disk, path), phase))
    ensures Orderly(Goto(s, p, Removed(s.disk, path), phase), rules)
    ensures forall c :: Stands(View(s.disk), rules, c) ==> Stands(View(Removed(s.disk, path)), rules, c)
  {
    hide Stands, Sound, OnlyAt, Exclusive, View, WellFormed, Removed;
    RemovedOnlyAt(s.disk, path);
    var s' := Goto(s, p, Removed(s.disk, path), phase);
    SoundAnyway(s.disk, s'.disk, path, rules);
    OnlyAtSeen(s, s', p, path, rules);
    SeenKeeps(s, s', p, rules);
  }

  /** A validated file takes the place of its target. */
  lemma RenamingSeen(s: System, p: nat, to: Path, phase: Phase, rules: Rules)
    requires Orderly(s, rules) && p in s.calls && Validated(s.calls[p]).Some?
      && Validated(s.calls[p]).value in s.disk.names
    requires to == if s.calls[p].phase.MovingArtifact? then Artifact(s.calls[p].job.commitment) else Index
    requires s.calls[p].phase.MovingArtifact? || s.calls[p].phase.MovingIndex?
    ensures Seen(s, Goto(s, p, Renamed(s.disk, Validated(s.calls[p]).value, to), phase), p, rules)
  {
    hide NamedOnly, Exclusive, View, WellFormed, Sound, Stands;
    assert Fits(s, p, rules);
    var from, job := Validated(s.calls[p]).value, s.calls[p].job;
    var after := Renamed(s.disk, from, to);
    RenamedMoves(s.disk, from, to);
    if s.calls[p].phase.MovingArtifact? {
      ArtifactMoved(View(s.disk), rules, job.commitment);
    } else {
      IndexMoved(View(s.disk), rules, job.commitment);
    }
    forall path | Temporary(path) && path in after.names
      ensures path in s.disk.names && Lookup(View(after), path) == Lookup(View(s.disk), path)
    {
      ViewNames(after);
      ViewNames(s.disk);
    }
  }

  lemma ViewNames(disk: Disk)
    requires WellFormed(disk)
    ensures View(disk).Keys == disk.names.Keys
  {
  }

  lemma ArtifactMoved(files: Files, rules: Rules, commitment: string)
    requires Sound(files, rules)
    requires var temp := Lookup(files, ArtifactTemp(commitment));
      temp.Some? && temp.value.Whole? && rules.artifactOk(commitment, temp.value.value)
    ensures var after := Moved(files, ArtifactTemp(commitment), Artifact(commitment));
      Sound(after, rules) && forall c :: Stands(files, rules, c) ==> Stands(after, rules, c)
  {
    var after := Moved(files, ArtifactTemp(commitment), Artifact(commitment));
    forall c | Stands(files, rules, c) ensures Stands(after, rules, c) {
    }
  }

  lemma IndexMoved(files: Files, rules: Rules, commitment: string)
    requires Stands(files, rules, commitment)
    requires var temp := Lookup(files, IndexTemp);
      temp.Some? && temp.value.Whole? && rules.names(temp.value.value) == Some(commitment)
    ensures var after := Moved(files, IndexTemp, Index);
      Sound(after, rules) && forall c :: Stands(files, rules, c) ==> Stands(after, rules, c)
  {
    var after := Moved(files, IndexTemp, Index);
    forall c | Stands(files, rules, c) ensures Stands(after, rules, c) {
    }
  }

  lemma RenamingKeeps(s: System, p: nat, to: Path, phase: Phase, rules: Rules)
    requires Orderly(s, rules) && p in s.calls && Validated(s.calls[p]).Some?
      && Validated(s.calls[p]).value in s.disk.names
    requires to == if s.calls[p].phase.MovingArtifact? then Artifact(s.calls[p].job.commitment) else Index
    requires s.calls[p].phase.MovingArtifact? || s.calls[p].phase.MovingIndex?
    requires phase.CheckingTarget? || phase.RemovingArtifact?
    requires Exclusive(s) && Exclusive(Goto(s, p, Renamed(s.disk, Validated(s.calls[p]).value, to), phase))
    ensures Orderly(Goto(s, p, Renamed(s.disk, Validated(s.calls[p]).value, to), phase), rules)
    ensures forall c ::
      Stands(View(s.disk), rules, c) ==> Stands(View(Renamed(s.disk, Validated(s.calls[p]).value, to)), rules, c)
  {
    hide Renamed, Stands, Sound, Exclusive, View;
    RenamingSeen(s, p, to, phase, rules);
    SeenKeeps(s, Goto(s, p, Renamed(s.disk, Validated(s.calls[p]).value, to), phase), p, rules);
  }

  lemma AdvanceKeeps(s: System, p: nat, rules: Rules)
    requires Orderly(s, rules) && Enabled(s, Advance(p)) && Exclusive(s) && Exclusive(Apply(s, Advance(p), rules))
    ensures Orderly(Apply(s, Advance(p), rules), rules)
    ensures forall c :: Stands(View(s.disk), rules, c) ==> Stands(View(Apply(s, Advance(p), rules).disk), rules, c)
  {
    hide Opened, Removed, Renamed, Exclusive, WellFormed, Sound, View, Handle, NamedOnly, Overlay;
    assert Fits(s, p, rules);
    var s', phase, job := Apply(s, Advance(p), rules), s.calls[p].phase, s.calls[p].job;
    match phase {
      case OpeningArtifact => OpeningKeeps(s, p, ArtifactTemp(job.commitment), s'.calls[p].phase, rules);
      case OpeningIndex => OpeningKeeps(s, p, IndexTemp, s'.calls[p].phase, rules);
      case FillingArtifact(file) => WritingKeeps(s, p, Whole(Overlay(job.artifact, s.disk.contents[file])),
        CheckingArtifact, rules);
      case FillingIndex(file) => WritingKeeps(s, p, Whole(Overlay(job.index, s.disk.contents[file])), CheckingIndex,
        rules);
      case RemovingArtifact => RemovingKeeps(s, p, ArtifactTemp(job.commitment), RemovingIndex, rules);
      case RemovingIndex => RemovingKeeps(s, p, IndexTemp, Ended, rules);
      case MovingArtifact =>
        if ArtifactTemp(job.commitment) in s.disk.names {
          RenamingKeeps(s, p, Artifact(job.commitment), CheckingTarget, rules);
        } else {
          QuietKeeps(s, s', p, rules);
        }
      case MovingIndex =>
        if IndexTemp in s.disk.names {
          RenamingKeeps(s, p, Index, RemovingArtifact, rules);
        } else {
          QuietKeeps(s, s', p, rules);
        }
      case _ => QuietKeeps(s, s', p, rules);
    }
  }

  lemma ActionKeeps(s: System, a: Action, rules: Rules)
    requires Orderly(s, rules) && Enabled(s, a) && Exclusive(s) && Exclusive(Apply(s, a, rules))
    ensures Orderly(Apply(s, a, rules), rules)
    ensures forall c :: Stands(View(s.disk), rules, c) ==> Stands(View(Apply(s, a, rules).disk), rules, c)
  {
    hide Step, Exclusive, WellFormed, Sound, View, NamedOnly, Stands;
    var s' := Apply(s, a, rules);
    if a.Advance? {
      AdvanceKeeps(s, a.pid, rules);
    } else if !a.Start? && a.torn && s.calls[a.pid].phase.Filling() {
      WritingKeeps(s, a.pid, Torn, s'.calls[a.pid].phase, rules);
    } else {
      QuietKeeps(s, s', a.pid, rules);
    }
  }

  /** Over every interleaving in which no other call writes a temporary file between a call's validation
      of it and its rename: the index is complete and names an artifact that is there and valid, and an
      artifact that once stood stands for ever. */
  lemma {:induction false} ExclusiveIsSound(states: seq<System>, actions: seq<Action>, rules: Rules, i: nat)
    requires Execution(states, actions, rules) && i < |states| && forall k :: 0 <= k <= i ==> Exclusive(states[k])
    ensures Orderly(states[i], rules) && Sound(View(states[i].disk), rules)
    ensures forall k, c ::
      0 <= k <= i && Stands(View(states[k].disk), rules, c) ==> Stands(View(states[i].disk), rules, c)
  {
    hide Apply, Enabled, Exclusive, View, Stands, Fits, Sound;
    if i > 0 {
      ExclusiveIsSound(states, actions, rules, i - 1);
      assert Exclusive(states[i - 1]) && Exclusive(states[i]);
      ActionKeeps(states[i - 1], actions[i - 1], rules);
    }
  }

  // ---------------------------------------------------------------------------------------------
  // Playing actions in a row.

  function After(s: System, actions: seq<Action>, rules: Rules): Option<System>
    decreases |actions|
  {
    if actions == [] then Some(s)
    else if Enabled(s, actions[0]) then After(Apply(s, actions[0], rules), actions[1..], rules)
    else None
  }

  lemma {:induction false} AfterExecutes(states: seq<System>, done: seq<Action>, actions: seq<Action>, rules: Rules)
      returns (all: seq<System>)
    requires Execution(states, done, rules) && After(states[|states| - 1], actions, rules).Some?
    ensures Execution(all, done + actions, rules) && states <= all
    ensures Some(all[|all| - 1]) == After(states[|states| - 1], actions, rules)
    decreases |actions|
  {
    hide Enabled, Apply;
    if actions == [] {
      all := states;
      assert done + actions == done;
    } else {
      var longer, more := states + [Apply(states[|states| - 1], actions[0], rules)], done + [actions[0]];
      assert Execution(longer, more, rules);
      all := AfterExecutes(longer, more, actions[1..], rules);
      assert more + actions[1..] == done + actions;
    }
  }

  lemma {:induction false} AfterBoth(s: System, first: seq<Action>, second: seq<Action>, rules: Rules)
    requires After(s, first, rules).Some?
    ensures After(s, first + second, rules) == After(After(s, first, rules).value, second, rules)
    decreases |first|
  {
    hide Enabled, Apply;
    if first == [] {
      assert first + second == second;
    } else {
      assert (first + second)[1..] == first[1..] + second;
      AfterBoth(Apply(s, first[0], rules), first[1..], second, rules);
    }
  }

  lemma AfterOne(s: System, a: Action, rules: Rules)
    requires Enabled(s, a)
    ensures After(s, [a], rules) == Some(Apply(s, a, rules))
  {
    hide Enabled, Apply;
    assert After(Apply(s, a, rules), [], rules) == Some(Apply(s, a, rules));
  }

  // ---------------------------------------------------------------------------------------------
  // A file that another call is writing.

  lemma WrittenWellFormed(disk: Disk, file: nat, bytes: Bytes)
    requires WellFormed(disk)
    ensures WellFormed(TornAt(disk, file)) && WellFormed(Filled(disk, file, bytes))
  {
  }

  lemma WellFormedKept(s: System, a: Action, rules: Rules)
    requires WellFormed(s.disk) && Enabled(s, a)
    ensures WellFormed(Apply(s, a, rules).disk)
  {
    hide WellFormed, Opened, Filled, TornAt, Renamed, Removed, OnlyAt, View;
    if !a.Start? {
      var phase, job := s.calls[a.pid].phase, s.calls[a.pid].job;
      var temp := ArtifactTemp(job.commitment);
      if phase.Filling() {
        WrittenWellFormed(s.disk, phase.file, if phase.FillingIndex? then job.index else job.artifact);
      }
      OpenedWellFormed(s.disk, temp);
      OpenedWellFormed(s.disk, IndexTemp);
      if temp in s.disk.names {
        RenamedWellFormed(s.disk, temp, Artifact(job.commitment));
      }
      if IndexTemp in s.disk.names {
        RenamedWellFormed(s.disk, IndexTemp, Index);
      }
    }
  }

  lemma OpenedWellFormed(disk: Disk, path: Path)
    requires WellFormed(disk)
    ensures WellFormed(Opened(disk, path)) && WellFormed(Removed(disk, path))
  {
    OpenedOnlyAt(disk, path);
    RemovedOnlyAt(disk, path);
  }

  lemma {:induction false} WellFormedAlways(states: seq<System>, actions: seq<Action>, rules: Rules, i: nat)
    requires Execution(states, actions, rules) && i < |states|
    ensures WellFormed(states[i].disk)
  {
    hide Apply, Enabled, WellFormed;
    if i > 0 {
      WellFormedAlways(states, actions, rules, i - 1);
      WellFormedKept(states[i - 1], actions[i - 1], rules);
    }
  }

  function Target(caller: Caller): Path {
    if caller.phase.MovingArtifact? then Artifact(caller.job.commitment) else Index
  }

  /** `p` goes on and moves the file it has validated; then the write of `q` is interrupted. */
  function MoveThenTear(s: System, p: nat, q: nat): seq<Action>
    requires p in s.calls
  {
    (if s.calls[p].phase.Committing? then [Advance(p)] else []) + [Advance(p), Fail(q, true)]
  }

  /** The file `p` moves is not torn where it has been moved to, even if a write of `q` fails then. */
  ghost predicate Survives(s: System, p: nat, q: nat, rules: Rules)
    requires p in s.calls && Validated(s.calls[p]).Some?
  {
    var end := After(s, MoveThenTear(s, p, q), rules);
    Validated(s.calls[p]).value in s.disk.names && end.Some? ==>
      Lookup(View(end.value.disk), Target(s.calls[p])) != Some(Torn)
  }

  lemma WriterTears(s: System, p: nat, q: nat, rules: Rules)
    requires WellFormed(s.disk) && p in s.calls && Validated(s.calls[p]).Some?
      && Writing(s, q, Validated(s.calls[p]).value)
    ensures var end := After(s, MoveThenTear(s, p, q), rules);
      end.Some? && Lookup(View(end.value.disk), Target(s.calls[p])) == Some(Torn)
  {
    hide After, WellFormed, View, Renamed;
    if s.calls[p].phase.Committing? {
      var t := Apply(s, Advance(p), rules);
      AfterOne(s, Advance(p), rules);
      AfterBoth(s, [Advance(p)], [Advance(p), Fail(q, true)], rules);
      assert MoveThenTear(s, p, q) == [Advance(p)] + [Advance(p), Fail(q, true)];
      MoverTears(t, p, q, rules);
    } else {
      assert MoveThenTear(s, p, q) == [Advance(p), Fail(q, true)];
      MoverTears(s, p, q, rules);
    }
  }

  lemma MoverTears(s: System, p: nat, q: nat, rules: Rules)
    requires WellFormed(s.disk) && p in s.calls && (s.calls[p].phase.MovingArtifact? || s.calls[p].phase.MovingIndex?)
    requires Writing(s, q, Validated(s.calls[p]).value)
    ensures var end := After(s, [Advance(p), Fail(q, true)], rules);
      end.Some? && Lookup(View(end.value.disk), Target(s.calls[p])) == Some(Torn)
  {
    hide After;
    var t := Apply(s, Advance(p), rules);
    AfterOne(s, Advance(p), rules);
    AfterBoth(s, [Advance(p)], [Fail(q, true)], rules);
    assert [Advance(p)] + [Fail(q, true)] == [Advance(p), Fail(q, true)];
    AfterOne(t, Fail(q, true), rules);
  }

  lemma NobodyTears(s: System, p: nat, q: nat, rules: Rules)
    requires Orderly(s, rules) && Exclusive(s) && p in s.calls && q in s.calls && Validated(s.calls[p]).Some?
    ensures Survives(s, p, q, rules)
  {
    hide After, Sound, Stands, View;
    assert Fits(s, p, rules);
    if Validated(s.calls[p]).value in s.disk.names && After(s, MoveThenTear(s, p, q), rules).Some? {
      if s.calls[p].phase.Committing? {
        AfterOne(s, Advance(p), rules);
        AfterBoth(s, [Advance(p)], [Advance(p), Fail(q, true)], rules);
        assert MoveThenTear(s, p, q) == [Advance(p)] + [Advance(p), Fail(q, true)];
        MoverKeeps(Apply(s, Advance(p), rules), p, q, rules);
      } else {
        assert MoveThenTear(s, p, q) == [Advance(p), Fail(q, true)];
        MoverKeeps(s, p, q, rules);
      }
    }
  }

  lemma MoverKeeps(s: System, p: nat, q: nat, rules: Rules)
    requires WellFormed(s.disk) && p in s.calls && (s.calls[p].phase.MovingArtifact? || s.calls[p].phase.MovingIndex?)
    requires Validated(s.calls[p]).value in s.disk.names && !Writing(s, q, Validated(s.calls[p]).value)
    requires Lookup(View(s.disk), Validated(s.calls[p]).value).value.Whole?
    ensures var end := After(s, [Advance(p), Fail(q, true)], rules);
      end.Some? ==> Lookup(View(end.value.disk), Target(s.calls[p])) != Some(Torn)
  {
    hide After;
    var t := Apply(s, Advance(p), rules);
    AfterOne(s, Advance(p), rules);
    AfterBoth(s, [Advance(p)], [Fail(q, true)], rules);
    assert [Advance(p)] + [Fail(q, true)] == [Advance(p), Fail(q, true)];
    if Enabled(t, Fail(q, true)) {
      AfterOne(t, Fail(q, true), rules);
    } else {
      AfterNone(t, Fail(q, true), rules);
    }
  }

  lemma AfterNone(s: System, a: Action, rules: Rules)
    requires !Enabled(s, a)
    ensures After(s, [a], rules).None?
  {
  }

  /** In an execution in which no other call wrote a validated file so far, none is writing one now exactly
      when no call can go on to move a file that another call then leaves torn. */
  lemma ExclusiveExactly(states: seq<System>, actions: seq<Action>, rules: Rules)
    requires Execution(states, actions, rules) && forall k :: 0 <= k < |states| - 1 ==> Exclusive(states[k])
    ensures var s := states[|states| - 1];
      Exclusive(s) <==> forall p, q ::
        p in s.calls && q in s.calls && Validated(s.calls[p]).Some? ==> Survives(s, p, q, rules)
  {
    hide Apply, Enabled, After, Fits, Orderly;
    var s := states[|states| - 1];
    if Exclusive(s) {
      ExclusiveIsSound(states, actions, rules, |states| - 1);
      forall p, q | p in s.calls && q in s.calls && Validated(s.calls[p]).Some? ensures Survives(s, p, q, rules) {
        NobodyTears(s, p, q, rules);
      }
    } else {
      var p, q :| p in s.calls && q in s.calls && Validated(s.calls[p]).Some?
        && Writing(s, q, Validated(s.calls[p]).value);
      WellFormedAlways(states, actions, rules, |states| - 1);
      WriterTears(s, p, q, rules);
    }
  }

  /** Conversely, wherever a call is writing the index another call has validated, an execution goes on to
      a torn index, however the state was reached. */
  lemma WrittenMeanwhileTears(states: seq<System>, actions: seq<Action>, rules: Rules, p: nat, q: nat)
      returns (all: seq<System>, more: seq<Action>)
    requires Execution(states, actions, rules)
    requires var s := states[|states| - 1];
      p in s.calls && Validated(s.calls[p]) == Some(IndexTemp) && Writing(s, q, IndexTemp)
    ensures Execution(all, more, rules) && actions <= more
    ensures Lookup(View(all[|all| - 1].disk), Index) == Some(Torn) && !Sound(View(all[|all| - 1].disk), rules)
  {
    hide Apply, Enabled, After;
    var s := states[|states| - 1];
    WellFormedAlways(states, actions, rules, |states| - 1);
    WriterTears(s, p, q, rules);
    all := AfterExecutes(states, actions, MoveThenTear(s, p, q), rules);
    more := actions + MoveThenTear(s, p, q);
  }
}
