/** Two publications that overlap and leave a torn index behind (scripts/atomic-publication.ts). */
module PublicationTears {
  import opened Options
  import opened FileContents
  import opened Publication
  import opened PublicationRaces

  function Advances(pid: nat, n: nat): seq<Action> {
    seq(n, _ => Advance(pid))
  }

  lemma AdvanceOnce(s: System, pid: nat, n: nat, rules: Rules)
    requires n > 0 && Enabled(s, Advance(pid))
    ensures After(s, Advances(pid, n), rules) == After(Apply(s, Advance(pid), rules), Advances(pid, n - 1), rules)
  {
    hide Enabled, Apply;
    assert Advances(pid, n)[1..] == Advances(pid, n - 1);
  }

  lemma AfterNothing(s: System, pid: nat, rules: Rules)
    ensures After(s, Advances(pid, 0), rules) == Some(s)
  {
  }

  function At(disk: Disk, calls: map<nat, Caller>, pid: nat, job: Job, phase: Phase): System {
    System(disk, calls[pid := Caller(job, phase)])
  }

  lemma Steps(disk: Disk, calls: map<nat, Caller>, pid: nat, job: Job, phase: Phase, disk': Disk, next: Phase,
      rules: Rules, n: nat)
    requires n > 0 && phase.Live()
    requires var t := At(disk, calls, pid, job, phase); Apply(t, Advance(pid), rules) == Goto(t, pid, disk', next)
    ensures After(At(disk, calls, pid, job, phase), Advances(pid, n), rules)
      == After(At(disk', calls, pid, job, next), Advances(pid, n - 1), rules)
  {
    hide Apply, After;
    AdvanceOnce(At(disk, calls, pid, job, phase), pid, n, rules);
    assert calls[pid := Caller(job, phase)][pid := Caller(job, next)] == calls[pid := Caller(job, next)];
  }

  /** A new file `path` with the content. */
  function Added(disk: Disk, path: Path, content: Content<Bytes>): Disk {
    Disk(disk.names[path := |disk.contents|], disk.contents + [content])
  }

  lemma AddedLooks(disk: Disk, path: Path, bytes: Bytes)
    ensures Lookup(View(Added(disk, path, Whole(bytes))), path) == Some(Whole(bytes))
  {
  }

  lemma AddedFills(disk: Disk, path: Path, bytes: Bytes)
    ensures Filled(Added(disk, path, Torn), |disk.contents|, bytes) == Added(disk, path, Whole(bytes))
  {
    assert (disk.contents + [Torn])[|disk.contents| := Whole(bytes)] == disk.contents + [Whole(bytes)];
  }

  lemma AddedMoves(disk: Disk, from: Path, to: Path, content: Content<Bytes>)
    requires from !in disk.names && from != to
    ensures Renamed(Added(disk, from, content), from, to) == Added(disk, to, content)
  {
    assert disk.names[from := |disk.contents|][to := |disk.contents|] - {from} == disk.names[to := |disk.contents|];
  }

  lemma AddsArtifact(disk: Disk, calls: map<nat, Caller>, pid: nat, job: Job, rules: Rules)
    requires ArtifactTemp(job.commitment) !in disk.names && rules.artifactOk(job.commitment, job.artifact)
    ensures After(At(disk, calls, pid, job, OpeningArtifact), Advances(pid, 5), rules)
         == Some(At(Added(disk, Artifact(job.commitment), Whole(job.artifact)), calls, pid, job, OpeningIndex))
  {
    hide After, Added, Filled, Renamed, View;
    var temp, file := ArtifactTemp(job.commitment), |disk.contents|;
    var written := Added(disk, temp, Whole(job.artifact));
    AddedOpens(disk, temp);
    AddedFills(disk, temp, job.artifact);
    Steps(disk, calls, pid, job, OpeningArtifact, Added(disk, temp, Torn), FillingArtifact(file), rules, 5);
    Steps(Added(disk, temp, Torn), calls, pid, job, FillingArtifact(file), written, CheckingArtifact, rules, 4);
    MovesArtifact(disk, calls, pid, job, rules);
  }

  lemma MovesArtifact(disk: Disk, calls: map<nat, Caller>, pid: nat, job: Job, rules: Rules)
    requires ArtifactTemp(job.commitment) !in disk.names && rules.artifactOk(job.commitment, job.artifact)
    ensures After(At(Added(disk, ArtifactTemp(job.commitment), Whole(job.artifact)), calls, pid, job,
      CheckingArtifact), Advances(pid, 3), rules)
         == Some(At(Added(disk, Artifact(job.commitment), Whole(job.artifact)), calls, pid, job, OpeningIndex))
  {
    hide After, Added, Filled, Renamed, View;
    var temp, target := ArtifactTemp(job.commitment), Artifact(job.commitment);
    var written, placed := Added(disk, temp, Whole(job.artifact)), Added(disk, target, Whole(job.artifact));
    AddedOpens(disk, temp);
    AddedMoves(disk, temp, target, Whole(job.artifact));
    AddedLooks(disk, temp, job.artifact);
    AddedLooks(disk, target, job.artifact);
    Steps(written, calls, pid, job, CheckingArtifact, written, MovingArtifact, rules, 3);
    Steps(written, calls, pid, job, MovingArtifact, placed, CheckingTarget, rules, 2);
    Steps(placed, calls, pid, job, CheckingTarget, placed, OpeningIndex, rules, 1);
    AfterNothing(At(placed, calls, pid, job, OpeningIndex), pid, rules);
  }

  lemma AddedOpens(disk: Disk, path: Path)
    requires path !in disk.names
    ensures Opened(disk, path) == Added(disk, path, Torn) && Handle(disk, path) == |disk.contents|
    ensures forall content :: path in Added(disk, path, content).names
  {
  }

  lemma AddsIndex(disk: Disk, calls: map<nat, Caller>, pid: nat, job: Job, rules: Rules)
    requires IndexTemp !in disk.names && rules.names(job.index) == Some(job.commitment)
    ensures After(At(disk, calls, pid, job, OpeningIndex), Advances(pid, 4), rules)
         == Some(At(Added(disk, IndexTemp, Whole(job.index)), calls, pid, job, MovingIndex))
  {
    hide After, Added, Filled, View;
    var file, written := |disk.contents|, Added(disk, IndexTemp, Whole(job.index));
    AddedOpens(disk, IndexTemp);
    AddedFills(disk, IndexTemp, job.index);
    AddedLooks(disk, IndexTemp, job.index);
    Steps(disk, calls, pid, job, OpeningIndex, Added(disk, IndexTemp, Torn), FillingIndex(file), rules, 4);
    Steps(Added(disk, IndexTemp, Torn), calls, pid, job, FillingIndex(file), written, CheckingIndex, rules, 3);
    Steps(written, calls, pid, job, CheckingIndex, written, Committing, rules, 2);
    Steps(written, calls, pid, job, Committing, written, MovingIndex, rules, 1);
    AfterNothing(At(written, calls, pid, job, MovingIndex), pid, rules);
  }

  /** `finally` leaves the index as it is. */
  lemma Unlinks(s: System, pid: nat, rules: Rules)
    requires pid in s.calls && s.calls[pid].phase.RemovingArtifact?
    ensures var end := After(s, Advances(pid, 2), rules);
      && end.Some? && end.value.calls == s.calls[pid := s.calls[pid].(phase := Ended)]
      && Lookup(View(end.value.disk), Index) == Lookup(View(s.disk), Index)
  {
    hide After;
    var t := Apply(s, Advance(pid), rules);
    AdvanceOnce(s, pid, 2, rules);
    AdvanceOnce(t, pid, 1, rules);
    AfterNothing(Apply(t, Advance(pid), rules), pid, rules);
    assert s.calls[pid := s.calls[pid].(phase := RemovingIndex)][pid := s.calls[pid].(phase := Ended)]
      == s.calls[pid := s.calls[pid].(phase := Ended)];
  }

  lemma Plays(states: seq<System>, done: seq<Action>, actions: seq<Action>, end: System, rules: Rules)
      returns (all: seq<System>, more: seq<Action>)
    requires Execution(states, done, rules) && After(states[|states| - 1], actions, rules) == Some(end)
    ensures Execution(all, more, rules) && all[|all| - 1] == end && states <= all && more == done + actions
  {
    all := AfterExecutes(states, done, actions, rules);
    more := done + actions;
  }

  lemma Starts(states: seq<System>, done: seq<Action>, pid: nat, job: Job, rules: Rules)
      returns (all: seq<System>, more: seq<Action>)
    requires Execution(states, done, rules) && pid !in states[|states| - 1].calls
    ensures Execution(all, more, rules) && states <= all
    ensures all[|all| - 1] == At(states[|states| - 1].disk, states[|states| - 1].calls, pid, job, OpeningArtifact)
  {
    AfterOne(states[|states| - 1], Start(pid, job), rules);
    all, more := Plays(states, done, [Start(pid, job)], Apply(states[|states| - 1], Start(pid, job), rules), rules);
  }

  /** Two calls on a sound directory with no temporary files, both with a valid artifact and index: the
      second opens the shared temporary index after the first has validated it, the first moves it, and
      the second is interrupted. Both have ended, the first without an exception, and the index is torn. */
  lemma OverlappingCallsTear(disk: Disk, rules: Rules, mine: Job, other: Job)
      returns (states: seq<System>, actions: seq<Action>, moved: nat)
    requires WellFormed(disk) && Sound(View(disk), rules)
    requires ArtifactTemp(mine.commitment) !in disk.names && ArtifactTemp(other.commitment) !in disk.names
      && IndexTemp !in disk.names
    requires rules.artifactOk(mine.commitment, mine.artifact) && rules.names(mine.index) == Some(mine.commitment)
    requires rules.artifactOk(other.commitment, other.artifact)
    ensures Execution(states, actions, rules) && states[0] == System(disk, map[])
    ensures moved < |actions| && actions[moved] == Advance(1) && 1 in states[moved].calls
      && states[moved].calls[1] == Caller(mine, MovingIndex) && IndexTemp in states[moved].disk.names
    ensures var end := states[|states| - 1];
      && end.calls == map[1 := Caller(mine, Ended), 2 := Caller(other, Ended)]
      && Lookup(View(end.disk), Index) == Some(Torn) && !Sound(View(end.disk), rules)
  {
    hide After, Enabled, Apply, View, WellFormed, Sound, Added, MoveThenTear, Writing;
    var both := Added(Added(disk, Artifact(mine.commitment), Whole(mine.artifact)), Artifact(other.commitment),
      Whole(other.artifact));
    var ready, written := map[1 := Caller(mine, OpeningIndex), 2 := Caller(other, OpeningIndex)],
      Added(both, IndexTemp, Whole(mine.index));
    states, actions := BothPlace(disk, rules, mine, other);
    assert IndexTemp !in both.names by {
      AddedNames(disk, Artifact(mine.commitment), Whole(mine.artifact), IndexTemp);
      AddedNames(Added(disk, Artifact(mine.commitment), Whole(mine.artifact)), Artifact(other.commitment),
        Whole(other.artifact), IndexTemp);
    }
    assert ready[1 := Caller(mine, OpeningIndex)] == ready;
    AddsIndex(both, ready, 1, mine, rules);
    states, actions := Plays(states, actions, Advances(1, 4), At(written, ready, 1, mine, MovingIndex), rules);
    var s := states[|states| - 1];
    AddedNames(both, IndexTemp, Whole(mine.index), IndexTemp);
    SecondOpens(s, 2, rules);
    states, actions := Plays(states, actions, [Advance(2)], Apply(s, Advance(2), rules), rules);
    moved := |actions|;
    var t := states[|states| - 1];
    MovesTorn(t, 1, 2, rules);
    states, actions :=
      Plays(states, actions, MoveThenTear(t, 1, 2), After(t, MoveThenTear(t, 1, 2), rules).value, rules);
    var u := states[|states| - 1];
    Unlinks(u, 1, rules);
    states, actions := Plays(states, actions, Advances(1, 2), After(u, Advances(1, 2), rules).value, rules);
    var v := states[|states| - 1];
    Unlinks(v, 2, rules);
    states, actions := Plays(states, actions, Advances(2, 2), After(v, Advances(2, 2), rules).value, rules);
    TornIsUnsound(states[|states| - 1].disk, rules);
  }

  lemma TornIsUnsound(disk: Disk, rules: Rules)
    requires Lookup(View(disk), Index) == Some(Torn)
    ensures !Sound(View(disk), rules)
  {
  }

  lemma AddedNames(disk: Disk, path: Path, content: Content<Bytes>, other: Path)
    ensures other in Added(disk, path, content).names <==> other == path || other in disk.names
    ensures Added(disk, path, content).names[path] < |Added(disk, path, content).contents|
  {
  }

  /** The other call opens the temporary index that is there. */
  lemma SecondOpens(s: System, pid: nat, rules: Rules)
    requires pid in s.calls && s.calls[pid].phase.OpeningIndex? && IndexTemp in s.disk.names
      && s.disk.names[IndexTemp] < |s.disk.contents|
    ensures Enabled(s, Advance(pid)) && After(s, [Advance(pid)], rules) == Some(Apply(s, Advance(pid), rules))
    ensures var t := Apply(s, Advance(pid), rules);
      && Writing(t, pid, IndexTemp) && t.disk.names == s.disk.names && |t.disk.contents| == |s.disk.contents|
      && t.calls == s.calls[pid := s.calls[pid].(phase := FillingIndex(s.disk.names[IndexTemp]))]
  {
    AfterOne(s, Advance(pid), rules);
  }

  lemma MovesTorn(s: System, p: nat, q: nat, rules: Rules)
    requires p in s.calls && s.calls[p].phase.MovingIndex? && Writing(s, q, IndexTemp)
      && s.disk.names[IndexTemp] < |s.disk.contents|
    ensures MoveThenTear(s, p, q) == [Advance(p), Fail(q, true)]
    ensures var end := After(s, MoveThenTear(s, p, q), rules);
      && end.Some? && Lookup(View(end.value.disk), Index) == Some(Torn)
      && end.value.calls
        == s.calls[p := s.calls[p].(phase := RemovingArtifact)][q := s.calls[q].(phase := RemovingArtifact)]
  {
    hide After;
    var t := Apply(s, Advance(p), rules);
    AfterOne(s, Advance(p), rules);
    AfterBoth(s, [Advance(p)], [Fail(q, true)], rules);
    assert MoveThenTear(s, p, q) == [Advance(p)] + [Fail(q, true)];
    AfterOne(t, Fail(q, true), rules);
  }

  /** Both artifacts are in place, and both calls are about to write their index. */
  lemma BothPlace(disk: Disk, rules: Rules, mine: Job, other: Job) returns (states: seq<System>, actions: seq<Action>)
    requires WellFormed(disk) && Sound(View(disk), rules)
    requires ArtifactTemp(mine.commitment) !in disk.names && ArtifactTemp(other.commitment) !in disk.names
    requires rules.artifactOk(mine.commitment, mine.artifact) && rules.artifactOk(other.commitment, other.artifact)
    ensures Execution(states, actions, rules) && states[0] == System(disk, map[])
    ensures states[|states| - 1] == System(
      Added(Added(disk, Artifact(mine.commitment), Whole(mine.artifact)), Artifact(other.commitment),
        Whole(other.artifact)),
      map[1 := Caller(mine, OpeningIndex), 2 := Caller(other, OpeningIndex)])
  {
    hide After, Enabled, Apply, View, WellFormed, Sound;
    var placed := Added(disk, Artifact(mine.commitment), Whole(mine.artifact));
    var both := Added(placed, Artifact(other.commitment), Whole(other.artifact));
    var one := map[1 := Caller(mine, OpeningIndex)];
    states, actions := Starts([System(disk, map[])], [], 1, mine, rules);
    AddsArtifact(disk, map[], 1, mine, rules);
    states, actions := Plays(states, actions, Advances(1, 5), At(placed, map[], 1, mine, OpeningIndex), rules);
    assert At(placed, map[], 1, mine, OpeningIndex) == System(placed, one);
    states, actions := Starts(states, actions, 2, other, rules);
    AddsArtifact(placed, one, 2, other, rules);
    states, actions := Plays(states, actions, Advances(2, 5), At(both, one, 2, other, OpeningIndex), rules);
  }
}
