/** Publishing an artifact and moving the index to it (scripts/atomic-publication.ts), with an exception
    or a crash possible at every file operation. Calls are made one after another. */
module Publication {
  import opened Options
  import opened FileContents

  type Bytes = string

  /** An artifact file is named by its commitment; temporary files stand beside their targets. */
  datatype Path = Artifact(commitment: string) | ArtifactTemp(commitment: string) | Index | IndexTemp

  type Files = map<Path, Content<Bytes>>

  /** The two validations: what is accepted as the artifact of a commitment, and which commitment an
      index names, when it is accepted at all. */
  datatype Rules = Rules(artifactOk: (string, Bytes) -> bool, names: Bytes -> Option<string>)

  datatype Job = Job(commitment: string, artifact: Bytes, index: Bytes)

  function Lookup(files: Files, path: Path): Option<Content<Bytes>> {
    if path in files then Some(files[path]) else None
  }

  /** The artifact of a commitment is there, complete and valid. */
  ghost predicate Stands(files: Files, rules: Rules, commitment: string) {
    var file := Lookup(files, Artifact(commitment));
    file.Some? && file.value.Whole? && rules.artifactOk(commitment, file.value.value)
  }

  /** The index, if there is one, is complete and names an artifact that stands. */
  ghost predicate Sound(files: Files, rules: Rules) {
    var index := Lookup(files, Index);
    index.Some? ==>
      && index.value.Whole? && rules.names(index.value.value).Some?
      && Stands(files, rules, rules.names(index.value.value).value)
  }

  predicate Touches(job: Job, path: Path) {
    path in {Artifact(job.commitment), ArtifactTemp(job.commitment), Index, IndexTemp}
  }

  /** A state a publication may leave behind, wherever it stops. */
  ghost predicate Reached(before: Files, now: Files, rules: Rules, job: Job) {
    && Sound(now, rules)
    && (Lookup(now, Index) == Lookup(before, Index) || Lookup(now, Index) == Some(Whole(job.index)))
    && (forall c :: Stands(before, rules, c) ==> Stands(now, rules, c))
    && (forall path :: !Touches(job, path) ==> Lookup(now, path) == Lookup(before, path))
  }

  // ---------------------------------------------------------------------------------------------
  // File operations.

  datatype Fate = Works | Throws | Dies

  /** `torn`: an interrupted write leaves a torn file. */
  datatype Fault = Fault(fate: Fate, torn: bool)

  function Moved(files: Files, from: Path, to: Path): Files
    requires from in files
  {
    files[to := files[from]] - {from}
  }

  lemma Unchanged(files: Files, rules: Rules, job: Job)
    requires Sound(files, rules)
    ensures Reached(files, files, rules, job)
  {
  }

  lemma ReachedSound(before: Files, now: Files, rules: Rules, job: Job)
    requires Reached(before, now, rules, job)
    ensures Sound(now, rules)
  {
  }

  lemma TempKeeps(before: Files, now: Files, rules: Rules, job: Job, path: Path, content: Content<Bytes>)
    requires Reached(before, now, rules, job) && (path == ArtifactTemp(job.commitment) || path == IndexTemp)
    ensures Reached(before, now[path := content], rules, job)
    ensures forall c :: Stands(now, rules, c) ==> Stands(now[path := content], rules, c)
  {
  }

  lemma UnlinkKeeps(before: Files, now: Files, rules: Rules, job: Job, path: Path)
    requires Reached(before, now, rules, job) && (path == ArtifactTemp(job.commitment) || path == IndexTemp)
    ensures Reached(before, now - {path}, rules, job)
  {
  }

  lemma TargetKeeps(before: Files, now: Files, rules: Rules, job: Job)
    requires Reached(before, now, rules, job)
    requires var temp := Lookup(now, ArtifactTemp(job.commitment));
      temp.Some? && temp.value.Whole? && rules.artifactOk(job.commitment, temp.value.value)
    ensures var after := Moved(now, ArtifactTemp(job.commitment), Artifact(job.commitment));
      Reached(before, after, rules, job) && Stands(after, rules, job.commitment)
  {
    var after := Moved(now, ArtifactTemp(job.commitment), Artifact(job.commitment));
    forall c | Stands(now, rules, c) ensures Stands(after, rules, c) {
    }
  }

  lemma IndexKeeps(before: Files, now: Files, rules: Rules, job: Job)
    requires Reached(before, now, rules, job) && Stands(now, rules, job.commitment)
    requires Lookup(now, IndexTemp) == Some(Whole(job.index)) && rules.names(job.index) == Some(job.commitment)
    ensures Reached(before, Moved(now, IndexTemp, Index), rules, job)
  {
    var after := Moved(now, IndexTemp, Index);
    forall c | Stands(now, rules, c) ensures Stands(after, rules, c) {
    }
  }

  /** The artifact is written, read back, valid, moved, and read and found valid again. */
  predicate ArtifactGoes(rules: Rules, job: Job, faults: nat -> Fault) {
    && faults(0).fate.Works? && faults(1).fate.Works? && rules.artifactOk(job.commitment, job.artifact)
    && faults(2).fate.Works? && faults(3).fate.Works?
  }

  /** The index is written, read back, names the artifact, the last check passes, and it is moved. */
  predicate IndexGoes(rules: Rules, job: Job, commit: bool, faults: nat -> Fault) {
    && faults(4).fate.Works? && faults(5).fate.Works? && rules.names(job.index) == Some(job.commitment)
    && commit && faults(6).fate.Works?
  }

  /** The process dies at one of its nine operations. */
  ghost predicate SomeDies(faults: nat -> Fault) {
    exists k: nat :: k < 9 && faults(k).fate.Dies?
  }

  class Directory {
    var files: Files
    /** Every state the directory has been in. */
    ghost var seen: seq<Files>

    ghost predicate Valid()
      reads this
    {
      seen != [] && files == seen[|seen| - 1]
    }

    constructor (initial: Files)
      ensures Valid() && files == initial && seen == [initial]
    {
      files := initial;
      seen := [initial];
    }

    /** `writeFile` */
    method Write(path: Path, bytes: Bytes, fault: Fault)
      requires Valid()
      modifies this
      ensures Valid()
      ensures files == if fault.fate.Works? then old(files)[path := Whole(bytes)]
        else if fault.torn then old(files)[path := Torn] else old(files)
      ensures seen == old(seen) + if fault.fate.Works? then [old(files)[path := Torn], files] else [files]
    {
      if fault.fate.Works? || fault.torn {
        files := files[path := Torn];
        if fault.fate.Works? {
          seen := seen + [files];
          files := files[path := Whole(bytes)];
        }
      }
      seen := seen + [files];
    }

    /** `rename`, atomic; it throws when there is nothing to move. */
    method Rename(from: Path, to: Path, fate: Fate) returns (went: Fate)
      requires Valid() && from != to
      modifies this
      ensures Valid() && seen == old(seen) + [files]
      ensures went == if fate.Works? && from !in old(files) then Throws else fate
      ensures files == if went.Works? then Moved(old(files), from, to) else old(files)
    {
      went := if fate.Works? && from !in files then Throws else fate;
      if went.Works? {
        files := Moved(files, from, to);
      }
      seen := seen + [files];
    }

    /** `unlink`, whose exceptions are swallowed. */
    method Unlink(path: Path, fate: Fate) returns (died: bool)
      requires Valid()
      modifies this
      ensures Valid() && seen == old(seen) + [files] && died == fate.Dies?
      ensures files == if fate.Works? then old(files) - {path} else old(files)
    {
      if fate.Works? {
        files := files - {path};
      }
      seen := seen + [files];
      died := fate.Dies?;
    }

    /** All states since the `n`-th are such as a publication of `job` starting from `before` may leave. */
    ghost predicate AllReached(n: nat, before: Files, rules: Rules, job: Job)
      reads this
    {
      n <= |seen| && forall i :: n <= i < |seen| ==> Reached(before, seen[i], rules, job)
    }

    /** A temporary file written, read back, validated, and moved to its target. */
    method WriteArtifact(rules: Rules, job: Job, faults: nat -> Fault, ghost n: nat, ghost before: Files)
        returns (went: Fate)
      requires Valid() && AllReached(n, before, rules, job) && Reached(before, files, rules, job)
      modifies this
      ensures Valid() && old(seen) <= seen && AllReached(n, before, rules, job) && Reached(before, files, rules, job)
      ensures went.Works? ==> Stands(files, rules, job.commitment)
      ensures went.Works? <==> ArtifactGoes(rules, job, faults)
      ensures went.Dies? ==> SomeDies(faults)
      ensures Lookup(files, Index) == old(Lookup(files, Index))
    {
      var temp, target := ArtifactTemp(job.commitment), Artifact(job.commitment);
      TempKeeps(before, files, rules, job, temp, Torn);
      TempKeeps(before, files, rules, job, temp, Whole(job.artifact));
      Write(temp, job.artifact, faults(0));
      if !faults(0).fate.Works? {
        return faults(0).fate;
      }
      if !faults(1).fate.Works? {
        return faults(1).fate;
      }
      if !rules.artifactOk(job.commitment, files[temp].value) {
        return Throws;
      }
      TargetKeeps(before, files, rules, job);
      went := Rename(temp, target, faults(2).fate);
      if !went.Works? {
        return;
      }
      if !faults(3).fate.Works? {
        return faults(3).fate;
      }
      if !rules.artifactOk(job.commitment, files[target].value) {
        return Throws;
      }
    }

    method WriteIndex(rules: Rules, job: Job, commit: bool, faults: nat -> Fault, ghost n: nat, ghost before: Files)
        returns (went: Fate)
      requires Valid() && AllReached(n, before, rules, job) && Reached(before, files, rules, job)
        && Stands(files, rules, job.commitment)
      modifies this
      ensures Valid() && old(seen) <= seen && AllReached(n, before, rules, job) && Reached(before, files, rules, job)
      ensures Lookup(files, Index) == if went.Works? then Some(Whole(job.index)) else old(Lookup(files, Index))
      ensures went.Works? <==> IndexGoes(rules, job, commit, faults)
      ensures went.Dies? ==> SomeDies(faults)
    {
      TempKeeps(before, files, rules, job, IndexTemp, Torn);
      TempKeeps(before, files, rules, job, IndexTemp, Whole(job.index));
      Write(IndexTemp, job.index, faults(4));
      if !faults(4).fate.Works? {
        return faults(4).fate;
      }
      if !faults(5).fate.Works? {
        return faults(5).fate;
      }
      if rules.names(files[IndexTemp].value) != Some(job.commitment) || !commit {
        return Throws;
      }
      IndexKeeps(before, files, rules, job);
      went := Rename(IndexTemp, Index, faults(6).fate);
    }

    /** `publishArtifactAndIndex`. `commit`: whether the last check before the index moves passes. */
    method PublishArtifactAndIndex(rules: Rules, job: Job, commit: bool, faults: nat -> Fault) returns (end: Fate)
      requires Valid() && Sound(files, rules)
      modifies this
      ensures Valid() && old(seen) <= seen && Sound(files, rules)
      ensures AllReached(|old(seen)|, old(files), rules, job)
      ensures var goes := ArtifactGoes(rules, job, faults) && IndexGoes(rules, job, commit, faults);
        && Lookup(files, Index) == (if goes then Some(Whole(job.index)) else Lookup(old(files), Index))
        && (end.Works? <==> goes && !faults(7).fate.Dies? && !faults(8).fate.Dies?)
        && (end.Throws? ==> !goes)
      ensures end.Dies? ==> SomeDies(faults)
      ensures !end.Dies? && faults(7).fate.Works? && faults(8).fate.Works? ==>
        ArtifactTemp(job.commitment) !in files && IndexTemp !in files
    {
      hide Reached, Stands, Sound;
      ghost var n, before := |seen|, files;
      Unchanged(files, rules, job);
      end := WriteArtifact(rules, job, faults, n, before);
      if end.Works? {
        end := WriteIndex(rules, job, commit, faults, n, before);
      }
      if end.Dies? {
        ReachedSound(before, files, rules, job);
        return;
      }
      UnlinkKeeps(before, files, rules, job, ArtifactTemp(job.commitment));
      var died := Unlink(ArtifactTemp(job.commitment), faults(7).fate);
      if !died {
        UnlinkKeeps(before, files, rules, job, IndexTemp);
        died := Unlink(IndexTemp, faults(8).fate);
      }
      ReachedSound(before, files, rules, job);
      end := if died then Dies else end;
    }
  }

  // ---------------------------------------------------------------------------------------------
  // Publications one after another.

  /** What one call is asked to do, and how its operations fare. */
  datatype Call = Call(job: Job, commit: bool, faults: nat -> Fault)

  /** The index is the one there was at first, or the whole index of some call. */
  ghost predicate IndexOfSome(files: Files, first: Files, calls: seq<Call>) {
    Lookup(files, Index) == Lookup(first, Index)
      || exists k :: 0 <= k < |calls| && Lookup(files, Index) == Some(Whole(calls[k].job.index))
  }

  /** At every point of every sequence of publications, each failing or crashing anywhere: the index is
      complete, it is an earlier or a newly published one, and the artifact it names is there and valid;
      and an artifact that once stood stands for ever. */
  method PublishAll(d: Directory, rules: Rules, calls: seq<Call>)
    requires d.Valid() && Sound(d.files, rules)
    modifies d
    ensures d.Valid() && old(d.seen) <= d.seen
    ensures forall i :: |old(d.seen)| <= i < |d.seen| ==>
      && Sound(d.seen[i], rules)
      && IndexOfSome(d.seen[i], old(d.files), calls)
      && forall c :: Stands(old(d.files), rules, c) ==> Stands(d.seen[i], rules, c)
  {
    hide Sound, Stands, Reached;
    ghost var first, start := d.files, |d.seen|;
    for k := 0 to |calls|
      invariant d.Valid() && old(d.seen) <= d.seen && Sound(d.files, rules) && IndexOfSome(d.files, first, calls[..k])
      invariant forall c :: Stands(first, rules, c) ==> Stands(d.files, rules, c)
      invariant forall i :: start <= i < |d.seen| ==>
        && Sound(d.seen[i], rules)
        && IndexOfSome(d.seen[i], first, calls[..k])
        && forall c :: Stands(first, rules, c) ==> Stands(d.seen[i], rules, c)
    {
      ghost var n, before, seen := |d.seen|, d.files, d.seen;
      var end := d.PublishArtifactAndIndex(rules, calls[k].job, calls[k].commit, calls[k].faults);
      assert d.seen[..n] == seen;
      forall i | start <= i < |d.seen|
        ensures Sound(d.seen[i], rules) && IndexOfSome(d.seen[i], first, calls[..k + 1])
        ensures forall c :: Stands(first, rules, c) ==> Stands(d.seen[i], rules, c)
      {
        if i < n {
          assert d.seen[i] == seen[i];
          LaterCalls(d.seen[i], first, calls, k);
        } else {
          OneMoreCall(before, d.seen[i], rules, first, calls, k);
        }
      }
      LastSeen(d.files, before, d.seen, n, rules, first, calls, k);
    }
    assert calls[..|calls|] == calls;
  }

  lemma LaterCalls(files: Files, first: Files, calls: seq<Call>, k: nat)
    requires k < |calls| && IndexOfSome(files, first, calls[..k])
    ensures IndexOfSome(files, first, calls[..k + 1])
  {
    if Lookup(files, Index) != Lookup(first, Index) {
      var j :| 0 <= j < k && Lookup(files, Index) == Some(Whole(calls[..k][j].job.index));
      assert calls[..k + 1][j] == calls[..k][j];
    }
  }

  lemma OneMoreCall(before: Files, now: Files, rules: Rules, first: Files, calls: seq<Call>, k: nat)
    requires k < |calls| && IndexOfSome(before, first, calls[..k]) && Reached(before, now, rules, calls[k].job)
    ensures Sound(now, rules) && IndexOfSome(now, first, calls[..k + 1])
    ensures forall c :: Stands(before, rules, c) ==> Stands(now, rules, c)
  {
    LaterCalls(before, first, calls, k);
    assert calls[..k + 1][k] == calls[k];
  }

  lemma LastSeen(files: Files, before: Files, seen: seq<Files>, n: nat, rules: Rules, first: Files, calls: seq<Call>,
      k: nat)
    requires k < |calls| && n <= |seen| && seen != [] && seen[|seen| - 1] == files
      && IndexOfSome(before, first, calls[..k])
    requires n == |seen| ==> files == before
    requires forall i :: n <= i < |seen| ==> Reached(before, seen[i], rules, calls[k].job)
    requires forall c :: Stands(first, rules, c) ==> Stands(before, rules, c)
    ensures IndexOfSome(files, first, calls[..k + 1]) && forall c :: Stands(first, rules, c) ==> Stands(files, rules, c)
  {
    hide Reached, Stands, Sound;
    if n < |seen| {
      OneMoreCall(before, files, rules, first, calls, k);
    } else {
      LaterCalls(files, first, calls, k);
    }
  }
}
