/** What a custodian may rely on after any execution of the holdout protocol. */
module HoldoutTheorems {
  import opened HoldoutProtocol
  import opened HoldoutSafety

  lemma {:induction false} ExecutionKeeps(states: seq<System>, actions: seq<Action>, i: nat)
    requires Execution(states, actions) && i < |states|
    ensures Invariant(states[i])
  {
    hide Apply, Enabled, ProcessFits, Affordable;
    if i > 0 {
      ExecutionKeeps(states, actions, i - 1);
      ActionKeeps(states[i - 1], actions[i - 1]);
    }
  }

  // ---------------------------------------------------------------------------------------------
  // Reservations only grow, and a corpus that is not sealed is never used again.

  ghost predicate Grown(s: System, s': System, d: Directory) {
    HasState(s, d) ==>
      && HasState(s', d) && StateAt(s', d).corpusHash == StateAt(s, d).corpusHash
      && StateAt(s, d).runs <= StateAt(s', d).runs
  }

  /** No reservation, corpus read or evaluation for `d` in between, and its status stays off `Sealed`. */
  ghost predicate Shut(s: System, s': System, d: Directory)
    requires HasState(s, d)
  {
    && HasState(s', d) && StateAt(s', d).runs == StateAt(s, d).runs
    && !StateAt(s', d).status.Sealed?
    && (StateAt(s, d).status.Contaminated? ==> StateAt(s', d).status.Contaminated?)
    && s.history.evaluations <= s'.history.evaluations && s.history.openings <= s'.history.openings
    && (forall k :: |s.history.evaluations| <= k < |s'.history.evaluations| ==>
      s'.history.evaluations[k].directory != d)
    && (forall k :: |s.history.openings| <= k < |s'.history.openings| ==> s'.history.openings[k] != d)
  }

  /** What one step of a process does to the state file of `d`, and to the record of its use. */
  lemma AdvanceGrows(s: System, pid: nat, d: Directory)
    requires Invariant(s) && Enabled(s, Advance(pid))
    ensures Grown(s, Apply(s, Advance(pid)), d)
    ensures HasState(s, d) && !StateAt(s, d).status.Sealed? ==> Shut(s, Apply(s, Advance(pid)), d)
  {
    hide UserFits, SealFits, BudgetsKept, EvaluationsBacked, StateFilesOnce, DirectoriesFit, ManifestsFit, AdvanceRun,
      AdvanceContaminate, AdvanceSeal;
    assert ProcessFits(s, pid);
    var p := s.processes[pid];
    if p.task.Seal? {
      SealGrows(s, pid, d);
    } else if p.phase.Opening? {
      OpeningGrows(s, pid, d);
    } else if p.phase.Writing? || p.phase.Starting? {
      UserGrows(s, pid, d);
    } else {
      QuietGrows(s, pid, d);
    }
  }

  lemma SealGrows(s: System, pid: nat, d: Directory)
    requires Enabled(s, Advance(pid)) && ProcessFits(s, pid) && s.processes[pid].task.Seal? && DirectoriesFit(s)
    ensures Grown(s, Apply(s, Advance(pid)), d)
    ensures HasState(s, d) && !StateAt(s, d).status.Sealed? ==> Shut(s, Apply(s, Advance(pid)), d)
  {
    hide UserFits, AdvanceRun, AdvanceContaminate;
  }

  lemma OpeningGrows(s: System, pid: nat, d: Directory)
    requires Enabled(s, Advance(pid)) && ProcessFits(s, pid) && s.processes[pid].phase.Opening?
    ensures Grown(s, Apply(s, Advance(pid)), d)
    ensures HasState(s, d) && !StateAt(s, d).status.Sealed? ==> Shut(s, Apply(s, Advance(pid)), d)
  {
    hide SealFits, AdvanceSeal, AdvanceContaminate;
  }

  lemma UserGrows(s: System, pid: nat, d: Directory)
    requires Enabled(s, Advance(pid)) && ProcessFits(s, pid) && !s.processes[pid].task.Seal?
    requires s.processes[pid].phase.Writing? || s.processes[pid].phase.Starting?
    ensures Grown(s, Apply(s, Advance(pid)), d)
    ensures HasState(s, d) && !StateAt(s, d).status.Sealed? ==> Shut(s, Apply(s, Advance(pid)), d)
  {
    hide SealFits, AdvanceSeal;
  }

  lemma QuietGrows(s: System, pid: nat, d: Directory)
    requires Enabled(s, Advance(pid)) && QuietStep(s.processes[pid]) && !s.processes[pid].phase.Opening?
    ensures Grown(s, Apply(s, Advance(pid)), d)
    ensures HasState(s, d) && !StateAt(s, d).status.Sealed? ==> Shut(s, Apply(s, Advance(pid)), d)
  {
    hide AdvanceSeal;
  }

  lemma StepGrows(s: System, a: Action, d: Directory)
    requires Invariant(s) && Enabled(s, a)
    ensures Grown(s, Apply(s, a), d)
    ensures HasState(s, d) && !StateAt(s, d).status.Sealed? ==> Shut(s, Apply(s, a), d)
  {
    hide Invariant, AdvanceRun, AdvanceContaminate, AdvanceSeal;
    if a.Advance? {
      AdvanceGrows(s, a.pid, d);
    }
  }

  /** Persisted reservations are only ever added to. */
  lemma {:induction false} RunsOnlyGrow(states: seq<System>, actions: seq<Action>, i: nat, j: nat, d: Directory)
    requires Execution(states, actions) && i <= j < |states|
    ensures Grown(states[i], states[j], d)
    decreases j
  {
    hide Invariant, Apply, Enabled;
    if i < j {
      RunsOnlyGrow(states, actions, i, j - 1, d);
      ExecutionKeeps(states, actions, j - 1);
      StepGrows(states[j - 1], actions[j - 1], d);
    }
  }

  /** Contamination is absorbing: no later reservation, corpus read or evaluation, and no way back. */
  lemma {:induction false} ContaminationAbsorbs(states: seq<System>, actions: seq<Action>, i: nat, j: nat, d: Directory)
    requires Execution(states, actions) && i <= j < |states|
    requires HasState(states[i], d) && !StateAt(states[i], d).status.Sealed?
    ensures Shut(states[i], states[j], d)
    decreases j
  {
    hide Invariant, Apply, Enabled;
    if i < j {
      ContaminationAbsorbs(states, actions, i, j - 1, d);
      ExecutionKeeps(states, actions, j - 1);
      StepGrows(states[j - 1], actions[j - 1], d);
    }
  }

  // ---------------------------------------------------------------------------------------------
  // Evaluations never exceed reservations, nor reservations the budget.

  function EvaluationsOf(evaluations: seq<Evaluation>, d: Directory): seq<Evaluation> {
    if evaluations == [] then []
    else
      var rest := EvaluationsOf(evaluations[..|evaluations| - 1], d);
      var last := evaluations[|evaluations| - 1];
      if last.directory == d then rest + [last] else rest
  }

  ghost function Slots(evaluations: seq<Evaluation>): set<int> {
    set k | 0 <= k < |evaluations| :: evaluations[k].slot
  }

  lemma {:induction false} SlotsCount(evaluations: seq<Evaluation>, d: Directory)
    requires DistinctSlots(evaluations)
    ensures |Slots(EvaluationsOf(evaluations, d))| == |EvaluationsOf(evaluations, d)|
    ensures forall e :: e in EvaluationsOf(evaluations, d) ==> e in evaluations && e.directory == d
  {
    if evaluations != [] {
      var front, last := evaluations[..|evaluations| - 1], evaluations[|evaluations| - 1];
      SlotsCount(front, d);
      if last.directory == d {
        var some := EvaluationsOf(front, d);
        assert EvaluationsOf(evaluations, d) == some + [last];
        assert last.slot !in Slots(some);
        assert Slots(some + [last]) == Slots(some) + {last.slot} by {
          assert (some + [last])[|some|] == last;
          assert forall k :: 0 <= k < |some| ==> (some + [last])[k] == some[k];
        }
      }
    }
  }

  lemma {:induction false} RangeCount(xs: set<int>, n: nat)
    requires forall x :: x in xs ==> 0 <= x < n
    ensures |xs| <= n
  {
    if n > 0 {
      RangeCount(xs - {n - 1}, n - 1);
    } else {
      forall x: int ensures x !in xs {
      }
      assert xs == {};
    }
  }

  function RunsAt(s: System, d: Directory): nat {
    if d in s.disk.states && s.disk.states[d].Whole? then |s.disk.states[d].value.runs| else 0
  }

  /** At every moment, evaluations started <= reservations on disk <= a budget some manifest granted. */
  lemma BudgetNeverExceeded(states: seq<System>, actions: seq<Action>, i: nat, d: Directory)
    requires Execution(states, actions) && i < |states|
    ensures |EvaluationsOf(states[i].history.evaluations, d)| <= RunsAt(states[i], d) <= 10
    ensures RunsAt(states[i], d) > 0 ==> Affordable(states[i].history.known, d, RunsAt(states[i], d))
  {
    hide ProcessesFit, StateFilesOnce, DirectoriesFit, ManifestsFit;
    var s := states[i];
    ExecutionKeeps(states, actions, i);
    var here := EvaluationsOf(s.history.evaluations, d);
    SlotsCount(s.history.evaluations, d);
    forall x | x in Slots(here) ensures 0 <= x < RunsAt(s, d) {
      var k :| 0 <= k < |here| && here[k].slot == x;
      assert here[k] in here;
      assert Backed(s, here[k]);
    }
    RangeCount(Slots(here), RunsAt(s, d));
    if RunsAt(s, d) > 0 {
      assert HasState(s, d) && StateAt(s, d).runs != [];
    }
  }

  /** A directory only ever named by sealed manifests is evaluated at most once, over the corpus that
      was sealed, and its state file is created at most once. */
  lemma SealedOnceEvaluatedOnce(states: seq<System>, actions: seq<Action>, i: nat, d: Directory)
    requires Execution(states, actions) && i < |states| && d !in states[i].history.placed
    ensures |EvaluationsOf(states[i].history.evaluations, d)| <= 1
    ensures forall e :: e in states[i].history.evaluations && e.directory == d ==>
              e.manifest.maxRuns == 1 && OfCorpus(e.corpus) == e.manifest.corpusHash
              && Complete(states[i], d, e.manifest) && StateAt(states[i], d).runs == [e.runId]
  {
    hide ProcessesFit, StateFilesOnce, DirectoriesFit;
    var s := states[i];
    ExecutionKeeps(states, actions, i);
    BudgetNeverExceeded(states, actions, i, d);
    if RunsAt(s, d) > 0 {
      var m :| (d, m) in s.history.known && m.Valid() && RunsAt(s, d) <= m.maxRuns;
      assert (d, m) in s.history.issued;
    }
    forall e | e in s.history.evaluations && e.directory == d
      ensures e.manifest.maxRuns == 1 && OfCorpus(e.corpus) == e.manifest.corpusHash
              && Complete(s, d, e.manifest) && StateAt(s, d).runs == [e.runId]
    {
      assert Backed(s, e);
      assert (d, e.manifest) in s.history.issued;
    }
  }

  /** Hand-written manifests can only spend what the largest of them grants. */
  lemma LargestBudgetBounds(states: seq<System>, actions: seq<Action>, i: nat, d: Directory, bound: nat)
    requires Execution(states, actions) && i < |states|
    requires forall m :: (d, m) in states[i].history.known ==> m.maxRuns <= bound
    ensures |EvaluationsOf(states[i].history.evaluations, d)| <= bound
  {
    BudgetNeverExceeded(states, actions, i, d);
  }

  lemma StateFileCreatedOnce(states: seq<System>, actions: seq<Action>, i: nat)
    requires Execution(states, actions) && i < |states|
    ensures Distinct(states[i].history.stateFiles)
    ensures forall d :: d in states[i].disk.states <==> d in states[i].history.stateFiles
  {
    hide ProcessesFit, BudgetsKept, EvaluationsBacked, DirectoriesFit, ManifestsFit;
    ExecutionKeeps(states, actions, i);
  }

  /** A manifest visible on disk names a complete store of its own corpus, unless its directory was
      ever named by a manifest that no seal wrote. */
  lemma VisibleManifestIsComplete(states: seq<System>, actions: seq<Action>, i: nat, file: File)
    requires Execution(states, actions) && i < |states|
    requires file in states[i].disk.manifests && states[i].disk.manifests[file].Whole?
    ensures var m := states[i].disk.manifests[file].value;
      var d := DirectoryOf(file, m);
      d in states[i].history.placed || (m.maxRuns == 1 && Complete(states[i], d, m))
  {
    hide ProcessesFit, StateFilesOnce, BudgetsKept, EvaluationsBacked, DirectoriesFit;
    ExecutionKeeps(states, actions, i);
    var m := states[i].disk.manifests[file].value;
    assert (DirectoryOf(file, m), m) in states[i].history.known;
  }

  // ---------------------------------------------------------------------------------------------
  // The lock.

  /** At most one process is between taking and releasing the lock of a directory. */
  lemma OneHolder(states: seq<System>, actions: seq<Action>, i: nat, p: nat, q: nat, d: Directory)
    requires Execution(states, actions) && i < |states|
    requires Holds(states[i], p, d) && Holds(states[i], q, d)
    ensures p == q
  {
    hide BudgetsKept, EvaluationsBacked, StateFilesOnce, ManifestsFit, DirectoriesFit, UserFits, SealFits;
    ExecutionKeeps(states, actions, i);
    MutualExclusion(states[i], p, q, d);
  }

  /** A lock leaves its owner only by the owner's own release, or by the custodian once the owner is
      no longer alive. */
  lemma LockTakenAwayOnlyByOwner(states: seq<System>, actions: seq<Action>, i: nat, d: Directory)
    requires Execution(states, actions) && i < |actions| && d in states[i].disk.locks
    ensures var s, s', owner := states[i], states[i + 1], states[i].disk.locks[d];
      || (d in s'.disk.locks && s'.disk.locks[d] == owner)
      || (actions[i] == Advance(owner) && Holds(s, owner, d) && s.processes[owner].phase.Releasing?)
      || (actions[i] == RemoveStaleLock(d) && owner in s.processes && !s.processes[owner].phase.Live())
  {
    hide BudgetsKept, EvaluationsBacked, StateFilesOnce, ManifestsFit, UserFits, SealFits, AdvanceRun,
      AdvanceContaminate, AdvanceSeal;
    ExecutionKeeps(states, actions, i);
    var s, a := states[i], actions[i];
    if a.Advance? {
      assert ProcessFits(s, a.pid);
      AdvanceKeepsLocks(s, a.pid, d);
    }
  }

  lemma AdvanceKeepsLocks(s: System, pid: nat, d: Directory)
    requires Enabled(s, Advance(pid)) && ProcessFits(s, pid) && d in s.disk.locks
    ensures var s' := Apply(s, Advance(pid));
      || (d in s'.disk.locks && s'.disk.locks[d] == s.disk.locks[d])
      || (s.disk.locks[d] == pid && Holds(s, pid, d) && s.processes[pid].phase.Releasing?)
  {
    hide SealFits, AdvanceRun, AdvanceContaminate, AdvanceSeal;
    if s.processes[pid].task.Seal? {
      hide UserFits;
      SealKeepsLocks(s, pid);
    } else if s.processes[pid].phase.Releasing? {
      ReleaseRemoves(s, pid);
    } else {
      hide UserFits;
      UserKeepsLocks(s, pid, d);
    }
  }

  lemma SealKeepsLocks(s: System, pid: nat)
    requires Enabled(s, Advance(pid)) && s.processes[pid].task.Seal?
    ensures Apply(s, Advance(pid)).disk.locks == s.disk.locks
  {
    hide AdvanceRun, AdvanceContaminate;
  }

  lemma ReleaseRemoves(s: System, pid: nat)
    requires Enabled(s, Advance(pid)) && !s.processes[pid].task.Seal? && s.processes[pid].phase.Releasing?
    ensures Apply(s, Advance(pid)).disk.locks == s.disk.locks - {Where(s.processes[pid])}
  {
    hide AdvanceSeal;
  }

  lemma UserKeepsLocks(s: System, pid: nat, d: Directory)
    requires Enabled(s, Advance(pid)) && !s.processes[pid].task.Seal? && !s.processes[pid].phase.Releasing?
      && d in s.disk.locks
    ensures d in Apply(s, Advance(pid)).disk.locks && Apply(s, Advance(pid)).disk.locks[d] == s.disk.locks[d]
  {
    hide AdvanceSeal;
  }

  /** Between its reservation and its release, a run's directory stays sealed, and its reservation is
      the last one on disk. */
  lemma UsesSealedCorpus(states: seq<System>, actions: seq<Action>, i: nat, pid: nat, d: Directory)
    requires Execution(states, actions) && i < |states|
    requires Holds(states[i], pid, d) && states[i].processes[pid].phase.Reserved()
    ensures HasState(states[i], d) && StateAt(states[i], d).status.Sealed?
    ensures var runs := StateAt(states[i], d).runs;
      |runs| > 0 && runs[|runs| - 1] == states[i].processes[pid].task.runId
  {
    hide BudgetsKept, EvaluationsBacked, StateFilesOnce, ManifestsFit, DirectoriesFit;
    ExecutionKeeps(states, actions, i);
    assert ProcessFits(states[i], pid);
  }
}
