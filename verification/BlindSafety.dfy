/** What the blind ledger keeps: for every execution, and for those in which no run ever takes the lock
    with a ledger that lacks an attempt or an epoch on disk. */
module BlindSafety {
  import opened Options
  import opened FileContents
  import opened BlindProtocol

  // ---------------------------------------------------------------------------------------------
  // Ledgers.

  /** Epoch labels and fixture digests correspond one to one. */
  ghost predicate OneToOne(epochs: seq<EpochEntry>) {
    && (forall e, f :: e in epochs && f in epochs ==> (e.epoch == f.epoch <==> e.fixturesDigest == f.fixturesDigest))
    && (forall e, f :: e in epochs && f in epochs && e.epoch == f.epoch ==> e.commitment == f.commitment)
    && (forall e :: e in epochs ==> e.commitment.fixtures == e.fixturesDigest)
  }

  /** One attempt for each candidate and epoch. */
  ghost predicate OneAttempt(runs: seq<RunEntry>) {
    forall i, j :: 0 <= i < j < |runs| ==> runs[i].epoch != runs[j].epoch || runs[i].candidate != runs[j].candidate
  }

  ghost predicate Sound(ledger: Ledger) {
    OneToOne(ledger.epochs) && OneAttempt(ledger.runs)
  }

  ghost predicate Holds(ledger: Ledger, runId: nat, epoch: string, candidate: string) {
    exists i :: 0 <= i < |ledger.runs| && ledger.runs[i].runId == runId && ledger.runs[i].epoch == epoch
      && ledger.runs[i].candidate == candidate
  }

  ghost predicate Registers(ledger: Ledger, c: Corpus) {
    EpochEntry(c.epoch, CommitmentOf(c), c.fixtures) in ledger.epochs
  }

  lemma {:induction false} SettlingKeeps(runs: seq<RunEntry>, runId: nat, status: RunStatus)
    ensures KeepsAttempts(runs, Settling(runs, runId, status)) && KeepsAttempts(Settling(runs, runId, status), runs)
  {
    if runs != [] && runs[0].runId != runId {
      SettlingKeeps(runs[1..], runId, status);
      var settled := Settling(runs[1..], runId, status);
      forall i | 0 <= i < |runs| ensures SameAttempt(runs[i], ([runs[0]] + settled)[i]) {
        if i > 0 {
          assert runs[i] == runs[1..][i - 1];
        }
      }
    }
  }

  lemma ReservingKeeps(ledger: Ledger, runId: nat, c: Corpus, freeze: Freeze)
    requires Sound(ledger) && MayRun(ledger, c, freeze.candidate)
    ensures var l := Reserving(ledger, runId, c, freeze);
      && Sound(l) && KeepsAttempts(ledger.runs, l.runs)
      && Holds(l, runId, c.epoch, freeze.candidate) && Registers(l, c)
      && ledger.epochs <= l.epochs
  {
    var l := Reserving(ledger, runId, c, freeze);
    assert l.runs[|ledger.runs|].runId == runId;
    if HasEpoch(ledger, c.epoch) {
      var e :| e in ledger.epochs && e.epoch == c.epoch;
      assert e == EpochEntry(c.epoch, CommitmentOf(c), c.fixtures);
    }
    forall i, j | 0 <= i < j < |l.runs|
      ensures l.runs[i].epoch != l.runs[j].epoch || l.runs[i].candidate != l.runs[j].candidate {
      assert l.runs[i] in ledger.runs;
    }
  }

  // ---------------------------------------------------------------------------------------------
  // The invariant.

  /** The call repeats what the freeze fixed. */
  predicate MadeFor(task: Task, freeze: Freeze) {
    task.candidate == freeze.candidate && task.context.Keeps(freeze.context)
  }

  predicate CleanRun(s: System, pid: nat)
    requires pid in s.processes
  {
    s.processes[pid].task.RunBlind? && s.processes[pid].task.clean
  }

  /** What holds of a process in every execution. */
  ghost predicate Fits(s: System, pid: nat)
    requires pid in s.processes
  {
    var phase := s.processes[pid].phase;
    && (phase.Critical() ==> s.disk.lock == Some(pid))
    && (phase.ReadingLedger? ==> MadeFor(s.processes[pid].task, phase.freeze))
    && (phase.Locking? || phase.WritingLedger? || phase.Spent() ==>
          MadeFor(s.processes[pid].task, phase.locals.freeze))
    && (phase.Closing? ==> phase.status.Incomplete? || (phase.status.Complete? && !phase.caught && CleanRun(s, pid)))
    && (phase.WritingLedger? || phase.Spent() ==>
          var l := phase.locals;
          && Holds(l.ledger, pid, l.corpus.epoch, l.freeze.candidate)
          && l.corpus.epoch == l.freeze.epoch && CommitmentOf(l.corpus) == l.freeze.commitment)
    && (phase.Locking? ==>
      phase.locals.corpus.epoch == phase.locals.freeze.epoch
      && CommitmentOf(phase.locals.corpus) == phase.locals.freeze.commitment)
    && (phase.ReadingLedger? ==>
      phase.corpus.epoch == phase.freeze.epoch && CommitmentOf(phase.corpus) == phase.freeze.commitment)
    && (phase.MovingFreeze? || phase.Scanning? ==> LedgerOf(s.disk) == phase.locals.ledger)
    && (phase.Live() && !phase.Scanning? && !phase.Closing? && !phase.Releasing? ==>
      forall c :: c in s.scans ==> c.runId != pid)
  }

  /** A freeze that was read is still there, or its attempt has been spent. */
  ghost predicate FreezeStands(s: System, f: Freeze) {
    s.disk.freeze == Some(Whole(f)) || !NotYetEvaluated(LedgerOf(s.disk), f.epoch, f.candidate)
  }

  /** The ledger a process will write loses nothing that is on disk. */
  ghost predicate Writable(s: System, l: Locals) {
    LedgerGrows(LedgerOf(s.disk), l.ledger) && Sound(l.ledger) && Registers(l.ledger, l.corpus)
  }

  /** What holds of a process while no lock has been taken with a ledger that lacks something on disk. */
  ghost predicate FitsFresh(s: System, pid: nat)
    requires pid in s.processes
  {
    var phase := s.processes[pid].phase;
    && (phase.FillingFreeze? ==> s.disk.freeze == Some(Torn))
    && (phase.MatchingCorpus? ==> FreezeStands(s, phase.freeze))
    && (phase.ReadingLedger? ==> FreezeStands(s, phase.freeze))
    && (phase.Locking? ==>
          && FreezeStands(s, phase.locals.freeze)
          && MayRun(phase.locals.ledger, phase.locals.corpus, phase.locals.freeze.candidate)
          && Sound(phase.locals.ledger) && LedgerGrows(phase.locals.ledger, LedgerOf(s.disk)))
    && (phase.WritingLedger? || phase.Closing? ==> Writable(s, phase.locals))
    && (phase.WritingLedger? || phase.MovingFreeze? ==> s.disk.freeze == Some(Whole(phase.locals.freeze)))
    && (phase.MovingFreeze? || phase.Scanning? ==> Registers(LedgerOf(s.disk), phase.locals.corpus))
  }

  /** The freeze moved into the run's directory is the one that fixed its corpus, candidate and context. */
  ghost predicate ConsumedItsFreeze(s: System, c: Scan) {
    && c.runId in s.disk.moved && s.disk.moved[c.runId].Whole?
    && s.disk.moved[c.runId].value.commitment == CommitmentOf(c.corpus)
    && s.disk.moved[c.runId].value.epoch == c.corpus.epoch && s.disk.moved[c.runId].value.candidate == c.candidate
    && c.context.Keeps(s.disk.moved[c.runId].value.context)
  }

  ghost predicate ScansAccounted(s: System) {
    && (forall c :: c in s.scans ==> Holds(LedgerOf(s.disk), c.runId, c.corpus.epoch, c.candidate))
    && (forall c :: c in s.scans ==> Registers(LedgerOf(s.disk), c.corpus))
    && (forall i, j :: 0 <= i < j < |s.scans| ==> s.scans[i].runId != s.scans[j].runId)
    && (forall c :: c in s.scans ==> ConsumedItsFreeze(s, c))
  }

  ghost predicate Steady(s: System) {
    && (forall pid :: pid in s.processes ==> Fits(s, pid))
    && (s.disk.lock.Some? ==> s.disk.lock.value in s.processes)
    && (forall c :: c in s.scans ==> c.runId in s.processes)
  }

  ghost predicate Fresh(s: System) {
    && Sound(LedgerOf(s.disk))
    && (forall pid :: pid in s.processes ==> FitsFresh(s, pid))
    && (forall p, q :: p in s.processes && q in s.processes ==>
      s.processes[p].phase.FillingFreeze? && s.processes[q].phase.FillingFreeze? ==> p == q)
    && ScansAccounted(s)
  }

  ghost predicate Invariant(s: System) {
    Steady(s) && (!s.lossy ==> Fresh(s))
  }

  // ---------------------------------------------------------------------------------------------
  // Every action keeps it.

  /** `pid` alone moves; it alone may write the ledger or take a scan, and only with the lock. */
  ghost predicate Moves(s: System, s': System, pid: nat) {
    && s'.processes.Keys == s.processes.Keys + {pid}
    && (forall q :: q in s.processes && q != pid ==> s'.processes[q] == s.processes[q])
    && (s'.disk.lock == s.disk.lock || s.disk.lock.None? || s.disk.lock == Some(pid))
    && (s'.disk.lock.Some? ==> s'.disk.lock == Some(pid) || s'.disk.lock == s.disk.lock)
    && (s'.disk.ledger == s.disk.ledger || s.disk.lock == Some(pid))
    && (s'.scans == s.scans || (s.disk.lock == Some(pid) && exists c :: s'.scans == s.scans + [c] && c.runId == pid))
    && s'.disk.corpus == s.disk.corpus
  }

  lemma MovesKeepsSteady(s: System, s': System, pid: nat)
    requires Steady(s) && Moves(s, s', pid) && Fits(s', pid)
    ensures Steady(s')
  {
    forall q | q in s'.processes ensures Fits(s', q) {
      if q != pid {
        assert Fits(s, q);
      }
    }
  }

  lemma ActorFits(s: System, a: Action)
    requires Steady(s) && Enabled(s, a) && (a.Spawn? || a.Fail? || a.LeaveLock? || a.Crash?)
    ensures Moves(s, Apply(s, a), a.pid) && Fits(Apply(s, a), a.pid)
  {
    if a.pid in s.processes {
      assert Fits(s, a.pid);
    }
  }

  lemma FreezerFits(s: System, pid: nat)
    requires Steady(s) && Enabled(s, Advance(pid)) && s.processes[pid].phase.Freezing()
    ensures Moves(s, Apply(s, Advance(pid)), pid) && Fits(Apply(s, Advance(pid)), pid)
  {
    hide AdvanceRun, MayFreeze;
    assert Fits(s, pid);
  }

  lemma RunnerFits(s: System, pid: nat)
    requires Enabled(s, Advance(pid)) && Fits(s, pid) && !s.processes[pid].phase.Freezing()
    ensures Moves(s, Apply(s, Advance(pid)), pid) && Fits(Apply(s, Advance(pid)), pid)
  {
    hide AdvanceRun, AdvanceFreeze, Fits;
    RunnerMoves(s, pid);
    if s.processes[pid].phase.Critical() {
      CriticalFits(s, pid);
    } else {
      CheckingFits(s, pid);
    }
  }

  /** The run is between taking and removing the lock. */
  lemma CriticalFits(s: System, pid: nat)
    requires Enabled(s, Advance(pid)) && Fits(s, pid) && s.processes[pid].phase.Critical()
    ensures pid in Apply(s, Advance(pid)).processes && Fits(Apply(s, Advance(pid)), pid)
  {
    hide AdvanceFreeze, MayRun, LedgerGrows, Settling, Reserving, Holds;
  }

  lemma CheckingFits(s: System, pid: nat)
    requires Enabled(s, Advance(pid)) && Fits(s, pid)
    requires !s.processes[pid].phase.Freezing() && !s.processes[pid].phase.Critical()
    ensures pid in Apply(s, Advance(pid)).processes && Fits(Apply(s, Advance(pid)), pid)
  {
    hide AdvanceFreeze, MayRun, LedgerGrows, Settling;
    var phase := s.processes[pid].phase;
    if phase.Locking? && s.disk.lock.None? {
      var l := PushAttempt(phase.locals, pid);
      assert l.ledger.runs[|phase.locals.ledger.runs|].runId == pid;
    }
  }

  lemma RunnerMoves(s: System, pid: nat)
    requires Enabled(s, Advance(pid)) && Fits(s, pid) && !s.processes[pid].phase.Freezing()
    ensures Moves(s, Apply(s, Advance(pid)), pid)
  {
    hide AdvanceFreeze, MayRun, LedgerGrows, Settling, Holds, Reserving;
  }

  lemma SteadyKept(s: System, a: Action)
    requires Steady(s) && Enabled(s, a)
    ensures Steady(Apply(s, a))
  {
    hide AdvanceRun, AdvanceFreeze, Moves;
    match a {
      case Advance(pid) =>
        if s.processes[pid].phase.Freezing() {
          FreezerFits(s, pid);
        } else {
          assert Fits(s, pid);
          RunnerFits(s, pid);
        }
        MovesKeepsSteady(s, Apply(s, a), pid);
      case RemoveStaleLock =>
        forall q | q in s.processes ensures Fits(Apply(s, a), q) {
          assert Fits(s, q);
        }
      case ClearFreeze =>
        forall q | q in s.processes ensures Fits(Apply(s, a), q) {
          assert Fits(s, q);
        }
      case SetCorpus(_) =>
        forall q | q in s.processes ensures Fits(Apply(s, a), q) {
          assert Fits(s, q);
        }
      case _ =>
        ActorFits(s, a);
        MovesKeepsSteady(s, Apply(s, a), a.pid);
    }
  }

  // ---------------------------------------------------------------------------------------------
  // While no lock is taken with a ledger that lacks something on disk.

  lemma LedgerGrowsOn(a: Ledger, b: Ledger, c: Ledger)
    requires LedgerGrows(a, b) && LedgerGrows(b, c)
    ensures LedgerGrows(a, c)
  {
    forall i | 0 <= i < |a.runs| ensures SameAttempt(a.runs[i], c.runs[i]) {
      assert SameAttempt(a.runs[i], b.runs[i]) && SameAttempt(b.runs[i], c.runs[i]);
    }
  }

  lemma HoldsKept(before: Ledger, after: Ledger, runId: nat, epoch: string, candidate: string)
    requires LedgerGrows(before, after) && Holds(before, runId, epoch, candidate)
    ensures Holds(after, runId, epoch, candidate)
  {
    var i :| 0 <= i < |before.runs| && before.runs[i].runId == runId && before.runs[i].epoch == epoch
      && before.runs[i].candidate == candidate;
    assert SameAttempt(before.runs[i], after.runs[i]);
  }

  lemma EvaluatedKept(before: Ledger, after: Ledger, epoch: string, candidate: string)
    requires LedgerGrows(before, after) && !NotYetEvaluated(before, epoch, candidate)
    ensures !NotYetEvaluated(after, epoch, candidate)
  {
    var r :| r in before.runs && r.epoch == epoch && r.candidate == candidate;
    var i :| 0 <= i < |before.runs| && before.runs[i] == r;
    assert SameAttempt(before.runs[i], after.runs[i]);
    assert after.runs[i] in after.runs;
  }

  /** A step of `pid` that keeps what the other processes rely on. */
  ghost predicate Gentle(s: System, s': System, pid: nat) {
    && Moves(s, s', pid)
    && LedgerGrows(LedgerOf(s.disk), LedgerOf(s'.disk))
    && (s.disk.freeze.Some? && s'.disk.freeze != s.disk.freeze ==>
          || (s.disk.freeze.value.Torn? && pid in s.processes && s.processes[pid].phase.FillingFreeze?)
          || (s.disk.freeze.value.Whole? && s.disk.lock == Some(pid)
              && !NotYetEvaluated(LedgerOf(s'.disk), s.disk.freeze.value.value.epoch,
                s.disk.freeze.value.value.candidate)))
  }

  lemma FreezeStandsKept(s: System, s': System, pid: nat, f: Freeze)
    requires Gentle(s, s', pid) && FreezeStands(s, f)
    ensures FreezeStands(s', f)
  {
    hide NotYetEvaluated, Moves, LedgerGrows;
    if !NotYetEvaluated(LedgerOf(s.disk), f.epoch, f.candidate) {
      EvaluatedKept(LedgerOf(s.disk), LedgerOf(s'.disk), f.epoch, f.candidate);
    }
  }

  lemma OtherFitsFresh(s: System, s': System, pid: nat, q: nat)
    requires Steady(s) && Fresh(s) && Gentle(s, s', pid) && q in s.processes && q != pid
    ensures q in s'.processes && FitsFresh(s', q)
  {
    hide NotYetEvaluated, EpochAllowed, LedgerGrows, ScansAccounted, Sound;
    assert Fits(s, q) && FitsFresh(s, q);
    var phase := s.processes[q].phase;
    if phase.MatchingCorpus? || phase.ReadingLedger? {
      FreezeStandsKept(s, s', pid, phase.freeze);
    } else if phase.Locking? {
      FreezeStandsKept(s, s', pid, phase.locals.freeze);
      LedgerGrowsOn(phase.locals.ledger, LedgerOf(s.disk), LedgerOf(s'.disk));
    }
  }

  lemma GentleKeepsFresh(s: System, s': System, pid: nat)
    requires Steady(s) && Fresh(s) && Gentle(s, s', pid)
    requires pid in s'.processes && FitsFresh(s', pid)
    requires s'.processes[pid].phase.FillingFreeze? ==> s.disk.freeze.None?
    requires Sound(LedgerOf(s'.disk)) && ScansAccounted(s')
    ensures Fresh(s')
  {
    hide NotYetEvaluated, EpochAllowed, LedgerGrows, ScansAccounted, Sound;
    forall q | q in s'.processes ensures FitsFresh(s', q) {
      if q != pid {
        OtherFitsFresh(s, s', pid, q);
      }
    }
    forall p, q | p in s'.processes && q in s'.processes && s'.processes[p].phase.FillingFreeze?
      && s'.processes[q].phase.FillingFreeze?
      ensures p == q
    {
      if p in s.processes {
        assert FitsFresh(s, p);
      }
      if q in s.processes {
        assert FitsFresh(s, q);
      }
    }
  }

  lemma ScansKept(s: System, s': System)
    requires ScansAccounted(s) && LedgerGrows(LedgerOf(s.disk), LedgerOf(s'.disk))
    requires s'.scans == s.scans && s'.disk.moved == s.disk.moved
    ensures ScansAccounted(s')
  {
    forall c | c in s'.scans ensures Holds(LedgerOf(s'.disk), c.runId, c.corpus.epoch, c.candidate) {
      HoldsKept(LedgerOf(s.disk), LedgerOf(s'.disk), c.runId, c.corpus.epoch, c.candidate);
    }
    forall c | c in s'.scans ensures Registers(LedgerOf(s'.disk), c.corpus) {
      assert Registers(LedgerOf(s.disk), c.corpus);
    }
    forall c | c in s'.scans ensures ConsumedItsFreeze(s', c) {
      assert ConsumedItsFreeze(s, c);
    }
  }

  /** Steps that leave ledger, freeze and scans alone. */
  lemma QuietKeepsFresh(s: System, s': System, pid: nat)
    requires Steady(s) && Fresh(s) && Moves(s, s', pid)
    requires s'.disk.ledger == s.disk.ledger && s'.disk.freeze == s.disk.freeze && s'.scans == s.scans
      && s'.disk.moved == s.disk.moved
    requires pid in s'.processes && FitsFresh(s', pid) && !s'.processes[pid].phase.FillingFreeze?
    ensures Fresh(s')
  {
    hide NotYetEvaluated, EpochAllowed, ScansAccounted, Sound;
    assert LedgerGrows(LedgerOf(s.disk), LedgerOf(s'.disk));
    ScansKept(s, s');
    GentleKeepsFresh(s, s', pid);
  }

  lemma OutsideKeepsFresh(s: System, a: Action)
    requires Steady(s) && Fresh(s) && Enabled(s, a) && !s.lossy && !a.Advance?
    ensures Fresh(Apply(s, a))
    ensures LedgerGrows(LedgerOf(s.disk), LedgerOf(Apply(s, a).disk))
  {
    hide NotYetEvaluated, EpochAllowed, ScansAccounted, Sound, AdvanceRun, AdvanceFreeze;
    var s' := Apply(s, a);
    if a.RemoveStaleLock? || a.SetCorpus? || a.ClearFreeze? {
      assert LedgerGrows(LedgerOf(s.disk), LedgerOf(s'.disk));
      ScansKept(s, s');
      forall q | q in s'.processes ensures FitsFresh(s', q) {
        assert FitsFresh(s, q);
      }
    } else {
      ActorFits(s, a);
      if a.pid in s.processes {
        assert FitsFresh(s, a.pid) && Fits(s, a.pid);
      }
      OutsideActorFresh(s, a);
      QuietKeepsFresh(s, s', a.pid);
    }
  }

  lemma OutsideActorFresh(s: System, a: Action)
    requires Enabled(s, a) && (a.Spawn? || a.Fail? || a.LeaveLock? || a.Crash?)
    requires a.pid in s.processes ==> Fits(s, a.pid) && FitsFresh(s, a.pid)
    requires Sound(LedgerOf(s.disk))
    ensures a.pid in Apply(s, a).processes && FitsFresh(Apply(s, a), a.pid)
      && !Apply(s, a).processes[a.pid].phase.FillingFreeze?
  {
    hide NotYetEvaluated, EpochAllowed, AdvanceRun, AdvanceFreeze, Sound, KeepsAttempts;
    GrowsItself(LedgerOf(s.disk));
  }

  lemma FreezerKeepsFresh(s: System, pid: nat)
    requires Steady(s) && Fresh(s) && Enabled(s, Advance(pid)) && s.processes[pid].phase.Freezing()
    ensures Fresh(Apply(s, Advance(pid)))
    ensures LedgerGrows(LedgerOf(s.disk), LedgerOf(Apply(s, Advance(pid)).disk))
  {
    hide NotYetEvaluated, EpochAllowed, ScansAccounted, Sound, AdvanceRun, AdvanceFreeze, MayFreeze, KeepsAttempts,
      FitsFresh;
    var s' := Apply(s, Advance(pid));
    assert FitsFresh(s, pid);
    FreezerFits(s, pid);
    FreezerFresh(s, pid);
    GrowsItself(LedgerOf(s.disk));
    ScansKept(s, s');
    GentleKeepsFresh(s, s', pid);
  }

  /** A freeze touches nothing but the freeze file, and that only if it is missing or its own. */
  lemma FreezerFresh(s: System, pid: nat)
    requires Enabled(s, Advance(pid)) && s.processes[pid].phase.Freezing() && FitsFresh(s, pid)
    ensures var s' := Apply(s, Advance(pid));
      && pid in s'.processes && FitsFresh(s', pid)
      && s'.disk.ledger == s.disk.ledger && s'.disk.moved == s.disk.moved && s'.scans == s.scans
      && (s'.processes[pid].phase.FillingFreeze? ==> s.disk.freeze.None?)
      && (s.disk.freeze.Some? && s'.disk.freeze != s.disk.freeze ==>
        s.disk.freeze.value.Torn? && s.processes[pid].phase.FillingFreeze?)
  {
    hide NotYetEvaluated, EpochAllowed, Sound, AdvanceRun, MayFreeze, KeepsAttempts;
  }

  /** Everything up to the lock, the end of the scan, and the release. */
  lemma RunnerQuietKeepsFresh(s: System, pid: nat)
    requires Steady(s) && Fresh(s) && Enabled(s, Advance(pid)) && Quiet(s.processes[pid].phase)
    ensures Fresh(Apply(s, Advance(pid)))
    ensures LedgerGrows(LedgerOf(s.disk), LedgerOf(Apply(s, Advance(pid)).disk))
  {
    hide EpochAllowed, ScansAccounted, Sound, AdvanceFreeze, AdvanceRun, KeepsAttempts, NotYetEvaluated, FitsFresh,
      Moves;
    assert FitsFresh(s, pid) && Fits(s, pid);
    RunnerFits(s, pid);
    RunnerQuietFresh(s, pid);
    GrowsItself(LedgerOf(s.disk));
    QuietKeepsFresh(s, Apply(s, Advance(pid)), pid);
  }

  predicate Quiet(phase: Phase) {
    !phase.Freezing() && !phase.Locking? && !phase.WritingLedger? && !phase.MovingFreeze? && !phase.Closing?
  }

  lemma RunnerQuietFresh(s: System, pid: nat)
    requires Enabled(s, Advance(pid)) && Quiet(s.processes[pid].phase) && Fits(s, pid) && FitsFresh(s, pid)
    requires Sound(LedgerOf(s.disk))
    ensures var s' := Apply(s, Advance(pid));
      && pid in s'.processes && FitsFresh(s', pid) && !s'.processes[pid].phase.FillingFreeze?
      && s'.disk.ledger == s.disk.ledger && s'.disk.freeze == s.disk.freeze
      && s'.disk.moved == s.disk.moved && s'.scans == s.scans
  {
    hide EpochAllowed, Sound, AdvanceFreeze, KeepsAttempts, NotYetEvaluated, Reserving, Settling;
    GrowsItself(LedgerOf(s.disk));
  }

  lemma GrowsItself(ledger: Ledger)
    ensures LedgerGrows(ledger, ledger)
  {
  }

  lemma LockingKeepsFresh(s: System, pid: nat)
    requires Steady(s) && Fresh(s) && Enabled(s, Advance(pid)) && s.processes[pid].phase.Locking?
    requires !Apply(s, Advance(pid)).lossy
    ensures Fresh(Apply(s, Advance(pid)))
    ensures LedgerGrows(LedgerOf(s.disk), LedgerOf(Apply(s, Advance(pid)).disk))
  {
    hide EpochAllowed, ScansAccounted, Sound, AdvanceFreeze, KeepsAttempts, NotYetEvaluated, Reserving;
    var s' := Apply(s, Advance(pid));
    var l := s.processes[pid].phase.locals;
    assert FitsFresh(s, pid) && Fits(s, pid);
    RunnerFits(s, pid);
    GrowsItself(LedgerOf(s.disk));
    if s.disk.lock.None? {
      PushedIsWritable(s, pid, l);
      if !NotYetEvaluated(LedgerOf(s.disk), l.freeze.epoch, l.freeze.candidate) {
        EvaluatedKept(LedgerOf(s.disk), l.ledger, l.freeze.epoch, l.freeze.candidate);
      }
    }
    QuietKeepsFresh(s, s', pid);
  }

  lemma PushedIsWritable(s: System, pid: nat, l: Locals)
    requires LedgerGrows(LedgerOf(s.disk), l.ledger) && Sound(l.ledger)
      && MayRun(l.ledger, l.corpus, l.freeze.candidate)
    requires l.corpus.epoch == l.freeze.epoch
    ensures Writable(s, PushAttempt(l, pid))
  {
    hide Sound, NotYetEvaluated, EpochAllowed, KeepsAttempts;
    ReservingKeeps(l.ledger, pid, l.corpus, l.freeze);
    LedgerGrowsOn(LedgerOf(s.disk), l.ledger, PushAttempt(l, pid).ledger);
  }

  lemma WritingKeepsFresh(s: System, pid: nat)
    requires Steady(s) && Fresh(s) && Enabled(s, Advance(pid)) && s.processes[pid].phase.WritingLedger?
    ensures Fresh(Apply(s, Advance(pid)))
    ensures LedgerGrows(LedgerOf(s.disk), LedgerOf(Apply(s, Advance(pid)).disk))
  {
    hide NotYetEvaluated, EpochAllowed, ScansAccounted, Sound, AdvanceFreeze, Reserving, KeepsAttempts;
    var s' := Apply(s, Advance(pid));
    assert FitsFresh(s, pid) && Fits(s, pid);
    RunnerFits(s, pid);
    ScansKept(s, s');
    GentleKeepsFresh(s, s', pid);
  }

  lemma ClosingKeepsFresh(s: System, pid: nat)
    requires Steady(s) && Fresh(s) && Enabled(s, Advance(pid)) && s.processes[pid].phase.Closing?
    ensures Fresh(Apply(s, Advance(pid)))
    ensures LedgerGrows(LedgerOf(s.disk), LedgerOf(Apply(s, Advance(pid)).disk))
  {
    hide NotYetEvaluated, EpochAllowed, ScansAccounted, AdvanceFreeze, Reserving, OneToOne, KeepsAttempts;
    var s' := Apply(s, Advance(pid));
    var l, status := s.processes[pid].phase.locals, s.processes[pid].phase.status;
    assert FitsFresh(s, pid) && Fits(s, pid);
    RunnerFits(s, pid);
    SettledAttempts(l.ledger.runs, pid, status);
    SettledGrows(LedgerOf(s.disk), l.ledger, pid, status);
    ScansKept(s, s');
    GentleKeepsFresh(s, s', pid);
  }

  lemma SettledAttempts(runs: seq<RunEntry>, runId: nat, status: RunStatus)
    requires OneAttempt(runs)
    ensures OneAttempt(Settling(runs, runId, status))
  {
    SettlingKeeps(runs, runId, status);
    var settled := Settling(runs, runId, status);
    forall i, j | 0 <= i < j < |settled|
      ensures settled[i].epoch != settled[j].epoch || settled[i].candidate != settled[j].candidate {
      assert SameAttempt(runs[i], settled[i]) && SameAttempt(runs[j], settled[j]);
    }
  }

  lemma SettledGrows(before: Ledger, ledger: Ledger, runId: nat, status: RunStatus)
    requires LedgerGrows(before, ledger)
    ensures LedgerGrows(before, ledger.(runs := Settling(ledger.runs, runId, status)))
  {
    SettlingKeeps(ledger.runs, runId, status);
    var settled := Settling(ledger.runs, runId, status);
    forall i | 0 <= i < |before.runs| ensures SameAttempt(before.runs[i], settled[i]) {
      assert SameAttempt(ledger.runs[i], settled[i]);
    }
  }

  lemma MovingKeepsFresh(s: System, pid: nat)
    requires Steady(s) && Fresh(s) && Enabled(s, Advance(pid)) && s.processes[pid].phase.MovingFreeze?
    ensures Fresh(Apply(s, Advance(pid)))
    ensures LedgerGrows(LedgerOf(s.disk), LedgerOf(Apply(s, Advance(pid)).disk))
  {
    hide EpochAllowed, ScansAccounted, Sound, AdvanceFreeze, Reserving;
    var s' := Apply(s, Advance(pid));
    var l := s.processes[pid].phase.locals;
    assert FitsFresh(s, pid) && Fits(s, pid);
    RunnerFits(s, pid);
    assert LedgerGrows(LedgerOf(s.disk), LedgerOf(s'.disk));
    HeldIsEvaluated(LedgerOf(s.disk), pid, l.freeze.epoch, l.freeze.candidate);
    ScanAccounted(s, s', Scan(pid, l.freeze.candidate, l.corpus, s.processes[pid].task.context));
    GentleKeepsFresh(s, s', pid);
  }

  lemma HeldIsEvaluated(ledger: Ledger, runId: nat, epoch: string, candidate: string)
    requires Holds(ledger, runId, epoch, candidate)
    ensures !NotYetEvaluated(ledger, epoch, candidate)
  {
    var i :| 0 <= i < |ledger.runs| && ledger.runs[i].runId == runId && ledger.runs[i].epoch == epoch
      && ledger.runs[i].candidate == candidate;
    assert ledger.runs[i] in ledger.runs;
  }

  lemma ScanAccounted(s: System, s': System, c: Scan)
    requires ScansAccounted(s) && s'.disk.ledger == s.disk.ledger
    requires s'.scans == s.scans + [c] && (forall d :: d in s.scans ==> d.runId != c.runId)
    requires Holds(LedgerOf(s.disk), c.runId, c.corpus.epoch, c.candidate) && Registers(LedgerOf(s.disk), c.corpus)
    requires ConsumedItsFreeze(s', c) && s'.disk.moved == s.disk.moved[c.runId := s'.disk.moved[c.runId]]
    ensures ScansAccounted(s')
  {
    forall d | d in s'.scans ensures ConsumedItsFreeze(s', d) {
      if d != c {
        assert d in s.scans && ConsumedItsFreeze(s, d);
      }
    }
    forall i, j | 0 <= i < j < |s'.scans| ensures s'.scans[i].runId != s'.scans[j].runId {
      assert s'.scans[i] in s.scans;
    }
  }

  lemma ActionKeeps(s: System, a: Action)
    requires Invariant(s) && Enabled(s, a)
    ensures Invariant(Apply(s, a))
    ensures !Apply(s, a).lossy ==> LedgerGrows(LedgerOf(s.disk), LedgerOf(Apply(s, a).disk))
  {
    hide Steady, Fresh, LedgerGrows, AdvanceRun, AdvanceFreeze;
    SteadyKept(s, a);
    if !Apply(s, a).lossy {
      if !a.Advance? {
        OutsideKeepsFresh(s, a);
      } else if s.processes[a.pid].phase.Freezing() {
        LossyGrows(s, a);
        FreezerKeepsFresh(s, a.pid);
      } else {
        LossyGrows(s, a);
        if s.processes[a.pid].phase.Locking? {
          LockingKeepsFresh(s, a.pid);
        } else if s.processes[a.pid].phase.WritingLedger? {
          WritingKeepsFresh(s, a.pid);
        } else if s.processes[a.pid].phase.MovingFreeze? {
          MovingKeepsFresh(s, a.pid);
        } else if s.processes[a.pid].phase.Closing? {
          ClosingKeepsFresh(s, a.pid);
        } else {
          RunnerQuietKeepsFresh(s, a.pid);
        }
      }
    }
  }

  lemma LossyGrows(s: System, a: Action)
    requires Enabled(s, a)
    ensures s.lossy ==> Apply(s, a).lossy
  {
  }

  // ---------------------------------------------------------------------------------------------
  // Executions.

  lemma {:induction false} ExecutionKeeps(states: seq<System>, actions: seq<Action>, i: nat)
    requires Execution(states, actions) && i < |states|
    ensures Invariant(states[i])
  {
    hide Apply, Enabled, Steady, Fresh;
    if i > 0 {
      ExecutionKeeps(states, actions, i - 1);
      ActionKeeps(states[i - 1], actions[i - 1]);
    } else {
      InitiallyHolds();
    }
  }

  lemma InitiallyHolds()
    ensures Invariant(INITIAL)
  {
  }

  /** Whoever is in the scan phase has its reservation on disk, whatever the interleaving, and scans the frozen
      candidate over the frozen corpus. */
  lemma ReservedBeforeScan(states: seq<System>, actions: seq<Action>, i: nat, pid: nat)
    requires Execution(states, actions) && i < |states|
    requires pid in states[i].processes && states[i].processes[pid].phase.Scanning?
    ensures var l := states[i].processes[pid].phase.locals;
      && Holds(LedgerOf(states[i].disk), pid, l.corpus.epoch, l.freeze.candidate)
      && MadeFor(states[i].processes[pid].task, l.freeze)
      && l.corpus.epoch == l.freeze.epoch && CommitmentOf(l.corpus) == l.freeze.commitment
  {
    hide Fresh, FitsFresh;
    ExecutionKeeps(states, actions, i);
    assert Fits(states[i], pid);
  }

  /** An attempt is closed as complete only by a clean run that did not fail. */
  lemma ClosedAsComplete(states: seq<System>, actions: seq<Action>, i: nat, pid: nat)
    requires Execution(states, actions) && i < |states|
    requires pid in states[i].processes && states[i].processes[pid].phase.Closing?
    ensures var p := states[i].processes[pid];
      p.phase.status.Incomplete? || (p.phase.status.Complete? && !p.phase.caught && CleanRun(states[i], pid))
  {
    hide Fresh, FitsFresh;
    ExecutionKeeps(states, actions, i);
    assert Fits(states[i], pid);
  }

  lemma {:induction false} LossyStays(states: seq<System>, actions: seq<Action>, i: nat, j: nat)
    requires Execution(states, actions) && i <= j < |states| && states[i].lossy
    ensures states[j].lossy
    decreases j
  {
    hide Apply, Enabled;
    if i < j {
      LossyStays(states, actions, i, j - 1);
      LossyGrows(states[j - 1], actions[j - 1]);
    }
  }

  /** Attempts and epochs on disk are never forgotten or moved. */
  lemma {:induction false} AttemptsNeverForgotten(states: seq<System>, actions: seq<Action>, i: nat, j: nat)
    requires Execution(states, actions) && i <= j < |states| && !states[j].lossy
    ensures LedgerGrows(LedgerOf(states[i].disk), LedgerOf(states[j].disk))
    decreases j
  {
    hide Apply, Enabled, Invariant;
    if i < j {
      if states[j - 1].lossy {
        LossyStays(states, actions, j - 1, j);
      }
      AttemptsNeverForgotten(states, actions, i, j - 1);
      ExecutionKeeps(states, actions, j - 1);
      ActionKeeps(states[j - 1], actions[j - 1]);
      LedgerGrowsOn(LedgerOf(states[i].disk), LedgerOf(states[j - 1].disk), LedgerOf(states[j].disk));
    }
  }

  /** No candidate is scanned twice on one epoch, every scan has its reservation, and the scans of one
      epoch label are exactly the scans of one set of fixtures. */
  lemma ScannedAtMostOnce(states: seq<System>, actions: seq<Action>, i: nat)
    requires Execution(states, actions) && i < |states| && !states[i].lossy
    ensures forall j, k :: 0 <= j < k < |states[i].scans| ==>
      states[i].scans[j].corpus.epoch != states[i].scans[k].corpus.epoch
        || states[i].scans[j].candidate != states[i].scans[k].candidate
    ensures forall c, d :: c in states[i].scans && d in states[i].scans ==>
      (c.corpus.epoch == d.corpus.epoch <==> c.corpus.fixtures == d.corpus.fixtures)
      && (c.corpus.epoch == d.corpus.epoch ==> c.corpus == d.corpus)
    ensures forall c :: c in states[i].scans ==>
      Holds(LedgerOf(states[i].disk), c.runId, c.corpus.epoch, c.candidate) && ConsumedItsFreeze(states[i], c)
    ensures Sound(LedgerOf(states[i].disk))
  {
    hide Steady, FitsFresh, OneToOne, ConsumedItsFreeze;
    ExecutionKeeps(states, actions, i);
    var s := states[i];
    forall j, k | 0 <= j < k < |s.scans|
      ensures s.scans[j].corpus.epoch != s.scans[k].corpus.epoch || s.scans[j].candidate != s.scans[k].candidate {
      OneRunEach(LedgerOf(s.disk), s.scans[j], s.scans[k]);
    }
    forall c, d | c in s.scans && d in s.scans
      ensures c.corpus.epoch == d.corpus.epoch <==> c.corpus.fixtures == d.corpus.fixtures
      ensures c.corpus.epoch == d.corpus.epoch ==> c.corpus == d.corpus
    {
      OneCorpusEach(LedgerOf(s.disk), c.corpus, d.corpus);
    }
  }

  lemma OneRunEach(ledger: Ledger, c: Scan, d: Scan)
    requires OneAttempt(ledger.runs) && c.runId != d.runId
    requires Holds(ledger, c.runId, c.corpus.epoch, c.candidate) && Holds(ledger, d.runId, d.corpus.epoch, d.candidate)
    ensures c.corpus.epoch != d.corpus.epoch || c.candidate != d.candidate
  {
  }

  lemma OneCorpusEach(ledger: Ledger, c: Corpus, d: Corpus)
    requires OneToOne(ledger.epochs) && Registers(ledger, c) && Registers(ledger, d)
    ensures c.epoch == d.epoch <==> c.fixtures == d.fixtures
    ensures c.epoch == d.epoch ==> c == d
  {
  }
}
