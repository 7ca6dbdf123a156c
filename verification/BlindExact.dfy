/** The exact conditions at the lock: when a run's reservation keeps what the ledger file holds, and when
    its scan is a second attempt. */
module BlindExact {
  import opened Options
  import opened FileContents
  import opened BlindProtocol
  import opened BlindSafety
  import opened BlindSerial

  // ---------------------------------------------------------------------------------------------
  // Where the attempts in a ledger come from.

  /** Every epoch entry has an attempt of its epoch, and every attempt an entry. */
  ghost predicate Tidy(ledger: Ledger) {
    && (forall e :: e in ledger.epochs ==> HasAttempt(ledger, e.epoch))
    && (forall r :: r in ledger.runs ==> HasEpoch(ledger, r.epoch))
  }

  ghost predicate HasAttempt(ledger: Ledger, epoch: string) {
    exists r :: r in ledger.runs && r.epoch == epoch
  }

  /** The process has written its reservation, or has stopped. */
  predicate Past(phase: Phase) {
    phase.Spent() || phase.Releasing? || !phase.Live()
  }

  predicate PastIn(s: System, pid: nat) {
    pid in s.processes && Past(s.processes[pid].phase)
  }

  /** All attempts come from such processes, or from `holder`. */
  ghost predicate Traced(s: System, ledger: Ledger, holder: Option<nat>) {
    Tidy(ledger) && forall r :: r in ledger.runs ==> Some(r.runId) == holder || PastIn(s, r.runId)
  }

  ghost predicate HeldTraced(s: System, pid: nat)
    requires pid in s.processes
  {
    var phase := s.processes[pid].phase;
    phase.Locking? || phase.WritingLedger? || phase.Spent() ==> Traced(s, phase.locals.ledger, Some(pid))
  }

  ghost predicate AllTraced(s: System) {
    Traced(s, LedgerOf(s.disk), None) && forall pid :: pid in s.processes ==> HeldTraced(s, pid)
  }

  lemma TracedOn(s: System, s': System, ledger: Ledger, holder: Option<nat>)
    requires Traced(s, ledger, holder) && forall p :: PastIn(s, p) ==> PastIn(s', p)
    ensures Traced(s', ledger, holder)
  {
  }

  lemma PastStays(s: System, a: Action, p: nat)
    requires Enabled(s, a) && PastIn(s, p)
    ensures PastIn(Apply(s, a), p)
  {
    hide MayRun, LedgerGrows;
  }

  lemma ReservingTidy(ledger: Ledger, runId: nat, c: Corpus, freeze: Freeze)
    requires Tidy(ledger)
    ensures Tidy(Reserving(ledger, runId, c, freeze))
  {
    var l := Reserving(ledger, runId, c, freeze);
    assert l.runs[|ledger.runs|].epoch == c.epoch;
    if !HasEpoch(ledger, c.epoch) {
      assert l.epochs[|ledger.epochs|].epoch == c.epoch;
    }
    forall e | e in l.epochs ensures HasAttempt(l, e.epoch) {
      if e in ledger.epochs {
        var r :| r in ledger.runs && r.epoch == e.epoch;
        assert r in l.runs;
      }
    }
    forall r | r in l.runs ensures HasEpoch(l, r.epoch) {
      if r in ledger.runs {
        var e :| e in ledger.epochs && e.epoch == r.epoch;
        assert e in l.epochs;
      }
    }
  }

  lemma SettlingTraced(s: System, ledger: Ledger, holder: Option<nat>, runId: nat, status: RunStatus)
    requires Traced(s, ledger, holder)
    ensures Traced(s, ledger.(runs := Settling(ledger.runs, runId, status)), holder)
  {
    var runs, settled := ledger.runs, Settling(ledger.runs, runId, status);
    SettlingKeeps(runs, runId, status);
    forall r | r in settled ensures (Some(r.runId) == holder || PastIn(s, r.runId)) && HasEpoch(ledger, r.epoch) {
      var i :| 0 <= i < |settled| && settled[i] == r;
      assert SameAttempt(settled[i], runs[i]) && runs[i] in runs;
    }
    forall e | e in ledger.epochs ensures exists r :: r in settled && r.epoch == e.epoch {
      assert HasAttempt(ledger, e.epoch);
      var i :| 0 <= i < |runs| && runs[i].epoch == e.epoch;
      assert SameAttempt(runs[i], settled[i]) && settled[i] in settled;
    }
    var after := ledger.(runs := settled);
    forall e | e in after.epochs ensures HasAttempt(after, e.epoch) {
    }
    forall r | r in after.runs ensures HasEpoch(after, r.epoch) {
      assert HasEpoch(ledger, r.epoch);
    }
  }

  lemma HeldStaysTraced(s: System, a: Action)
    requires AllTraced(s) && Enabled(s, a) && (a.Advance? || a.Fail?)
    requires forall p :: PastIn(s, p) ==> PastIn(Apply(s, a), p)
    ensures HeldTraced(Apply(s, a), a.pid)
  {
    hide Tidy, Reserving, LedgerGrows, MayRun;
    var s', phase := Apply(s, a), s.processes[a.pid].phase;
    assert HeldTraced(s, a.pid);
    if a.Advance? && phase.Locking? && s.disk.lock.None? {
      var l := phase.locals;
      TracedOn(s, s', l.ledger, Some(a.pid));
      PushedTraced(s', l, a.pid);
    } else if a.Advance? && phase.ReadingLedger? {
      TracedOn(s, s', LedgerOf(s.disk), None);
    } else if phase.WritingLedger? || phase.Spent() {
      TracedOn(s, s', phase.locals.ledger, Some(a.pid));
    }
  }

  lemma PushedTraced(s: System, l: Locals, pid: nat)
    requires Traced(s, l.ledger, Some(pid))
    ensures Traced(s, PushAttempt(l, pid).ledger, Some(pid))
  {
    ReservingTidy(l.ledger, pid, l.corpus, l.freeze);
  }

  lemma DiskStaysTraced(s: System, a: Action)
    requires AllTraced(s) && Enabled(s, a)
    requires forall p :: PastIn(s, p) ==> PastIn(Apply(s, a), p)
    ensures Traced(Apply(s, a), LedgerOf(Apply(s, a).disk), None)
  {
    hide Tidy, Reserving, LedgerGrows, MayRun, Settling;
    var s' := Apply(s, a);
    TracedOn(s, s', LedgerOf(s.disk), None);
    if a.Advance? {
      var phase := s.processes[a.pid].phase;
      assert HeldTraced(s, a.pid);
      if phase.WritingLedger? || phase.Closing? {
        assert PastIn(s', a.pid);
        TracedOn(s, s', phase.locals.ledger, Some(a.pid));
        if phase.Closing? {
          SettlingTraced(s', phase.locals.ledger, Some(a.pid), a.pid, phase.status);
        }
      }
    }
  }

  lemma TracedKept(s: System, a: Action)
    requires AllTraced(s) && Enabled(s, a)
    ensures AllTraced(Apply(s, a))
  {
    hide Traced, AdvanceRun, AdvanceFreeze, PastIn;
    var s' := Apply(s, a);
    forall p | PastIn(s, p) ensures PastIn(s', p) {
      PastStays(s, a, p);
    }
    DiskStaysTraced(s, a);
    forall q | q in s'.processes ensures HeldTraced(s', q) {
      if (a.Advance? || a.Fail?) && q == a.pid {
        HeldStaysTraced(s, a);
      } else if q in s.processes {
        OtherStaysTraced(s, a, q);
      } else {
        NewcomerTraced(s, a, q);
      }
    }
  }

  lemma NewcomerTraced(s: System, a: Action, q: nat)
    requires Enabled(s, a) && q in Apply(s, a).processes && q !in s.processes
    ensures HeldTraced(Apply(s, a), q)
  {
    hide LedgerGrows, MayRun, Traced;
  }

  lemma OtherStaysTraced(s: System, a: Action, q: nat)
    requires AllTraced(s) && Enabled(s, a) && q in s.processes && ((a.Advance? || a.Fail?) ==> q != a.pid)
    requires forall p :: PastIn(s, p) ==> PastIn(Apply(s, a), p)
    ensures HeldTraced(Apply(s, a), q)
  {
    hide Traced, PastIn, LedgerGrows, MayRun;
    var s', phase := Apply(s, a), s.processes[q].phase;
    assert HeldTraced(s, q);
    if phase.Locking? || phase.WritingLedger? || phase.Spent() {
      TracedOn(s, s', phase.locals.ledger, Some(q));
    }
  }

  lemma {:induction false} ExecutionTraced(states: seq<System>, actions: seq<Action>, i: nat)
    requires Execution(states, actions) && i < |states|
    ensures AllTraced(states[i])
  {
    hide Apply, Enabled, AllTraced;
    if i > 0 {
      ExecutionTraced(states, actions, i - 1);
      TracedKept(states[i - 1], actions[i - 1]);
    } else {
      InitiallyTraced();
    }
  }

  lemma InitiallyTraced()
    ensures AllTraced(INITIAL)
  {
  }

  // ---------------------------------------------------------------------------------------------
  // The reservation.

  /** `pid` is about to take a free lock with the ledger it read. */
  predicate AtLock(s: System, pid: nat) {
    pid in s.processes && s.processes[pid].phase.Locking? && s.disk.lock.None?
  }

  /** The same attempts and epochs; only statuses may differ. */
  predicate SameButStatus(a: Ledger, b: Ledger) {
    LedgerGrows(a, b) && LedgerGrows(b, a)
  }

  /** The disk after `pid`, at the lock, took it and wrote its reservation. */
  lemma Reserves(s: System, pid: nat)
    requires AtLock(s, pid)
    ensures var l := s.processes[pid].phase.locals;
      After(s, Advances(pid, 2)) == Some(With(s, pid, s.processes[pid].task, MovingFreeze(PushAttempt(l, pid)),
        s.disk.(lock := Some(pid), ledger := Some(PushAttempt(l, pid).ledger)), s.scans, s.lossy
          || !LedgerGrows(LedgerOf(s.disk), l.ledger)))
  {
    hide After, Reserving, LedgerGrows;
    var task, l := s.processes[pid].task, s.processes[pid].phase.locals;
    var k, lossy := PushAttempt(l, pid), s.lossy || !LedgerGrows(LedgerOf(s.disk), l.ledger);
    var locked := s.disk.(lock := Some(pid));
    assert s == With(s, pid, task, Locking(l), s.disk, s.scans, s.lossy);
    Steps(s, pid, task, Locking(l), s.disk, s.scans, s.lossy, WritingLedger(k), locked, s.scans, lossy, 2);
    Steps(s, pid, task, WritingLedger(k), locked, s.scans, lossy, MovingFreeze(k), locked.(ledger := Some(k.ledger)),
      s.scans, lossy, 1);
    AfterNothing(With(s, pid, task, MovingFreeze(k), locked.(ledger := Some(k.ledger)), s.scans, lossy), pid);
  }

  /** A pushed attempt is new to the disk, and brings its epoch only if no attempt had it. */
  lemma PushedKeepsExactly(s: System, pid: nat)
    requires AllTraced(s) && AtLock(s, pid)
    ensures var l := s.processes[pid].phase.locals;
      LedgerGrows(LedgerOf(s.disk), PushAttempt(l, pid).ledger) <==> LedgerGrows(LedgerOf(s.disk), l.ledger)
  {
    hide AdvanceRun, AdvanceFreeze;
    var l, disk := s.processes[pid].phase.locals, LedgerOf(s.disk);
    var pushed := PushAttempt(l, pid).ledger;
    assert HeldTraced(s, pid);
    if LedgerGrows(disk, pushed) {
      if |disk.runs| > |l.ledger.runs| {
        NewToTheDisk(s, pid, |l.ledger.runs|, pushed);
      }
      forall i | 0 <= i < |disk.runs| ensures SameAttempt(disk.runs[i], l.ledger.runs[i]) {
        assert SameAttempt(disk.runs[i], pushed.runs[i]);
      }
      forall e | e in disk.epochs ensures e in l.ledger.epochs {
        EpochHeld(disk, l.ledger, e);
      }
    }
  }

  lemma NewToTheDisk(s: System, pid: nat, i: nat, pushed: Ledger)
    requires Traced(s, LedgerOf(s.disk), None) && !PastIn(s, pid)
    requires i < |pushed.runs| && pushed.runs[i].runId == pid
    ensures i < |LedgerOf(s.disk).runs| ==> !KeepsAttempts(LedgerOf(s.disk).runs, pushed.runs)
  {
    var disk := LedgerOf(s.disk);
    if i < |disk.runs| {
      assert disk.runs[i] in disk.runs;
      assert !SameAttempt(disk.runs[i], pushed.runs[i]);
    }
  }

  lemma EpochHeld(disk: Ledger, held: Ledger, e: EpochEntry)
    requires Tidy(disk) && Tidy(held) && KeepsAttempts(disk.runs, held.runs) && e in disk.epochs
    ensures HasEpoch(held, e.epoch)
  {
    assert HasAttempt(disk, e.epoch);
    var i :| 0 <= i < |disk.runs| && disk.runs[i].epoch == e.epoch;
    assert SameAttempt(disk.runs[i], held.runs[i]) && held.runs[i] in held.runs;
  }

  /** At the lock, the reservation keeps every attempt and epoch on disk exactly when the ledger the run
      read has them all; and if every earlier reservation did, exactly when the ledger it read is, up to
      statuses, the one on disk. */
  lemma ReservationKeepsExactly(states: seq<System>, actions: seq<Action>, pid: nat)
    requires Execution(states, actions) && AtLock(states[|states| - 1], pid)
    ensures var s := states[|states| - 1]; var held := s.processes[pid].phase.locals.ledger;
      var after := After(s, Advances(pid, 2));
      && after.Some?
      && (LedgerGrows(LedgerOf(s.disk), LedgerOf(after.value.disk)) <==> LedgerGrows(LedgerOf(s.disk), held))
      && (!s.lossy ==> (LedgerGrows(LedgerOf(s.disk), LedgerOf(after.value.disk)) <==>
        SameButStatus(held, LedgerOf(s.disk))))
  {
    hide After, Fits, LedgerGrows, Reserving, AdvanceRun, AdvanceFreeze;
    var s := states[|states| - 1];
    ExecutionTraced(states, actions, |states| - 1);
    PushedKeepsExactly(s, pid);
    Reserves(s, pid);
    ExecutionKeeps(states, actions, |states| - 1);
    if !s.lossy {
      assert FitsFresh(s, pid);
    }
  }

  // ---------------------------------------------------------------------------------------------
  // The attempt.

  /** At the lock, `checkNotYetEvaluated` fails on the ledger now on disk. */
  predicate Evaluated(s: System, l: Locals) {
    !NotYetEvaluated(LedgerOf(s.disk), l.freeze.epoch, l.freeze.candidate)
  }

  /** A run before the lock has all attempts of the disk in its ledger, or its own attempt is on disk
      already; a run about to settle has its ledger on disk, or its freeze is still there. */
  ghost predicate Caught(s: System, pid: nat)
    requires pid in s.processes
  {
    var phase := s.processes[pid].phase;
    && (phase.Locking? ==> LedgerGrows(LedgerOf(s.disk), phase.locals.ledger) || Evaluated(s, phase.locals))
    && (phase.Closing? ==>
      LedgerGrows(phase.locals.ledger, LedgerOf(s.disk)) || s.disk.freeze == Some(Whole(phase.locals.freeze)))
  }

  ghost predicate AllCaught(s: System) {
    forall pid :: pid in s.processes ==> Caught(s, pid)
  }

  /** Only the holder of the lock writes the ledger or moves a complete freeze. */
  lemma HeldStill(s: System, a: Action, p: nat)
    requires Steady(s) && Enabled(s, a) && p in s.processes && s.processes[p].phase.Closing?
    requires (a.Spawn? || a.Advance? || a.Fail? || a.LeaveLock? || a.Crash?) ==> a.pid != p
    ensures Apply(s, a).disk.ledger == s.disk.ledger
    ensures s.disk.freeze.Some? && s.disk.freeze.value.Whole? ==>
      Apply(s, a).disk.freeze == s.disk.freeze || (a.Advance? && s.processes[a.pid].phase.FillingFreeze?)
  {
    hide MayRun, LedgerGrows, Reserving, Settling;
    assert Fits(s, p);
    if a.Advance? {
      assert Fits(s, a.pid);
    }
  }

  /** The step that writes a ledger brings the attempt of whoever waits with the same freeze. */
  lemma WrittenCatches(s: System, a: Action, l: Locals)
    requires Invariant(s) && AllCaught(s) && Enabled(s, a) && !Apply(s, a).lossy && !s.lossy
    requires FreezeStands(s, l.freeze) && (LedgerGrows(LedgerOf(s.disk), l.ledger) || Evaluated(s, l))
    ensures LedgerGrows(LedgerOf(Apply(s, a).disk), l.ledger) || Evaluated(Apply(s, a), l)
  {
    hide LedgerGrows, Fits, FitsFresh, ScansAccounted, Sound, NotYetEvaluated, Settling, Reserving, AdvanceFreeze,
      MayRun;
    ActionKeeps(s, a);
    var s' := Apply(s, a);
    if Evaluated(s, l) {
      EvaluatedKept(LedgerOf(s.disk), LedgerOf(s'.disk), l.freeze.epoch, l.freeze.candidate);
    } else if a.Advance? && (s.processes[a.pid].phase.WritingLedger? || s.processes[a.pid].phase.Closing?) {
      WriterCatches(s, a.pid, l);
    } else {
      LedgerStays(s, a);
    }
  }

  lemma LedgerStays(s: System, a: Action)
    requires Enabled(s, a)
      && !(a.Advance? && (s.processes[a.pid].phase.WritingLedger? || s.processes[a.pid].phase.Closing?))
    ensures Apply(s, a).disk.ledger == s.disk.ledger
  {
    hide LedgerGrows, MayRun;
  }

  lemma WriterCatches(s: System, pid: nat, l: Locals)
    requires Invariant(s) && AllCaught(s) && !s.lossy && Enabled(s, Advance(pid))
    requires s.processes[pid].phase.WritingLedger? || s.processes[pid].phase.Closing?
    requires s.disk.freeze == Some(Whole(l.freeze)) && LedgerGrows(LedgerOf(s.disk), l.ledger)
    ensures LedgerGrows(LedgerOf(Apply(s, Advance(pid)).disk), l.ledger) || Evaluated(Apply(s, Advance(pid)), l)
  {
    hide KeepsAttempts, ScansAccounted, Sound, NotYetEvaluated, Settling, Reserving, AdvanceFreeze, MayRun;
    var phase, s' := s.processes[pid].phase, Apply(s, Advance(pid));
    assert Fits(s, pid) && FitsFresh(s, pid) && Caught(s, pid);
    var k := phase.locals;
    if phase.Closing? {
      SettledBack(k.ledger, pid, phase.status);
      if LedgerGrows(k.ledger, LedgerOf(s.disk)) {
        LedgerGrowsOn(LedgerOf(s'.disk), k.ledger, LedgerOf(s.disk));
        LedgerGrowsOn(LedgerOf(s'.disk), LedgerOf(s.disk), l.ledger);
      } else {
        HoldsKept(k.ledger, LedgerOf(s'.disk), pid, k.corpus.epoch, k.freeze.candidate);
        HeldIsEvaluated(LedgerOf(s'.disk), pid, k.corpus.epoch, k.freeze.candidate);
      }
    } else {
      HeldIsEvaluated(LedgerOf(s'.disk), pid, k.corpus.epoch, k.freeze.candidate);
    }
  }

  lemma SettledBack(ledger: Ledger, runId: nat, status: RunStatus)
    ensures SameButStatus(ledger.(runs := Settling(ledger.runs, runId, status)), ledger)
  {
    SettlingKeeps(ledger.runs, runId, status);
  }

  lemma MoverCaught(s: System, a: Action)
    requires Invariant(s) && AllCaught(s) && Enabled(s, a) && !s.lossy && !Apply(s, a).lossy
    requires a.Spawn? || a.Advance? || a.Fail? || a.LeaveLock? || a.Crash?
    requires Apply(s, a).processes[a.pid].phase.Closing? || Apply(s, a).processes[a.pid].phase.Locking?
    ensures Caught(Apply(s, a), a.pid)
  {
    hide KeepsAttempts, ScansAccounted, Sound, NotYetEvaluated, Settling, Reserving, MayRun;
    assert Fits(s, a.pid) && FitsFresh(s, a.pid) && Caught(s, a.pid);
    GrowsItself(LedgerOf(s.disk));
  }

  lemma OtherCaught(s: System, a: Action, q: nat)
    requires Invariant(s) && AllCaught(s) && Enabled(s, a) && !s.lossy && !Apply(s, a).lossy
    requires (a.Spawn? || a.Advance? || a.Fail? || a.LeaveLock? || a.Crash?) ==> a.pid != q
    requires q in s.processes && q in Apply(s, a).processes && Apply(s, a).processes[q] == s.processes[q]
    ensures Caught(Apply(s, a), q)
  {
    hide LedgerGrows, ScansAccounted, Sound, NotYetEvaluated, AdvanceRun, AdvanceFreeze, MayRun, Fits;
    var phase := s.processes[q].phase;
    assert FitsFresh(s, q) && Caught(s, q);
    if phase.Locking? {
      WrittenCatches(s, a, phase.locals);
    } else if phase.Closing? {
      HeldStill(s, a, q);
      if a.Advance? {
        assert FitsFresh(s, a.pid);
      }
    }
  }

  lemma CaughtKept(s: System, a: Action)
    requires Invariant(s) && AllCaught(s) && Enabled(s, a) && !s.lossy && !Apply(s, a).lossy
    ensures AllCaught(Apply(s, a))
  {
    hide Invariant, AdvanceRun, AdvanceFreeze, LedgerGrows, MayRun;
    var s' := Apply(s, a);
    forall q | q in s'.processes ensures Caught(s', q) {
      OthersStay(s, a, q);
      if (a.Spawn? || a.Advance? || a.Fail? || a.LeaveLock? || a.Crash?) && a.pid == q {
        if s'.processes[q].phase.Closing? || s'.processes[q].phase.Locking? {
          MoverCaught(s, a);
        }
      } else {
        OtherCaught(s, a, q);
      }
    }
  }

  lemma OthersStay(s: System, a: Action, q: nat)
    requires Enabled(s, a) && q in Apply(s, a).processes
    ensures ((a.Spawn? || a.Advance? || a.Fail? || a.LeaveLock? || a.Crash?) && a.pid == q)
      || (q in s.processes && Apply(s, a).processes[q] == s.processes[q])
  {
    hide LedgerGrows, MayRun;
  }

  lemma {:induction false} ExecutionCaught(states: seq<System>, actions: seq<Action>, i: nat)
    requires Execution(states, actions) && i < |states| && !states[i].lossy
    ensures AllCaught(states[i])
  {
    hide Apply, Enabled, Invariant, AllCaught;
    if i > 0 {
      if states[i - 1].lossy {
        LossyStays(states, actions, i - 1, i);
      }
      ExecutionCaught(states, actions, i - 1);
      ExecutionKeeps(states, actions, i - 1);
      CaughtKept(states[i - 1], actions[i - 1]);
    } else {
      InitiallyCaught();
    }
  }

  lemma InitiallyCaught()
    ensures AllCaught(INITIAL)
  {
  }

  /** In an execution that lost nothing so far, the ledger a run holds at the lock lacks something on disk
      exactly when the guard it passed, `checkNotYetEvaluated`, fails on the ledger now on disk. */
  lemma GuardTellsLoss(states: seq<System>, actions: seq<Action>, i: nat, pid: nat)
    requires Execution(states, actions) && i < |states| && AtLock(states[i], pid) && !states[i].lossy
    ensures var l := states[i].processes[pid].phase.locals;
      LedgerGrows(LedgerOf(states[i].disk), l.ledger) <==> !Evaluated(states[i], l)
  {
    hide KeepsAttempts, NotYetEvaluated, EpochAllowed, AdvanceRun, AdvanceFreeze;
    var s := states[i];
    var l := s.processes[pid].phase.locals;
    ExecutionKeeps(states, actions, i);
    ExecutionCaught(states, actions, i);
    assert Caught(s, pid) && FitsFresh(s, pid) && Fits(s, pid);
    if LedgerGrows(LedgerOf(s.disk), l.ledger) && Evaluated(s, l) {
      EvaluatedKept(LedgerOf(s.disk), l.ledger, l.freeze.epoch, l.freeze.candidate);
    }
  }

  /** A run takes the lock although its attempt is on disk already. */
  predicate Overtaken(s: System, a: Action) {
    a.Advance? && AtLock(s, a.pid) && Evaluated(s, s.processes[a.pid].phase.locals)
  }

  /** An execution takes a lock with a ledger that lacks something on disk exactly when it takes one at
      which the guard fails. */
  lemma {:induction false} LossyExactly(states: seq<System>, actions: seq<Action>, n: nat)
    requires Execution(states, actions) && n < |states|
    ensures states[n].lossy <==> exists i :: 0 <= i < n && Overtaken(states[i], actions[i])
  {
    hide LedgerGrows, Evaluated;
    if n > 0 {
      LossyExactly(states, actions, n - 1);
      var s, a := states[n - 1], actions[n - 1];
      LossyGrows(s, a);
      if !s.lossy {
        LossAtLock(s, a);
        if a.Advance? && AtLock(s, a.pid) {
          GuardTellsLoss(states, actions, n - 1, a.pid);
        }
        assert states[n].lossy <==> Overtaken(s, a);
      }
    }
  }

  lemma LossAtLock(s: System, a: Action)
    requires Enabled(s, a) && !s.lossy
    ensures Apply(s, a).lossy <==>
      a.Advance? && AtLock(s, a.pid) && !LedgerGrows(LedgerOf(s.disk), s.processes[a.pid].phase.locals.ledger)
  {
    hide MayRun, LedgerGrows;
  }

  /** If at every lock the guard still holds, no candidate is scanned twice on one epoch and nothing on
      disk is ever forgotten. */
  lemma GuardedIsSafe(states: seq<System>, actions: seq<Action>)
    requires Execution(states, actions) && forall i :: 0 <= i < |actions| ==> !Overtaken(states[i], actions[i])
    ensures forall i, j :: 0 <= i <= j < |states| ==> LedgerGrows(LedgerOf(states[i].disk), LedgerOf(states[j].disk))
    ensures var scans := states[|states| - 1].scans;
      forall j, k :: 0 <= j < k < |scans| ==>
        scans[j].corpus.epoch != scans[k].corpus.epoch || scans[j].candidate != scans[k].candidate
  {
    hide Apply, Enabled, LedgerGrows, Evaluated;
    forall i, j | 0 <= i <= j < |states| ensures LedgerGrows(LedgerOf(states[i].disk), LedgerOf(states[j].disk)) {
      LossyExactly(states, actions, j);
      AttemptsNeverForgotten(states, actions, i, j);
    }
    LossyExactly(states, actions, |states| - 1);
    ScannedAtMostOnce(states, actions, |states| - 1);
  }

  predicate RepeatsAttempt(c: Scan, ledger: Ledger) {
    exists r :: r in ledger.runs && r.epoch == c.corpus.epoch && r.candidate == c.candidate
  }

  predicate RepeatsScan(c: Scan, scans: seq<Scan>) {
    exists d :: d in scans && d.corpus.epoch == c.corpus.epoch && d.candidate == c.candidate
  }

  /** The run at the lock, if it goes on alone and its freeze is there, scans; and its scan repeats an
      attempt of the ledger on disk exactly when the guard fails on that ledger. If the guard holds, and
      nothing was lost before, it repeats no earlier scan. */
  lemma ScanRepeatsExactly(states: seq<System>, actions: seq<Action>, pid: nat)
    requires Execution(states, actions) && AtLock(states[|states| - 1], pid) && states[|states| - 1].disk.freeze.Some?
    ensures var s := states[|states| - 1]; var l := s.processes[pid].phase.locals;
      var after := After(s, Advances(pid, 3));
        var c := Scan(pid, l.freeze.candidate, l.corpus, s.processes[pid].task.context);
      && after.Some? && after.value.scans == s.scans + [c]
      && (RepeatsAttempt(c, LedgerOf(s.disk)) <==> Evaluated(s, l))
      && (!s.lossy && !Evaluated(s, l) ==> !RepeatsScan(c, s.scans))
  {
    hide After, LedgerGrows, Reserving, AdvanceFreeze, AdvanceRun, FitsFresh;
    var s := states[|states| - 1];
    var l := s.processes[pid].phase.locals;
    ScansNext(s, pid);
    ExecutionKeeps(states, actions, |states| - 1);
    assert Fits(s, pid);
    if !s.lossy {
      forall d | d in s.scans && d.corpus.epoch == l.corpus.epoch && d.candidate == l.freeze.candidate
        ensures Evaluated(s, l) {
        HeldIsEvaluated(LedgerOf(s.disk), d.runId, d.corpus.epoch, d.candidate);
      }
    }
  }

  lemma ScansNext(s: System, pid: nat)
    requires AtLock(s, pid) && s.disk.freeze.Some?
    ensures var l := s.processes[pid].phase.locals; var after := After(s, Advances(pid, 3));
      after.Some? && after.value.scans
        == s.scans + [Scan(pid, l.freeze.candidate, l.corpus, s.processes[pid].task.context)]
  {
    hide After, LedgerGrows, Reserving;
    var l, task := s.processes[pid].phase.locals, s.processes[pid].task;
    var k, lossy := PushAttempt(l, pid), s.lossy || !LedgerGrows(LedgerOf(s.disk), l.ledger);
    var reserved := s.disk.(lock := Some(pid), ledger := Some(k.ledger));
    var scans := s.scans + [Scan(pid, k.freeze.candidate, k.corpus, task.context)];
    var moved := reserved.(freeze := None, moved := s.disk.moved[pid := s.disk.freeze.value]);
    Reserves(s, pid);
    assert Advances(pid, 3) == Advances(pid, 2) + Advances(pid, 1);
    AfterBoth(s, Advances(pid, 2), Advances(pid, 1));
    Steps(s, pid, task, MovingFreeze(k), reserved, s.scans, lossy, Scanning(k), moved, scans, lossy, 1);
    AfterNothing(With(s, pid, task, Scanning(k), moved, scans, lossy), pid);
  }

  /** Conversely, a run that stands at the lock when its attempt is on disk already can go on to an
      execution that has forgotten an attempt or an epoch, and to one whose last scan is a second attempt. */
  lemma OvertakenLoses(states: seq<System>, actions: seq<Action>, pid: nat)
      returns (forgets: seq<System>, first: seq<Action>, repeats: seq<System>, second: seq<Action>)
    requires Execution(states, actions) && Overtaken(states[|states| - 1], Advance(pid)) && !states[|states| - 1].lossy
    ensures Execution(forgets, first) && first == actions + Advances(pid, 2)
    ensures !LedgerGrows(LedgerOf(states[|states| - 1].disk), LedgerOf(forgets[|forgets| - 1].disk))
    ensures states[|states| - 1].disk.freeze.Some? ==>
      && Execution(repeats, second) && second == actions + Advances(pid, 3)
      && |repeats[|repeats| - 1].scans| == |states[|states| - 1].scans| + 1
      && RepeatsAttempt(repeats[|repeats| - 1].scans[|states[|states| - 1].scans|], LedgerOf(states[|states| - 1].disk))
  {
    hide Apply, Enabled, After, LedgerGrows, Evaluated, RepeatsAttempt;
    var s := states[|states| - 1];
    GuardTellsLoss(states, actions, |states| - 1, pid);
    ReservationKeepsExactly(states, actions, pid);
    forgets := AfterExecutes(states, actions, Advances(pid, 2));
    first := actions + Advances(pid, 2);
    repeats, second := [], [];
    if s.disk.freeze.Some? {
      ScanRepeatsExactly(states, actions, pid);
      repeats := AfterExecutes(states, actions, Advances(pid, 3));
      second := actions + Advances(pid, 3);
    }
  }
}
