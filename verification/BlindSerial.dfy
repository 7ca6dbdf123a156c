/** Where the blind ledger's guarantee comes from: calls made one after another never take the lock
    with a ledger that lacks something on disk, and interleaved calls can. */
module BlindSerial {
  import opened Options
  import opened FileContents
  import opened BlindProtocol
  import opened BlindSafety

  // ---------------------------------------------------------------------------------------------
  // Serial calls.

  /** A call starts only when every earlier call has ended or crashed. */
  ghost predicate Serial(states: seq<System>, actions: seq<Action>) {
    Execution(states, actions) && forall i :: 0 <= i < |actions| && actions[i].Spawn? ==> NobodyLive(states[i])
  }

  ghost predicate Alone(s: System) {
    && !s.lossy
    && (forall p, q ::
      p in s.processes && q in s.processes && s.processes[p].phase.Live() && s.processes[q].phase.Live() ==> p == q)
    && (forall p :: p in s.processes && s.processes[p].phase.Locking? ==>
      s.processes[p].phase.locals.ledger == LedgerOf(s.disk))
  }

  lemma AloneKept(s: System, a: Action)
    requires Alone(s) && Enabled(s, a) && (a.Spawn? ==> NobodyLive(s))
    ensures Alone(Apply(s, a))
  {
    hide MayRun, EpochAllowed, NotYetEvaluated, Settling, Reserving;
  }

  lemma {:induction false} SerialNeverLossy(states: seq<System>, actions: seq<Action>, i: nat)
    requires Serial(states, actions) && i < |states|
    ensures Alone(states[i])
  {
    hide Apply, Enabled, NobodyLive;
    if i > 0 {
      SerialNeverLossy(states, actions, i - 1);
      AloneKept(states[i - 1], actions[i - 1]);
    }
  }

  /** Over every serial sequence of freezes and runs, each cut by a crash anywhere: one scan for each
      epoch and candidate, and one set of fixtures for each epoch label. */
  lemma SerialScansOnce(states: seq<System>, actions: seq<Action>, i: nat)
    requires Serial(states, actions) && i < |states|
    ensures forall j, k :: 0 <= j < k < |states[i].scans| ==>
      states[i].scans[j].corpus.epoch != states[i].scans[k].corpus.epoch
        || states[i].scans[j].candidate != states[i].scans[k].candidate
    ensures forall c, d :: c in states[i].scans && d in states[i].scans ==>
      (c.corpus.epoch == d.corpus.epoch <==> c.corpus.fixtures == d.corpus.fixtures)
    ensures Sound(LedgerOf(states[i].disk))
  {
    hide Execution, Sound;
    SerialNeverLossy(states, actions, i);
    ScannedAtMostOnce(states, actions, i);
  }

  // ---------------------------------------------------------------------------------------------
  // Playing actions in a row.

  function After(s: System, actions: seq<Action>): Option<System>
    decreases |actions|
  {
    if actions == [] then Some(s)
    else if Enabled(s, actions[0]) then After(Apply(s, actions[0]), actions[1..])
    else None
  }

  lemma {:induction false} AfterBoth(s: System, first: seq<Action>, second: seq<Action>)
    requires After(s, first).Some?
    ensures After(s, first + second) == After(After(s, first).value, second)
    decreases |first|
  {
    hide Enabled, Apply;
    if first == [] {
      assert first + second == second;
    } else {
      assert (first + second)[1..] == first[1..] + second;
      AfterBoth(Apply(s, first[0]), first[1..], second);
    }
  }

  lemma {:induction false} AfterExecutes(states: seq<System>, done: seq<Action>, actions: seq<Action>)
      returns (all: seq<System>)
    requires Execution(states, done) && After(states[|states| - 1], actions).Some?
    ensures Execution(all, done + actions)
    ensures Some(all[|all| - 1]) == After(states[|states| - 1], actions)
    decreases |actions|
  {
    hide Enabled, Apply;
    if actions == [] {
      all := states;
      assert done + actions == done;
    } else {
      var last := states[|states| - 1];
      var longer, more := states + [Apply(last, actions[0])], done + [actions[0]];
      assert Execution(longer, more);
      all := AfterExecutes(longer, more, actions[1..]);
      assert more + actions[1..] == done + actions;
    }
  }

  function Advances(pid: nat, n: nat): seq<Action> {
    seq(n, _ => Advance(pid))
  }

  /** `s` but for process `pid`, the disk, the scans and the flag. */
  function With(s: System, pid: nat, task: Task, phase: Phase, disk: Disk, scans: seq<Scan>, lossy: bool): System {
    System(disk, s.processes[pid := Process(task, phase)], scans, lossy)
  }

  lemma WithAgain(s: System, pid: nat, task: Task, phase: Phase, next: Phase, disk: Disk, scans: seq<Scan>, lossy: bool)
    ensures MoveTo(With(s, pid, task, phase, disk, scans, lossy), pid, next)
      == With(s, pid, task, next, disk, scans, lossy)
  {
    assert s.processes[pid := Process(task, phase)][pid := Process(task, next)]
      == s.processes[pid := Process(task, next)];
  }

  lemma AdvanceOnce(s: System, pid: nat, n: nat)
    requires n > 0 && Enabled(s, Advance(pid))
    ensures After(s, Advances(pid, n)) == After(Apply(s, Advance(pid)), Advances(pid, n - 1))
  {
    hide Enabled, Apply;
    assert Advances(pid, n)[1..] == Advances(pid, n - 1);
  }

  /** One more step of process `pid` brings it to `next`. */
  lemma Steps(s: System, pid: nat, task: Task, phase: Phase, disk: Disk, scans: seq<Scan>, lossy: bool,
              next: Phase, disk': Disk, scans': seq<Scan>, lossy': bool, n: nat)
    requires n > 0 && phase.Live()
    requires var t := With(s, pid, task, phase, disk, scans, lossy);
      Apply(t, Advance(pid)) == MoveTo(t.(disk := disk', scans := scans', lossy := lossy'), pid, next)
    ensures After(With(s, pid, task, phase, disk, scans, lossy), Advances(pid, n))
         == After(With(s, pid, task, next, disk', scans', lossy'), Advances(pid, n - 1))
  {
    hide Apply, After, MoveTo;
    AdvanceOnce(With(s, pid, task, phase, disk, scans, lossy), pid, n);
    WithAgain(s, pid, task, phase, next, disk', scans', lossy');
  }

  lemma StartsWith(s: System, pid: nat, task: Task, n: nat)
    requires pid !in s.processes
    ensures After(s, [Spawn(pid, task)] + Advances(pid, n)) ==
      After(With(s, pid, task, if task.FreezeBlind? then ReadingCorpus else ReadingFreeze, s.disk, s.scans, s.lossy),
        Advances(pid, n))
  {
    assert ([Spawn(pid, task)] + Advances(pid, n))[1..] == Advances(pid, n);
  }

  function FreezeOf(pid: nat, c: Corpus, candidate: string, x: Context): Freeze {
    Freeze(pid, c.epoch, CommitmentOf(c), candidate, x)
  }

  /** A freeze with no obstacle ends with its freeze on disk. */
  lemma FreezesAlone(s: System, pid: nat, candidate: string, x: Context)
    requires pid !in s.processes && s.disk.corpus.Some? && s.disk.freeze.None?
    requires MayFreeze(LedgerOf(s.disk), s.disk.corpus.value, candidate, x)
    ensures var c := s.disk.corpus.value;
      After(s, [Spawn(pid, FreezeBlind(candidate, x))] + Advances(pid, 4)) ==
      Some(With(s, pid, FreezeBlind(candidate, x), Ended,
        s.disk.(freeze := Some(Whole(FreezeOf(pid, c, candidate, x)))), s.scans, s.lossy))
  {
    hide MayFreeze, After, AdvanceRun;
    var task, c := FreezeBlind(candidate, x), s.disk.corpus.value;
    var f, torn := FreezeOf(pid, c, candidate, x), s.disk.(freeze := Some(Torn));
    StartsWith(s, pid, task, 4);
    Steps(s, pid, task, ReadingCorpus, s.disk, s.scans, s.lossy, CheckingLedger(c), s.disk, s.scans, s.lossy, 4);
    Steps(s, pid, task, CheckingLedger(c), s.disk, s.scans, s.lossy, CreatingFreeze(f), s.disk, s.scans, s.lossy, 3);
    Steps(s, pid, task, CreatingFreeze(f), s.disk, s.scans, s.lossy, FillingFreeze(f), torn, s.scans, s.lossy, 2);
    Steps(s, pid, task, FillingFreeze(f), torn, s.scans, s.lossy, Ended, torn.(freeze := Some(Whole(f))), s.scans,
      s.lossy, 1);
    AfterNothing(With(s, pid, task, Ended, torn.(freeze := Some(Whole(f))), s.scans, s.lossy), pid);
  }

  lemma AfterNothing(s: System, pid: nat)
    ensures After(s, Advances(pid, 0)) == Some(s)
  {
  }

  /** A run whose checks pass stands before the lock with the ledger it read. */
  lemma RunChecks(s: System, pid: nat, freeze: Freeze, c: Corpus)
    requires pid !in s.processes && s.disk.freeze == Some(Whole(freeze)) && s.disk.corpus == Some(c)
    requires freeze.commitment == CommitmentOf(c) && freeze.epoch == c.epoch && !freeze.context.dirty
    requires MayRun(LedgerOf(s.disk), c, freeze.candidate)
    ensures var task := RunBlind(freeze.candidate, freeze.context, true);
      After(s, [Spawn(pid, task)] + Advances(pid, 3)) ==
      Some(With(s, pid, task, Locking(Locals(freeze, c, LedgerOf(s.disk))), s.disk, s.scans, s.lossy))
  {
    hide MayRun, After, Apply;
    var task := RunBlind(freeze.candidate, freeze.context, true);
    StartsWith(s, pid, task, 3);
    RunMatches(s, pid, freeze, c);
    ReadsLedger(s, pid, task, freeze, c);
  }

  lemma RunMatches(s: System, pid: nat, freeze: Freeze, c: Corpus)
    requires s.disk.freeze == Some(Whole(freeze)) && s.disk.corpus == Some(c)
    requires freeze.commitment == CommitmentOf(c) && freeze.epoch == c.epoch && !freeze.context.dirty
    ensures var task := RunBlind(freeze.candidate, freeze.context, true);
      After(With(s, pid, task, ReadingFreeze, s.disk, s.scans, s.lossy), Advances(pid, 3)) ==
      After(With(s, pid, task, ReadingLedger(freeze, c), s.disk, s.scans, s.lossy), Advances(pid, 1))
  {
    hide MayRun, After, AdvanceFreeze, LedgerGrows, Reserving, Settling;
    var task := RunBlind(freeze.candidate, freeze.context, true);
    Steps(s, pid, task, ReadingFreeze, s.disk, s.scans, s.lossy, MatchingCorpus(freeze), s.disk, s.scans, s.lossy, 3);
    Steps(s, pid, task, MatchingCorpus(freeze), s.disk, s.scans, s.lossy, ReadingLedger(freeze, c), s.disk, s.scans,
      s.lossy, 2);
  }

  lemma ReadsLedger(s: System, pid: nat, task: Task, freeze: Freeze, c: Corpus)
    requires MayRun(LedgerOf(s.disk), c, freeze.candidate)
    ensures After(With(s, pid, task, ReadingLedger(freeze, c), s.disk, s.scans, s.lossy), Advances(pid, 1)) ==
      Some(With(s, pid, task, Locking(Locals(freeze, c, LedgerOf(s.disk))), s.disk, s.scans, s.lossy))
  {
    hide MayRun, After, AdvanceFreeze, LedgerGrows, Reserving, Settling;
    var l := Locals(freeze, c, LedgerOf(s.disk));
    Steps(s, pid, task, ReadingLedger(freeze, c), s.disk, s.scans, s.lossy, Locking(l), s.disk, s.scans, s.lossy, 1);
    AfterNothing(With(s, pid, task, Locking(l), s.disk, s.scans, s.lossy), pid);
  }

  /** The disk a run leaves that held `l` before the lock, and met no obstacle after it. */
  function Finished(disk: Disk, pid: nat, l: Locals): Disk
    requires disk.freeze.Some?
  {
    var pushed := PushAttempt(l, pid).ledger;
    disk.(ledger := Some(pushed.(runs := Settling(pushed.runs, pid, Complete))), lock := None,
          freeze := None, moved := disk.moved[pid := disk.freeze.value])
  }

  function Spent(disk: Disk, pid: nat, l: Locals): Disk
    requires disk.freeze.Some?
  {
    disk.(ledger := Some(PushAttempt(l, pid).ledger), lock := Some(pid),
          freeze := None, moved := disk.moved[pid := disk.freeze.value])
  }

  lemma RunMoves(s: System, pid: nat, task: Task, k: Locals, disk: Disk, scans: seq<Scan>, lossy: bool)
    requires disk.freeze.Some?
    ensures After(With(s, pid, task, WritingLedger(k), disk, scans, lossy), Advances(pid, 5)) ==
      After(With(s, pid, task, Scanning(k),
                 disk.(ledger := Some(k.ledger), freeze := None, moved := disk.moved[pid := disk.freeze.value]),
                 scans + [Scan(pid, k.freeze.candidate, k.corpus, task.context)], lossy), Advances(pid, 3))
  {
    hide MayRun, After, Reserving, Settling, LedgerOf;
    var reserved := disk.(ledger := Some(k.ledger));
    Steps(s, pid, task, WritingLedger(k), disk, scans, lossy, MovingFreeze(k), reserved, scans, lossy, 5);
    Steps(s, pid, task, MovingFreeze(k), reserved, scans, lossy, Scanning(k),
          reserved.(freeze := None, moved := disk.moved[pid := disk.freeze.value]),
          scans + [Scan(pid, k.freeze.candidate, k.corpus, task.context)], lossy, 4);
  }

  lemma RunSpends(s: System, pid: nat, l: Locals)
    requires pid in s.processes && s.processes[pid].phase == Locking(l) && s.disk.lock.None? && s.disk.freeze.Some?
    ensures After(s, Advances(pid, 6)) ==
      After(With(s, pid, s.processes[pid].task, Scanning(PushAttempt(l, pid)), Spent(s.disk, pid, l),
                 s.scans + [Scan(pid, l.freeze.candidate, l.corpus, s.processes[pid].task.context)], s.lossy
                   || !LedgerGrows(LedgerOf(s.disk), l.ledger)), Advances(pid, 3))
  {
    hide MayRun, After, Reserving, Settling;
    var task, k, lossy := s.processes[pid].task, PushAttempt(l, pid), s.lossy
      || !LedgerGrows(LedgerOf(s.disk), l.ledger);
    var locked := s.disk.(lock := Some(pid));
    assert s == With(s, pid, task, Locking(l), s.disk, s.scans, s.lossy);
    Steps(s, pid, task, Locking(l), s.disk, s.scans, s.lossy, WritingLedger(k), locked, s.scans, lossy, 6);
    RunMoves(s, pid, task, k, locked, s.scans, lossy);
  }

  lemma RunSettles(s: System, pid: nat, task: Task, k: Locals, disk: Disk, scans: seq<Scan>, lossy: bool)
    requires task.RunBlind? && task.clean
    ensures var settled := k.ledger.(runs := Settling(k.ledger.runs, pid, Complete));
      After(With(s, pid, task, Scanning(k), disk, scans, lossy), Advances(pid, 3)) ==
      Some(With(s, pid, task, Ended, disk.(ledger := Some(settled), lock := None), scans, lossy))
  {
    hide MayRun, After, AdvanceFreeze, LedgerGrows, Reserving, Settling;
    Steps(s, pid, task, Scanning(k), disk, scans, lossy, Closing(k, Complete, false), disk, scans, lossy, 3);
    RunCloses(s, pid, task, k, disk, scans, lossy);
  }

  lemma RunCloses(s: System, pid: nat, task: Task, k: Locals, disk: Disk, scans: seq<Scan>, lossy: bool)
    ensures var settled := k.ledger.(runs := Settling(k.ledger.runs, pid, Complete));
      After(With(s, pid, task, Closing(k, Complete, false), disk, scans, lossy), Advances(pid, 2)) ==
      Some(With(s, pid, task, Ended, disk.(ledger := Some(settled), lock := None), scans, lossy))
  {
    hide MayRun, After, AdvanceFreeze, LedgerGrows, Reserving, Settling;
    var closed := disk.(ledger := Some(k.ledger.(runs := Settling(k.ledger.runs, pid, Complete))));
    Steps(s, pid, task, Closing(k, Complete, false), disk, scans, lossy, Releasing, closed, scans, lossy, 2);
    Steps(s, pid, task, Releasing, closed, scans, lossy, Ended, closed.(lock := None), scans, lossy, 1);
    AfterNothing(With(s, pid, task, Ended, closed.(lock := None), scans, lossy), pid);
  }

  lemma RunFinishes(s: System, pid: nat, l: Locals)
    requires pid in s.processes && s.processes[pid].phase == Locking(l) && s.disk.lock.None? && s.disk.freeze.Some?
    requires s.processes[pid].task.RunBlind? && s.processes[pid].task.clean
    ensures After(s, Advances(pid, 6)) ==
      Some(With(s, pid, s.processes[pid].task, Ended, Finished(s.disk, pid, l),
                s.scans + [Scan(pid, l.freeze.candidate, l.corpus, s.processes[pid].task.context)], s.lossy
                  || !LedgerGrows(LedgerOf(s.disk), l.ledger)))
  {
    hide MayRun, After, Reserving, Settling;
    RunSpends(s, pid, l);
    RunSettles(s, pid, s.processes[pid].task, PushAttempt(l, pid), Spent(s.disk, pid, l),
               s.scans + [Scan(pid, l.freeze.candidate, l.corpus, s.processes[pid].task.context)], s.lossy
                 || !LedgerGrows(LedgerOf(s.disk), l.ledger));
  }

  lemma Plays(states: seq<System>, done: seq<Action>, actions: seq<Action>, end: System)
      returns (all: seq<System>, more: seq<Action>)
    requires Execution(states, done) && After(states[|states| - 1], actions) == Some(end)
    ensures Execution(all, more) && all[|all| - 1] == end
  {
    all := AfterExecutes(states, done, actions);
    more := done + actions;
  }

  function ReadyFor(c: Corpus): System {
    INITIAL.(disk := INITIAL.disk.(corpus := Some(c)))
  }

  lemma CorpusPlaced(c: Corpus)
    ensures Execution([INITIAL, ReadyFor(c)], [SetCorpus(c)])
  {
  }

  /** Interleaved calls break the guarantee: a run that read the ledger before another run of the same
      freeze took the lock overwrites that run's reservation, and scans the epoch again with the same
      candidate, consuming a freeze made for another one. */
  lemma InterleavedScansTwice(c: Corpus, candidate: string, other: string, x: Context)
      returns (states: seq<System>, actions: seq<Action>)
    requires candidate != other && !x.dirty && x.replays >= 2
    ensures Execution(states, actions)
    ensures var end := states[|states| - 1];
      && end.lossy
      && end.scans == [Scan(3, candidate, c, x), Scan(2, candidate, c, x)]
      && |LedgerOf(end.disk).runs| == 1
      && 2 in end.disk.moved && end.disk.moved[2] == Whole(FreezeOf(4, c, other, x))
  {
    hide Execution, After, Enabled, Apply;
    CorpusPlaced(c);
    var task, s1, freeze := RunBlind(candidate, x, true), ReadyFor(c), FreezeOf(1, c, candidate, x);
    var locals := Locals(freeze, c, Ledger([], []));
    FreezesAlone(s1, 1, candidate, x);
    var s2 := With(s1, 1, FreezeBlind(candidate, x), Ended, s1.disk.(freeze := Some(Whole(freeze))), [], false);
    states, actions := Plays([INITIAL, s1], [SetCorpus(c)], [Spawn(1, FreezeBlind(candidate, x))] + Advances(1, 4), s2);
    RunChecks(s2, 2, freeze, c);
    var s3 := With(s2, 2, task, Locking(locals), s2.disk, [], false);
    states, actions := Plays(states, actions, [Spawn(2, task)] + Advances(2, 3), s3);
    RunChecks(s3, 3, freeze, c);
    var s4 := With(s3, 3, task, Locking(locals), s3.disk, [], false);
    states, actions := Plays(states, actions, [Spawn(3, task)] + Advances(3, 3), s4);
    RunFinishes(s4, 3, locals);
    var s5 := With(s4, 3, task, Ended, Finished(s4.disk, 3, locals), [Scan(3, candidate, c, x)], false);
    assert [] + [Scan(3, candidate, c, x)] == [Scan(3, candidate, c, x)];
    states, actions := Plays(states, actions, Advances(3, 6), s5);
    assert MayFreeze(LedgerOf(s5.disk), c, other, x);
    FreezesAlone(s5, 4, other, x);
    var s6 := With(s5, 4, FreezeBlind(other, x), Ended, s5.disk.(freeze := Some(Whole(FreezeOf(4, c, other, x)))),
      s5.scans, false);
    states, actions := Plays(states, actions, [Spawn(4, FreezeBlind(other, x))] + Advances(4, 4), s6);
    RunFinishes(s6, 2, locals);
    var s7 := With(s6, 2, task, Ended, Finished(s6.disk, 2, locals), s6.scans + [Scan(2, candidate, c, x)], true);
    states, actions := Plays(states, actions, Advances(2, 6), s7);
  }
}
