/** Pending freezes that are removed by hand: between calls this always lets the next attempt through, and
    under a live run it can lose one. */
module BlindRecovery {
  import opened Options
  import opened FileContents
  import opened BlindProtocol
  import opened BlindSafety
  import opened BlindSerial
  import opened BlindExact

  /** The store as the custodian leaves it: no lock, no freeze, and the corpus. */
  function Cleaned(s: System, c: Corpus): System {
    s.(disk := s.disk.(lock := None, corpus := Some(c), freeze := None))
  }

  function CleanUp(s: System, c: Corpus): seq<Action> {
    (if s.disk.lock.Some? then [RemoveStaleLock] else []) + [SetCorpus(c), ClearFreeze]
  }

  lemma CleansUp(s: System, c: Corpus)
    requires NobodyLive(s)
    ensures After(s, CleanUp(s, c)) == Some(Cleaned(s, c))
  {
    hide AdvanceRun, AdvanceFreeze;
    var unlocked := s.(disk := s.disk.(lock := None));
    ClearsFreeze(unlocked, c);
    if s.disk.lock.Some? {
      assert CleanUp(s, c)[1..] == [SetCorpus(c), ClearFreeze];
    } else {
      assert CleanUp(s, c) == [SetCorpus(c), ClearFreeze] && unlocked == s;
    }
  }

  lemma ClearsFreeze(s: System, c: Corpus)
    requires NobodyLive(s) && s.disk.lock.None?
    ensures After(s, [SetCorpus(c), ClearFreeze]) == Some(Cleaned(s, c))
  {
    hide AdvanceRun, AdvanceFreeze;
    var placed := Apply(s, SetCorpus(c));
    assert [SetCorpus(c), ClearFreeze][1..] == [ClearFreeze] && [ClearFreeze][1..] == [];
    assert After(placed, [ClearFreeze]) == After(Apply(placed, ClearFreeze), []);
  }

  /** The state once a freeze and a run, both alone, have gone through. */
  lemma FreezesAndRuns(states: seq<System>, actions: seq<Action>, pid: nat, run: nat, c: Corpus, candidate: string,
      x: Context)
      returns (all: seq<System>, more: seq<Action>)
    requires Execution(states, actions)
    requires var s := states[|states| - 1];
      && pid !in s.processes && run !in s.processes && pid != run
      && s.disk.lock.None? && s.disk.freeze.None? && s.disk.corpus == Some(c)
        && MayFreeze(LedgerOf(s.disk), c, candidate, x)
    ensures Execution(all, more)
    ensures var s, end := states[|states| - 1], all[|all| - 1];
      end.scans == s.scans + [Scan(run, candidate, c, x)] && Holds(LedgerOf(end.disk), run, c.epoch, candidate)
  {
    var s := states[|states| - 1];
    hide Execution, After, Enabled, Apply, MayRun, LedgerGrows, Settling;
    FreezesAlone(s, pid, candidate, x);
    var freeze := FreezeOf(pid, c, candidate, x);
    var frozen := With(s, pid, FreezeBlind(candidate, x), Ended, s.disk.(freeze := Some(Whole(freeze))), s.scans,
      s.lossy);
    all, more := Plays(states, actions, [Spawn(pid, FreezeBlind(candidate, x))] + Advances(pid, 4), frozen);
    RunChecks(frozen, run, freeze, c);
    var l := Locals(freeze, c, LedgerOf(s.disk));
    var ready := With(frozen, run, RunBlind(candidate, x, true), Locking(l), frozen.disk, s.scans, s.lossy);
    all, more := Plays(all, more, [Spawn(run, RunBlind(candidate, x, true))] + Advances(run, 3), ready);
    RunFinishes(ready, run, l);
    all, more := Plays(all, more, Advances(run, 6), After(ready, Advances(run, 6)).value);
    FinishedHolds(ready.disk, run, l);
  }

  lemma FinishedHolds(disk: Disk, run: nat, l: Locals)
    requires disk.freeze.Some?
    ensures Holds(LedgerOf(Finished(disk, run, l)), run, l.corpus.epoch, l.freeze.candidate)
  {
    var pushed := PushAttempt(l, run).ledger;
    SettlingKeeps(pushed.runs, run, Complete);
    assert SameAttempt(pushed.runs[|l.ledger.runs|], Settling(pushed.runs, run, Complete)[|l.ledger.runs|]);
  }

  /** However an execution got there, by crashes during a freeze, edits of the corpus or stale locks: once no
      call is live, an attempt the ledger permits can be made, and is then on the ledger and scanned. */
  lemma Recovers(states: seq<System>, actions: seq<Action>, pid: nat, run: nat, c: Corpus, candidate: string,
      x: Context)
      returns (all: seq<System>, more: seq<Action>)
    requires Execution(states, actions)
    requires var s := states[|states| - 1];
      && NobodyLive(s) && MayFreeze(LedgerOf(s.disk), c, candidate, x)
      && pid !in s.processes && run !in s.processes && pid != run
    ensures Execution(all, more)
    ensures var s, end := states[|states| - 1], all[|all| - 1];
      end.scans == s.scans + [Scan(run, candidate, c, x)] && Holds(LedgerOf(end.disk), run, c.epoch, candidate)
  {
    var s := states[|states| - 1];
    hide Execution, After, Enabled, Apply, MayRun, Holds;
    CleansUp(s, c);
    all, more := Plays(states, actions, CleanUp(s, c), Cleaned(s, c));
    all, more := FreezesAndRuns(all, more, pid, run, c, candidate, x);
  }

  /** A run that has its ledger and waits for the lock, when its freeze is cleared, another candidate is
      frozen, and a run of that one goes through: its guard holds, no lock was taken with a lesser ledger,
      and yet its ledger lacks the other attempt. So a pending freeze may be removed only between calls. */
  lemma ClearedUnderARun(c: Corpus, candidate: string, other: string, x: Context)
      returns (states: seq<System>, actions: seq<Action>, since: seq<Action>, end: System)
    requires candidate != other && !x.dirty && x.replays >= 2
    ensures Execution(states, actions) && AtLock(states[|states| - 1], 2)
    ensures var s := states[|states| - 1];
      s.disk.freeze.Some? && After(s.(disk := s.disk.(freeze := None)), since) == Some(end)
    ensures AtLock(end, 2) && end.processes[2] == states[|states| - 1].processes[2] && !end.lossy
    ensures var l := end.processes[2].phase.locals;
      !Evaluated(end, l) && !LedgerGrows(LedgerOf(end.disk), l.ledger)
  {
    hide Execution, After, Enabled, Apply;
    CorpusPlaced(c);
    var s1, mine, yours := ReadyFor(c), FreezeOf(1, c, candidate, x), FreezeOf(3, c, other, x);
    var empty := Ledger([], []);
    FreezesAlone(s1, 1, candidate, x);
    var s2 := With(s1, 1, FreezeBlind(candidate, x), Ended, s1.disk.(freeze := Some(Whole(mine))), [], false);
    states, actions := Plays([INITIAL, s1], [SetCorpus(c)], [Spawn(1, FreezeBlind(candidate, x))] + Advances(1, 4), s2);
    RunChecks(s2, 2, mine, c);
    var s3 := With(s2, 2, RunBlind(candidate, x, true), Locking(Locals(mine, c, empty)), s2.disk, [], false);
    states, actions := Plays(states, actions, [Spawn(2, RunBlind(candidate, x, true))] + Advances(2, 3), s3);
    var s4 := s3.(disk := s3.disk.(freeze := None));
    FreezesAlone(s4, 3, other, x);
    var s5 := With(s4, 3, FreezeBlind(other, x), Ended, s4.disk.(freeze := Some(Whole(yours))), [], false);
    RunChecks(s5, 4, yours, c);
    var s6 := With(s5, 4, RunBlind(other, x, true), Locking(Locals(yours, c, empty)), s5.disk, [], false);
    RunFinishes(s6, 4, Locals(yours, c, empty));
    end := With(s6, 4, RunBlind(other, x, true), Ended, Finished(s6.disk, 4, Locals(yours, c, empty)),
      [Scan(4, other, c, x)], false);
    assert [] + [Scan(4, other, c, x)] == [Scan(4, other, c, x)];
    var freezing, starting := [Spawn(3, FreezeBlind(other, x))] + Advances(3, 4),
      [Spawn(4, RunBlind(other, x, true))] + Advances(4, 3);
    AfterBoth(s4, freezing, starting);
    AfterBoth(s4, freezing + starting, Advances(4, 6));
    since := freezing + starting + Advances(4, 6);
  }
}
