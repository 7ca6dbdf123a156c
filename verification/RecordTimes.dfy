/** What the accepted order of timestamps says about time: `validateIntake` compares the times of a record
    and its first run as strings (benchmarks/lib/adversarial-intake.ts). */
module RecordTimes {
  import opened Options
  import opened Text
  import opened IntakeTypes
  import opened Expectations
  import opened Intake
  import opened FirstRunCheck
  import opened IntakeCheck

  import opened Timestamps
  import Outcomes

  // ---------------------------------------------------------------------------------------------
  // Reading a timestamp.

  predicate AreDigits(t: Text) {
    forall i :: 0 <= i < |t| ==> 0x30 <= t[i] <= 0x39
  }

  /** The schema's pattern for a timestamp. */
  predicate IsTimestamp(t: Text) {
    && |t| >= 20 && Formed(Stamp(t[..19], [])) && t[|t| - 1] == 0x5A
    && (|t| == 20 || (|t| > 21 && t[19] == 0x2E && AreDigits(t[20..|t| - 1])))
  }

  function StampOf(t: Text): Stamp
    requires IsTimestamp(t)
  {
    if |t| == 20 then Stamp(t[..19], []) else var digits: seq<Digit> := t[20..|t| - 1]; Stamp(t[..19], digits)
  }

  /** The pattern accepts the texts of formed stamps, and reads each back. */
  lemma StampReadsBack(t: Text)
    requires IsTimestamp(t)
    ensures Formed(StampOf(t)) && TextOf(StampOf(t)) == t
  {
    assert t[19..] == [t[19]] + t[20..];
    assert |t| > 21 ==> t[20..] == t[20..|t| - 1] + [0x5A];
    assert t == t[..19] + t[19..];
  }

  lemma TextReadsBack(s: Stamp)
    requires Formed(s)
    ensures IsTimestamp(TextOf(s)) && StampOf(TextOf(s)) == s
  {
    var t := TextOf(s);
    assert t[..19] == s.second;
    assert Formed(Stamp(s.second, [])) by { SameSecond(s, Stamp(s.second, [])); }
    hide Formed;
    if s.fraction != [] {
      var digits: Text := s.fraction;
      assert t == s.second + [0x2E] + digits + [0x5A];
      assert t[20..|t| - 1] == digits && t[19] == 0x2E;
    }
  }

  // ---------------------------------------------------------------------------------------------
  // Two timestamps in string order.

  /** `b` is `a` with the end of its fraction cut off, and what was cut off is not all zeros. */
  predicate CutsShort(a: Stamp, b: Stamp) {
    a.second == b.second && ProperPrefix(b.fraction, a.fraction)
      && exists i :: |b.fraction| <= i < |a.fraction| && a.fraction[i] != 0x30
  }

  lemma {:induction false} ZerosAddNothing(f: seq<Digit>)
    ensures FractionValue(f) > 0.0 <==> exists i :: 0 <= i < |f| && f[i] != 0x30
  {
    FractionBounds(f);
    if f != [] {
      FractionBounds(f[1..]);
      ZerosAddNothing(f[1..]);
      if i :| 0 <= i < |f[1..]| && f[1..][i] != 0x30 {
        assert f[i + 1] != 0x30;
      }
      if i :| 0 < i < |f| && f[i] != 0x30 {
        assert f[1..][i - 1] != 0x30;
      }
    }
  }

  lemma {:induction false} CutIsLess(b: seq<Digit>, a: seq<Digit>)
    requires ProperPrefix(b, a)
    ensures FractionValue(b) < FractionValue(a) <==> exists i :: |b| <= i < |a| && a[i] != 0x30
    decreases |b|
  {
    if b == [] {
      ZerosAddNothing(a);
    } else {
      PrefixTail(b, a);
      CutIsLess(b[1..], a[1..]);
      if i :| |b| <= i < |a| && a[i] != 0x30 {
        assert a[1..][i - 1] != 0x30;
      }
      if i :| |b[1..]| <= i < |a[1..]| && a[1..][i] != 0x30 {
        assert a[i + 1] != 0x30;
      }
      assert a[0] == b[0];
    }
  }

  /** Timestamps in string order go back in time exactly when the second cuts the fraction of the first. */
  lemma StringOrderGoesBack(a: Stamp, b: Stamp)
    requires Formed(a) && Formed(b) && AtMost(TextOf(a), TextOf(b))
    ensures Before(b, a) <==> CutsShort(a, b)
  {
    hide Less, FractionValue, Formed;
    StringsTellTime(a, b);
    LessTotal(a.second, b.second);
    if ProperPrefix(b.fraction, a.fraction) {
      CutIsLess(b.fraction, a.fraction);
    }
    if ProperPrefix(a.fraction, b.fraction) {
      DigitsCompare(a.fraction, b.fraction);
    }
  }

  // ---------------------------------------------------------------------------------------------
  // A record's times.

  function RunOf(file: Option<File>): Option<FirstRun<Digest>> {
    if file.Some? && file.value.content.Run? then Some(file.value.content.run) else None
  }

  /** Every time has the schema's form. */
  predicate Timed(record: Record, file: Option<File>) {
    && IsTimestamp(record.submittedAt)
    && (forall i :: 0 <= i < |record.history| ==> IsTimestamp(record.history[i].at))
    && (record.safetyReview.Some? ==> IsTimestamp(record.safetyReview.value.reviewedAt))
    && (RunOf(file).Some? ==> IsTimestamp(RunOf(file).value.recordedAt))
  }

  /** `b` is not earlier than `a`. */
  predicate InTime(a: Text, b: Text)
    requires IsTimestamp(a) && IsTimestamp(b)
  {
    !Before(StampOf(b), StampOf(a))
  }

  predicate Cuts(a: Text, b: Text)
    requires IsTimestamp(a) && IsTimestamp(b)
  {
    CutsShort(StampOf(a), StampOf(b))
  }

  lemma InTimeExactly(a: Text, b: Text)
    requires IsTimestamp(a) && IsTimestamp(b) && AtMost(a, b)
    ensures InTime(a, b) <==> !Cuts(a, b)
  {
    hide Before, CutsShort, Formed;
    StampReadsBack(a);
    StampReadsBack(b);
    StringOrderGoesBack(StampOf(a), StampOf(b));
  }

  lemma InTimeTransitive(a: Text, b: Text, c: Text)
    requires IsTimestamp(a) && IsTimestamp(b) && IsTimestamp(c) && InTime(a, b) && InTime(b, c)
    ensures InTime(a, c)
  {
    hide Less, FractionValue, IsTimestamp;
    var x, y, z := StampOf(a).second, StampOf(b).second, StampOf(c).second;
    LessTotal(x, y);
    LessTotal(y, z);
    LessTotal(x, z);
    if Less(z, x) {
      if Less(x, y) {
        LessTransitive(z, x, y);
      }
    }
  }

  /** The history of a clean record never goes back in time exactly when no entry cuts the fraction of the
      entry before it. */
  lemma HistoryTimesExactly(record: Record, file: Option<File>)
    requires IntakeCheck.Clean(record, file) && Timed(record, file)
    ensures var h := record.history;
      (forall i, k :: 0 <= i < k < |h| ==> InTime(h[i].at, h[k].at)) <==>
        (forall i :: 0 < i < |h| ==> !Cuts(h[i - 1].at, h[i].at))
  {
    hide Less, FixtureWrong, RunWrong, StateWrong, IsTimestamp, InTime, Cuts;
    CleanParts(record, file);
    hide IntakeCheck.Clean, CleanHistory, HistoryWrong;
    var h := record.history;
    HistoryBounded(record);
    forall i | 0 < i < |h| ensures InTime(h[i - 1].at, h[i].at) <==> !Cuts(h[i - 1].at, h[i].at) {
      InTimeExactly(h[i - 1].at, h[i].at);
    }
    if forall i :: 0 < i < |h| ==> !Cuts(h[i - 1].at, h[i].at) {
      forall i, k | 0 <= i < k < |h| ensures InTime(h[i].at, h[k].at) {
        EachAfterTheLast(h, i, k);
      }
    }
  }

  lemma {:induction false} EachAfterTheLast(h: seq<HistoryEntry>, i: nat, k: nat)
    requires forall j :: 0 <= j < |h| ==> IsTimestamp(h[j].at)
    requires forall j :: 0 < j < |h| ==> InTime(h[j - 1].at, h[j].at)
    requires i < k < |h|
    ensures InTime(h[i].at, h[k].at)
  {
    hide IsTimestamp, InTime;
    if i < k - 1 {
      EachAfterTheLast(h, i, k - 1);
      InTimeTransitive(h[i].at, h[k - 1].at, h[k].at);
    }
  }

  /** The first run of an accepted record was recorded after submission and review and before the freeze,
      in time and not only as strings, exactly when none of these three comparisons cuts a fraction. */
  lemma FirstRunTimesExactly(record: Record, file: Option<File>)
    requires IntakeCheck.Clean(record, file) && Timed(record, file) && record.status == Accepted
    ensures RunOf(file).Some? && record.safetyReview.Some? && |record.history| == 4
    ensures var recorded, reviewed, frozen := RunOf(file).value.recordedAt, record.safetyReview.value.reviewedAt,
      record.history[2].at;
      InTime(record.submittedAt, recorded) && InTime(reviewed, recorded) && InTime(recorded, frozen)
      <==> !Cuts(record.submittedAt, recorded) && !Cuts(reviewed, recorded) && !Cuts(recorded, frozen)
  {
    hide Less, IntakeCheck.Clean, IsTimestamp, InTime, Cuts, ExpectationsDigest;
    AcceptedFirstRun(record, file);
    var run := RunOf(file).value;
    InTimeExactly(record.submittedAt, run.recordedAt);
    InTimeExactly(record.safetyReview.value.reviewedAt, run.recordedAt);
    InTimeExactly(run.recordedAt, record.history[2].at);
  }

  // ---------------------------------------------------------------------------------------------
  // An accepted record that goes back in time.

  datatype Times = Times(submitted: Text, reviewed: Text, recorded: Text, frozen: Text, accepted: Text)

  /** As `validateIntake` wants them: in string order. */
  predicate Ascending(t: Times) {
    AtMost(t.submitted, t.reviewed) && AtMost(t.reviewed, t.recorded) && AtMost(t.recorded, t.frozen)
      && AtMost(t.frozen, t.accepted)
  }

  /** The threat category `other`. */
  const OTHER: Text := [0x6F, 0x74, 0x68, 0x65, 0x72]

  const BENIGN := Fixture([0x66], [0x66], [], MustNotFlag, [], [OTHER], Synthetic)

  function PlainRun(t: Times): FirstRun<Digest> {
    FirstRun([0x70], ExpectationsDigest([BENIGN]), t.recorded, [[0x73]], [RunResult([0x66], [0x73], false, [])])
  }

  /** One benign fixture, one scanner that reports nothing. */
  function PlainRecord(t: Times, text: Text): Record {
    Record([0x70], Accepted, ExternallyAuthored, External, Synthetic, true, [OTHER], false,
      ExpectationsDigest([BENIGN]), [BENIGN],
      t.submitted, Some(Review(t.reviewed, true)), Some(HashText(text)), None,
      [HistoryEntry(Submitted, t.submitted), HistoryEntry(SafetyReview, t.reviewed),
        HistoryEntry(FrozenFirstRun, t.frozen), HistoryEntry(Accepted, t.accepted)],
      [])
  }

  function PlainFile(t: Times, text: Text): Option<File> {
    Some(File(text, Run(PlainRun(t))))
  }

  /** Any times in string order are those of a record without problems. */
  lemma PlainIsClean(t: Times, text: Text)
    requires Ascending(t)
    ensures IntakeCheck.Clean(PlainRecord(t, text), PlainFile(t, text))
  {
    hide Less, ExpectationsDigest, HashText;
    var record, file := PlainRecord(t, text), PlainFile(t, text);
    PlainHistory(t, text);
    PlainFixtures(t, text);
    PlainStates(t, text);
    PlainRunFits(t, text);
    forall p ensures !Wrong(record, file, p) {
      hide HistoryWrong, FixtureWrong, StateWrong, RunWrong;
    }
  }

  lemma PlainHistory(t: Times, text: Text)
    requires Ascending(t)
    ensures forall p :: !HistoryWrong(PlainRecord(t, text), p)
  {
    hide Less, ExpectationsDigest, HashText;
    var record := PlainRecord(t, text);
    var h := record.history;
    StatusSteps();
    AtMostTransitive(t.reviewed, t.recorded, t.frozen);
    forall from, to | Follows(h, |h|, from, to) ensures to in Transitions(from) {
      var i :| 0 < i < |h| && h[i - 1].status == from && h[i].status == to;
      assert i == 1 || i == 2 || i == 3;
    }
    forall p ensures !HistoryWrong(record, p) {
      if p.Predates? && 0 < p.index < |h| {
        assert p.index == 1 || p.index == 2 || p.index == 3;
      }
    }
  }

  lemma StatusSteps()
    ensures SafetyReview in Transitions(Submitted) && FrozenFirstRun in Transitions(SafetyReview)
      && Accepted in Transitions(FrozenFirstRun)
  {
  }

  lemma PlainFixtures(t: Times, text: Text)
    ensures forall p :: !FixtureWrong(PlainRecord(t, text), p)
  {
    hide ExpectationsDigest, HashText;
    var record := PlainRecord(t, text);
    assert BENIGN in record.fixtures && OTHER in BENIGN.threatCategories;
    assert Used(record, OTHER);
  }

  lemma PlainStates(t: Times, text: Text)
    requires Ascending(t)
    ensures forall p :: !StateWrong(PlainRecord(t, text), p)
  {
    hide Less, ExpectationsDigest, HashText;
    var record := PlainRecord(t, text);
    assert forall reason :: !Ground(record, reason);
  }

  lemma PlainRunFits(t: Times, text: Text)
    requires Ascending(t)
    ensures forall p :: !RunWrong(PlainRecord(t, text), PlainFile(t, text), p)
  {
    hide Less, ExpectationsDigest, HashText;
    var record, run := PlainRecord(t, text), PlainRun(t);
    AtMostTransitive(t.submitted, t.reviewed, t.recorded);
    FrozenThird(record.history);
    assert Outcomes.ById(record.fixtures) == map[[0x66] := BENIGN];
    assert run.results[0].fixtureId == [0x66] && run.results[0].scanner == [0x73];
    assert HasResult(run.results, [0x66], [0x73]);
    forall p ensures !Mismatch(record, run, p) {
    }
  }

  lemma HalfSecond(second: Text)
    requires Formed(Stamp(second, []))
    ensures var whole, half := TextOf(Stamp(second, [])), TextOf(Stamp(second, [0x35]));
      IsTimestamp(whole) && IsTimestamp(half) && AtMost(half, whole) && AtMost(half, half) && !InTime(half, whole)
  {
    var whole, half := Stamp(second, []), Stamp(second, [0x35]);
    LaterSortsEarlier(second);
    TextReadsBack(whole);
    TextReadsBack(half);
    LessTotal(TextOf(half), TextOf(whole));
    LessTotal(TextOf(half), TextOf(half));
  }

  /** A record accepted half a second before it was frozen: the check finds no problem. */
  lemma AcceptedBeforeFrozen(second: Text, text: Text) returns (t: Times)
    requires Formed(Stamp(second, []))
    ensures var record, file := PlainRecord(t, text), PlainFile(t, text);
      && IntakeCheck.Clean(record, file) && Timed(record, file) && record.status == Accepted
      && !InTime(record.history[2].at, record.history[3].at)
      && !InTime(RunOf(file).value.recordedAt, record.history[3].at)
  {
    hide AtMost, Formed, IsTimestamp, IntakeCheck.Clean, InTime, HashText, ExpectationsDigest;
    HalfSecond(second);
    hide TextOf;
    var early, late := TextOf(Stamp(second, [])), TextOf(Stamp(second, [0x35]));
    t := Times(late, late, late, late, early);
    PlainIsClean(t, text);
  }

}
