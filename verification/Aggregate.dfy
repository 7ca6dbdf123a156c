/** The blind aggregate (benchmarks/blind/aggregate.ts): observations reduced to counts, and small strata
    withheld. */
module Aggregate {
  import opened Ranges
  import opened Scoring

  const MINIMUM_STRATUM_FIXTURES := 5

  datatype Kind = MustRedact | MustNotFlag

  /** `stratum` is empty when the custodian gave none. */
  datatype Fixture = Fixture(kind: Kind, expected: seq<Span>, stratum: string)
  datatype Reason = Unstable | ScanError

  datatype Observation = Measured(fixture: Fixture, findings: seq<Range>) | Withheld(fixture: Fixture, reason: Reason)

  /** What `validateFixture` guarantees (benchmarks/blind/storage.ts:81). */
  predicate ValidFixture(f: Fixture) {
    f.kind == MustRedact <==> f.expected != []
  }

  datatype Tally = Tally(fixtures: nat, spans: nat, leakedSpans: nat, controls: nat, flaggedControls: nat)

  datatype Counts = Counts(
    tally: Tally,
    positives: nat,
    unstable: nat,
    scanErrors: nat,
    exact: nat,
    covered: nat,
    overbroad: nat,
    partial: nat,
    miss: nat)

  const NOTHING := Counts(Tally(0, 0, 0, 0, 0), 0, 0, 0, 0, 0, 0, 0, 0)

  function PlusTally(a: Tally, b: Tally): Tally {
    Tally(a.fixtures + b.fixtures, a.spans + b.spans, a.leakedSpans + b.leakedSpans,
          a.controls + b.controls, a.flaggedControls + b.flaggedControls)
  }

  function Plus(a: Counts, b: Counts): Counts {
    Counts(PlusTally(a.tally, b.tally), a.positives + b.positives, a.unstable + b.unstable, a.scanErrors + b.scanErrors,
           a.exact + b.exact, a.covered + b.covered, a.overbroad + b.overbroad, a.partial + b.partial, a.miss + b.miss)
  }

  /** What one observation adds. */
  function Part(o: Observation): Counts {
    match o
    case Withheld(_, Unstable) => NOTHING.(unstable := 1)
    case Withheld(_, ScanError) => NOTHING.(scanErrors := 1)
    case Measured(fixture, findings) =>
      if fixture.kind == MustNotFlag then NOTHING.(tally := Tally(1, 0, 0, 1, if findings != [] then 1 else 0))
      else
        var outcomes := SpanOutcomes(fixture.expected, findings);
        Counts(Tally(1, |outcomes|, LeakedCount(outcomes), 0, 0), 1, 0, 0,
               Occurrences(outcomes, Exact), Occurrences(outcomes, Covered), Occurrences(outcomes, Overbroad),
               Occurrences(outcomes, Partial), Occurrences(outcomes, Miss))
  }

  function Whole(observations: seq<Observation>): Counts {
    if observations == [] then NOTHING
    else Plus(Whole(observations[..|observations| - 1]), Part(observations[|observations| - 1]))
  }

  predicate In(o: Observation, labels: set<string>) {
    o.Measured? && o.fixture.stratum in labels
  }

  /** The measured observations of some strata. */
  function Select(observations: seq<Observation>, labels: set<string>): seq<Observation> {
    if observations == [] then []
    else
      var last := observations[|observations| - 1];
      Select(observations[..|observations| - 1], labels) + if In(last, labels) then [last] else []
  }

  function Stratum(observations: seq<Observation>, name: string): Tally {
    Whole(Select(observations, {name})).tally
  }

  function Labels(observations: seq<Observation>): set<string> {
    set o | o in observations && o.Measured? && o.fixture.stratum != "" :: o.fixture.stratum
  }

  predicate Large(t: Tally) {
    t.fixtures >= MINIMUM_STRATUM_FIXTURES
  }

  datatype StrataStatus = NoStrata | Suppressed | Released
  datatype Ratio = Ratio(count: nat, of: nat)
  datatype Outcomes = Outcomes(exact: nat, covered: nat, overbroad: nat, partial: nat, miss: nat)

  /** The released counts; rates are of the two numbers of a `Ratio`. */
  datatype Summary = Summary(
    fixtures: nat,
    measurable: nat,
    withheld: nat,
    unstable: nat,
    scanErrors: nat,
    instability: Ratio,
    positives: nat,
    spans: nat,
    leakedSpans: Ratio,
    outcomes: Outcomes,
    controls: nat,
    flaggedControls: Ratio,
    status: StrataStatus,
    rows: map<string, Tally>)

  function LargeLabels(observations: seq<Observation>): set<string> {
    set l | l in Labels(observations) && Large(Stratum(observations, l))
  }

  /** Measured fixtures outside the large strata. */
  function Hidden(observations: seq<Observation>): int {
    Whole(observations).tally.fixtures - Whole(Select(observations, LargeLabels(observations))).tally.fixtures
  }

  function StatusOf(observations: seq<Observation>): StrataStatus {
    if Labels(observations) == {} then NoStrata
    else if 0 < Hidden(observations) < MINIMUM_STRATUM_FIXTURES then Suppressed
    else Released
  }

  function Rows(observations: seq<Observation>): map<string, Tally> {
    if StatusOf(observations) == Released
    then map l | l in LargeLabels(observations) :: Stratum(observations, l)
    else map[]
  }

  /** The summary, by filtering and counting. */
  function Summarized(observations: seq<Observation>): Summary
    requires Whole(observations).tally.fixtures <= |observations|
  {
    var c := Whole(observations);
    Summary(|observations|, c.tally.fixtures, |observations| - c.tally.fixtures, c.unstable, c.scanErrors,
            Ratio(c.unstable, |observations|), c.positives, c.tally.spans, Ratio(c.tally.leakedSpans, c.tally.spans),
            Outcomes(c.exact, c.covered, c.overbroad, c.partial, c.miss), c.tally.controls,
            Ratio(c.tally.flaggedControls, c.tally.controls), StatusOf(observations), Rows(observations))
  }

  lemma {:induction false} Accounts(observations: seq<Observation>)
    ensures var c := Whole(observations);
      && c.tally.fixtures + c.unstable + c.scanErrors == |observations|
      && c.positives + c.tally.controls == c.tally.fixtures
      && c.exact + c.covered + c.overbroad + c.partial + c.miss == c.tally.spans
      && c.partial + c.miss == c.tally.leakedSpans
      && c.tally.flaggedControls <= c.tally.controls
  {
    if observations != [] {
      var last := observations[|observations| - 1];
      Accounts(observations[..|observations| - 1]);
      if last.Measured? && last.fixture.kind == MustRedact {
        OutcomesAddUp(SpanOutcomes(last.fixture.expected, last.findings));
      }
    }
  }

  // ---------------------------------------------------------------------------------------------
  // The reduction.

  function OutcomesPlus(o: Outcomes, list: seq<Outcome>): Outcomes {
    Outcomes(o.exact + Occurrences(list, Exact), o.covered + Occurrences(list, Covered),
             o.overbroad + Occurrences(list, Outcome.Overbroad), o.partial + Occurrences(list, Partial),
             o.miss + Occurrences(list, Miss))
  }

  method AddOutcomes(before: Outcomes, list: seq<Outcome>) returns (after: Outcomes, spans: nat, leaked: nat)
    ensures after == OutcomesPlus(before, list) && spans == |list| && leaked == LeakedCount(list)
  {
    after, spans, leaked := before, 0, 0;
    for i := 0 to |list|
      invariant after == OutcomesPlus(before, list[..i]) && spans == i && leaked == LeakedCount(list[..i])
    {
      assert list[..i + 1][..i] == list[..i];
      match list[i] {
        case Exact => after := after.(exact := after.exact + 1);
        case Covered => after := after.(covered := after.covered + 1);
        case Overbroad => after := after.(overbroad := after.overbroad + 1);
        case Partial => after := after.(partial := after.partial + 1);
        case Miss => after := after.(miss := after.miss + 1);
      }
      spans := spans + 1;
      if IsLeaked(list[i]) {
        leaked := leaked + 1;
      }
    }
    assert list[..|list|] == list;
  }

  /** The counts of the loop's variables. */
  function AsCounts(total: Tally, positives: nat, unstable: nat, scanErrors: nat, o: Outcomes): Counts {
    Counts(total, positives, unstable, scanErrors, o.exact, o.covered, o.overbroad, o.partial, o.miss)
  }

  ghost predicate Stratified(strata: map<string, Tally>, observations: seq<Observation>) {
    && (forall l :: l in strata <==> l in Labels(observations))
    && (forall l :: l in strata ==> strata[l] == Stratum(observations, l))
  }

  lemma StratumStep(rest: seq<Observation>, o: Observation, name: string)
    ensures Stratum(rest + [o], name) == if In(o, {name}) then PlusTally(Stratum(rest, name), Part(o).tally)
      else Stratum(rest, name)
  {
    hide Part;
    var all := rest + [o];
    assert all[..|all| - 1] == rest;
    var selected := Select(rest, {name});
    if In(o, {name}) {
      assert (selected + [o])[..|selected|] == selected;
    } else {
      assert selected + [] == selected;
    }
  }

  lemma {:induction false} NothingSelected(observations: seq<Observation>, name: string)
    requires name !in Labels(observations) && name != ""
    ensures Select(observations, {name}) == []
  {
    if observations != [] {
      var last := |observations| - 1;
      assert forall o :: o in observations[..last] ==> o in observations;
      NothingSelected(observations[..last], name);
      assert observations[last] in observations;
    }
  }

  lemma LabelsStep(rest: seq<Observation>, o: Observation)
    ensures Labels(rest + [o]) == Labels(rest) + if o.Measured? && o.fixture.stratum != "" then {o.fixture.stratum}
      else {}
  {
  }

  lemma NeverEmpty(observations: seq<Observation>)
    ensures "" !in Labels(observations)
  {
  }

  lemma StratifiedStep(strata: map<string, Tally>, rest: seq<Observation>, o: Observation)
    requires Stratified(strata, rest)
    ensures var l := o.fixture.stratum;
      Stratified(if o.Measured? && l != ""
                 then strata[l := PlusTally(if l in strata then strata[l] else NOTHING.tally, Part(o).tally)]
                 else strata, rest + [o])
  {
    hide Stratum, Labels, Part;
    LabelsStep(rest, o);
    NeverEmpty(rest);
    forall l ensures Stratum(rest + [o], l) == if In(o, {l}) then PlusTally(Stratum(rest, l), Part(o).tally)
      else Stratum(rest, l) {
      StratumStep(rest, o, l);
    }
    var l := o.fixture.stratum;
    if o.Measured? && l != "" && l !in strata {
      EmptyStratum(rest, l);
    }
  }

  lemma EmptyStratum(observations: seq<Observation>, name: string)
    requires name !in Labels(observations) && name != ""
    ensures Stratum(observations, name) == NOTHING.tally
  {
    NothingSelected(observations, name);
  }

  lemma {:induction false} SelectOneMore(observations: seq<Observation>, labels: set<string>, name: string)
    requires name !in labels
    ensures Whole(Select(observations, labels + {name}))
      == Plus(Whole(Select(observations, labels)), Whole(Select(observations, {name})))
  {
    hide Part, Whole, Select, Plus;
    if observations == [] {
      NothingAtAll(observations, labels, name);
    } else {
      var n := |observations| - 1;
      var rest, o := observations[..n], observations[n];
      SelectOneMore(rest, labels, name);
      SelectStep(observations, labels + {name});
      SelectStep(observations, labels);
      SelectStep(observations, {name});
      PlusSwaps(Whole(Select(rest, labels)), Whole(Select(rest, {name})), Part(o));
    }
  }

  lemma NothingAtAll(observations: seq<Observation>, labels: set<string>, name: string)
    requires observations == []
    ensures Whole(Select(observations, labels + {name}))
      == Plus(Whole(Select(observations, labels)), Whole(Select(observations, {name})))
  {
    hide *;
    EmptySelection(observations, labels + {name});
    EmptySelection(observations, labels);
    EmptySelection(observations, {name});
    NothingTwice(Whole(Select(observations, labels)));
  }

  lemma NothingTwice(n: Counts)
    requires n == NOTHING
    ensures Plus(n, n) == n
  {
    hide PlusTally;
    EmptyTally(n.tally);
  }

  lemma EmptyTally(t: Tally)
    requires t == Tally(0, 0, 0, 0, 0)
    ensures PlusTally(t, t) == t
  {
  }

  lemma EmptySelection(observations: seq<Observation>, labels: set<string>)
    requires observations == []
    ensures Whole(Select(observations, labels)) == NOTHING
  {
  }

  lemma SelectStep(observations: seq<Observation>, labels: set<string>)
    requires observations != []
    ensures var n := |observations| - 1;
      Whole(Select(observations, labels)) ==
        if In(observations[n], labels) then Plus(Whole(Select(observations[..n], labels)), Part(observations[n]))
        else Whole(Select(observations[..n], labels))
  {
    var n := |observations| - 1;
    WholeStep(Select(observations[..n], labels), observations[n], In(observations[n], labels));
  }

  lemma PlusSwaps(a: Counts, b: Counts, p: Counts)
    ensures Plus(Plus(a, b), p) == Plus(Plus(a, p), b) == Plus(a, Plus(b, p))
  {
  }

  lemma WholeStep(some: seq<Observation>, o: Observation, more: bool)
    ensures Whole(some + if more then [o] else []) == if more then Plus(Whole(some), Part(o)) else Whole(some)
  {
    hide Part;
    if more {
      assert (some + [o])[..|some|] == some;
    } else {
      assert some + [] == some;
    }
  }

  method ReleasedFixtures(strata: map<string, Tally>, ghost observations: seq<Observation>) returns (n: nat)
    requires Stratified(strata, observations)
    ensures n == Whole(Select(observations, LargeLabels(observations))).tally.fixtures
  {
    hide Labels, Stratum, Whole, Select;
    n := 0;
    var released := set l | l in strata && Large(strata[l]);
    assert released == LargeLabels(observations);
    var left := released;
    NoneSelected(observations);
    while left != {}
      invariant left <= released
      invariant n == Whole(Select(observations, released - left)).tally.fixtures
      decreases |left|
    {
      var l :| l in left;
      ghost var done := released - left;
      SelectOneMore(observations, done, l);
      assert strata[l] == Stratum(observations, l) == Whole(Select(observations, {l})).tally by {
        StratumIs(observations, l);
      }
      n := n + strata[l].fixtures;
      left := left - {l};
      assert released - left == done + {l};
    }
    assert released - left == released;
  }

  lemma StratumIs(observations: seq<Observation>, name: string)
    ensures Stratum(observations, name) == Whole(Select(observations, {name})).tally
  {
  }

  lemma {:induction false} NoneSelected(observations: seq<Observation>)
    ensures Whole(Select(observations, {})) == NOTHING
    ensures forall labels: set<string> :: labels == {} ==> Whole(Select(observations, labels)) == NOTHING
  {
    if observations != [] {
      NoneSelected(observations[..|observations| - 1]);
      assert Select(observations[..|observations| - 1], {}) + [] == Select(observations[..|observations| - 1], {});
    }
  }

  lemma KindOf(o: Observation)
    ensures var part := Part(o);
      && part.positives == (if o.Measured? && o.fixture.kind == MustRedact then 1 else 0)
      && part.unstable == (if o.Withheld? && o.reason == Unstable then 1 else 0)
      && part.scanErrors == (if o.Withheld? && o.reason == ScanError then 1 else 0)
      && (o.Withheld? ==>
        part.tally == NOTHING.tally && part.exact == part.covered == part.overbroad == part.partial == part.miss == 0)
  {
  }

  /** What one measured observation adds to the outcomes and to the tallies. */
  method CountOne(before: Outcomes, o: Observation) returns (after: Outcomes, added: Tally)
    requires o.Measured?
    ensures added == Part(o).tally && added.fixtures == 1
    ensures var part := Part(o);
      after == Outcomes(before.exact + part.exact, before.covered + part.covered, before.overbroad + part.overbroad,
                        before.partial + part.partial, before.miss + part.miss)
  {
    hide SpanOutcomes, Occurrences, LeakedCount;
    if o.fixture.kind == MustNotFlag {
      return before, Tally(1, 0, 0, 1, if o.findings != [] then 1 else 0);
    }
    var spans, leaked;
    after, spans, leaked := AddOutcomes(before, SpanOutcomes(o.fixture.expected, o.findings));
    added := Tally(1, spans, leaked, 0, 0);
  }

  method CountAll(observations: seq<Observation>) returns (
      positives: nat, unstable: nat, scanErrors: nat, measurable: nat, total: Tally, outcomes: Outcomes,
      strata: map<string, Tally>)
    requires forall o :: o in observations ==> ValidFixture(o.fixture)
    ensures AsCounts(total, positives, unstable, scanErrors, outcomes) == Whole(observations)
    ensures measurable == total.fixtures && Stratified(strata, observations)
  {
    hide Labels, Stratum, Select, Stratified, Whole, Part, SpanOutcomes;
    positives, unstable, scanErrors, measurable := 0, 0, 0, 0;
    total, outcomes, strata := Tally(0, 0, 0, 0, 0), Outcomes(0, 0, 0, 0, 0), map[];
    NothingYet();
    for i := 0 to |observations|
      invariant AsCounts(total, positives, unstable, scanErrors, outcomes) == Whole(observations[..i])
      invariant measurable == total.fixtures
      invariant Stratified(strata, observations[..i])
    {
      var o := observations[i];
      assert observations[..i + 1] == observations[..i] + [o];
      StratifiedStep(strata, observations[..i], o);
      WholeStep(observations[..i], o, true);
      KindOf(o);
      match o {
        case Withheld(_, reason) =>
          if reason == Unstable {
            unstable := unstable + 1;
          } else {
            scanErrors := scanErrors + 1;
          }
        case Measured(fixture, findings) =>
          measurable := measurable + 1;
          var added;
          outcomes, added := CountOne(outcomes, o);
          if fixture.kind == MustRedact {
            positives := positives + 1;
          }
          total := PlusTally(total, added);
          if fixture.stratum != "" {
            var s := if fixture.stratum in strata then strata[fixture.stratum] else Tally(0, 0, 0, 0, 0);
            strata := strata[fixture.stratum := PlusTally(s, added)];
          }
      }
    }
    assert observations[..|observations|] == observations;
  }

  method Summarize(observations: seq<Observation>) returns (summary: Summary)
    requires forall o :: o in observations ==> ValidFixture(o.fixture)
    ensures Whole(observations).tally.fixtures <= |observations| && summary == Summarized(observations)
  {
    hide Labels, Stratum, Select, Whole;
    var positives, unstable, scanErrors, measurable, total, outcomes, strata := CountAll(observations);
    Accounts(observations);
    var releasedFixtures := ReleasedFixtures(strata, observations);
    var suppressed := total.fixtures - releasedFixtures;
    var status := if strata == map[] then NoStrata else if 0 < suppressed < MINIMUM_STRATUM_FIXTURES then Suppressed
      else Released;
    var rows := if status == Released then map l | l in strata && Large(strata[l]) :: strata[l] else map[];
    NoStrataMeansNoLabels(strata, observations);
    assert status == StatusOf(observations);
    assert rows == Rows(observations);
    summary := Summary(|observations|, measurable, |observations| - measurable, unstable, scanErrors,
      Ratio(unstable, |observations|),
                       positives, total.spans, Ratio(total.leakedSpans, total.spans), outcomes, total.controls,
                       Ratio(total.flaggedControls, total.controls), status, rows);
  }

  lemma NoStrataMeansNoLabels(strata: map<string, Tally>, observations: seq<Observation>)
    requires Stratified(strata, observations)
    ensures strata == map[] <==> Labels(observations) == {}
  {
    hide Labels, Stratum;
    assert strata == map[] <==> strata.Keys == {};
    assert strata.Keys == Labels(observations);
  }

  lemma NothingYet()
    ensures Stratified(map[], []) && Whole([]) == NOTHING
  {
  }
}
