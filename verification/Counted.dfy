/** The numbers of the blind aggregate (benchmarks/blind/aggregate.ts) as sizes of sets: which observations,
    and which expected spans, each of them counts. */
module Counted {
  import opened Options
  import opened Ranges
  import opened Scoring
  import opened Aggregate
  import Disclosure

  // ---------------------------------------------------------------------------------------------
  // Span outcomes.

  /** A finding holds the whole span. */
  predicate Holds(f: Range, span: Span) {
    f.start <= span.range.start && span.range.end <= f.end
  }

  /** A finding reaches into the span. */
  predicate Reaches(f: Range, span: Span) {
    f.start < span.range.end && span.range.start < f.end
  }

  /** A finding stays within the span's envelope, or within the span if it has none. */
  predicate Stays(f: Range, span: Span) {
    var room := if span.envelope.Some? then span.envelope.value else span.range;
    room.start <= f.start && f.end <= room.end
  }

  /** When a span has which outcome. */
  lemma OutcomeIs(span: Span, findings: seq<Range>)
    ensures var o := SpanOutcome(span, findings);
      && (o == Exact <==> span.range in findings)
      && (o == Covered <==> span.range !in findings && exists f :: f in findings && Holds(f, span) && Stays(f, span))
      && (o == Overbroad <==>
            && span.range !in findings
            && (exists f :: f in findings && Holds(f, span))
            && (forall f :: f in findings && Holds(f, span) ==> !Stays(f, span)))
      && (o == Partial <==>
            && (forall f :: f in findings ==> !Holds(f, span)) && exists f :: f in findings && Reaches(f, span))
      && (o == Miss <==> forall f :: f in findings ==> !Holds(f, span) && !Reaches(f, span))
      && (IsLeaked(o) <==> forall f :: f in findings ==> !Holds(f, span))
  {
    forall f ensures Contains(f, span.range) == Holds(f, span) && Contains(Envelope(span), f) == Stays(f, span) {
    }
    forall f: Range ensures f.Overlaps(span.range) == Reaches(f, span) {
    }
  }

  ghost function Places(outcomes: seq<Outcome>, o: Outcome): set<nat> {
    set j: nat | j < |outcomes| && outcomes[j] == o
  }

  lemma OneMore(before: set<nat>, after: set<nat>, n: nat, more: bool)
    requires forall i :: i in before <==> i in after && i < n
    requires forall i :: i in after ==> i <= n
    requires n in after <==> more
    ensures |after| == |before| + if more then 1 else 0
  {
    if more {
      assert after == before + {n};
    } else {
      assert after == before;
    }
  }

  lemma {:induction false} OccurrencesCount(outcomes: seq<Outcome>, o: Outcome)
    ensures Occurrences(outcomes, o) == |Places(outcomes, o)|
  {
    if outcomes == [] {
      assert Places(outcomes, o) == {};
    } else {
      var n := |outcomes| - 1;
      OccurrencesCount(outcomes[..n], o);
      OneMore(Places(outcomes[..n], o), Places(outcomes, o), n, outcomes[n] == o);
    }
  }

  // ---------------------------------------------------------------------------------------------
  // Observations.

  datatype Number = MeasuredOnes | Positives | Controls | FlaggedControls | UnstableOnes | FailedOnes

  /** Which observations a number counts. */
  predicate Belongs(o: Observation, kind: Number) {
    match kind
    case MeasuredOnes => o.Measured?
    case Positives => o.Measured? && o.fixture.kind == MustRedact
    case Controls => o.Measured? && o.fixture.kind == MustNotFlag
    case FlaggedControls => o.Measured? && o.fixture.kind == MustNotFlag && o.findings != []
    case UnstableOnes => o.Withheld? && o.reason == Unstable
    case FailedOnes => o.Withheld? && o.reason == ScanError
  }

  function NumberOf(c: Counts, kind: Number): nat {
    match kind
    case MeasuredOnes => c.tally.fixtures
    case Positives => c.positives
    case Controls => c.tally.controls
    case FlaggedControls => c.tally.flaggedControls
    case UnstableOnes => c.unstable
    case FailedOnes => c.scanErrors
  }

  ghost function Members(observations: seq<Observation>, kind: Number): set<nat> {
    set i: nat | i < |observations| && Belongs(observations[i], kind)
  }

  lemma {:induction false} WholeCounts(observations: seq<Observation>, kind: Number)
    ensures NumberOf(Whole(observations), kind) == |Members(observations, kind)|
  {
    if observations == [] {
      assert Members(observations, kind) == {};
    } else {
      var n := |observations| - 1;
      WholeCounts(observations[..n], kind);
      PartCounts(observations[n], kind);
      OneMore(Members(observations[..n], kind), Members(observations, kind), n, Belongs(observations[n], kind));
    }
  }

  lemma PartCounts(o: Observation, kind: Number)
    ensures NumberOf(Part(o), kind) == if Belongs(o, kind) then 1 else 0
  {
  }

  // ---------------------------------------------------------------------------------------------
  // Expected spans.

  function NumberWith(c: Counts, o: Outcome): nat {
    match o
    case Exact => c.exact
    case Covered => c.covered
    case Overbroad => c.overbroad
    case Partial => c.partial
    case Miss => c.miss
  }

  /** Span `j` of the measured positive `i` has the outcome. */
  predicate SpanHas(observations: seq<Observation>, i: nat, j: nat, o: Outcome)
    requires i < |observations|
  {
    && Belongs(observations[i], Positives) && j < |observations[i].fixture.expected|
    && SpanOutcome(observations[i].fixture.expected[j], observations[i].findings) == o
  }

  ghost function SpansWith(observations: seq<Observation>, o: Outcome): set<(nat, nat)> {
    set i: nat, j: nat | i < |observations| && j < SpanCount(observations[i]) && SpanHas(observations, i, j, o) ::
      (i, j)
  }

  function SpanCount(o: Observation): nat {
    |o.fixture.expected|
  }

  lemma {:induction false} SpansCount(observations: seq<Observation>, o: Outcome)
    ensures NumberWith(Whole(observations), o) == |SpansWith(observations, o)|
  {
    hide SpanOutcome;
    if observations == [] {
      assert SpansWith(observations, o) == {};
    } else {
      var n := |observations| - 1;
      SpansCount(observations[..n], o);
      LastSpans(observations, o);
    }
  }

  lemma LastSpans(observations: seq<Observation>, o: Outcome)
    requires observations != []
    ensures var n := |observations| - 1;
      |SpansWith(observations, o)| == |SpansWith(observations[..n], o)| + NumberWith(Part(observations[n]), o)
  {
    var n := |observations| - 1;
    var places := LastPlaces(observations[n], o);
    SpansSplit(observations, o);
    Tagged(n, places);
    CountedPlaces(observations[n], o);
    hide *;
    Together(SpansWith(observations[..n], o), SpansWith(observations, o), n, places);
  }

  ghost function LastPlaces(last: Observation, o: Outcome): set<nat> {
    if Belongs(last, Positives) then Places(SpanOutcomes(last.fixture.expected, last.findings), o) else {}
  }

  lemma CountedPlaces(last: Observation, o: Outcome)
    ensures NumberWith(Part(last), o) == |LastPlaces(last, o)|
  {
    hide SpanOutcomes, SpanOutcome, Places, LeakedCount;
    if Belongs(last, Positives) {
      OccurrencesCount(SpanOutcomes(last.fixture.expected, last.findings), o);
    }
  }

  lemma SpansSplit(observations: seq<Observation>, o: Outcome)
    requires observations != []
    ensures var n := |observations| - 1;
      forall i: nat, j: nat :: (i, j) in SpansWith(observations, o) <==>
        (i, j) in SpansWith(observations[..n], o) || (i == n && j in LastPlaces(observations[n], o))
    ensures var n := |observations| - 1; forall i: nat, j: nat :: (i, j) in SpansWith(observations[..n], o) ==> i < n
  {
    hide SpanOutcome;
    var n := |observations| - 1;
    assert forall i :: 0 <= i < n ==> observations[..n][i] == observations[i];
  }

  ghost function Pairs(n: nat, places: set<nat>): set<(nat, nat)> {
    set j | j in places :: (n, j)
  }

  lemma Together(before: set<(nat, nat)>, after: set<(nat, nat)>, n: nat, places: set<nat>)
    requires forall i: nat, j: nat :: (i, j) in after <==> (i, j) in before || (i == n && j in places)
    requires forall i: nat, j: nat :: (i, j) in before ==> i < n
    requires |Pairs(n, places)| == |places|
    ensures |after| == |before| + |places|
  {
    var tagged := Pairs(n, places);
    forall p ensures p in after <==> p in before + tagged {
      assert p == (p.0, p.1);
    }
    assert after == before + tagged;
    forall p | p in before ensures p !in tagged {
      assert p == (p.0, p.1);
    }
    assert before !! tagged;
  }

  lemma Tagged(n: nat, places: set<nat>)
    ensures |Pairs(n, places)| == |places|
  {
    var tagged := Pairs(n, places);
    if places == {} {
      assert tagged == {};
    } else {
      var p :| p in places;
      var fewer := Pairs(n, places - {p});
      Tagged(n, places - {p});
      forall q ensures q in tagged <==> q in fewer + {(n, p)} {
      }
      assert tagged == fewer + {(n, p)} && (n, p) !in fewer;
      assert |places - {p}| == |places| - 1;
    }
  }

  /** Every released number is the number of the observations, or of the spans, that it names; leaked spans
      are the partial and the missed ones. */
  lemma SummaryCounts(observations: seq<Observation>)
    ensures var s := Disclosure.SummaryOf(observations);
      && s.fixtures == |observations|
      && s.measurable == |Members(observations, MeasuredOnes)|
      && s.unstable == |Members(observations, UnstableOnes)| == s.instability.count && s.instability.of == s.fixtures
      && s.scanErrors == |Members(observations, FailedOnes)|
      && s.positives == |Members(observations, Positives)|
      && s.controls == |Members(observations, Controls)| == s.flaggedControls.of
      && s.flaggedControls.count == |Members(observations, FlaggedControls)|
      && s.outcomes.exact == |SpansWith(observations, Exact)|
      && s.outcomes.covered == |SpansWith(observations, Covered)|
      && s.outcomes.overbroad == |SpansWith(observations, Overbroad)|
      && s.outcomes.partial == |SpansWith(observations, Partial)|
      && s.outcomes.miss == |SpansWith(observations, Miss)|
      && s.leakedSpans.count == s.outcomes.partial + s.outcomes.miss
  {
    hide Whole, Members, SpansWith, Labels;
    Accounts(observations);
    WholeCounts(observations, MeasuredOnes);
    WholeCounts(observations, UnstableOnes);
    WholeCounts(observations, FailedOnes);
    WholeCounts(observations, Positives);
    WholeCounts(observations, Controls);
    WholeCounts(observations, FlaggedControls);
    SpansCount(observations, Exact);
    SpansCount(observations, Covered);
    SpansCount(observations, Outcome.Overbroad);
    SpansCount(observations, Partial);
    SpansCount(observations, Miss);
  }

  // ---------------------------------------------------------------------------------------------
  // Strata.

  /** The observations of that sort within some strata. */
  ghost function MembersIn(observations: seq<Observation>, labels: set<string>, kind: Number): set<nat> {
    set i: nat | i < |observations| && In(observations[i], labels) && Belongs(observations[i], kind)
  }

  lemma {:induction false} SelectCounts(observations: seq<Observation>, labels: set<string>, kind: Number)
    ensures NumberOf(Whole(Select(observations, labels)), kind) == |MembersIn(observations, labels, kind)|
  {
    hide Part, Select, Whole, Plus;
    if observations == [] {
      EmptySelection(observations, labels);
      assert MembersIn(observations, labels, kind) == {};
    } else {
      var n := |observations| - 1;
      var more := In(observations[n], labels) && Belongs(observations[n], kind);
      SelectCounts(observations[..n], labels, kind);
      SelectStep(observations, labels);
      PartCounts(observations[n], kind);
      PlusCounts(Whole(Select(observations[..n], labels)), Part(observations[n]), kind);
      OneMore(MembersIn(observations[..n], labels, kind), MembersIn(observations, labels, kind), n, more);
    }
  }

  lemma PlusCounts(a: Counts, b: Counts, kind: Number)
    ensures NumberOf(Plus(a, b), kind) == NumberOf(a, kind) + NumberOf(b, kind)
  {
  }

  /** The measured observations of a stratum. */
  ghost function InStratum(observations: seq<Observation>, name: string): set<nat> {
    set i: nat | i < |observations| && observations[i].Measured? && observations[i].fixture.stratum == name
  }

  /** The measured observations in no stratum of at least five. */
  ghost function Outside(observations: seq<Observation>): set<nat> {
    set i: nat | i < |observations| && observations[i].Measured?
      && (observations[i].fixture.stratum == "" || |InStratum(observations, observations[i].fixture.stratum)| < 5)
  }

  lemma StratumSize(observations: seq<Observation>, name: string)
    ensures Stratum(observations, name).fixtures == |InStratum(observations, name)|
  {
    SelectCounts(observations, {name}, MeasuredOnes);
    assert MembersIn(observations, {name}, MeasuredOnes) == InStratum(observations, name);
  }

  /** When rows are released, and which: those of the strata of at least five measured fixtures, unless one
      to four fixtures are outside them. */
  lemma RowsAre(observations: seq<Observation>)
    ensures var s := Disclosure.SummaryOf(observations);
      && (s.status.NoStrata? <==> forall o :: o in observations && o.Measured? ==> o.fixture.stratum == "")
      && (s.status.Suppressed? <==> !s.status.NoStrata? && 1 <= |Outside(observations)| <= 4)
      && (!s.status.Released? ==> s.rows == map[])
      && (s.status.Released? ==> forall l :: l in s.rows <==> l != "" && |InStratum(observations, l)| >= 5)
      && (forall l :: l in s.rows ==>
            && s.rows[l].fixtures == |InStratum(observations, l)|
            && s.rows[l].controls == |MembersIn(observations, {l}, Controls)|
            && s.rows[l].flaggedControls == |MembersIn(observations, {l}, FlaggedControls)|)
  {
    hide Whole, Select, Members, MembersIn, InStratum, Outside;
    Accounts(observations);
    var s := Disclosure.SummaryOf(observations);
    forall l ensures Stratum(observations, l).fixtures == |InStratum(observations, l)| {
      StratumSize(observations, l);
    }
    forall l | |InStratum(observations, l)| >= 5 && l != "" ensures l in Labels(observations) {
      SomeInStratum(observations, l);
    }
    forall l | l in s.rows
      ensures s.rows[l].controls == |MembersIn(observations, {l}, Controls)|
      ensures s.rows[l].flaggedControls == |MembersIn(observations, {l}, FlaggedControls)|
    {
      SelectCounts(observations, {l}, Controls);
      SelectCounts(observations, {l}, FlaggedControls);
    }
    HiddenIs(observations);
    LabelsNone(observations);
  }

  lemma SomeInStratum(observations: seq<Observation>, name: string)
    requires |InStratum(observations, name)| > 0 && name != ""
    ensures name in Labels(observations)
  {
    var i :| i in InStratum(observations, name);
    assert observations[i] in observations;
  }

  lemma LabelsNone(observations: seq<Observation>)
    ensures Labels(observations) == {} <==> forall o :: o in observations && o.Measured? ==> o.fixture.stratum == ""
  {
    if o :| o in observations && o.Measured? && o.fixture.stratum != "" {
      assert o.fixture.stratum in Labels(observations);
    }
    if l :| l in Labels(observations) {
      var o :| o in observations && o.Measured? && o.fixture.stratum != "" && o.fixture.stratum == l;
    }
  }

  lemma HiddenIs(observations: seq<Observation>)
    ensures Hidden(observations) == |Outside(observations)|
  {
    hide Whole, Select, Labels, Stratum;
    var large := LargeLabels(observations);
    WholeCounts(observations, MeasuredOnes);
    SelectCounts(observations, large, MeasuredOnes);
    LargeAre(observations);
    var all, within := Members(observations, MeasuredOnes), MembersIn(observations, large, MeasuredOnes);
    assert all == within + Outside(observations) && within !! Outside(observations);
  }

  lemma LargeAre(observations: seq<Observation>)
    ensures forall l :: l in LargeLabels(observations) <==> l != "" && |InStratum(observations, l)| >= 5
  {
    hide Stratum, InStratum, Labels;
    NeverEmpty(observations);
    forall l ensures l in LargeLabels(observations) <==> l != "" && |InStratum(observations, l)| >= 5 {
      StratumSize(observations, l);
      if l != "" && |InStratum(observations, l)| >= 5 {
        SomeInStratum(observations, l);
      }
    }
  }
}
