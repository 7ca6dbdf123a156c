/** The span outcomes of benchmarks/scoring/lattice.ts: how one expected secret fared against the findings. */
module Scoring {
  import opened Options
  import opened Ranges

  datatype Span = Span(range: Range, envelope: Option<Range>)
  datatype Outcome = Exact | Covered | Overbroad | Partial | Miss

  predicate Contains(outer: Range, inner: Range) {
    outer.start <= inner.start && outer.end >= inner.end
  }

  function Envelope(span: Span): Range {
    match span.envelope
    case None => span.range
    case Some(envelope) => envelope
  }

  function SpanOutcome(span: Span, findings: seq<Range>): Outcome {
    if span.range in findings then Exact
    else if exists f :: f in findings && Contains(f, span.range) then
      if exists f :: f in findings && Contains(f, span.range) && Contains(Envelope(span), f) then Covered else Overbroad
    else if exists f :: f in findings && f.Overlaps(span.range) then Partial
    else Miss
  }

  predicate IsLeaked(outcome: Outcome) {
    outcome == Partial || outcome == Miss
  }

  /** A secret leaks exactly when no single finding contains it: pieces do not add up. */
  lemma LeakedExactly(span: Span, findings: seq<Range>)
    ensures IsLeaked(SpanOutcome(span, findings)) <==> forall f :: f in findings ==> !Contains(f, span.range)
  {
  }

  function SpanOutcomes(spans: seq<Span>, findings: seq<Range>): (r: seq<Outcome>)
    ensures |r| == |spans| && forall i :: 0 <= i < |r| ==> r[i] == SpanOutcome(spans[i], findings)
  {
    if spans == [] then [] else [SpanOutcome(spans[0], findings)] + SpanOutcomes(spans[1..], findings)
  }

  lemma {:induction false} NoMoreLeaks(fewer: seq<Outcome>, more: seq<Outcome>)
    requires |fewer| == |more| && forall i :: 0 <= i < |more| && IsLeaked(fewer[i]) ==> IsLeaked(more[i])
    ensures LeakedCount(fewer) <= LeakedCount(more)
  {
    hide IsLeaked;
    if more != [] {
      NoMoreLeaks(fewer[..|fewer| - 1], more[..|more| - 1]);
    }
  }

  /** Further findings never make more secrets leak. */
  lemma MoreFindingsLeakLess(spans: seq<Span>, some: seq<Range>, all: seq<Range>)
    requires forall f :: f in some ==> f in all
    ensures LeakedCount(SpanOutcomes(spans, all)) <= LeakedCount(SpanOutcomes(spans, some))
  {
    hide SpanOutcome, IsLeaked;
    var less, more := SpanOutcomes(spans, all), SpanOutcomes(spans, some);
    forall i | 0 <= i < |spans| && IsLeaked(less[i]) ensures IsLeaked(more[i]) {
      LeakedExactly(spans[i], all);
      LeakedExactly(spans[i], some);
    }
    NoMoreLeaks(less, more);
  }

  function Occurrences(outcomes: seq<Outcome>, o: Outcome): nat {
    if outcomes == [] then 0
    else Occurrences(outcomes[..|outcomes| - 1], o) + if outcomes[|outcomes| - 1] == o then 1 else 0
  }

  function LeakedCount(outcomes: seq<Outcome>): nat {
    if outcomes == [] then 0
    else LeakedCount(outcomes[..|outcomes| - 1]) + if IsLeaked(outcomes[|outcomes| - 1]) then 1 else 0
  }

  lemma {:induction false} OutcomesAddUp(outcomes: seq<Outcome>)
    ensures Occurrences(outcomes, Exact) + Occurrences(outcomes, Covered) + Occurrences(outcomes, Overbroad)
      + Occurrences(outcomes, Partial) + Occurrences(outcomes, Miss) == |outcomes|
    ensures Occurrences(outcomes, Partial) + Occurrences(outcomes, Miss) == LeakedCount(outcomes)
  {
    if outcomes != [] {
      OutcomesAddUp(outcomes[..|outcomes| - 1]);
    }
  }
}
