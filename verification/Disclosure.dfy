/** What the blind aggregate tells, and what it does not (benchmarks/blind/aggregate.ts). */
module Disclosure {
  import opened Aggregate

  ghost function SummaryOf(observations: seq<Observation>): Summary {
    Accounts(observations);
    Summarized(observations)
  }

  /** The arithmetic half of `validateAggregate`. */
  predicate Consistent(s: Summary, corpusFixtures: nat) {
    && s.measurable + s.withheld == s.fixtures
    && s.unstable + s.scanErrors == s.withheld
    && corpusFixtures == s.fixtures
    && s.outcomes.exact + s.outcomes.covered + s.outcomes.overbroad + s.outcomes.partial + s.outcomes.miss == s.spans
    && s.leakedSpans.of == s.spans
    && s.outcomes.partial + s.outcomes.miss == s.leakedSpans.count
    && s.flaggedControls.of == s.controls
    && s.positives + s.controls == s.measurable
    && (forall l :: l in s.rows ==> s.rows[l].fixtures >= MINIMUM_STRATUM_FIXTURES)
    && (s.status != Released ==> s.rows == map[])
  }

  /** Every summary passes the consistency check it is later put to, and its rates are shares. */
  lemma AlwaysConsistent(observations: seq<Observation>)
    ensures Consistent(SummaryOf(observations), |observations|)
    ensures var s := SummaryOf(observations);
      && s.instability.count <= s.instability.of
      && s.leakedSpans.count <= s.leakedSpans.of
      && s.flaggedControls.count <= s.flaggedControls.of
  {
    hide Labels, Stratum, Whole, Select, Hidden;
    Accounts(observations);
  }

  // ---------------------------------------------------------------------------------------------
  // The order of observations does not matter.

  lemma {:induction false} SelectedOccurrences(observations: seq<Observation>, labels: set<string>, o: Observation)
    ensures multiset(Select(observations, labels))[o] == if In(o, labels) then multiset(observations)[o] else 0
  {
    if observations != [] {
      var n := |observations| - 1;
      SelectedOccurrences(observations[..n], labels, o);
      assert observations == observations[..n] + [observations[n]];
    }
  }

  lemma SelectPermutes(a: seq<Observation>, b: seq<Observation>, labels: set<string>)
    requires multiset(a) == multiset(b)
    ensures multiset(Select(a, labels)) == multiset(Select(b, labels))
  {
    forall o ensures multiset(Select(a, labels))[o] == multiset(Select(b, labels))[o] {
      SelectedOccurrences(a, labels, o);
      SelectedOccurrences(b, labels, o);
    }
  }

  lemma {:induction false} WholeWithout(observations: seq<Observation>, k: nat)
    requires k < |observations|
    ensures Whole(observations) == Plus(Whole(observations[..k] + observations[k + 1..]), Part(observations[k]))
    decreases |observations|
  {
    hide Part, Plus;
    var n := |observations| - 1;
    var last := observations[n];
    if k == n {
      assert observations[..k] + observations[k + 1..] == observations[..n];
    } else {
      var init := observations[..n];
      WholeWithout(init, k);
      assert init[..k] + init[k + 1..] + [last] == observations[..k] + observations[k + 1..];
      WholeStep(init[..k] + init[k + 1..], last, true);
      PlusSwaps(Whole(init[..k] + init[k + 1..]), Part(last), Part(observations[k]));
    }
  }

  lemma {:induction false} WholePermutes(a: seq<Observation>, b: seq<Observation>)
    requires multiset(a) == multiset(b)
    ensures Whole(a) == Whole(b)
    decreases |a|
  {
    hide Part, Plus;
    assert |multiset(a)| == |multiset(b)|;
    if a != [] {
      var n := |a| - 1;
      var x := a[n];
      assert a == a[..n] + [x];
      assert x in multiset(b);
      var k :| 0 <= k < |b| && b[k] == x;
      var rest := b[..k] + b[k + 1..];
      assert b == b[..k] + [x] + b[k + 1..];
      assert multiset(rest) == multiset(b) - multiset{x} == multiset(a[..n]);
      WholePermutes(a[..n], rest);
      WholeWithout(b, k);
    }
  }

  lemma OrderDoesNotMatter(a: seq<Observation>, b: seq<Observation>)
    requires multiset(a) == multiset(b)
    ensures SummaryOf(a) == SummaryOf(b)
  {
    hide Whole, Select, Labels;
    WholePermutes(a, b);
    assert |multiset(a)| == |multiset(b)|;
    forall labels: set<string> ensures Whole(Select(a, labels)) == Whole(Select(b, labels)) {
      SelectPermutes(a, b, labels);
      WholePermutes(Select(a, labels), Select(b, labels));
    }
    LabelsPermute(a, b);
    assert LargeLabels(a) == LargeLabels(b);
    assert Rows(a) == Rows(b);
  }

  lemma LabelsPermute(a: seq<Observation>, b: seq<Observation>)
    requires multiset(a) == multiset(b)
    ensures Labels(a) == Labels(b)
  {
    forall o ensures o in a <==> o in b {
      assert o in a <==> o in multiset(a);
      assert o in b <==> o in multiset(b);
    }
  }

  // ---------------------------------------------------------------------------------------------
  // Small strata.

  lemma {:induction false} SelectedCount(observations: seq<Observation>, labels: set<string>)
    ensures Whole(Select(observations, labels)).tally.fixtures == |Select(observations, labels)|
  {
    if observations != [] {
      var n := |observations| - 1;
      SelectedCount(observations[..n], labels);
      WholeStep(Select(observations[..n], labels), observations[n], In(observations[n], labels));
    }
  }

  /** No small group can be found by subtraction: every released row counts at least five fixtures, and
      the measured fixtures outside the released rows are none or at least five. */
  lemma NothingSmallBySubtraction(observations: seq<Observation>)
    requires SummaryOf(observations).status == Released
    ensures var s := SummaryOf(observations);
      && (forall l :: l in s.rows ==> |Select(observations, {l})| == s.rows[l].fixtures >= 5)
      && var rest := s.measurable - |Select(observations, s.rows.Keys)|;
         rest == 0 || rest >= 5
  {
    hide Labels, Whole, Select;
    var s := SummaryOf(observations);
    assert s.rows.Keys == LargeLabels(observations);
    SelectedCount(observations, s.rows.Keys);
    forall l | l in s.rows ensures |Select(observations, {l})| == s.rows[l].fixtures {
      SelectedCount(observations, {l});
    }
    RestNotNegative(observations, s.rows.Keys);
  }

  lemma {:induction false} RestNotNegative(observations: seq<Observation>, labels: set<string>)
    ensures |Select(observations, labels)| <= Whole(observations).tally.fixtures
  {
    if observations != [] {
      RestNotNegative(observations[..|observations| - 1], labels);
    }
  }

  ghost predicate Small(observations: seq<Observation>, name: string) {
    name == "" || !Large(Stratum(observations, name))
  }

  /** Equal but for the stratum. */
  ghost predicate SameButStratum(o: Observation, p: Observation) {
    && o.fixture.kind == p.fixture.kind
    && o.fixture.expected == p.fixture.expected
    && match (o, p)
       case (Measured(_, f), Measured(_, g)) => f == g
       case (Withheld(_, r), Withheld(_, q)) => r == q
       case _ => false
  }

  /** The strata of some fixtures are changed, from small ones to small ones. */
  ghost predicate Relabelled(a: seq<Observation>, b: seq<Observation>) {
    && |a| == |b|
    && forall i :: 0 <= i < |a| ==>
         && SameButStratum(a[i], b[i])
         && (a[i].Measured? && a[i].fixture.stratum != b[i].fixture.stratum ==>
               Small(a, a[i].fixture.stratum) && Small(b, b[i].fixture.stratum))
  }

  lemma SamePart(o: Observation, p: Observation)
    requires SameButStratum(o, p)
    ensures Part(o) == Part(p)
  {
  }

  lemma {:induction false} SameWhole(a: seq<Observation>, b: seq<Observation>)
    requires |a| == |b| && forall i :: 0 <= i < |a| ==> Part(a[i]) == Part(b[i])
    ensures Whole(a) == Whole(b)
  {
    hide Part, Plus;
    if a != [] {
      SameWhole(a[..|a| - 1], b[..|a| - 1]);
    }
  }

  ghost predicate SameMembers(a: seq<Observation>, b: seq<Observation>, labels: set<string>) {
    |a| == |b| && forall i :: 0 <= i < |a| ==> Part(a[i]) == Part(b[i]) && (In(a[i], labels) <==> In(b[i], labels))
  }

  lemma {:induction false} SameSelected(a: seq<Observation>, b: seq<Observation>, labels: set<string>)
    requires SameMembers(a, b, labels)
    ensures Whole(Select(a, labels)) == Whole(Select(b, labels))
  {
    hide Part, Plus, In, Whole;
    if a == [] {
      assert b == [];
    } else {
      var n := |a| - 1;
      SameSelected(a[..n], b[..n], labels);
      SelectStep(a, labels);
      SelectStep(b, labels);
    }
  }

  lemma {:induction false} MoreSelected(a: seq<Observation>, b: seq<Observation>, labels: set<string>)
    requires |a| == |b| && forall i :: 0 <= i < |a| ==> In(a[i], labels) ==> In(b[i], labels)
    ensures |Select(a, labels)| <= |Select(b, labels)|
  {
    hide In;
    if a != [] {
      MoreSelected(a[..|a| - 1], b[..|a| - 1], labels);
    }
  }

  /** A large stratum keeps its members. */
  lemma LargeKept(a: seq<Observation>, b: seq<Observation>, name: string)
    requires Relabelled(a, b) && name != "" && Large(Stratum(a, name))
    ensures SameMembers(a, b, {name}) && Stratum(a, name) == Stratum(b, name)
  {
    hide Part, Whole, Select, Large, Stratum;
    MembersStay(a, b, name);
    SelectedCount(a, {name});
    SelectedCount(b, {name});
    MoreSelected(a, b, {name});
    StratumIs(a, name);
    StratumIs(b, name);
    assert Large(Stratum(b, name)) by { LargerToo(Stratum(a, name), Stratum(b, name)); }
    MembersStayBack(a, b, name);
    forall i | 0 <= i < |a| ensures Part(a[i]) == Part(b[i]) {
      SamePart(a[i], b[i]);
    }
    SameSelected(a, b, {name});
  }

  lemma LargerToo(s: Tally, t: Tally)
    requires Large(s) && s.fixtures <= t.fixtures
    ensures Large(t)
  {
  }

  lemma MembersStay(a: seq<Observation>, b: seq<Observation>, name: string)
    requires Relabelled(a, b) && name != "" && Large(Stratum(a, name))
    ensures forall i :: 0 <= i < |a| ==> In(a[i], {name}) ==> In(b[i], {name})
  {
    hide Stratum, Large;
  }

  lemma MembersStayBack(a: seq<Observation>, b: seq<Observation>, name: string)
    requires Relabelled(a, b) && name != "" && Large(Stratum(b, name))
    ensures forall i :: 0 <= i < |a| ==> In(b[i], {name}) ==> In(a[i], {name})
  {
    hide Stratum, Large;
  }

  lemma RelabelledBack(a: seq<Observation>, b: seq<Observation>)
    requires Relabelled(a, b)
    ensures Relabelled(b, a)
  {
    hide Small;
  }

  lemma LargeHasMember(observations: seq<Observation>, name: string)
    requires Large(Stratum(observations, name)) && name != ""
    ensures name in Labels(observations)
  {
    if name !in Labels(observations) {
      EmptyStratum(observations, name);
    }
  }

  lemma LargeLabelsKept(a: seq<Observation>, b: seq<Observation>)
    requires Relabelled(a, b)
    ensures LargeLabels(a) <= LargeLabels(b)
    ensures forall l :: l in LargeLabels(a) ==> Stratum(a, l) == Stratum(b, l)
  {
    hide Stratum, Labels, Large, Relabelled;
    NeverEmpty(a);
    forall l | l in LargeLabels(a) ensures l in LargeLabels(b) && Stratum(a, l) == Stratum(b, l) {
      LargeKept(a, b, l);
      LargeHasMember(b, l);
    }
  }

  lemma LargeMembersKept(a: seq<Observation>, b: seq<Observation>)
    requires Relabelled(a, b) && LargeLabels(a) == LargeLabels(b)
    ensures SameMembers(a, b, LargeLabels(a))
  {
    hide Stratum, Labels, Part, Large;
    NeverEmpty(a);
    forall i | 0 <= i < |a|
      ensures Part(a[i]) == Part(b[i]) && (In(a[i], LargeLabels(a)) <==> In(b[i], LargeLabels(a))) {
      SamePart(a[i], b[i]);
    }
  }

  /** Moving fixtures among small strata leaves the summary as it was, exactly when that neither makes the
      first stratum nor undoes the last: only whether there are strata at all shows. */
  lemma SmallStrataDoNotShow(a: seq<Observation>, b: seq<Observation>)
    requires Relabelled(a, b)
    ensures SummaryOf(a) == SummaryOf(b) <==> (Labels(a) == {} <==> Labels(b) == {})
  {
    hide Stratum, Labels, Part, Large, Relabelled, SameMembers, Whole, Select, LargeLabels;
    SameWholes(a, b);
    RelabelledBack(a, b);
    LargeLabelsKept(a, b);
    LargeLabelsKept(b, a);
    assert LargeLabels(a) == LargeLabels(b);
    LargeMembersKept(a, b);
    SameSelected(a, b, LargeLabels(a));
    assert Hidden(a) == Hidden(b);
    if Labels(a) == {} <==> Labels(b) == {} {
      assert StatusOf(a) == StatusOf(b);
      assert Rows(a) == Rows(b);
    }
  }

  lemma SameWholes(a: seq<Observation>, b: seq<Observation>)
    requires Relabelled(a, b)
    ensures |a| == |b| && Whole(a) == Whole(b)
  {
    hide Part, Small;
    forall i | 0 <= i < |a| ensures Part(a[i]) == Part(b[i]) {
      SamePart(a[i], b[i]);
    }
    SameWhole(a, b);
  }
}
