/** The second accounting pass, and what the counts of both passes keep (benchmarks/consumer/credential-metrics.ts). */
module Accounting {
  import opened Options
  import opened Scoring
  import opened Ranges
  import opened CredentialMetrics

  predicate Acceptable(outcome: Outcome) {
    outcome == Exact || outcome == Covered
  }

  /** A span is acceptable exactly when it was found as it is, or within a finding that stays in its envelope. */
  lemma AcceptableIs(span: Span, findings: seq<Range>)
    ensures Acceptable(SpanOutcome(span, findings)) <==>
      span.range in findings
      || exists f :: f in findings && f.start <= span.range.start && span.range.end <= f.end
           && var room := if span.envelope.Some? then span.envelope.value else span.range;
              room.start <= f.start && f.end <= room.end
  {
    forall f ensures Contains(f, span.range) == (f.start <= span.range.start && span.range.end <= f.end) {
    }
  }

  /** `t` is the scored twin of a positive row of the group. */
  predicate Paired(t: Row, rows: seq<Row>, key: Key) {
    && !Pending(t)
    && t.twinOf.Some?
    && t.twinOf.value != ""
    && t.twinOf.value in ById(rows)
    && Positive(ById(rows)[t.twinOf.value])
    && KeyOf(ById(rows)[t.twinOf.value]) == key
  }

  /** And tells its positive apart: every span of the positive is acceptable, and the twin stays silent. */
  predicate Discriminates(t: Row, rows: seq<Row>, key: Key) {
    && Paired(t, rows, key)
    && (forall o :: o in OutcomesOf(ById(rows)[t.twinOf.value]) ==> Acceptable(o))
    && t.flagged != Some(true)
  }

  function Discriminated(some: seq<Row>, rows: seq<Row>, key: Key): nat {
    if some == [] then 0
    else Discriminated(some[..|some| - 1], rows, key) + if Discriminates(some[|some| - 1], rows, key) then 1 else 0
  }

  lemma NoneDiscriminated(rows: seq<Row>)
    ensures forall k :: Discriminated(rows[..0], rows, k) == 0
  {
  }

  lemma DiscriminatedStep(rows: seq<Row>, i: nat)
    requires i < |rows|
    ensures forall k ::
      Discriminated(rows[..i + 1], rows, k) == Discriminated(rows[..i], rows, k) + if Discriminates(rows[i], rows, k)
      then 1 else 0
  {
    hide Discriminates;
    assert rows[..i + 1][..i] == rows[..i];
  }

  /** `strict`: a group is in it as soon as it has a pair. */
  method StrictCounts(rows: seq<Row>) returns (strict: map<Key, nat>)
    ensures forall k :: k in strict <==> exists i :: 0 <= i < |rows| && Paired(rows[i], rows, k)
    ensures forall k :: (if k in strict then strict[k] else 0) == Discriminated(rows, rows, k)
  {
    hide ById, Pending, Positive, KeyOf, Acceptable, Discriminated;
    NoneDiscriminated(rows);
    var byId := ById(rows);
    strict := map[];
    for i := 0 to |rows|
      invariant forall k :: k in strict <==> exists j :: 0 <= j < i && Paired(rows[j], rows, k)
      invariant forall k :: (if k in strict then strict[k] else 0) == Discriminated(rows[..i], rows, k)
    {
      var twin := rows[i];
      DiscriminatedStep(rows, i);
      if !Pending(twin) && twin.twinOf.Some? && twin.twinOf.value != "" && twin.twinOf.value in byId
        && Positive(byId[twin.twinOf.value]) {
        var positive := byId[twin.twinOf.value];
        var key := KeyOf(positive);
        assert Paired(twin, rows, key);
        var before := if key in strict then strict[key] else 0;
        var counts := (forall o :: o in OutcomesOf(positive) ==> Acceptable(o)) && twin.flagged != Some(true);
        strict := strict[key := if counts then before + 1 else before];
      }
    }
    assert rows[..|rows|] == rows;
  }

  function PendingOf(rows: seq<Row>, kind: Kind): nat {
    if rows == [] then 0
    else
      var last := rows[|rows| - 1];
      PendingOf(rows[..|rows| - 1], kind) + if Pending(last) && last.kind == Some(kind) then 1 else 0
  }

  method PendingKinds(rows: seq<Row>) returns (pending: map<Kind, nat>)
    ensures forall kind :: (if kind in pending then pending[kind] else 0) == PendingOf(rows, kind)
  {
    pending := map[];
    for i := 0 to |rows|
      invariant forall kind :: (if kind in pending then pending[kind] else 0) == PendingOf(rows[..i], kind)
    {
      assert rows[..i + 1][..i] == rows[..i];
      if Pending(rows[i]) && rows[i].kind.Some? {
        var kind := rows[i].kind.value;
        pending := pending[kind := (if kind in pending then pending[kind] else 0) + 1];
      }
    }
    assert rows[..|rows|] == rows;
  }

  // ---------------------------------------------------------------------------------------------
  // Files over groups add up to the rows.

  const KEYS: seq<Key> := [
    PendingKey,
    GroupKey(MustRedact, T1), GroupKey(MustRedact, T2), GroupKey(MustRedact, T3),
    GroupKey(MustNotFlag, T1), GroupKey(MustNotFlag, T2), GroupKey(MustNotFlag, T3),
    GroupKey(Policy, T1), GroupKey(Policy, T2), GroupKey(Policy, T3)]

  function TotalFiles(rows: seq<Row>, all: seq<Row>, keys: seq<Key>): nat {
    if keys == [] then 0 else GroupOf(rows, all, keys[0]).files + TotalFiles(rows, all, keys[1..])
  }

  lemma {:induction false} NoFiles(all: seq<Row>, keys: seq<Key>)
    ensures TotalFiles([], all, keys) == 0
  {
    if keys != [] {
      NoFiles(all, keys[1..]);
    }
  }

  lemma {:induction false} OneMoreFile(rows: seq<Row>, all: seq<Row>, keys: seq<Key>)
    requires rows != [] && forall i, j :: 0 <= i < j < |keys| ==> keys[i] != keys[j]
    ensures var n := |rows| - 1;
      TotalFiles(rows, all, keys) == TotalFiles(rows[..n], all, keys) + if KeyOf(rows[n]) in keys then 1 else 0
    decreases |keys|
  {
    hide KeyOf;
    if keys != [] {
      OneMoreFile(rows, all, keys[1..]);
      assert keys == [keys[0]] + keys[1..];
      assert keys[0] !in keys[1..];
    }
  }

  lemma KeysAreAll(row: Row)
    ensures KeyOf(row) in KEYS
  {
    if Pending(row) || row.kind.None? || row.tier.None? {
      assert KeyOf(row) == KEYS[0];
    } else {
      var base := match row.kind.value case MustRedact => 0 case MustNotFlag => 3 case Policy => 6;
      var step := match row.tier.value case T1 => 1 case T2 => 2 case T3 => 3 case T0 => 0;
      assert step > 0 && KeyOf(row) == KEYS[base + step];
    }
  }

  lemma {:induction false} FilesAddUp(rows: seq<Row>, all: seq<Row>)
    ensures TotalFiles(rows, all, KEYS) == |rows|
  {
    hide KeyOf, GroupOf;
    if rows == [] {
      NoFiles(all, KEYS);
    } else {
      FilesAddUp(rows[..|rows| - 1], all);
      OneMoreFile(rows, all, KEYS);
      KeysAreAll(rows[|rows| - 1]);
    }
  }

  // ---------------------------------------------------------------------------------------------
  // Within a group.

  ghost predicate Balanced(g: Group) {
    && g.exact + g.covered + g.overbroad + g.partial + g.miss == g.spans
    && g.partial + g.miss == g.leakedSpans
    && g.coDetected <= g.pairs
    && g.flaggedFiles + g.positives <= g.files
  }

  lemma {:induction false} CoDetectedAtMost(rows: seq<Row>)
    ensures CoDetected(rows) <= |rows|
  {
    if rows != [] {
      CoDetectedAtMost(rows[..|rows| - 1]);
    }
  }

  lemma PartBalanced(row: Row, all: seq<Row>)
    ensures Balanced(Part(row, all))
  {
    hide Occurrences, LeakedCount, Twins, CoDetected, Bytes;
    OutcomesAddUp(OutcomesOf(row));
    CoDetectedAtMost(Twins(all, row.id));
  }

  /** In every group the outcomes add up to the spans, and what leaked is what was partial or missed. */
  lemma {:induction false} GroupsBalance(rows: seq<Row>, all: seq<Row>, key: Key)
    ensures Balanced(GroupOf(rows, all, key))
  {
    hide Part, KeyOf;
    if rows != [] {
      GroupsBalance(rows[..|rows| - 1], all, key);
      PartBalanced(rows[|rows| - 1], all);
    }
  }

  // ---------------------------------------------------------------------------------------------
  // The two passes agree on pairs.

  function Pairs(some: seq<Row>, rows: seq<Row>, key: Key): nat {
    if some == [] then 0
    else Pairs(some[..|some| - 1], rows, key) + if Paired(some[|some| - 1], rows, key) then 1 else 0
  }

  /** The twins of the positive rows of a group, positive by positive. */
  function TwinsAcross(positives: seq<Row>, some: seq<Row>, key: Key): nat {
    if positives == [] then 0
    else
      var p := positives[|positives| - 1];
      TwinsAcross(positives[..|positives| - 1], some, key) + if Positive(p) && KeyOf(p) == key
        then |Twins(some, p.id)| else 0
  }

  lemma {:induction false} PairsAreTwins(rows: seq<Row>, all: seq<Row>, key: Key)
    ensures GroupOf(rows, all, key).pairs == TwinsAcross(rows, all, key)
  {
    hide KeyOf, Twins, Occurrences, LeakedCount, CoDetected, Bytes;
    if rows != [] {
      PairsAreTwins(rows[..|rows| - 1], all, key);
    }
  }

  function Claims(positives: seq<Row>, t: Row, key: Key): nat {
    if positives == [] then 0
    else
      var p := positives[|positives| - 1];
      Claims(positives[..|positives| - 1], t, key) + if Positive(p) && KeyOf(p) == key && TwinOf(t, p.id) then 1 else 0
  }

  lemma {:induction false} OneTwinMore(positives: seq<Row>, some: seq<Row>, t: Row, key: Key)
    ensures TwinsAcross(positives, some + [t], key) == TwinsAcross(positives, some, key) + Claims(positives, t, key)
  {
    hide Positive, KeyOf, TwinOf;
    assert (some + [t])[..|some|] == some;
    if positives != [] {
      OneTwinMore(positives[..|positives| - 1], some, t, key);
    }
  }

  ghost predicate ClaimedBy(positives: seq<Row>, t: Row, key: Key, i: nat) {
    i < |positives| && Positive(positives[i]) && KeyOf(positives[i]) == key && TwinOf(t, positives[i].id)
  }

  /** With distinct ids, a twin has one positive at most. */
  lemma {:induction false} ClaimedOnce(positives: seq<Row>, t: Row, key: Key)
    requires DistinctIds(positives)
    ensures Claims(positives, t, key) == if exists i: nat :: ClaimedBy(positives, t, key, i) then 1 else 0
  {
    hide Positive, KeyOf;
    if positives != [] {
      var n := |positives| - 1;
      var rest := positives[..n];
      ClaimedOnce(rest, t, key);
      if ClaimedBy(positives, t, key, n) {
        forall i: nat ensures !ClaimedBy(rest, t, key, i) {
          assert i < n ==> positives[i].id != positives[n].id;
        }
      } else {
        forall i: nat ensures ClaimedBy(rest, t, key, i) <==> ClaimedBy(positives, t, key, i) {
        }
      }
    }
  }

  lemma PairedIsClaimed(rows: seq<Row>, t: Row, key: Key)
    requires DistinctIds(rows)
    ensures Claims(rows, t, key) == if Paired(t, rows, key) then 1 else 0
  {
    hide Positive, KeyOf, ById, Claims;
    ClaimedOnce(rows, t, key);
    forall i | 0 <= i < |rows| ensures rows[i].id in ById(rows) && ById(rows)[rows[i].id] == rows[i] {
      ByIdFinds(rows, i);
    }
    if Paired(t, rows, key) {
      var i :| 0 <= i < |rows| && rows[i].id == t.twinOf.value;
      assert ClaimedBy(rows, t, key, i);
    }
  }

  lemma {:induction false} TwinsArePairs(rows: seq<Row>, some: seq<Row>, key: Key)
    requires DistinctIds(rows)
    ensures TwinsAcross(rows, some, key) == Pairs(some, rows, key)
  {
    hide Paired, DistinctIds;
    if some == [] {
      NoTwinsAcross(rows, key);
    } else {
      var n := |some| - 1;
      TwinsArePairs(rows, some[..n], key);
      OneTwinMore(rows, some[..n], some[n], key);
      assert some == some[..n] + [some[n]];
      PairedIsClaimed(rows, some[n], key);
    }
  }

  lemma {:induction false} NoTwinsAcross(rows: seq<Row>, key: Key)
    ensures TwinsAcross(rows, [], key) == 0
  {
    if rows != [] {
      NoTwinsAcross(rows[..|rows| - 1], key);
    }
  }

  lemma {:induction false} DiscriminatedArePairs(some: seq<Row>, rows: seq<Row>, key: Key)
    ensures Discriminated(some, rows, key) <= Pairs(some, rows, key)
  {
    hide Paired;
    if some != [] {
      DiscriminatedArePairs(some[..|some| - 1], rows, key);
      assert Discriminates(some[|some| - 1], rows, key) ==> Paired(some[|some| - 1], rows, key);
    }
  }

  /** Counted by positives or counted by twins, a group has the same pairs; and what the second pass calls
      discriminated never exceeds them. */
  lemma PassesAgree(rows: seq<Row>, key: Key)
    requires DistinctIds(rows)
    ensures GroupOf(rows, rows, key).pairs == Pairs(rows, rows, key)
    ensures Discriminated(rows, rows, key) <= GroupOf(rows, rows, key).pairs
  {
    hide *;
    PairsAreTwins(rows, rows, key);
    TwinsArePairs(rows, rows, key);
    DiscriminatedArePairs(rows, rows, key);
  }
}
