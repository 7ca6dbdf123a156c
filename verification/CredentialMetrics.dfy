/** Counting recorded credential rows into groups (benchmarks/consumer/credential-metrics.ts). */
module CredentialMetrics {
  import opened Options
  import opened Scoring
  import opened Ranges

  datatype Kind = MustRedact | MustNotFlag | Policy
  datatype Tier = T0 | T1 | T2 | T3

  datatype ExpectedSpan = ExpectedSpan(range: Range, companion: bool, envelope: Option<Range>)

  /** A field is `None` when the recorded value is missing or not of its type. */
  datatype Row = Row(
    id: string,
    kind: Option<Kind>,
    tier: Option<Tier>,
    twinOf: Option<string>,
    expected: seq<ExpectedSpan>,
    spanOutcomes: Option<seq<Outcome>>,
    leakedBytes: Option<real>,
    collateralBytes: Option<real>,
    flagged: Option<bool>,
    findings: Option<int>,
    coDetected: bool)

  datatype Error = DuplicateId | InvalidStratum | InvalidControl | InvalidPositive
  datatype Result<+T> = Failed(error: Error) | Done(value: T)

  predicate Pending(row: Row) {
    row.tier == Some(T0)
  }

  predicate Control(row: Row) {
    row.kind == Some(MustNotFlag)
  }

  /** Scored for leaks. */
  predicate Positive(row: Row) {
    !Pending(row) && !Control(row)
  }

  function SecretsOf(spans: seq<ExpectedSpan>): (r: seq<ExpectedSpan>)
    ensures forall s :: s in r <==> s in spans && !s.companion
  {
    if spans == [] then [] else (if spans[0].companion then [] else [spans[0]]) + SecretsOf(spans[1..])
  }

  function RowError(row: Row): Option<Error> {
    if row.tier.None? || row.kind.None? then Some(InvalidStratum)
    else if Pending(row) then None
    else if Control(row) then
      if row.flagged.Some? && row.findings.Some? && row.findings.value >= 0 then None else Some(InvalidControl)
    else
      if row.spanOutcomes.Some? && row.leakedBytes.Some? && row.leakedBytes.value >= 0.0
         && row.collateralBytes.Some? && row.collateralBytes.value >= 0.0
         && forall s :: s in SecretsOf(row.expected) ==> 0 <= s.range.start < s.range.end
      then None else Some(InvalidPositive)
  }

  /** When a row has which error. */
  lemma RowErrorIs(row: Row)
    ensures RowError(row) == Some(InvalidStratum) <==> row.tier.None? || row.kind.None?
    ensures RowError(row) == Some(InvalidControl) <==>
      && row.tier.Some? && row.tier != Some(T0) && row.kind == Some(MustNotFlag)
      && (row.flagged.None? || row.findings.None? || row.findings.value < 0)
    ensures RowError(row) == Some(InvalidPositive) <==>
      && row.tier.Some? && row.tier != Some(T0) && row.kind.Some? && row.kind != Some(MustNotFlag)
      && (row.spanOutcomes.None? || row.leakedBytes.None? || row.leakedBytes.value < 0.0
          || row.collateralBytes.None? || row.collateralBytes.value < 0.0
          || exists s :: s in row.expected && !s.companion && (s.range.start < 0 || s.range.end <= s.range.start))
    ensures RowError(row) != Some(DuplicateId)
  {
    if s :| s in row.expected && !s.companion && (s.range.start < 0 || s.range.end <= s.range.start) {
      assert s in SecretsOf(row.expected);
    } else {
      assert forall s :: s in SecretsOf(row.expected) ==> s in row.expected && !s.companion;
    }
  }

  /** The checks of one row, in the source's order. */
  method CheckRow(row: Row) returns (error: Option<Error>)
    ensures error == RowError(row)
  {
    if row.tier.None? || row.kind.None? {
      return Some(InvalidStratum);
    }
    if row.tier == Some(T0) {
      return None;
    }
    if row.kind == Some(MustNotFlag) {
      if row.flagged.None? || row.findings.None? || row.findings.value < 0 {
        return Some(InvalidControl);
      }
      return None;
    }
    if row.spanOutcomes.None? || row.leakedBytes.None? || row.leakedBytes.value < 0.0
       || row.collateralBytes.None? || row.collateralBytes.value < 0.0 {
      return Some(InvalidPositive);
    }
    for i := 0 to |row.expected|
      invariant forall k :: 0 <= k < i && !row.expected[k].companion ==>
        0 <= row.expected[k].range.start < row.expected[k].range.end
    {
      var span := row.expected[i];
      if !span.companion && (span.range.start < 0 || span.range.end <= span.range.start) {
        assert span in SecretsOf(row.expected);
        return Some(InvalidPositive);
      }
    }
    return None;
  }

  function FirstError(rows: seq<Row>): Option<Error> {
    if rows == [] then None
    else if RowError(rows[0]).Some? then RowError(rows[0])
    else FirstError(rows[1..])
  }

  /** `groupKey` */
  datatype Key = PendingKey | GroupKey(kind: Kind, tier: Tier)

  function KeyOf(row: Row): Key {
    if Pending(row) || row.kind.None? || row.tier.None? then PendingKey else GroupKey(row.kind.value, row.tier.value)
  }

  /** Two rows share a group exactly when neither can be scored, or both have the same kind and tier. */
  lemma KeysSeparate(a: Row, b: Row)
    ensures KeyOf(a) == KeyOf(b) <==>
      if a.tier.None? || a.kind.None? || a.tier == Some(T0) then b.tier.None? || b.kind.None? || b.tier == Some(T0)
      else a.kind == b.kind && a.tier == b.tier
  {
  }

  /** A group; the fields a kind of group does not have are zero. */
  datatype Group = Group(
    files: nat,
    flaggedFiles: nat,
    findings: int,
    spans: nat,
    secretBytes: int,
    exact: nat,
    covered: nat,
    overbroad: nat,
    partial: nat,
    miss: nat,
    leakedSpans: nat,
    leakedBytes: real,
    collateralBytes: real,
    positives: nat,
    pairs: nat,
    coDetected: nat)

  function Empty(): Group {
    Group(0, 0, 0, 0, 0, 0, 0, 0, 0, 0, 0, 0.0, 0.0, 0, 0, 0)
  }

  function Plus(a: Group, b: Group): Group {
    Group(a.files + b.files, a.flaggedFiles + b.flaggedFiles, a.findings + b.findings, a.spans + b.spans,
          a.secretBytes + b.secretBytes, a.exact + b.exact, a.covered + b.covered, a.overbroad + b.overbroad,
          a.partial + b.partial, a.miss + b.miss, a.leakedSpans + b.leakedSpans, a.leakedBytes + b.leakedBytes,
          a.collateralBytes + b.collateralBytes, a.positives + b.positives, a.pairs + b.pairs,
          a.coDetected + b.coDetected)
  }

  function Bytes(spans: seq<ExpectedSpan>): int {
    if spans == [] then 0 else spans[0].range.end - spans[0].range.start + Bytes(spans[1..])
  }

  /** `t` is a scored twin of the row with this id. */
  predicate TwinOf(t: Row, id: string) {
    t.twinOf == Some(id) && id != "" && !Pending(t)
  }

  function Twins(rows: seq<Row>, id: string): seq<Row> {
    if rows == [] then []
    else
      var last := rows[|rows| - 1];
      Twins(rows[..|rows| - 1], id) + if TwinOf(last, id) then [last] else []
  }

  function CoDetected(rows: seq<Row>): nat {
    if rows == [] then 0 else CoDetected(rows[..|rows| - 1]) + if rows[|rows| - 1].coDetected then 1 else 0
  }

  function OutcomesOf(row: Row): seq<Outcome> {
    if row.spanOutcomes.Some? then row.spanOutcomes.value else []
  }

  function Or<T>(value: Option<T>, default: T): T {
    if value.Some? then value.value else default
  }

  /** What one row adds to its group. */
  function Part(row: Row, all: seq<Row>): Group {
    if Pending(row) then Empty().(files := 1)
    else if Control(row) then
      Empty().(files := 1, flaggedFiles := if row.flagged == Some(true) then 1 else 0, findings := Or(row.findings, 0))
    else
      var outcomes := OutcomesOf(row);
      Group(1, 0, 0, |outcomes|, Bytes(SecretsOf(row.expected)),
            Occurrences(outcomes, Exact), Occurrences(outcomes, Covered), Occurrences(outcomes, Overbroad),
            Occurrences(outcomes, Partial), Occurrences(outcomes, Miss), LeakedCount(outcomes),
            Or(row.leakedBytes, 0.0), Or(row.collateralBytes, 0.0),
            1, |Twins(all, row.id)|, CoDetected(Twins(all, row.id)))
  }

  /** The rows of a group, counted. */
  function GroupOf(rows: seq<Row>, all: seq<Row>, key: Key): Group {
    if rows == [] then Empty()
    else
      var last := rows[|rows| - 1];
      var rest := GroupOf(rows[..|rows| - 1], all, key);
      if KeyOf(last) == key then Plus(rest, Part(last, all)) else rest
  }

  ghost predicate DistinctIds(rows: seq<Row>) {
    forall i, j :: 0 <= i < j < |rows| ==> rows[i].id != rows[j].id
  }

  // ---------------------------------------------------------------------------------------------
  // The reductions.

  /** `new Map(rows.map(row => [row.id, row]))` */
  function ById(rows: seq<Row>): (r: map<string, Row>)
    ensures forall id :: id in r <==> exists i :: 0 <= i < |rows| && rows[i].id == id
    decreases |rows|
  {
    if rows == [] then map[]
    else
      var last := |rows| - 1;
      assert forall i :: 0 <= i < last ==> rows[..last][i] == rows[i];
      ById(rows[..last])[rows[last].id := rows[last]]
  }

  lemma {:induction false} ByIdFinds(rows: seq<Row>, i: nat)
    requires DistinctIds(rows) && i < |rows|
    ensures rows[i].id in ById(rows) && ById(rows)[rows[i].id] == rows[i]
    decreases |rows|
  {
    var last := |rows| - 1;
    if i < last {
      ByIdFinds(rows[..last], i);
    }
  }

  lemma {:induction false} ByIdSize(rows: seq<Row>)
    ensures |ById(rows)| <= |rows|
    ensures |ById(rows)| == |rows| <==> DistinctIds(rows)
    decreases |rows|
  {
    if rows != [] {
      var n := |rows| - 1;
      var rest, last := rows[..n], rows[n];
      ByIdSize(rest);
      assert ById(rows).Keys == ById(rest).Keys + {last.id};
      assert |ById(rows)| == |ById(rows).Keys| && |ById(rest)| == |ById(rest).Keys|;
      assert DistinctIds(rows) <==> DistinctIds(rest) && last.id !in ById(rest) by {
        DistinctOneMore(rows);
      }
    }
  }

  lemma DistinctOneMore(rows: seq<Row>)
    requires rows != []
    ensures var n := |rows| - 1; DistinctIds(rows) <==> DistinctIds(rows[..n]) && rows[n].id !in ById(rows[..n])
  {
    var n := |rows| - 1;
    var rest := rows[..n];
    assert forall i :: 0 <= i < n ==> rest[i] == rows[i];
    if rows[n].id in ById(rest) {
      var i :| 0 <= i < |rest| && rest[i].id == rows[n].id;
      assert rows[i].id == rows[n].id;
    }
  }

  function Lookup(twins: map<string, seq<Row>>, id: string): seq<Row> {
    if id in twins then twins[id] else []
  }

  /** The table lists the twins of each positive row, in order. */
  ghost predicate TwinsListed(twins: map<string, seq<Row>>, some: seq<Row>, rows: seq<Row>) {
    forall i :: 0 <= i < |rows| && Positive(rows[i]) ==> Lookup(twins, rows[i].id) == Twins(some, rows[i].id)
  }

  lemma TwinsStep(twins: map<string, seq<Row>>, some: seq<Row>, rows: seq<Row>, t: Row)
    requires DistinctIds(rows) && TwinsListed(twins, some, rows)
    ensures var listed := !Pending(t) && t.twinOf.Some? && t.twinOf.value != "" && t.twinOf.value in ById(rows)
      && Positive(ById(rows)[t.twinOf.value]);
      TwinsListed(if listed then twins[t.twinOf.value := Lookup(twins, t.twinOf.value) + [t]] else twins, some + [t],
        rows)
  {
    hide ById, Positive, Pending, DistinctIds;
    assert (some + [t])[..|some|] == some;
    forall i | 0 <= i < |rows| ensures rows[i].id in ById(rows) && ById(rows)[rows[i].id] == rows[i] {
      ByIdFinds(rows, i);
    }
  }

  method ListTwins(rows: seq<Row>) returns (result: Result<map<string, seq<Row>>>)
    requires DistinctIds(rows)
    ensures FirstError(rows).Some? ==> result == Failed(FirstError(rows).value)
    ensures FirstError(rows).None? ==> result.Done? && TwinsListed(result.value, rows, rows)
  {
    hide RowError, DistinctIds, ById, TwinsListed;
    var byId := ById(rows);
    var twins: map<string, seq<Row>> := map[];
    NoTwins(rows);
    for i := 0 to |rows|
      invariant FirstError(rows) == FirstError(rows[i..])
      invariant TwinsListed(twins, rows[..i], rows)
    {
      var row := rows[i];
      assert rows[i..][0] == row && rows[i..][1..] == rows[i + 1..];
      var error := CheckRow(row);
      if error.Some? {
        return Failed(error.value);
      }
      assert rows[..i + 1] == rows[..i] + [row];
      TwinsStep(twins, rows[..i], rows, row);
      if !Pending(row) && row.twinOf.Some? && row.twinOf.value != "" && row.twinOf.value in byId
        && Positive(byId[row.twinOf.value]) {
        twins := twins[row.twinOf.value := Lookup(twins, row.twinOf.value) + [row]];
      }
    }
    assert rows[|rows|..] == [] && rows[..|rows|] == rows;
    result := Done(twins);
  }

  lemma NoTwins(rows: seq<Row>)
    ensures TwinsListed(map[], rows[..0], rows)
  {
  }

  method CountOutcomes(g: Group, list: seq<Outcome>) returns (r: Group)
    ensures r == g.(spans := g.spans + |list|, exact := g.exact + Occurrences(list, Exact),
      covered := g.covered + Occurrences(list, Covered),
                    overbroad := g.overbroad + Occurrences(list, Overbroad),
                      partial := g.partial + Occurrences(list, Partial),
                    miss := g.miss + Occurrences(list, Miss), leakedSpans := g.leakedSpans + LeakedCount(list))
  {
    hide IsLeaked;
    r := g.(spans := g.spans + |list|);
    for i := 0 to |list|
      invariant r == g.(spans := g.spans + |list|,
        exact := g.exact + Occurrences(list[..i], Exact), covered := g.covered + Occurrences(list[..i], Covered),
        overbroad := g.overbroad + Occurrences(list[..i], Overbroad),
          partial := g.partial + Occurrences(list[..i], Partial),
        miss := g.miss + Occurrences(list[..i], Miss), leakedSpans := g.leakedSpans + LeakedCount(list[..i]))
    {
      assert list[..i + 1][..i] == list[..i];
      match list[i] {
        case Exact => r := r.(exact := r.exact + 1);
        case Covered => r := r.(covered := r.covered + 1);
        case Overbroad => r := r.(overbroad := r.overbroad + 1);
        case Partial => r := r.(partial := r.partial + 1);
        case Miss => r := r.(miss := r.miss + 1);
      }
      if IsLeaked(list[i]) {
        r := r.(leakedSpans := r.leakedSpans + 1);
      }
    }
    assert list[..|list|] == list;
  }

  method CountTwins(g: Group, list: seq<Row>) returns (r: Group)
    ensures r == g.(pairs := g.pairs + |list|, coDetected := g.coDetected + CoDetected(list))
  {
    r := g;
    for i := 0 to |list|
      invariant r == g.(pairs := g.pairs + i, coDetected := g.coDetected + CoDetected(list[..i]))
    {
      assert list[..i + 1][..i] == list[..i];
      r := r.(pairs := r.pairs + 1);
      if list[i].coDetected {
        r := r.(coDetected := r.coDetected + 1);
      }
    }
    assert list[..|list|] == list;
  }

  lemma NoSecrets()
    ensures Bytes(SecretsOf([])) == 0
  {
  }

  lemma SecretsStep(spans: seq<ExpectedSpan>)
    requires spans != []
    ensures Bytes(SecretsOf(spans)) == Bytes(SecretsOf(spans[1..]))
      + if spans[0].companion then 0 else spans[0].range.end - spans[0].range.start
  {
    var rest := SecretsOf(spans[1..]);
    assert ([spans[0]] + rest)[1..] == rest && [] + rest == rest;
  }

  /** The lengths of the secret spans, added up. */
  method CountBytes(spans: seq<ExpectedSpan>) returns (n: int)
    ensures n == Bytes(SecretsOf(spans))
  {
    hide SecretsOf, Bytes;
    NoSecrets();
    n := 0;
    for i := 0 to |spans|
      invariant n + Bytes(SecretsOf(spans[i..])) == Bytes(SecretsOf(spans))
    {
      var rest := spans[i..];
      assert rest[0] == spans[i] && rest[1..] == spans[i + 1..];
      SecretsStep(rest);
      if !spans[i].companion {
        n := n + spans[i].range.end - spans[i].range.start;
      }
    }
    assert spans[|spans|..] == [];
  }

  method AddRow(g: Group, row: Row, twins: seq<Row>, ghost all: seq<Row>) returns (r: Group)
    requires RowError(row).None? && (Positive(row) ==> twins == Twins(all, row.id))
    ensures r == Plus(g, Part(row, all))
  {
    hide Occurrences, LeakedCount, Twins, CoDetected, Bytes;
    r := g.(files := g.files + 1);
    if Pending(row) {
      return;
    }
    if Control(row) {
      r := r.(findings := r.findings + row.findings.value);
      if row.flagged.value {
        r := r.(flaggedFiles := r.flaggedFiles + 1);
      }
      return;
    }
    var secretBytes := CountBytes(row.expected);
    r := r.(secretBytes := r.secretBytes + secretBytes);
    r := CountOutcomes(r, row.spanOutcomes.value);
    r := r.(leakedBytes := r.leakedBytes + row.leakedBytes.value,
      collateralBytes := r.collateralBytes + row.collateralBytes.value);
    r := r.(positives := r.positives + 1);
    r := CountTwins(r, twins);
  }

  ghost predicate HasKey(rows: seq<Row>, key: Key) {
    exists i :: 0 <= i < |rows| && KeyOf(rows[i]) == key
  }

  /** The groups of some of the rows, counted with the twins among all of them. */
  ghost predicate Grouped(groups: map<Key, Group>, rows: seq<Row>, all: seq<Row>) {
    && (forall k :: k in groups <==> HasKey(rows, k))
    && (forall k :: k in groups ==> groups[k] == GroupOf(rows, all, k))
  }

  lemma {:induction false} NoGroup(rows: seq<Row>, all: seq<Row>, key: Key)
    requires !HasKey(rows, key)
    ensures GroupOf(rows, all, key) == Empty()
  {
    hide Part, KeyOf;
    if rows != [] {
      var n := |rows| - 1;
      assert forall i :: 0 <= i < n ==> rows[..n][i] == rows[i];
      NoGroup(rows[..n], all, key);
    }
  }

  lemma GroupedStep(groups: map<Key, Group>, rows: seq<Row>, all: seq<Row>, row: Row)
    requires Grouped(groups, rows, all)
    ensures var k := KeyOf(row);
      Grouped(groups[k := Plus(if k in groups then groups[k] else Empty(), Part(row, all))], rows + [row], all)
  {
    hide Part, KeyOf, Plus;
    var k, more := KeyOf(row), rows + [row];
    assert more[..|rows|] == rows && more[|rows|] == row;
    forall j ensures HasKey(more, j) <==> HasKey(rows, j) || j == k {
      if HasKey(rows, j) {
        var i :| 0 <= i < |rows| && KeyOf(rows[i]) == j;
        assert more[i] == rows[i];
      }
      if HasKey(more, j) {
        var i :| 0 <= i < |more| && KeyOf(more[i]) == j;
        assert i < |rows| ==> rows[i] == more[i];
      }
    }
    if k !in groups {
      NoGroup(rows, all, k);
    }
  }

  lemma {:induction false} NoErrorAt(rows: seq<Row>, i: nat)
    requires FirstError(rows).None? && i < |rows|
    ensures RowError(rows[i]).None?
  {
    if i > 0 {
      NoErrorAt(rows[1..], i - 1);
    }
  }

  lemma ListedTwins(twins: map<string, seq<Row>>, rows: seq<Row>, i: nat)
    requires TwinsListed(twins, rows, rows) && i < |rows| && Positive(rows[i])
    ensures Lookup(twins, rows[i].id) == Twins(rows, rows[i].id)
  {
  }

  method GroupRows(rows: seq<Row>, twins: map<string, seq<Row>>) returns (groups: map<Key, Group>)
    requires FirstError(rows).None? && TwinsListed(twins, rows, rows)
    ensures Grouped(groups, rows, rows)
  {
    hide *;
    groups := map[];
    NothingGrouped(rows);
    for i := 0 to |rows|
      invariant Grouped(groups, rows[..i], rows)
    {
      var row := rows[i];
      var key := KeyOf(row);
      NoErrorAt(rows, i);
      if Positive(row) {
        ListedTwins(twins, rows, i);
      }
      var g := AddRow(if key in groups then groups[key] else Empty(), row, Lookup(twins, row.id), rows);
      GroupedStep(groups, rows[..i], rows, row);
      assert rows[..i + 1] == rows[..i] + [row];
      groups := groups[key := g];
    }
    assert rows[..|rows|] == rows;
  }

  /** `recordedCounts` */
  method RecordedCounts(rows: seq<Row>) returns (result: Result<map<Key, Group>>)
    ensures !DistinctIds(rows) ==> result == Failed(DuplicateId)
    ensures DistinctIds(rows) && FirstError(rows).Some? ==> result == Failed(FirstError(rows).value)
    ensures DistinctIds(rows) && FirstError(rows).None? ==> result.Done? && Grouped(result.value, rows, rows)
  {
    hide *;
    ByIdSize(rows);
    if |ById(rows)| != |rows| {
      return Failed(DuplicateId);
    }
    var listed := ListTwins(rows);
    if listed.Failed? {
      return Failed(listed.error);
    }
    var groups := GroupRows(rows, listed.value);
    result := Done(groups);
  }

  lemma NothingGrouped(rows: seq<Row>)
    ensures Grouped(map[], rows[..0], rows)
  {
  }
}
