/** The order of recorded rows does not matter, and what a selection of fixtures is accounted over
    (benchmarks/consumer/credential-metrics.ts). */
module CountingOrder {
  import opened Options
  import opened Scoring
  import opened CredentialMetrics
  import opened Ranges

  // ---------------------------------------------------------------------------------------------
  // Sums over rows do not depend on their order.

  function Sum(rows: seq<Row>, weight: Row -> nat): nat {
    if rows == [] then 0 else Sum(rows[..|rows| - 1], weight) + weight(rows[|rows| - 1])
  }

  lemma {:induction false} SumWithout(rows: seq<Row>, weight: Row -> nat, k: nat)
    requires k < |rows|
    ensures Sum(rows, weight) == Sum(rows[..k] + rows[k + 1..], weight) + weight(rows[k])
    decreases |rows|
  {
    var n := |rows| - 1;
    if k == n {
      assert rows[..k] + rows[k + 1..] == rows[..n];
    } else {
      var init, without := rows[..n], rows[..k] + rows[k + 1..];
      SumWithout(init, weight, k);
      assert without[..|without| - 1] == init[..k] + init[k + 1..];
    }
  }

  lemma Removed(a: seq<Row>, b: seq<Row>) returns (k: nat)
    requires multiset(a) == multiset(b) && a != []
    ensures k < |b| && b[k] == a[|a| - 1]
    ensures multiset(a[..|a| - 1]) == multiset(b[..k] + b[k + 1..])
  {
    var n := |a| - 1;
    var x := a[n];
    assert a == a[..n] + [x];
    assert x in multiset(b);
    k :| 0 <= k < |b| && b[k] == x;
    assert b == b[..k] + [x] + b[k + 1..];
    assert multiset(b[..k] + b[k + 1..]) == multiset(b) - multiset{x};
    assert multiset(a[..n]) == multiset(a) - multiset{x};
  }

  lemma {:induction false} SumPermutes(a: seq<Row>, b: seq<Row>, weight: Row -> nat)
    requires multiset(a) == multiset(b)
    ensures Sum(a, weight) == Sum(b, weight)
    decreases |a|
  {
    assert |multiset(a)| == |multiset(b)|;
    if a != [] {
      var k := Removed(a, b);
      SumPermutes(a[..|a| - 1], b[..k] + b[k + 1..], weight);
      SumWithout(b, weight, k);
    }
  }

  function TwinWeight(id: string): Row -> nat {
    t => if TwinOf(t, id) then 1 else 0
  }

  function CoWeight(id: string): Row -> nat {
    t => if TwinOf(t, id) && t.coDetected then 1 else 0
  }

  lemma {:induction false} TwinsAreSums(rows: seq<Row>, id: string)
    ensures |Twins(rows, id)| == Sum(rows, TwinWeight(id))
    ensures CoDetected(Twins(rows, id)) == Sum(rows, CoWeight(id))
  {
    if rows != [] {
      var n := |rows| - 1;
      TwinsAreSums(rows[..n], id);
      var before := Twins(rows[..n], id);
      if TwinOf(rows[n], id) {
        assert (before + [rows[n]])[..|before|] == before;
      } else {
        assert before + [] == before;
      }
    }
  }

  lemma PartPermutes(row: Row, a: seq<Row>, b: seq<Row>)
    requires multiset(a) == multiset(b)
    ensures Part(row, a) == Part(row, b)
  {
    hide Occurrences, LeakedCount, Bytes, CoDetected, Twins;
    TwinsAreSums(a, row.id);
    TwinsAreSums(b, row.id);
    SumPermutes(a, b, TwinWeight(row.id));
    SumPermutes(a, b, CoWeight(row.id));
  }

  lemma {:induction false} SameParts(rows: seq<Row>, a: seq<Row>, b: seq<Row>, key: Key)
    requires multiset(a) == multiset(b)
    ensures GroupOf(rows, a, key) == GroupOf(rows, b, key)
  {
    hide Part, Plus, KeyOf;
    if rows != [] {
      SameParts(rows[..|rows| - 1], a, b, key);
      PartPermutes(rows[|rows| - 1], a, b);
    }
  }

  lemma PlusSwaps(g: Group, p: Group, q: Group)
    ensures Plus(Plus(g, p), q) == Plus(Plus(g, q), p)
  {
  }

  function With(g: Group, row: Row, all: seq<Row>, key: Key): Group {
    if KeyOf(row) == key then Plus(g, Part(row, all)) else g
  }

  lemma WithSwaps(g: Group, r: Row, s: Row, all: seq<Row>, key: Key)
    ensures With(With(g, r, all, key), s, all, key) == With(With(g, s, all, key), r, all, key)
  {
    hide Plus, Part, KeyOf;
    PlusSwaps(g, Part(r, all), Part(s, all));
  }

  lemma {:induction false} GroupWithout(rows: seq<Row>, all: seq<Row>, key: Key, k: nat)
    requires k < |rows|
    ensures GroupOf(rows, all, key) == With(GroupOf(rows[..k] + rows[k + 1..], all, key), rows[k], all, key)
    decreases |rows|
  {
    hide Part, Plus, KeyOf;
    var n := |rows| - 1;
    if k == n {
      assert rows[..k] + rows[k + 1..] == rows[..n];
    } else {
      var init, without := rows[..n], rows[..k] + rows[k + 1..];
      GroupWithout(init, all, key, k);
      assert without[..|without| - 1] == init[..k] + init[k + 1..] && without[|without| - 1] == rows[n];
      WithSwaps(GroupOf(init[..k] + init[k + 1..], all, key), rows[k], rows[n], all, key);
    }
  }

  lemma {:induction false} GroupPermutes(a: seq<Row>, b: seq<Row>, all: seq<Row>, key: Key)
    requires multiset(a) == multiset(b)
    ensures GroupOf(a, all, key) == GroupOf(b, all, key)
    decreases |a|
  {
    hide Part, Plus, KeyOf;
    assert |multiset(a)| == |multiset(b)|;
    if a != [] {
      var k := Removed(a, b);
      GroupPermutes(a[..|a| - 1], b[..k] + b[k + 1..], all, key);
      GroupWithout(b, all, key, k);
    }
  }

  /** The same rows in another order make the same groups. */
  lemma OrderDoesNotMatter(a: seq<Row>, b: seq<Row>, key: Key)
    requires multiset(a) == multiset(b)
    ensures GroupOf(a, a, key) == GroupOf(b, b, key)
  {
    hide *;
    GroupPermutes(a, b, a, key);
    SameParts(b, a, b, key);
  }

  // ---------------------------------------------------------------------------------------------
  // Selections.

  /** A recorded row and the suite it is in. */
  datatype SuiteRow = SuiteRow(row: Row, suite: string)

  ghost predicate Own(all: seq<SuiteRow>, selected: set<string>, key: Key, id: string) {
    exists i :: 0 <= i < |all| && all[i].row.id == id && id in selected && KeyOf(all[i].row) == key
  }

  ghost predicate Suite(all: seq<SuiteRow>, selected: set<string>, key: Key, suite: string) {
    exists i :: 0 <= i < |all| && all[i].suite == suite && all[i].row.id in selected && KeyOf(all[i].row) == key
  }

  ghost predicate SelectedPending(all: seq<SuiteRow>, selected: set<string>, id: string) {
    exists i :: 0 <= i < |all| && all[i].row.id == id && id in selected && Pending(all[i].row)
  }

  /** The rows a selected group is accounted over: its own, their twins, and the selection's pending rows,
      within the suites that hold it. */
  ghost predicate Kept(all: seq<SuiteRow>, selected: set<string>, key: Key, r: SuiteRow) {
    && Suite(all, selected, key, r.suite)
    && (Own(all, selected, key, r.row.id)
        || SelectedPending(all, selected, r.row.id)
        || (r.row.twinOf.Some? && Own(all, selected, key, r.row.twinOf.value)))
  }

  ghost function KeptRows(some: seq<SuiteRow>, all: seq<SuiteRow>, selected: set<string>, key: Key): seq<Row> {
    if some == [] then []
    else
      var last := some[|some| - 1];
      KeptRows(some[..|some| - 1], all, selected, key) + if Kept(all, selected, key, last) then [last.row] else []
  }

  ghost predicate Member(r: SuiteRow, selected: set<string>, key: Key) {
    r.row.id in selected && KeyOf(r.row) == key
  }

  ghost function Members(some: seq<SuiteRow>, selected: set<string>, key: Key): nat {
    if some == [] then 0
    else Members(some[..|some| - 1], selected, key) + if Member(some[|some| - 1], selected, key) then 1 else 0
  }

  ghost predicate DistinctSuiteIds(all: seq<SuiteRow>) {
    forall i, j :: 0 <= i < j < |all| ==> all[i].row.id != all[j].row.id
  }

  /** An unselected twin that falls into the very group of the positive it is kept for. */
  ghost predicate Stray(all: seq<SuiteRow>, selected: set<string>, key: Key, r: SuiteRow) {
    && r.row.id !in selected
    && KeyOf(r.row) == key
    && Suite(all, selected, key, r.suite)
    && r.row.twinOf.Some?
    && Own(all, selected, key, r.row.twinOf.value)
  }

  lemma KeptInGroup(all: seq<SuiteRow>, selected: set<string>, key: Key, i: nat)
    requires i < |all| && DistinctSuiteIds(all) && KeyOf(all[i].row) == key
    ensures Kept(all, selected, key, all[i]) <==> Member(all[i], selected, key) || Stray(all, selected, key, all[i])
  {
    hide KeyOf, Pending;
    var r := all[i];
    if Member(r, selected, key) {
      assert Own(all, selected, key, r.row.id) && Suite(all, selected, key, r.suite);
    }
    if Own(all, selected, key, r.row.id) || SelectedPending(all, selected, r.row.id) {
      assert r.row.id in selected;
    }
  }

  lemma NothingKept(all: seq<SuiteRow>, selected: set<string>, key: Key, twins: seq<Row>)
    ensures GroupOf(KeptRows([], all, selected, key), twins, key).files == 0
  {
  }

  /** One more row adds one file if it is kept and in the group. */
  lemma FileCounts(some: seq<SuiteRow>, all: seq<SuiteRow>, selected: set<string>, key: Key, twins: seq<Row>)
    requires some != []
    ensures var n := |some| - 1;
      GroupOf(KeptRows(some, all, selected, key), twins, key).files ==
      GroupOf(KeptRows(some[..n], all, selected, key), twins, key).files
        + if Kept(all, selected, key, some[n]) && KeyOf(some[n].row) == key then 1 else 0
  {
    hide KeyOf, Kept, Part;
    var n := |some| - 1;
    var last, rest := some[n], KeptRows(some[..n], all, selected, key);
    if Kept(all, selected, key, last) {
      assert (rest + [last.row])[..|rest|] == rest;
      PartIsOneFile(last.row, twins);
    } else {
      assert rest + [] == rest;
    }
  }

  ghost predicate NoStray(some: seq<SuiteRow>, all: seq<SuiteRow>, selected: set<string>, key: Key) {
    forall r :: r in some ==> !Stray(all, selected, key, r)
  }

  lemma NoStrayStep(some: seq<SuiteRow>, all: seq<SuiteRow>, selected: set<string>, key: Key)
    ensures NoStray(some, all, selected, key) <==>
      some == [] || (NoStray(some[..|some| - 1], all, selected, key) && !Stray(all, selected, key, some[|some| - 1]))
  {
    hide Stray;
    assert some != [] ==> some == some[..|some| - 1] + [some[|some| - 1]];
  }

  lemma {:induction false} FilesKept(some: seq<SuiteRow>, all: seq<SuiteRow>, selected: set<string>, key: Key,
      twins: seq<Row>)
    requires DistinctSuiteIds(all) && |some| <= |all| && some == all[..|some|]
    ensures var files := GroupOf(KeptRows(some, all, selected, key), twins, key).files;
      && files >= Members(some, selected, key)
      && (files == Members(some, selected, key) <==> NoStray(some, all, selected, key))
  {
    hide KeyOf, Kept, Stray, GroupOf, KeptRows, NoStray;
    NoStrayStep(some, all, selected, key);
    NothingKept(all, selected, key, twins);
    if some != [] {
      var n := |some| - 1;
      var last := some[n];
      assert last == all[n] && some[..n] == all[..n];
      FilesKept(some[..n], all, selected, key, twins);
      FileCounts(some, all, selected, key, twins);
      if KeyOf(last.row) == key {
        KeptInGroup(all, selected, key, n);
        NotBoth(all, selected, key, last);
      } else {
        NotStray(all, selected, key, last);
      }
    }
  }

  // ---------------------------------------------------------------------------------------------
  // The selection, as it is computed.

  method MembersOf(all: seq<SuiteRow>, selected: set<string>, key: Key) returns (own: set<string>, suites: set<string>)
    ensures forall id :: id in own <==> Own(all, selected, key, id)
    ensures forall s :: s in suites <==> Suite(all, selected, key, s)
  {
    hide KeyOf;
    own, suites := {}, {};
    for i := 0 to |all|
      invariant forall id :: id in own <==> Own(all[..i], selected, key, id)
      invariant forall s :: s in suites <==> Suite(all[..i], selected, key, s)
    {
      OwnStep(all, selected, key, i);
      if all[i].row.id in selected && KeyOf(all[i].row) == key {
        own := own + {all[i].row.id};
        suites := suites + {all[i].suite};
      }
    }
    assert all[..|all|] == all;
  }

  lemma OwnStep(all: seq<SuiteRow>, selected: set<string>, key: Key, i: nat)
    requires i < |all|
    ensures var r, mine := all[i], all[i].row.id in selected && KeyOf(all[i].row) == key;
      && (forall id ::
        Own(all[..i + 1], selected, key, id) <==> Own(all[..i], selected, key, id) || (mine && id == r.row.id))
      && (forall s :: Suite(all[..i + 1], selected, key, s) <==>
        Suite(all[..i], selected, key, s) || (mine && s == r.suite))
  {
    hide KeyOf;
    var less, more := all[..i], all[..i + 1];
    assert more == less + [all[i]];
    forall id ensures Own(more, selected, key, id) <==>
      Own(less, selected, key, id) || (id in selected && KeyOf(all[i].row) == key && id == all[i].row.id) {
      if Own(less, selected, key, id) {
        var j :| 0 <= j < |less| && less[j].row.id == id && id in selected && KeyOf(less[j].row) == key;
        assert more[j] == less[j];
      }
      if Own(more, selected, key, id) {
        var j :| 0 <= j < |more| && more[j].row.id == id && id in selected && KeyOf(more[j].row) == key;
        assert j < i ==> less[j] == more[j];
      }
      assert more[i] == all[i];
    }
    forall s ensures Suite(more, selected, key, s) <==>
      Suite(less, selected, key, s) || (all[i].row.id in selected && KeyOf(all[i].row) == key && s == all[i].suite) {
      if Suite(less, selected, key, s) {
        var j :| 0 <= j < |less| && less[j].suite == s && less[j].row.id in selected && KeyOf(less[j].row) == key;
        assert more[j] == less[j];
      }
      if Suite(more, selected, key, s) {
        var j :| 0 <= j < |more| && more[j].suite == s && more[j].row.id in selected && KeyOf(more[j].row) == key;
        assert j < i ==> less[j] == more[j];
      }
      assert more[i] == all[i];
    }
  }

  method PendingIds(all: seq<SuiteRow>, selected: set<string>) returns (ids: set<string>)
    ensures forall id :: id in ids <==> SelectedPending(all, selected, id)
  {
    hide Pending;
    ids := {};
    for i := 0 to |all|
      invariant forall id ::
        id in ids <==> exists j :: 0 <= j < i && all[j].row.id == id && id in selected && Pending(all[j].row)
    {
      if all[i].row.id in selected && Pending(all[i].row) {
        ids := ids + {all[i].row.id};
      }
    }
  }

  method RowsFor(all: seq<SuiteRow>, selected: set<string>, key: Key, pending: set<string>) returns (rows: seq<Row>)
    requires forall id :: id in pending <==> SelectedPending(all, selected, id)
    ensures rows == KeptRows(all, all, selected, key)
  {
    hide Own, Suite, SelectedPending;
    var own, suites := MembersOf(all, selected, key);
    rows := [];
    for i := 0 to |all|
      invariant rows == KeptRows(all[..i], all, selected, key)
    {
      var r := all[i];
      assert all[..i + 1][..i] == all[..i];
      if r.suite in suites
        && (r.row.id in own || r.row.id in pending || (r.row.twinOf.Some? && r.row.twinOf.value in own)) {
        rows := rows + [r.row];
      }
    }
    assert all[..|all|] == all;
  }

  ghost predicate Selected(all: seq<SuiteRow>, selected: set<string>, key: Key) {
    exists i :: 0 <= i < |all| && Member(all[i], selected, key)
  }

  ghost predicate Countable(rows: seq<Row>) {
    DistinctIds(rows) && FirstError(rows).None?
  }

  /** Each selected key counts the rows kept for it. */
  ghost predicate SelectionOf(groups: map<Key, Group>, all: seq<SuiteRow>, selected: set<string>, keys: set<Key>) {
    && groups.Keys == keys
    && forall k :: k in groups ==> var rows := KeptRows(all, all, selected, k);
      Countable(rows) && groups[k] == GroupOf(rows, rows, k)
  }

  /** `selectionGroups`, accounting by `recordedCounts`. */
  method SelectionGroups(all: seq<SuiteRow>, selected: set<string>) returns (result: Result<map<Key, Group>>)
    ensures result.Done? ==>
      (forall k :: k in result.value <==> Selected(all, selected, k))
      && SelectionOf(result.value, all, selected, result.value.Keys)
    ensures result.Failed? ==> exists k :: Selected(all, selected, k) && !Countable(KeptRows(all, all, selected, k))
  {
    hide *;
    var pending := PendingIds(all, selected);
    var keys := set r | r in all && r.row.id in selected :: KeyOf(r.row);
    SelectedKeys(all, selected);
    var groups: map<Key, Group> := map[];
    ghost var done: set<Key> := {};
    NoSelection(all, selected);
    var left := keys;
    while left != {}
      invariant done + left == keys && SelectionOf(groups, all, selected, done)
      invariant forall k :: k in left ==> Selected(all, selected, k)
      decreases |left|
    {
      var key :| key in left;
      var rows := RowsFor(all, selected, key, pending);
      var counted := RecordedCounts(rows);
      CountableIs(rows);
      if counted.Failed? {
        return Failed(counted.error);
      }
      CountedKey(counted.value, all, selected, key);
      SelectionStep(groups, all, selected, done, key, counted.value);
      left, done := left - {key}, done + {key};
      groups := groups[key := counted.value[key]];
    }
    assert done == keys;
    SelectionKeys(groups, all, selected, keys);
    result := Done(groups);
  }

  lemma NoSelection(all: seq<SuiteRow>, selected: set<string>)
    ensures forall keys: set<Key> :: keys == {} ==> SelectionOf(map[], all, selected, keys)
  {
  }

  lemma CountableIs(rows: seq<Row>)
    ensures Countable(rows) <==> DistinctIds(rows) && FirstError(rows).None?
  {
  }

  lemma SelectionKeys(groups: map<Key, Group>, all: seq<SuiteRow>, selected: set<string>, keys: set<Key>)
    requires SelectionOf(groups, all, selected, keys)
    ensures groups.Keys == keys
  {
  }

  lemma SelectionStep(groups: map<Key, Group>, all: seq<SuiteRow>, selected: set<string>, done: set<Key>, key: Key,
      counted: map<Key, Group>)
    requires SelectionOf(groups, all, selected, done) && key in counted
    requires var rows := KeptRows(all, all, selected, key); Countable(rows) && Grouped(counted, rows, rows)
    ensures SelectionOf(groups[key := counted[key]], all, selected, done + {key})
  {
    hide KeptRows, Countable, GroupOf, HasKey;
  }

  lemma SelectedKeys(all: seq<SuiteRow>, selected: set<string>)
    ensures forall k :: k in (set r | r in all && r.row.id in selected :: KeyOf(r.row)) <==> Selected(all, selected, k)
  {
    hide KeyOf;
    forall k | k in (set r | r in all && r.row.id in selected :: KeyOf(r.row)) ensures Selected(all, selected, k) {
      var r :| r in all && r.row.id in selected && KeyOf(r.row) == k;
      var i :| 0 <= i < |all| && all[i] == r;
      assert Member(all[i], selected, k);
    }
  }

  lemma CountedKey(groups: map<Key, Group>, all: seq<SuiteRow>, selected: set<string>, key: Key)
    requires Selected(all, selected, key)
    requires var rows := KeptRows(all, all, selected, key); Grouped(groups, rows, rows)
    ensures key in groups
  {
    hide KeyOf;
    var i :| 0 <= i < |all| && Member(all[i], selected, key);
    assert Own(all, selected, key, all[i].row.id) && Suite(all, selected, key, all[i].suite);
    assert Kept(all, selected, key, all[i]);
    assert all[..|all|] == all;
    MembersKept(all, all, selected, key, i);
  }

  lemma {:induction false} MembersKept(some: seq<SuiteRow>, all: seq<SuiteRow>, selected: set<string>, key: Key, i: nat)
    requires i < |some| && Kept(all, selected, key, some[i]) && KeyOf(some[i].row) == key
    ensures HasKey(KeptRows(some, all, selected, key), key)
  {
    hide KeyOf, Kept;
    var n := |some| - 1;
    var rest, kept := KeptRows(some[..n], all, selected, key), KeptRows(some, all, selected, key);
    if i == n {
      assert kept[|kept| - 1] == some[n].row;
    } else {
      MembersKept(some[..n], all, selected, key, i);
      var j :| 0 <= j < |rest| && KeyOf(rest[j]) == key;
      assert kept[j] == rest[j];
    }
  }

  lemma PartIsOneFile(row: Row, all: seq<Row>)
    ensures Part(row, all).files == 1
  {
  }

  lemma NotBoth(all: seq<SuiteRow>, selected: set<string>, key: Key, r: SuiteRow)
    ensures !(Member(r, selected, key) && Stray(all, selected, key, r))
  {
  }

  lemma NotStray(all: seq<SuiteRow>, selected: set<string>, key: Key, r: SuiteRow)
    requires KeyOf(r.row) != key
    ensures !Stray(all, selected, key, r) && !Member(r, selected, key)
  {
  }

  /** A selected group counts exactly the selected files, unless an unselected twin of theirs falls into
      the same group. */
  lemma SelectionCountsItsOwn(all: seq<SuiteRow>, selected: set<string>, key: Key)
    requires DistinctSuiteIds(all)
    ensures var rows := KeptRows(all, all, selected, key);
      GroupOf(rows, rows, key).files == Members(all, selected, key) <==>
        forall r :: r in all ==> !Stray(all, selected, key, r)
  {
    hide GroupOf, KeptRows, Members, Stray, KeyOf, DistinctSuiteIds;
    assert all[..|all|] == all;
    FilesKept(all, all, selected, key, KeptRows(all, all, selected, key));
  }

  /** A recorded must-redact row with one span, redacted exactly. */
  function Redacted(id: string, twinOf: Option<string>): Row {
    Row(id, Some(MustRedact), Some(T1), twinOf, [ExpectedSpan(Range(0, 1), false, None)], Some([Exact]), Some(0.0),
      Some(0.0), None, None, false)
  }

  /** Two accepted rows, one the twin of the other: selecting the one alone counts two files. */
  lemma UnselectedTwinCounted(id: string, twin: string, suite: string)
    requires id != twin
    ensures var all := [SuiteRow(Redacted(id, None), suite), SuiteRow(Redacted(twin, Some(id)), suite)];
      var key, rows := GroupKey(MustRedact, T1), KeptRows(all, all, {id}, GroupKey(MustRedact, T1));
      && DistinctSuiteIds(all) && Countable([all[0].row, all[1].row]) && Countable(rows)
      && Stray(all, {id}, key, all[1])
      && Members(all, {id}, key) == 1 && GroupOf(rows, rows, key).files == 2
  {
    hide GroupOf, Redacted, Countable, KeyOf, Pending;
    var one, two := SuiteRow(Redacted(id, None), suite), SuiteRow(Redacted(twin, Some(id)), suite);
    var all, key := [one, two], GroupKey(MustRedact, T1);
    RedactedKeys(id, None);
    RedactedKeys(twin, Some(id));
    assert all[0] == one && Own(all, {id}, key, id) && Suite(all, {id}, key, suite);
    KeptTwo(one, two, {id}, key);
    assert all[..|all| - 1] == [one] && [one][..|[one]| - 1] == [];
    assert Members([one], {id}, key) == 1;
    TwoCountable(one.row, two.row);
    TwoFiles(one.row, two.row, key);
  }

  lemma RedactedKeys(id: string, twinOf: Option<string>)
    ensures KeyOf(Redacted(id, twinOf)) == GroupKey(MustRedact, T1) && RowError(Redacted(id, twinOf)).None?
    ensures Redacted(id, twinOf).id == id && Redacted(id, twinOf).twinOf == twinOf
  {
  }

  lemma TwoCountable(a: Row, b: Row)
    requires a.id != b.id && RowError(a).None? && RowError(b).None?
    ensures Countable([a, b])
  {
    hide RowError;
    assert [a, b][1..] == [b] && [b][1..] == [];
    assert FirstError([b]).None?;
  }

  lemma KeptTwo(one: SuiteRow, two: SuiteRow, selected: set<string>, key: Key)
    requires Kept([one, two], selected, key, one) && Kept([one, two], selected, key, two)
    ensures KeptRows([one, two], [one, two], selected, key) == [one.row, two.row]
  {
    hide Kept;
    var all := [one, two];
    assert all[..|all| - 1] == [one] && [one][..|[one]| - 1] == [];
    assert KeptRows([one], all, selected, key) == [one.row];
  }

  lemma TwoFiles(a: Row, b: Row, key: Key)
    requires KeyOf(a) == key && KeyOf(b) == key
    ensures GroupOf([a, b], [a, b], key).files == 2
  {
    hide KeyOf, Part;
    var all := [a, b];
    assert all[..|all| - 1] == [a] && [a][..|[a]| - 1] == [];
    PartIsOneFile(a, all);
    PartIsOneFile(b, all);
    assert GroupOf([a], all, key) == Plus(Empty(), Part(a, all));
  }

}
