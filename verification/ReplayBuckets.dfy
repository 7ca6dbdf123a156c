/** The buckets differences fall into (scripts/compare-replay-effects.ts). */
module ReplayBuckets {
  import opened Options
  import opened Text
  import opened Numerals
  import opened ReplayDiff

  /** `norm`: a path segment of digits becomes `*`. */
  function Norm(t: Text): Text
    decreases |t|
  {
    if t == [] then []
    else
      var n := DigitRun(t[1..]);
      if t[0] == SLASH && n > 0 && (|t| == n + 1 || t[n + 1] == SLASH) then [SLASH] + STAR + Norm(t[n + 1..])
      else [t[0]] + Norm(t[1..])
  }

  function GroupOf(d: Difference): Text {
    Norm(NormOf(d))
  }

  // ---------------------------------------------------------------------------------------------
  // The patterns.

  /** `IDENTITY`, but for the review queue: whole paths. */
  const MANIFEST_IDENTITY: seq<string> := [
    "/manifest/engine/version",
    "/manifest/config_hash",
    "/manifest/scanners/*/version",
    "/manifest/scanners/*/configuration_hash",
    "/manifest/scanners/*/provenance/components/*/version",
    "/manifest/scanners/*/provenance/components/*/sha256",
    "/manifest/scanners/*/provenance/components/*/integrity",
    "/manifest/scanners/*/mode",
    "/manifest/run_class",
    "/manifest/publication",
    "/manifest/scanners/*/build"]

  const REVIEW_IDENTITY: seq<string> := [
    "/review_queue/*/id",
    "/review_queue/*/reference/version",
    "/review_queue/*/reference/configurationHash",
    "/review_queue/*/reference/configuration_hash"]

  /** `OUTCOME`: whole paths, then paths with all that is under them, then beginnings of paths. */
  const OUTCOME_PATHS: seq<string> := ["/scanners/*/status"]

  const OUTCOME_TREES: seq<string> := [
    "/scanners/*/cases/*/actual",
    "/scanners/*/cases/*/measurement",
    "/scanners/*/unmeasured_cases",
    "/scanners/*/findings"]

  const OUTCOME_BEGINNINGS: seq<string> := [
    "/scanners/*/aggregates/",
    "/scanners/*/assertions/*/",
    "/review_queue/*(added)",
    "/review_queue/*(removed)",
    "/review_queue/*/",
    "/variants/",
    "/comparisons/"]

  predicate Begins(n: Text, prefix: Text) {
    |prefix| <= |n| && n[..|prefix|] == prefix
  }

  predicate OneOf(n: Text, paths: seq<string>) {
    exists i :: 0 <= i < |paths| && n == Ascii(paths[i])
  }

  predicate BeginsLike(n: Text, prefixes: seq<string>) {
    exists i :: 0 <= i < |prefixes| && Begins(n, Ascii(prefixes[i]))
  }

  predicate InTree(n: Text, roots: seq<string>) {
    exists i :: 0 <= i < |roots| && (n == Ascii(roots[i]) || Begins(n, Ascii(roots[i]) + [SLASH]))
  }

  predicate IsIdentity(n: Text) {
    OneOf(n, MANIFEST_IDENTITY) || OneOf(n, REVIEW_IDENTITY)
  }

  predicate IsOutcome(n: Text) {
    OneOf(n, OUTCOME_PATHS) || InTree(n, OUTCOME_TREES) || BeginsLike(n, OUTCOME_BEGINNINGS)
  }

  /** The second unit of every pattern tells the lists apart, but for the review queue. */
  lemma SecondUnits()
    ensures forall i :: 0 <= i < |MANIFEST_IDENTITY| ==> |MANIFEST_IDENTITY[i]| > 1 && MANIFEST_IDENTITY[i][1] == 'm'
    ensures forall i :: 0 <= i < |REVIEW_IDENTITY| ==> REVIEW_IDENTITY[i][..16] == "/review_queue/*/"
    ensures forall i :: 0 <= i < |OUTCOME_PATHS| ==> |OUTCOME_PATHS[i]| > 1 && OUTCOME_PATHS[i][1] == 's'
    ensures forall i :: 0 <= i < |OUTCOME_TREES| ==> |OUTCOME_TREES[i]| > 1 && OUTCOME_TREES[i][1] == 's'
    ensures forall i ::
      0 <= i < |OUTCOME_BEGINNINGS| ==> |OUTCOME_BEGINNINGS[i]| > 1 && OUTCOME_BEGINNINGS[i][1] in {'s', 'r', 'v', 'c'}
    ensures OUTCOME_BEGINNINGS[4] == "/review_queue/*/"
  {
  }

  lemma SecondUnit(s: string, n: Text)
    requires |s| > 1 && s[1] as int < 0x80 && (n == Ascii(s) || Begins(n, Ascii(s)) || Begins(n, Ascii(s) + [SLASH]))
    ensures |n| > 1 && n[1] == s[1] as int
  {
    var p := Ascii(s);
    assert p[1] == s[1] as int && (p + [SLASH])[1] == p[1];
    assert Begins(n, p) ==> n[..|p|][1] == n[1];
    assert Begins(n, p + [SLASH]) ==> n[..|p| + 1][1] == n[1];
  }

  lemma IdentityUnit(n: Text)
    requires OneOf(n, MANIFEST_IDENTITY)
    ensures |n| > 1 && n[1] == 'm' as int
  {
    SecondUnits();
    hide Begins, Ascii;
    var i :| 0 <= i < |MANIFEST_IDENTITY| && n == Ascii(MANIFEST_IDENTITY[i]);
    SecondUnit(MANIFEST_IDENTITY[i], n);
  }

  lemma OutcomeUnit(n: Text)
    requires IsOutcome(n)
    ensures |n| > 1 && n[1] != 'm' as int
  {
    SecondUnits();
    hide Begins, Ascii;
    if OneOf(n, OUTCOME_PATHS) {
      var i :| 0 <= i < |OUTCOME_PATHS| && n == Ascii(OUTCOME_PATHS[i]);
      SecondUnit(OUTCOME_PATHS[i], n);
    } else if InTree(n, OUTCOME_TREES) {
      var i :| 0 <= i < |OUTCOME_TREES|
        && (n == Ascii(OUTCOME_TREES[i]) || Begins(n, Ascii(OUTCOME_TREES[i]) + [SLASH]));
      SecondUnit(OUTCOME_TREES[i], n);
    } else {
      var i :| 0 <= i < |OUTCOME_BEGINNINGS| && Begins(n, Ascii(OUTCOME_BEGINNINGS[i]));
      SecondUnit(OUTCOME_BEGINNINGS[i], n);
    }
  }

  lemma AsciiPrefix(s: string, k: nat)
    requires k <= |s|
    ensures Ascii(s)[..k] == Ascii(s[..k])
  {
  }

  lemma ReviewIsOutcome(n: Text)
    requires OneOf(n, REVIEW_IDENTITY)
    ensures IsOutcome(n)
  {
    SecondUnits();
    hide Ascii, InTree;
    var i :| 0 <= i < |REVIEW_IDENTITY| && n == Ascii(REVIEW_IDENTITY[i]);
    AsciiPrefix(REVIEW_IDENTITY[i], 16);
    assert Begins(n, Ascii(OUTCOME_BEGINNINGS[4]));
  }

  /** The two lists overlap, exactly on the identity paths of the review queue; there the order in which
      they are tried decides. */
  lemma PatternsOverlap(n: Text)
    ensures IsIdentity(n) && IsOutcome(n) <==> OneOf(n, REVIEW_IDENTITY)
    ensures OneOf(n, REVIEW_IDENTITY) ==> BucketOf(n) == Identity
  {
    hide OneOf, IsOutcome;
    if OneOf(n, MANIFEST_IDENTITY) && IsOutcome(n) {
      OutcomeUnit(n);
      IdentityUnit(n);
    }
    if OneOf(n, REVIEW_IDENTITY) {
      ReviewIsOutcome(n);
    }
  }

  // ---------------------------------------------------------------------------------------------
  // The counts.

  datatype Bucket = Identity | Outcome | Other

  /** The identity patterns are tried first. */
  function BucketOf(n: Text): Bucket {
    if IsIdentity(n) then Identity else if IsOutcome(n) then Outcome else Other
  }

  /** How many differences have the normalized path. */
  function Reported(out: seq<Difference>, n: Text): nat {
    if out == [] then 0 else Reported(out[..|out| - 1], n) + if GroupOf(out[|out| - 1]) == n then 1 else 0
  }

  function CountIn(m: map<Text, nat>, n: Text): nat {
    if n in m then m[n] else 0
  }

  datatype Buckets = Buckets(identity: map<Text, nat>, outcome: map<Text, nat>, other: map<Text, nat>,
    cases: map<Text, set<Text>>)

  /** The map a bucket must be. */
  ghost predicate Counts(m: map<Text, nat>, out: seq<Difference>, bucket: Bucket) {
    && (forall n :: CountIn(m, n) == if BucketOf(n) == bucket then Reported(out, n) else 0)
    && (forall n :: n in m ==> m[n] > 0)
  }

  /** A path is counted in its own bucket and in no other. */
  ghost predicate Sorted(b: Buckets, out: seq<Difference>) {
    && Counts(b.identity, out, Identity)
    && Counts(b.outcome, out, Outcome)
    && Counts(b.other, out, Other)
  }

  /** A case that a path of the outcome bucket touches. */
  ghost predicate Touches(out: seq<Difference>, n: Text, c: Text) {
    && BucketOf(n) == Outcome
    && c != []
    && exists i :: 0 <= i < |out| && GroupOf(out[i]) == n && out[i].caseId == Some(c)
  }

  ghost predicate CasesListed(cases: map<Text, set<Text>>, out: seq<Difference>) {
    forall n, c :: (n in cases && c in cases[n]) <==> Touches(out, n, c)
  }

  lemma CountsStep(m: map<Text, nat>, rest: seq<Difference>, d: Difference, bucket: Bucket)
    requires Counts(m, rest, bucket)
    ensures var n := GroupOf(d);
      Counts(if BucketOf(n) == bucket then m[n := CountIn(m, n) + 1] else m, rest + [d], bucket)
  {
    hide GroupOf, BucketOf;
    assert (rest + [d])[..|rest|] == rest;
  }

  lemma CasesStep(cases: map<Text, set<Text>>, rest: seq<Difference>, d: Difference)
    requires CasesListed(cases, rest)
    ensures var n := GroupOf(d);
      CasesListed(if BucketOf(n) == Outcome && d.caseId.Some? && d.caseId.value != []
                  then cases[n := (if n in cases then cases[n] else {}) + {d.caseId.value}] else cases,
                  rest + [d])
  {
    hide GroupOf, BucketOf;
    var more := rest + [d];
    forall n, c ensures Touches(more, n, c) <==>
      Touches(rest, n, c)
        || (BucketOf(n) == Outcome && c != [] && GroupOf(d) == n && d.caseId == Some(c))
    {
      if Touches(rest, n, c) {
        var i :| 0 <= i < |rest| && GroupOf(rest[i]) == n && rest[i].caseId == Some(c);
        assert more[i] == rest[i];
      }
      if Touches(more, n, c) {
        var i :| 0 <= i < |more| && GroupOf(more[i]) == n && more[i].caseId == Some(c);
        assert i < |rest| ==> rest[i] == more[i];
      }
      assert more[|rest|] == d;
    }
  }

  method SortIntoBuckets(out: seq<Difference>) returns (b: Buckets)
    ensures Sorted(b, out) && CasesListed(b.cases, out)
  {
    hide GroupOf, Counts, CasesListed;
    b := Buckets(map[], map[], map[], map[]);
    NothingSorted(out);
    for i := 0 to |out|
      invariant Sorted(b, out[..i]) && CasesListed(b.cases, out[..i])
    {
      var d := out[i];
      var n := GroupOf(d);
      var bucket := BucketOf(n);
      assert out[..i + 1] == out[..i] + [d];
      CountsStep(b.identity, out[..i], d, Identity);
      CountsStep(b.outcome, out[..i], d, Outcome);
      CountsStep(b.other, out[..i], d, Other);
      CasesStep(b.cases, out[..i], d);
      match bucket {
        case Identity => b := b.(identity := b.identity[n := CountIn(b.identity, n) + 1]);
        case Outcome => b := b.(outcome := b.outcome[n := CountIn(b.outcome, n) + 1]);
        case Other => b := b.(other := b.other[n := CountIn(b.other, n) + 1]);
      }
      if bucket == Outcome && d.caseId.Some? && d.caseId.value != [] {
        b := b.(cases := b.cases[n := (if n in b.cases then b.cases[n] else {}) + {d.caseId.value}]);
      }
    }
    assert out[..|out|] == out;
  }

  lemma NothingSorted(out: seq<Difference>)
    ensures Sorted(Buckets(map[], map[], map[], map[]), out[..0])
    ensures CasesListed(map[], out[..0])
  {
  }

  // ---------------------------------------------------------------------------------------------
  // Every difference is counted once.

  ghost function Total(m: map<Text, nat>): nat {
    if m == map[] then 0
    else
      var k :| k in m;
      m[k] + Total(m - {k})
  }

  lemma {:induction false} TotalWithout(m: map<Text, nat>, k: Text)
    requires k in m
    ensures Total(m) == m[k] + Total(m - {k})
    decreases |m|
  {
    var l :| l in m && Total(m) == m[l] + Total(m - {l});
    if l != k {
      TotalWithout(m - {l}, k);
      TotalWithout(m - {k}, l);
      assert m - {l} - {k} == m - {k} - {l};
    }
  }

  /** The counts of a bucket add up to the differences that fall into it. */
  function Fallen(out: seq<Difference>, bucket: Bucket): nat {
    if out == [] then 0
    else
      var falls := BucketOf(GroupOf(out[|out| - 1])) == bucket;
      Fallen(out[..|out| - 1], bucket) + if falls then 1 else 0
  }

  lemma {:induction false} BucketTotal(m: map<Text, nat>, out: seq<Difference>, bucket: Bucket)
    requires Counts(m, out, bucket)
    ensures Total(m) == Fallen(out, bucket)
    decreases |out|
  {
    hide GroupOf, BucketOf;
    if out == [] {
      assert m == map[] by {
        assert forall n :: n in m ==> CountIn(m, n) == 0;
      }
    } else {
      var rest, n := out[..|out| - 1], GroupOf(out[|out| - 1]);
      if BucketOf(n) == bucket {
        assert CountIn(m, n) == Reported(rest, n) + 1;
        var less := if m[n] == 1 then m - {n} else m[n := m[n] - 1];
        assert Counts(less, rest, bucket);
        BucketTotal(less, rest, bucket);
        TotalWithout(m, n);
        if m[n] != 1 {
          TotalWithout(less, n);
          assert less - {n} == m - {n};
        }
      } else {
        assert Counts(m, rest, bucket);
        BucketTotal(m, rest, bucket);
      }
    }
  }

  lemma {:induction false} EachFallsOnce(out: seq<Difference>)
    ensures Fallen(out, Identity) + Fallen(out, Outcome) + Fallen(out, Other) == |out|
  {
    hide GroupOf;
    if out != [] {
      EachFallsOnce(out[..|out| - 1]);
    }
  }

  /** The three buckets together count every difference once. */
  lemma NothingUncounted(b: Buckets, out: seq<Difference>)
    requires Sorted(b, out)
    ensures Total(b.identity) + Total(b.outcome) + Total(b.other) == |out|
  {
    hide Counts, GroupOf, Fallen, Total;
    BucketTotal(b.identity, out, Identity);
    BucketTotal(b.outcome, out, Outcome);
    BucketTotal(b.other, out, Other);
    EachFallsOnce(out);
  }
}
