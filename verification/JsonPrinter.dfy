/** `canonicalJson` (benchmarks/lib/adversarial-intake.ts): JSON text with object keys sorted at every
    depth. */
module JsonPrinter {
  import opened Text
  import opened Numerals
  import Utf8
  import Sorting

  /** A number is its text: `Number::toString` gives different finite numbers different texts. */
  datatype Json =
    | Null
    | Bool(truth: bool)
    | Num(token: Text)
    | Str(text: Text)
    | Arr(items: seq<Json>)
    | Obj(entries: seq<Entry>)

  datatype Entry = Entry(key: Text, value: Json)

  predicate NumberUnit(u: CodeUnit) {
    IsDigit(u) || u == 0x2B || u == 0x2D || u == 0x2E || u == 0x65 || u == 0x45
  }

  /** A number of section 6 of RFC 8259. */
  predicate NumberToken(t: Text) {
    && t != []
    && (forall i :: 0 <= i < |t| ==> NumberUnit(t[i]))
    && IsUnsigned(if t[0] == 0x2D then t[1..] else t)
  }

  predicate IsUnsigned(t: Text) {
    DigitRun(t) > 0 && (t[0] == 0x30 ==> DigitRun(t) == 1) && IsFraction(t[DigitRun(t)..])
  }

  predicate IsFraction(t: Text) {
    if t != [] && t[0] == 0x2E then DigitRun(t[1..]) > 0 && IsExponent(t[1 + DigitRun(t[1..])..])
    else IsExponent(t)
  }

  predicate IsExponent(t: Text) {
    t == [] || ((t[0] == 0x65 || t[0] == 0x45)
      && var digits := if |t| > 1 && (t[1] == 0x2B || t[1] == 0x2D) then t[2..] else t[1..];
         digits != [] && DigitRun(digits) == |digits|)
  }

  ghost predicate DistinctKeys(entries: seq<Entry>) {
    forall i, j :: 0 <= i < j < |entries| ==> entries[i].key != entries[j].key
  }

  /** What a JavaScript value can be: numbers print as numbers, and no key occurs twice. */
  ghost predicate Valid(j: Json) {
    match j
    case Num(token) => NumberToken(token)
    case Arr(items) => forall i :: 0 <= i < |items| ==> Valid(items[i])
    case Obj(entries) => DistinctKeys(entries) && forall i :: 0 <= i < |entries| ==> Valid(entries[i].value)
    case _ => true
  }

  /** Equal up to the order of object keys. */
  ghost predicate Same(a: Json, b: Json)
    decreases a
  {
    match (a, b)
    case (Arr(xs), Arr(ys)) => |xs| == |ys| && forall i :: 0 <= i < |xs| ==> Same(xs[i], ys[i])
    case (Obj(es), Obj(fs)) =>
      && (forall e :: e in es ==> exists f :: f in fs && e.key == f.key && Same(e.value, f.value))
      && (forall f :: f in fs ==> exists e :: e in es && e.key == f.key && Same(e.value, f.value))
    case _ => a == b
  }

  // ---------------------------------------------------------------------------------------------
  // The printer.

  const QUOTE: CodeUnit := 0x22
  const COMMA: CodeUnit := 0x2C
  const COLON: CodeUnit := 0x3A
  const LEFT_BRACKET: CodeUnit := 0x5B
  const BACKSLASH: CodeUnit := 0x5C
  const RIGHT_BRACKET: CodeUnit := 0x5D
  const LOWER_U: CodeUnit := 0x75
  const LEFT_BRACE: CodeUnit := 0x7B
  const RIGHT_BRACE: CodeUnit := 0x7D
  const NULL: Text := [0x6E, 0x75, 0x6C, 0x6C]
  const TRUE: Text := [0x74, 0x72, 0x75, 0x65]
  const FALSE: Text := [0x66, 0x61, 0x6C, 0x73, 0x65]

  function Hex(d: nat): CodeUnit
    requires d < 16
  {
    if d < 10 then 0x30 + d else 0x57 + d
  }

  function UnicodeEscape(u: CodeUnit): Text {
    [BACKSLASH, LOWER_U, Hex(u / 0x1000), Hex(u / 0x100 % 16), Hex(u / 0x10 % 16), Hex(u % 16)]
  }

  /** The letter after the backslash of a two-character escape. */
  function Letter(u: CodeUnit): (letter: CodeUnit)
  {
    match u
    case 0x08 => 0x62
    case 0x09 => 0x74
    case 0x0A => 0x6E
    case 0x0C => 0x66
    case 0x0D => 0x72
    case 0x22 => 0x22
    case 0x5C => 0x5C
    case _ => 0
  }

  /** How `JSON.stringify` writes the first code point of `s`. */
  function Escape(s: Text): Text
    requires s != []
  {
    if Utf8.StartsWithPair(s) then s[..2]
    else if Letter(s[0]) != 0 then [BACKSLASH, Letter(s[0])]
    else if s[0] < 0x20 || Utf8.High(s[0]) || Utf8.Low(s[0]) then UnicodeEscape(s[0])
    else [s[0]]
  }

  function EscapeAll(s: Text): Text
    decreases |s|
  {
    if s == [] then [] else Escape(s) + EscapeAll(s[Utf8.Units(s)..])
  }

  function Quote(s: Text): Text {
    [QUOTE] + EscapeAll(s) + [QUOTE]
  }

  function Join(texts: seq<Text>): Text {
    if texts == [] then []
    else if |texts| == 1 then texts[0]
    else texts[0] + [COMMA] + Join(texts[1..])
  }

  datatype Member = Member(key: Text, text: Text)

  predicate ByKey(a: Member, b: Member) {
    AtMost(a.key, b.key)
  }

  function CanonicalJson(j: Json): Text {
    match j
    case Null => NULL
    case Bool(truth) => if truth then TRUE else FALSE
    case Num(token) => token
    case Str(text) => Quote(text)
    case Arr(items) => [LEFT_BRACKET] + Join(CanonicalItems(items)) + [RIGHT_BRACKET]
    case Obj(entries) =>
      [LEFT_BRACE] + Join(MemberTexts(Sorting.Sort(CanonicalMembers(entries), ByKey))) + [RIGHT_BRACE]
  }

  function CanonicalItems(items: seq<Json>): seq<Text> {
    if items == [] then [] else [CanonicalJson(items[0])] + CanonicalItems(items[1..])
  }

  function CanonicalMembers(entries: seq<Entry>): seq<Member> {
    if entries == [] then []
    else [Member(entries[0].key, CanonicalJson(entries[0].value))] + CanonicalMembers(entries[1..])
  }

  function MemberTexts(members: seq<Member>): seq<Text> {
    if members == [] then []
    else [Quote(members[0].key) + [COLON] + members[0].text] + MemberTexts(members[1..])
  }

  // ---------------------------------------------------------------------------------------------
  // Sorting the tree, then printing it as it stands.

  predicate EntryByKey(a: Entry, b: Entry) {
    AtMost(a.key, b.key)
  }

  function Canon(j: Json): Json {
    match j
    case Arr(items) => Arr(CanonItems(items))
    case Obj(entries) => Obj(Sorting.Sort(CanonEntries(entries), EntryByKey))
    case _ => j
  }

  function CanonItems(items: seq<Json>): (r: seq<Json>)
    ensures |r| == |items| && forall i :: 0 <= i < |r| ==> r[i] == Canon(items[i])
  {
    if items == [] then [] else [Canon(items[0])] + CanonItems(items[1..])
  }

  function CanonEntries(entries: seq<Entry>): (r: seq<Entry>)
    ensures |r| == |entries| && forall i :: 0 <= i < |r| ==> r[i] == Entry(entries[i].key, Canon(entries[i].value))
  {
    if entries == [] then [] else [Entry(entries[0].key, Canon(entries[0].value))] + CanonEntries(entries[1..])
  }

  /** `JSON.stringify`, followed by `rest`. */
  function Put(j: Json, rest: Text): Text
    decreases j, 0
  {
    match j
    case Null => NULL + rest
    case Bool(truth) => (if truth then TRUE else FALSE) + rest
    case Num(token) => token + rest
    case Str(text) => PutString(text, rest)
    case Arr(items) => [LEFT_BRACKET] + PutItems(items, [RIGHT_BRACKET] + rest)
    case Obj(entries) => [LEFT_BRACE] + PutEntries(entries, [RIGHT_BRACE] + rest)
  }

  function PutString(s: Text, rest: Text): Text {
    [QUOTE] + PutUnits(s, [QUOTE] + rest)
  }

  function PutUnits(s: Text, rest: Text): Text
    decreases |s|
  {
    if s == [] then rest else Escape(s) + PutUnits(s[Utf8.Units(s)..], rest)
  }

  function PutItems(items: seq<Json>, rest: Text): Text
    decreases items, 0
  {
    if items == [] then rest
    else if |items| == 1 then Put(items[0], rest)
    else Put(items[0], [COMMA] + PutItems(items[1..], rest))
  }

  function PutEntry(e: Entry, rest: Text): Text
    decreases e, 1
  {
    PutString(e.key, [COLON] + Put(e.value, rest))
  }

  function PutEntries(entries: seq<Entry>, rest: Text): Text
    decreases entries, 0
  {
    if entries == [] then rest
    else if |entries| == 1 then PutEntry(entries[0], rest)
    else PutEntry(entries[0], [COMMA] + PutEntries(entries[1..], rest))
  }

  lemma {:induction false} PutUnitsAppends(s: Text, rest: Text)
    ensures PutUnits(s, rest) == EscapeAll(s) + rest
    decreases |s|
  {
    if s != [] {
      PutUnitsAppends(s[Utf8.Units(s)..], rest);
    }
  }

  lemma PutStringAppends(s: Text, rest: Text)
    ensures PutString(s, rest) == Quote(s) + rest
  {
    PutUnitsAppends(s, [QUOTE] + rest);
  }

  function ToMember(e: Entry): Member {
    Member(e.key, Put(e.value, []))
  }

  lemma {:induction false} PutAppends(j: Json, rest: Text)
    ensures Put(j, rest) == Put(j, []) + rest
    decreases j, 0
  {
    match j
    case Str(text) =>
      PutStringAppends(text, rest);
      PutStringAppends(text, []);
    case Arr(items) =>
      PutItemsAppends(items, [RIGHT_BRACKET] + rest);
      PutItemsAppends(items, [RIGHT_BRACKET]);
      assert [RIGHT_BRACKET] + [] == [RIGHT_BRACKET];
    case Obj(entries) =>
      PutEntriesAppends(entries, [RIGHT_BRACE] + rest);
      PutEntriesAppends(entries, [RIGHT_BRACE]);
      assert [RIGHT_BRACE] + [] == [RIGHT_BRACE];
    case _ =>
  }

  function ItemTexts(items: seq<Json>): seq<Text> {
    if items == [] then [] else [Put(items[0], [])] + ItemTexts(items[1..])
  }

  lemma {:induction false} PutItemsAppends(items: seq<Json>, rest: Text)
    ensures PutItems(items, rest) == Join(ItemTexts(items)) + rest
    decreases items, 1
  {
    if items != [] {
      assert ItemTexts(items)[1..] == ItemTexts(items[1..]);
      assert |ItemTexts(items[1..])| == 0 <==> items[1..] == [];
      if |items| == 1 {
        PutAppends(items[0], rest);
      } else {
        PutAppends(items[0], [COMMA] + PutItems(items[1..], rest));
        PutItemsAppends(items[1..], rest);
      }
    }
  }

  lemma PutEntryAppends(e: Entry, rest: Text)
    ensures PutEntry(e, rest) == Quote(e.key) + [COLON] + Put(e.value, []) + rest
    decreases e, 2
  {
    PutStringAppends(e.key, [COLON] + Put(e.value, rest));
    PutAppends(e.value, rest);
  }

  lemma {:induction false} PutEntriesAppends(entries: seq<Entry>, rest: Text)
    ensures PutEntries(entries, rest) == Join(MemberTexts(Sorting.Map(ToMember, entries))) + rest
    decreases entries, 1
  {
    if entries != [] {
      var members := Sorting.Map(ToMember, entries);
      assert members[1..] == Sorting.Map(ToMember, entries[1..]);
      assert MemberTexts(members)[1..] == MemberTexts(members[1..]);
      assert |MemberTexts(members[1..])| == 0 <==> entries[1..] == [];
      if |entries| == 1 {
        PutEntryAppends(entries[0], rest);
      } else {
        PutEntryAppends(entries[0], [COMMA] + PutEntries(entries[1..], rest));
        PutEntriesAppends(entries[1..], rest);
      }
    }
  }

  /** The source's printer writes the sorted tree. */
  lemma {:induction false} PrintsSorted(j: Json)
    ensures CanonicalJson(j) == Put(Canon(j), [])
    decreases j
  {
    match j
    case Str(text) => PutStringAppends(text, []);
    case Arr(items) =>
      ItemsPrintSorted(items);
      PutItemsAppends(CanonItems(items), [RIGHT_BRACKET]);
      assert [RIGHT_BRACKET] + [] == [RIGHT_BRACKET];
    case Obj(entries) =>
      MembersPrintSorted(entries);
      Sorting.SortMap(ToMember, CanonEntries(entries), EntryByKey, ByKey);
      PutEntriesAppends(Sorting.Sort(CanonEntries(entries), EntryByKey), [RIGHT_BRACE]);
      assert [RIGHT_BRACE] + [] == [RIGHT_BRACE];
    case _ =>
  }

  lemma {:induction false} ItemsPrintSorted(items: seq<Json>)
    ensures CanonicalItems(items) == ItemTexts(CanonItems(items))
    decreases items
  {
    if items != [] {
      PrintsSorted(items[0]);
      ItemsPrintSorted(items[1..]);
      assert CanonItems(items)[1..] == CanonItems(items[1..]);
    }
  }

  lemma {:induction false} MembersPrintSorted(entries: seq<Entry>)
    ensures CanonicalMembers(entries) == Sorting.Map(ToMember, CanonEntries(entries))
    decreases entries
  {
    if entries != [] {
      PrintsSorted(entries[0].value);
      MembersPrintSorted(entries[1..]);
      assert CanonEntries(entries)[1..] == CanonEntries(entries[1..]);
    }
  }
}
