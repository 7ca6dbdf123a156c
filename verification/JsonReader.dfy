/** A reader of compact JSON (RFC 8259) that inverts the printer, and what follows from it. */
module JsonReader {
  import opened Text
  import opened JsonPrinter
  import Utf8
  import Sorting

  datatype Parsed<+T> = Failed | Read(value: T, rest: Text)

  predicate Hexadecimal(u: CodeUnit) {
    0x30 <= u <= 0x39 || 0x61 <= u <= 0x66 || 0x41 <= u <= 0x46
  }

  function HexValue(u: CodeUnit): (d: nat)
    requires Hexadecimal(u)
    ensures d < 16
  {
    if u <= 0x39 then u - 0x30 else if u <= 0x46 then u - 0x37 else u - 0x57
  }

  /** The unit a two-character escape stands for (section 7 of RFC 8259). */
  function Meaning(letter: CodeUnit): int {
    match letter
    case 0x62 => 0x08
    case 0x74 => 0x09
    case 0x6E => 0x0A
    case 0x66 => 0x0C
    case 0x72 => 0x0D
    case 0x22 => 0x22
    case 0x2F => 0x2F
    case 0x5C => 0x5C
    case _ => -1
  }

  /** One code unit of a string's content. */
  function ReadUnit(t: Text): (r: Parsed<CodeUnit>)
    ensures r.Read? ==> |r.rest| < |t|
  {
    if t == [] || t[0] == QUOTE || t[0] < 0x20 then Failed
    else if t[0] != BACKSLASH then Read(t[0], t[1..])
    else if |t| < 2 then Failed
    else if t[1] != LOWER_U then if Meaning(t[1]) < 0 then Failed else Read(Meaning(t[1]), t[2..])
    else if |t| < 6 || !(Hexadecimal(t[2]) && Hexadecimal(t[3]) && Hexadecimal(t[4]) && Hexadecimal(t[5])) then Failed
    else Read(0x1000 * HexValue(t[2]) + 0x100 * HexValue(t[3]) + 0x10 * HexValue(t[4]) + HexValue(t[5]), t[6..])
  }

  /** A string after its opening quote. */
  function ReadUnits(t: Text): (r: Parsed<Text>)
    ensures r.Read? ==> |r.rest| < |t|
    decreases |t|
  {
    if t != [] && t[0] == QUOTE then Read([], t[1..])
    else
      match ReadUnit(t)
      case Failed => Failed
      case Read(u, rest) =>
        match ReadUnits(rest)
        case Failed => Failed
        case Read(s, after) => Read([u] + s, after)
  }

  function NumberRun(t: Text): (n: nat)
    ensures n <= |t|
  {
    if t == [] || !NumberUnit(t[0]) then 0 else 1 + NumberRun(t[1..])
  }

  predicate StartsWith(t: Text, prefix: Text) {
    |prefix| <= |t| && t[..|prefix|] == prefix
  }

  function ReadValue(t: Text): (r: Parsed<Json>)
    ensures r.Read? ==> |r.rest| < |t|
    decreases |t|, 1
  {
    if t == [] then Failed
    else if t[0] == QUOTE then
      match ReadUnits(t[1..])
      case Failed => Failed
      case Read(s, rest) => Read(Str(s), rest)
    else if t[0] == LEFT_BRACKET then
      if |t| > 1 && t[1] == RIGHT_BRACKET then Read(Arr([]), t[2..])
      else
        match ReadItems(t[1..])
        case Failed => Failed
        case Read(items, rest) => Read(Arr(items), rest)
    else if t[0] == LEFT_BRACE then
      if |t| > 1 && t[1] == RIGHT_BRACE then Read(Obj([]), t[2..])
      else
        match ReadEntries(t[1..])
        case Failed => Failed
        case Read(entries, rest) => Read(Obj(entries), rest)
    else if StartsWith(t, NULL) then Read(Null, t[|NULL|..])
    else if StartsWith(t, TRUE) then Read(Bool(true), t[|TRUE|..])
    else if StartsWith(t, FALSE) then Read(Bool(false), t[|FALSE|..])
    else if NumberToken(t[..NumberRun(t)]) then Read(Num(t[..NumberRun(t)]), t[NumberRun(t)..])
    else Failed
  }

  /** The items of a non-empty array, and its closing bracket. */
  function ReadItems(t: Text): (r: Parsed<seq<Json>>)
    ensures r.Read? ==> |r.rest| < |t|
    decreases |t|, 2
  {
    match ReadValue(t)
    case Failed => Failed
    case Read(item, rest) =>
      if rest != [] && rest[0] == RIGHT_BRACKET then Read([item], rest[1..])
      else if rest != [] && rest[0] == COMMA then
        match ReadItems(rest[1..])
        case Failed => Failed
        case Read(items, after) => Read([item] + items, after)
      else Failed
  }

  function ReadEntry(t: Text): (r: Parsed<Entry>)
    ensures r.Read? ==> |r.rest| < |t|
    decreases |t|, 2
  {
    if t == [] || t[0] != QUOTE then Failed
    else
      match ReadUnits(t[1..])
      case Failed => Failed
      case Read(key, rest) =>
        if rest == [] || rest[0] != COLON then Failed
        else
          match ReadValue(rest[1..])
          case Failed => Failed
          case Read(value, after) => Read(Entry(key, value), after)
  }

  function ReadEntries(t: Text): (r: Parsed<seq<Entry>>)
    ensures r.Read? ==> |r.rest| < |t|
    decreases |t|, 3
  {
    match ReadEntry(t)
    case Failed => Failed
    case Read(e, rest) =>
      if rest != [] && rest[0] == RIGHT_BRACE then Read([e], rest[1..])
      else if rest != [] && rest[0] == COMMA then
        match ReadEntries(rest[1..])
        case Failed => Failed
        case Read(entries, after) => Read([e] + entries, after)
      else Failed
  }

  // ---------------------------------------------------------------------------------------------
  // Reading back what was printed.

  lemma HexBack(d: nat)
    requires d < 16
    ensures Hexadecimal(Hex(d)) && HexValue(Hex(d)) == d
  {
  }

  lemma FourDigits(u: CodeUnit)
    ensures u == 0x1000 * (u / 0x1000) + 0x100 * (u / 0x100 % 16) + 0x10 * (u / 0x10 % 16) + u % 16
  {
    assert u == 16 * (u / 16) + u % 16;
    assert u / 0x100 == u / 16 / 16 && u / 0x1000 == u / 16 / 16 / 16;
    assert u / 16 == 16 * (u / 16 / 16) + u / 16 % 16;
    assert u / 16 / 16 == 16 * (u / 16 / 16 / 16) + u / 16 / 16 % 16;
  }

  lemma EscapedUnit(u: CodeUnit, rest: Text)
    ensures ReadUnit(UnicodeEscape(u) + rest) == Read(u, rest)
  {
    hide Hex, HexValue, Hexadecimal;
    HexBack(u / 0x1000);
    HexBack(u / 0x100 % 16);
    HexBack(u / 0x10 % 16);
    HexBack(u % 16);
    var t := UnicodeEscape(u) + rest;
    assert t[..6] == UnicodeEscape(u) && t[6..] == rest;
    FourDigits(u);
  }

  lemma FirstUnits(s: Text, rest: Text)
    requires s != []
    ensures var t := Escape(s) + rest;
      && t[0] != QUOTE
      && if Utf8.Units(s) == 1 then ReadUnit(t) == Read(s[0], rest)
         else s[1] != QUOTE && ReadUnit(t) == Read(s[0], [s[1]] + rest) && ReadUnit([s[1]] + rest) == Read(s[1], rest)
  {
    hide UnicodeEscape;
    var t := Escape(s) + rest;
    if Utf8.StartsWithPair(s) {
      assert t[1..] == [s[1]] + rest;
      assert ([s[1]] + rest)[1..] == rest;
    } else if Letter(s[0]) != 0 {
      assert t[2..] == rest;
    } else if s[0] < 0x20 || Utf8.High(s[0]) || Utf8.Low(s[0]) {
      EscapedUnit(s[0], rest);
      EscapeOpens(s[0]);
    } else {
      assert t[1..] == rest;
    }
  }

  lemma EscapeOpens(u: CodeUnit)
    ensures |UnicodeEscape(u)| == 6 && UnicodeEscape(u)[0] == BACKSLASH
  {
  }

  lemma UnitThen(t: Text, u: CodeUnit, rest: Text)
    requires t != [] && t[0] != QUOTE && ReadUnit(t) == Read(u, rest) && ReadUnits(rest).Read?
    ensures ReadUnits(t) == Read([u] + ReadUnits(rest).value, ReadUnits(rest).rest)
  {
  }

  lemma {:induction false} UnitsBack(s: Text, rest: Text)
    ensures ReadUnits(PutUnits(s, [QUOTE] + rest)) == Read(s, rest)
    decreases |s|
  {
    hide Escape, ReadUnit, ReadUnits;
    if s == [] {
      EmptyBack(rest);
    } else {
      var n := Utf8.Units(s);
      var after := PutUnits(s[n..], [QUOTE] + rest);
      var t := Escape(s) + after;
      UnitsBack(s[n..], rest);
      FirstUnits(s, after);
      if n == 1 {
        UnitThen(t, s[0], after);
        assert [s[0]] + s[1..] == s;
      } else {
        UnitThen([s[1]] + after, s[1], after);
        UnitThen(t, s[0], [s[1]] + after);
        assert [s[0]] + ([s[1]] + s[2..]) == s;
      }
    }
  }

  lemma EmptyBack(rest: Text)
    ensures ReadUnits([QUOTE] + rest) == Read([], rest)
  {
    assert ([QUOTE] + rest)[1..] == rest;
  }

  lemma {:induction false} RunEnds(token: Text, rest: Text)
    requires forall i :: 0 <= i < |token| ==> NumberUnit(token[i])
    requires rest == [] || !NumberUnit(rest[0])
    ensures NumberRun(token + rest) == |token|
  {
    if token == [] {
      assert token + rest == rest;
    } else {
      assert (token + rest)[1..] == token[1..] + rest;
      RunEnds(token[1..], rest);
    }
  }

  /** Nothing that would carry a number on. */
  ghost predicate Delimited(rest: Text) {
    rest == [] || !NumberUnit(rest[0])
  }

  lemma NumberBack(token: Text, rest: Text)
    requires NumberToken(token) && Delimited(rest)
    ensures ReadValue(token + rest) == Read(Num(token), rest)
  {
    RunEnds(token, rest);
    var t := token + rest;
    assert t[0] == token[0] && t[..|token|] == token && t[|token|..] == rest;
    assert NumberUnit(t[0]);
    OtherWord(t, NULL);
    OtherWord(t, TRUE);
    OtherWord(t, FALSE);
  }

  lemma OtherWord(t: Text, word: Text)
    requires t != [] && word != [] && t[0] != word[0]
    ensures !StartsWith(t, word)
  {
    assert |word| <= |t| ==> t[..|word|][0] == t[0];
  }

  lemma WordBack(word: Text, value: Json, rest: Text)
    requires (word, value) == (NULL, Null) || (word, value) == (TRUE, Bool(true))
      || (word, value) == (FALSE, Bool(false))
    ensures ReadValue(word + rest) == Read(value, rest)
  {
    var t := word + rest;
    assert t[..|word|] == word && t[|word|..] == rest && t[0] == word[0];
    if word != NULL {
      OtherWord(t, NULL);
      if word != TRUE {
        OtherWord(t, TRUE);
      }
    }
  }

  lemma StringBack(s: Text, rest: Text)
    ensures PutString(s, rest)[1..] == PutUnits(s, [QUOTE] + rest)
    ensures ReadUnits(PutString(s, rest)[1..]) == Read(s, rest)
    ensures ReadValue(PutString(s, rest)) == Read(Str(s), rest)
  {
    hide PutUnits, ReadUnits;
    var t := PutString(s, rest);
    assert t[1..] == PutUnits(s, [QUOTE] + rest);
    UnitsBack(s, rest);
  }

  /** No value starts like the end of an array. */
  lemma Opens(j: Json, rest: Text)
    requires Valid(j)
    ensures Put(j, rest) != [] && Put(j, rest)[0] != RIGHT_BRACKET
  {
    hide PutUnits, PutItems, PutEntries;
  }

  lemma {:induction false} ValueBack(j: Json, rest: Text)
    requires Valid(j) && Delimited(rest)
    ensures ReadValue(Put(j, rest)) == Read(j, rest)
    decreases j, 1
  {
    match j
    case Null => WordBack(NULL, Null, rest);
    case Bool(truth) => WordBack(if truth then TRUE else FALSE, j, rest);
    case Num(token) => NumberBack(token, rest);
    case Str(text) => StringBack(text, rest);
    case Arr(items) => ArrayBack(items, rest);
    case Obj(entries) => ObjectBack(entries, rest);
  }

  lemma {:induction false} ArrayBack(items: seq<Json>, rest: Text)
    requires forall i :: 0 <= i < |items| ==> Valid(items[i])
    ensures ReadValue(Put(Arr(items), rest)) == Read(Arr(items), rest)
    decreases items, 3
  {
    hide ReadItems, ReadEntries, ReadUnits, NumberRun, StartsWith;
    var t := Put(Arr(items), rest);
    assert t[1..] == PutItems(items, [RIGHT_BRACKET] + rest);
    if items == [] {
      assert t[2..] == rest;
    } else {
      ItemsOpen(items, [RIGHT_BRACKET] + rest);
      assert t[1] != RIGHT_BRACKET;
      ItemsBack(items, rest);
    }
  }

  lemma ItemsOpen(items: seq<Json>, rest: Text)
    requires items != [] && Valid(items[0])
    ensures PutItems(items, rest) != [] && PutItems(items, rest)[0] != RIGHT_BRACKET
  {
    hide Put;
    if |items| == 1 {
      Opens(items[0], rest);
    } else {
      Opens(items[0], [COMMA] + PutItems(items[1..], rest));
    }
  }

  lemma {:induction false} ItemsBack(items: seq<Json>, rest: Text)
    requires items != [] && forall i :: 0 <= i < |items| ==> Valid(items[i])
    ensures ReadItems(PutItems(items, [RIGHT_BRACKET] + rest)) == Read(items, rest)
    decreases items, 2
  {
    hide ReadValue, Put;
    var close := [RIGHT_BRACKET] + rest;
    assert close[1..] == rest;
    if |items| == 1 {
      ValueBack(items[0], close);
      assert items == [items[0]];
    } else {
      var more := [COMMA] + PutItems(items[1..], close);
      assert more[1..] == PutItems(items[1..], close);
      ValueBack(items[0], more);
      ItemsBack(items[1..], rest);
      assert items == [items[0]] + items[1..];
    }
  }

  lemma {:induction false} ObjectBack(entries: seq<Entry>, rest: Text)
    requires forall i :: 0 <= i < |entries| ==> Valid(entries[i].value)
    ensures ReadValue(Put(Obj(entries), rest)) == Read(Obj(entries), rest)
    decreases entries, 3
  {
    hide ReadItems, ReadEntries, ReadUnits, NumberRun, StartsWith;
    var t := Put(Obj(entries), rest);
    assert t[1..] == PutEntries(entries, [RIGHT_BRACE] + rest);
    if entries == [] {
      assert t[2..] == rest;
    } else {
      EntriesOpen(entries, [RIGHT_BRACE] + rest);
      assert t[1] == QUOTE;
      EntriesBack(entries, rest);
    }
  }

  lemma EntriesOpen(entries: seq<Entry>, rest: Text)
    requires entries != []
    ensures PutEntries(entries, rest) != [] && PutEntries(entries, rest)[0] == QUOTE
  {
    hide Put, PutUnits;
  }

  lemma {:induction false} EntryBack(e: Entry, rest: Text)
    requires Valid(e.value) && Delimited(rest)
    ensures ReadEntry(PutEntry(e, rest)) == Read(e, rest)
    decreases e, 2
  {
    hide ReadValue, Put, ReadUnits, PutUnits;
    var after := [COLON] + Put(e.value, rest);
    assert after[1..] == Put(e.value, rest);
    StringBack(e.key, after);
    ValueBack(e.value, rest);
  }

  lemma {:induction false} EntriesBack(entries: seq<Entry>, rest: Text)
    requires entries != [] && forall i :: 0 <= i < |entries| ==> Valid(entries[i].value)
    ensures ReadEntries(PutEntries(entries, [RIGHT_BRACE] + rest)) == Read(entries, rest)
    decreases entries, 2
  {
    hide ReadEntry, PutEntry;
    var close := [RIGHT_BRACE] + rest;
    assert close[1..] == rest;
    if |entries| == 1 {
      EntryBack(entries[0], close);
      assert entries == [entries[0]];
    } else {
      var more := [COMMA] + PutEntries(entries[1..], close);
      assert more[1..] == PutEntries(entries[1..], close);
      EntryBack(entries[0], more);
      EntriesBack(entries[1..], rest);
      assert entries == [entries[0]] + entries[1..];
    }
  }

  // ---------------------------------------------------------------------------------------------
  // The printed text determines the value up to key order.

  lemma {:induction false} CanonValid(j: Json)
    requires Valid(j)
    ensures Valid(Canon(j))
    decreases j
  {
    match j
    case Arr(items) =>
      forall i | 0 <= i < |items| ensures Valid(CanonItems(items)[i]) {
        CanonValid(items[i]);
      }
    case Obj(entries) =>
      var canon := CanonEntries(entries);
      forall i | 0 <= i < |canon| ensures Valid(canon[i].value) {
        CanonValid(entries[i].value);
      }
      CanonKeysDistinct(entries);
      SortedKeysDistinct(canon);
      SortedValid(canon);
      assert Canon(j) == Obj(Sorting.Sort(canon, EntryByKey));
    case _ =>
  }

  lemma SortedValid(entries: seq<Entry>)
    requires forall i :: 0 <= i < |entries| ==> Valid(entries[i].value)
    ensures var sorted := Sorting.Sort(entries, EntryByKey); forall i :: 0 <= i < |sorted| ==> Valid(sorted[i].value)
  {
    hide Valid;
    var sorted := Sorting.Sort(entries, EntryByKey);
    Sorting.SortKeeps(entries, EntryByKey);
    forall i | 0 <= i < |sorted| ensures Valid(sorted[i].value) {
      assert sorted[i] in sorted;
    }
  }

  lemma SortedKeysDistinct(entries: seq<Entry>)
    requires DistinctKeys(entries)
    ensures DistinctKeys(Sorting.Sort(entries, EntryByKey))
  {
    var sorted := Sorting.Sort(entries, EntryByKey);
    Sorting.SortPermutes(entries, EntryByKey);
    forall i, j | 0 <= i < j < |sorted| ensures sorted[i].key != sorted[j].key {
      if sorted[i].key == sorted[j].key {
        TwoOccurrences(sorted, entries, i, j);
      }
    }
  }

  lemma TwoOccurrences(xs: seq<Entry>, ys: seq<Entry>, i: nat, j: nat)
    requires multiset(xs) == multiset(ys) && DistinctKeys(ys) && i < j < |xs|
    ensures xs[i].key != xs[j].key
  {
    Sorting.SameElements(xs, ys);
    assert xs[i] in ys && xs[j] in ys;
    var k, l :| 0 <= k < |ys| && 0 <= l < |ys| && ys[k] == xs[i] && ys[l] == xs[j];
    if xs[i] == xs[j] {
      Sorting.OccursOnce(ys, xs[i]);
      OccursTwice(xs, i, j);
    }
  }

  lemma OccursTwice(xs: seq<Entry>, i: nat, j: nat)
    requires i < j < |xs| && xs[i] == xs[j]
    ensures multiset(xs)[xs[i]] >= 2
  {
    assert xs == xs[..i] + [xs[i]] + xs[i + 1..j] + [xs[j]] + xs[j + 1..];
  }

  lemma EntryOrderTotal()
    ensures Sorting.Total(EntryByKey)
  {
    forall x, y ensures EntryByKey(x, y) || EntryByKey(y, x) {
      LessTotal(x.key, y.key);
    }
    forall x, y, z | EntryByKey(x, y) && EntryByKey(y, z) ensures EntryByKey(x, z) {
      AtMostTransitive(x.key, y.key, z.key);
    }
  }

  /** Objects with the same members sort to the same list. */
  lemma SortedAlike(xs: seq<Entry>, ys: seq<Entry>)
    requires DistinctKeys(xs) && DistinctKeys(ys) && forall e :: e in xs <==> e in ys
    ensures Sorting.Sort(xs, EntryByKey) == Sorting.Sort(ys, EntryByKey)
  {
    EntryOrderTotal();
    Sorting.SortAscends(xs, EntryByKey);
    Sorting.SortAscends(ys, EntryByKey);
    Sorting.SortPermutes(xs, EntryByKey);
    Sorting.SortPermutes(ys, EntryByKey);
    Sorting.SameMembersSameMultiset(xs, ys);
    Sorting.SameElements(Sorting.Sort(xs, EntryByKey), xs);
    forall e, f | e in xs && f in xs && EntryByKey(e, f) && EntryByKey(f, e) ensures e == f {
      LessTotal(e.key, f.key);
      var k, l :| 0 <= k < |xs| && 0 <= l < |xs| && xs[k] == e && xs[l] == f;
    }
    Sorting.AscendingUnique(Sorting.Sort(xs, EntryByKey), Sorting.Sort(ys, EntryByKey), EntryByKey);
  }

  lemma {:induction false} CanonSame(a: Json, b: Json)
    requires Valid(a) && Valid(b)
    ensures Same(a, b) <==> Canon(a) == Canon(b)
    decreases a
  {
    match (a, b)
    case (Arr(xs), Arr(ys)) =>
      if |xs| == |ys| {
        forall i | 0 <= i < |xs| ensures Same(xs[i], ys[i]) <==> CanonItems(xs)[i] == CanonItems(ys)[i] {
          CanonSame(xs[i], ys[i]);
        }
        assert CanonItems(xs) == CanonItems(ys) <==>
          forall i :: 0 <= i < |xs| ==> CanonItems(xs)[i] == CanonItems(ys)[i];
      }
    case (Obj(es), Obj(fs)) =>
      forall e, f | e in es && f in fs ensures Same(e.value, f.value) <==> Canon(e.value) == Canon(f.value) {
        CanonSame(e.value, f.value);
      }
      CanonObjects(es, fs);
    case _ =>
  }

  lemma CanonMember(es: seq<Entry>, e: Entry) returns (f: Entry)
    requires e in CanonEntries(es)
    ensures f in es && e == Entry(f.key, Canon(f.value))
  {
    var i :| 0 <= i < |es| && CanonEntries(es)[i] == e;
    f := es[i];
  }

  lemma MemberCanon(es: seq<Entry>, f: Entry)
    requires f in es
    ensures Entry(f.key, Canon(f.value)) in CanonEntries(es)
  {
    var i :| 0 <= i < |es| && es[i] == f;
    assert CanonEntries(es)[i] == Entry(f.key, Canon(f.value));
  }

  ghost predicate Matching(e: Entry, f: Entry) {
    e.key == f.key && Canon(e.value) == Canon(f.value)
  }

  /** Every entry of `es` has its like in `fs`. */
  ghost predicate Matched(es: seq<Entry>, fs: seq<Entry>) {
    forall e :: e in es ==> exists f :: f in fs && Matching(e, f)
  }

  lemma MatchedMembers(es: seq<Entry>, fs: seq<Entry>)
    ensures Matched(es, fs) <==> forall e :: e in CanonEntries(es) ==> e in CanonEntries(fs)
  {
    hide CanonEntries;
    if Matched(es, fs) {
      forall e | e in CanonEntries(es) ensures e in CanonEntries(fs) {
        var d := CanonMember(es, e);
        var f :| f in fs && Matching(d, f);
        MemberCanon(fs, f);
      }
    }
    if forall e :: e in CanonEntries(es) ==> e in CanonEntries(fs) {
      forall e | e in es ensures exists f :: f in fs && Matching(e, f) {
        MemberCanon(es, e);
        var f := CanonMember(fs, Entry(e.key, Canon(e.value)));
        assert Matching(e, f);
      }
    }
  }

  lemma CanonObjects(es: seq<Entry>, fs: seq<Entry>)
    requires DistinctKeys(es) && DistinctKeys(fs)
    requires forall e, f :: e in es && f in fs ==> (Same(e.value, f.value) <==> Canon(e.value) == Canon(f.value))
    ensures Same(Obj(es), Obj(fs)) <==> Canon(Obj(es)) == Canon(Obj(fs))
  {
    hide CanonEntries;
    MatchedMembers(es, fs);
    MatchedMembers(fs, es);
    SameWhenMatched(es, fs);
    EqualWhenSorted(es, fs);
  }

  ghost predicate Like(e: Entry, f: Entry) {
    e.key == f.key && Same(e.value, f.value)
  }

  ghost predicate EachLike(es: seq<Entry>, fs: seq<Entry>) {
    forall e :: e in es ==> exists f :: f in fs && Like(e, f)
  }

  ghost predicate EachLiked(es: seq<Entry>, fs: seq<Entry>) {
    forall f :: f in fs ==> exists e :: e in es && Like(e, f)
  }

  lemma LikesMatch(es: seq<Entry>, fs: seq<Entry>)
    requires forall e, f :: e in es && f in fs ==> (Like(e, f) <==> Matching(e, f))
    ensures EachLike(es, fs) <==> Matched(es, fs)
    ensures EachLiked(es, fs) <==> Matched(fs, es)
  {
    hide Like;
    if Matched(fs, es) {
      forall f | f in fs ensures exists e :: e in es && Like(e, f) {
        var e :| e in es && Matching(f, e);
        assert Matching(e, f);
      }
    }
    if EachLiked(es, fs) {
      forall f | f in fs ensures exists e :: e in es && Matching(f, e) {
        var e :| e in es && Like(e, f);
        assert Matching(e, f);
      }
    }
  }

  lemma SameByLikes(es: seq<Entry>, fs: seq<Entry>)
    ensures Same(Obj(es), Obj(fs)) <==> EachLike(es, fs) && EachLiked(es, fs)
  {
  }

  lemma SameWhenMatched(es: seq<Entry>, fs: seq<Entry>)
    requires forall e, f :: e in es && f in fs ==> (Same(e.value, f.value) <==> Canon(e.value) == Canon(f.value))
    ensures Same(Obj(es), Obj(fs)) <==> Matched(es, fs) && Matched(fs, es)
  {
    hide Canon, Matched;
    forall e, f | e in es && f in fs ensures Like(e, f) <==> Matching(e, f) {
    }
    hide *;
    LikesMatch(es, fs);
    SameByLikes(es, fs);
  }

  lemma CanonKeysDistinct(es: seq<Entry>)
    requires DistinctKeys(es)
    ensures DistinctKeys(CanonEntries(es))
  {
  }

  lemma CanonSorts(es: seq<Entry>)
    ensures Canon(Obj(es)) == Obj(Sorting.Sort(CanonEntries(es), EntryByKey))
  {
    hide CanonEntries, Sorting.Sort;
  }

  lemma EqualWhenSorted(es: seq<Entry>, fs: seq<Entry>)
    requires DistinctKeys(es) && DistinctKeys(fs)
    ensures Canon(Obj(es)) == Canon(Obj(fs)) <==> forall e :: e in CanonEntries(es) <==> e in CanonEntries(fs)
  {
    CanonKeysDistinct(es);
    CanonKeysDistinct(fs);
    hide *;
    CanonSorts(es);
    CanonSorts(fs);
    SortedEqual(CanonEntries(es), CanonEntries(fs));
  }

  lemma SortedEqual(xs: seq<Entry>, ys: seq<Entry>)
    requires DistinctKeys(xs) && DistinctKeys(ys)
    ensures Sorting.Sort(xs, EntryByKey) == Sorting.Sort(ys, EntryByKey) <==> forall e :: e in xs <==> e in ys
  {
    hide DistinctKeys;
    Sorting.SortKeeps(xs, EntryByKey);
    Sorting.SortKeeps(ys, EntryByKey);
    if forall e :: e in xs <==> e in ys {
      SortedAlike(xs, ys);
    }
  }

  /** Two values are printed alike exactly when they are equal up to key order. */
  lemma PrintedAlike(a: Json, b: Json)
    requires Valid(a) && Valid(b)
    ensures CanonicalJson(a) == CanonicalJson(b) <==> Same(a, b)
  {
    hide CanonicalJson, Canon, Put, ReadValue;
    PrintsSorted(a);
    PrintsSorted(b);
    CanonSame(a, b);
    CanonValid(a);
    CanonValid(b);
    ValueBack(Canon(a), []);
    ValueBack(Canon(b), []);
  }

  /** The printed text is read back as the value with its keys sorted. */
  lemma PrintedReadsBack(j: Json)
    requires Valid(j)
    ensures ReadValue(CanonicalJson(j)) == Read(Canon(j), [])
    ensures Same(j, Canon(j))
  {
    hide CanonicalJson, Put, ReadValue;
    PrintsSorted(j);
    CanonValid(j);
    ValueBack(Canon(j), []);
    CanonTwice(j);
    CanonSame(j, Canon(j));
  }

  lemma {:induction false} CanonTwice(j: Json)
    requires Valid(j)
    ensures Canon(Canon(j)) == Canon(j)
    decreases j
  {
    match j
    case Arr(items) =>
      forall i | 0 <= i < |items| ensures CanonItems(CanonItems(items))[i] == CanonItems(items)[i] {
        CanonTwice(items[i]);
      }
    case Obj(entries) =>
      var xs := CanonEntries(entries);
      var sorted := Sorting.Sort(xs, EntryByKey);
      Sorting.SortKeeps(xs, EntryByKey);
      forall i | 0 <= i < |sorted| ensures CanonEntries(sorted)[i] == sorted[i] {
        assert sorted[i] in xs;
        var k :| 0 <= k < |xs| && xs[k] == sorted[i];
        CanonTwice(entries[k].value);
      }
      assert CanonEntries(sorted) == sorted;
      SortedKeysDistinct(xs);
      SortedAlike(sorted, xs);
    case _ =>
  }
}
