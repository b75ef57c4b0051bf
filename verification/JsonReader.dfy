/**
  A reader of JSON text without white space that takes only the shortest spelling of every
  string: what it makes of canonical text is the value it was made from, keys in order.
*/
module JsonReader {
  import opened Collections
  import opened CanonicalJson

  // --- Strings ---

  function HexOf(u: CodeUnit): Option<int> {
    if '0' as int <= u <= '9' as int then Some(u - '0' as int)
    else if 'a' as int <= u <= 'f' as int then Some(u - 'a' as int + 10)
    else None
  }

  function FourHex(t: Text): Option<int>
    requires |t| >= 4
  {
    match (HexOf(t[0]), HexOf(t[1]), HexOf(t[2]), HexOf(t[3]))
    case (Some(a), Some(b), Some(c), Some(d)) => Some(4096 * a + 256 * b + 16 * c + d)
    case _ => None
  }

  predicate Half(n: int) {
    0xD800 <= n <= 0xDFFF
  }

  /** What needs four digits: controls without a letter, and halves of surrogate pairs. */
  predicate NeedsDigits(n: int) {
    (0 <= n < 32 && n !in {8, 9, 10, 12, 13}) || Half(n)
  }

  /** The code unit for what stands after a backslash. */
  function ReadEscape(t: Text): (r: Option<(CodeUnit, Text)>)
    ensures r.Some? ==> |r.value.1| < |t|
  {
    if t == [] then None
    else if t[0] == '"' as int then Some((34, t[1..]))
    else if t[0] == '\\' as int then Some((92, t[1..]))
    else if t[0] == 'b' as int then Some((8, t[1..]))
    else if t[0] == 't' as int then Some((9, t[1..]))
    else if t[0] == 'n' as int then Some((10, t[1..]))
    else if t[0] == 'f' as int then Some((12, t[1..]))
    else if t[0] == 'r' as int then Some((13, t[1..]))
    else if t[0] == 'u' as int && |t| >= 5 && FourHex(t[1..5]).Some? && NeedsDigits(FourHex(t[1..5]).value)
    then Some((FourHex(t[1..5]).value, t[5..]))
    else None
  }

  /** The rest of a string, up to and including its closing quote. */
  function ReadString(t: Text): (r: Option<(Text, Text)>)
    ensures r.Some? ==> |r.value.1| < |t|
    decreases |t|
  {
    if t == [] || t[0] < 32 then None
    else if t[0] == '"' as int then Some(([], t[1..]))
    else if t[0] == '\\' as int then
      (match ReadEscape(t[1..])
       case Some((u, rest)) => Before([u], ReadString(rest))
       case None => None)
    else if 0xD800 <= t[0] <= 0xDBFF && |t| >= 2 && 0xDC00 <= t[1] <= 0xDFFF then Before(t[..2], ReadString(t[2..]))
    else if Half(t[0]) then None
    else Before(t[..1], ReadString(t[1..]))
  }

  function Before(s: Text, r: Option<(Text, Text)>): Option<(Text, Text)> {
    match r
    case Some((tail, rest)) => Some((s + tail, rest))
    case None => None
  }

  // --- Values ---

  predicate InNumber(u: CodeUnit) {
    '0' as int <= u <= '9' as int || u == '-' as int || u == '+' as int || u == '.' as int || u == 'e' as int
  }

  function NumberLength(t: Text): (n: nat)
    ensures n <= |t|
  {
    if t != [] && InNumber(t[0]) then 1 + NumberLength(t[1..]) else 0
  }

  function Word(s: string): Text
    requires forall i :: 0 <= i < |s| ==> s[i] as int < 0x10000
  {
    seq(|s|, i requires 0 <= i < |s| => s[i] as int)
  }

  function ReadValue(t: Text): (r: Option<(Json, Text)>)
    ensures r.Some? ==> |r.value.1| < |t|
    decreases |t|, 0
  {
    if t == [] then None
    else if Word("null") <= t then Some((Null, t[4..]))
    else if Word("true") <= t then Some((Bool(true), t[4..]))
    else if Word("false") <= t then Some((Bool(false), t[5..]))
    else if t[0] == '"' as int then
      (match ReadString(t[1..])
       case Some((s, rest)) => Some((String(s), rest))
       case None => None)
    else if Word("[]") <= t then Some((Array([]), t[2..]))
    else if Word("{}") <= t then Some((Object([]), t[2..]))
    else if t[0] == '[' as int then
      (match ReadItems(t[1..])
       case Some((items, rest)) => Some((Array(items), rest))
       case None => None)
    else if t[0] == '{' as int then
      (match ReadFields(t[1..])
       case Some((fields, rest)) => Some((Object(fields), rest))
       case None => None)
    else if NumberLength(t) > 0 then Some((Number(t[..NumberLength(t)]), t[NumberLength(t)..]))
    else None
  }

  /** Values with commas between them and a bracket at the end. */
  function ReadItems(t: Text): (r: Option<(seq<Json>, Text)>)
    ensures r.Some? ==> |r.value.1| < |t|
    decreases |t|, 1
  {
    match ReadValue(t)
    case None => None
    case Some((v, rest)) =>
      if rest != [] && rest[0] == ']' as int then Some(([v], rest[1..]))
      else if rest != [] && rest[0] == ',' as int then
        (match ReadItems(rest[1..])
         case Some((items, after)) => Some(([v] + items, after))
         case None => None)
      else None
  }

  function ReadFields(t: Text): (r: Option<(seq<Field>, Text)>)
    ensures r.Some? ==> |r.value.1| < |t|
    decreases |t|, 1
  {
    match ReadField(t)
    case None => None
    case Some((f, rest)) =>
      if rest != [] && rest[0] == '}' as int then Some(([f], rest[1..]))
      else if rest != [] && rest[0] == ',' as int then
        (match ReadFields(rest[1..])
         case Some((fields, after)) => Some(([f] + fields, after))
         case None => None)
      else None
  }

  /** A quoted key, a colon and a value. */
  function ReadField(t: Text): (r: Option<(Field, Text)>)
    ensures r.Some? ==> |r.value.1| < |t|
    decreases |t|, 0
  {
    if t == [] || t[0] != '"' as int then None
    else match ReadString(t[1..])
      case None => None
      case Some((key, rest)) =>
        if rest == [] || rest[0] != ':' as int then None
        else match ReadValue(rest[1..])
          case None => None
          case Some((v, after)) => Some((Field(key, v), after))
  }

  /** A text that is one value from end to end. */
  function Read(t: Text): Option<Json> {
    match ReadValue(t)
    case Some((v, rest)) => if rest == [] then Some(v) else None
    case None => None
  }

  // --- Reading back strings ---

  lemma HexDigitRead(d: int)
    requires 0 <= d < 16
    ensures HexOf(HexDigit(d)) == Some(d)
  {}

  lemma UnicodeRead(u: CodeUnit, rest: Text)
    requires NeedsDigits(u)
    ensures ReadEscape((UnicodeEscape(u) + rest)[1..]) == Some((u, rest))
  {
    HexDigits(u);
    HexDigitRead(u / 4096);
    HexDigitRead(u / 256 % 16);
    HexDigitRead(u / 16 % 16);
    HexDigitRead(u % 16);
    var t := (UnicodeEscape(u) + rest)[1..];
    assert t[1..5] == UnicodeEscape(u)[2..];
    assert t[5..] == rest;
  }

  lemma UnitRead(u: CodeUnit, rest: Text)
    ensures ReadString(EscapeUnit(u) + rest) == Before([u], ReadString(rest))
  {
    var t := EscapeUnit(u) + rest;
    if ShortEscape(u) != 0 {
      assert t[1..] == [ShortEscape(u)] + rest && t[1..][1..] == rest;
    } else if NeedsDigits(u) {
      UnicodeRead(u, rest);
    } else {
      assert t[1..] == rest && t[..1] == [u];
    }
  }

  lemma PairRead(s: Text, rest: Text)
    requires StartsWithPair(s)
    ensures ReadString(s[..2] + rest) == Before(s[..2], ReadString(rest))
  {
    var t := s[..2] + rest;
    assert t[..2] == s[..2] && t[2..] == rest && t[0] == s[0] && t[1] == s[1];
  }

  lemma {:induction false} EscapedReads(s: Text, r: Text)
    ensures ReadString(Escape(s) + ([QUOTE] + r)) == Some((s, r))
    decreases |s|
  {
    if s == [] {
      assert Escape(s) + ([QUOTE] + r) == [QUOTE] + r;
      assert ([QUOTE] + r)[1..] == r;
    } else if StartsWithPair(s) {
      var rest := Escape(s[2..]) + ([QUOTE] + r);
      Assoc(s[..2], Escape(s[2..]), [QUOTE] + r);
      EscapedReads(s[2..], r);
      PairRead(s, rest);
      assert s[..2] + s[2..] == s;
    } else {
      var rest := Escape(s[1..]) + ([QUOTE] + r);
      Assoc(EscapeUnit(s[0]), Escape(s[1..]), [QUOTE] + r);
      EscapedReads(s[1..], r);
      UnitRead(s[0], rest);
      assert [s[0]] + s[1..] == s;
    }
  }

  lemma QuotedReads(s: Text, r: Text)
    ensures var t := Quote(s) + r; t[0] == '"' as int && ReadString(t[1..]) == Some((s, r))
  {
    assert (Quote(s) + r)[1..] == Escape(s) + ([QUOTE] + r);
    EscapedReads(s, r);
  }

  // --- Reading back values ---

  /** What a value can be followed by. */
  predicate Ends(r: Text) {
    r == [] || r[0] == ',' as int || r[0] == ']' as int || r[0] == '}' as int
  }

  lemma {:induction false} NumberReads(digits: Text, r: Text)
    requires Ends(r) && forall i :: 0 <= i < |digits| ==> NumberUnit(digits[i])
    ensures NumberLength(digits + r) == |digits|
  {
    if digits == [] {
      assert digits + r == r;
    } else {
      assert (digits + r)[1..] == digits[1..] + r;
      NumberReads(digits[1..], r);
    }
  }

  lemma WordReads(w: string, t: Text, r: Text)
    requires |w| == |t| && forall i :: 0 <= i < |w| ==> w[i] as int < 0x10000 && w[i] as int == t[i]
    ensures Word(w) <= t + r && (t + r)[|w|..] == r
  {
    assert Word(w) == t;
  }

  lemma WordDiffers(w: string, t: Text, i: nat)
    requires forall k :: 0 <= k < |w| ==> w[k] as int < 0x10000
    requires i < |w| && i < |t| && w[i] as int != t[i]
    ensures !(Word(w) <= t)
  {
    assert Word(w)[i] != t[i];
  }

  lemma NoWord(t: Text)
    requires t != [] && t[0] != 'n' as int && t[0] != 't' as int && t[0] != 'f' as int
    ensures !(Word("null") <= t) && !(Word("true") <= t) && !(Word("false") <= t)
  {
    WordDiffers("null", t, 0);
    WordDiffers("true", t, 0);
    WordDiffers("false", t, 0);
  }

  lemma WordsRead(v: Json, r: Text)
    requires v.Null? || v.Bool?
    ensures ReadValue(Print(v) + r) == Some((v, r))
  {
    var t := Print(v) + r;
    if v.Null? {
      WordReads("null", Print(v), r);
    } else if v.b {
      WordDiffers("null", t, 0);
      WordReads("true", Print(v), r);
    } else {
      WordDiffers("null", t, 0);
      WordDiffers("true", t, 0);
      WordReads("false", Print(v), r);
    }
  }

  lemma NumberReadBack(digits: Text, r: Text)
    requires digits != [] && Ends(r) && forall i :: 0 <= i < |digits| ==> NumberUnit(digits[i])
    ensures ReadValue(digits + r) == Some((Number(digits), r))
  {
    var t := digits + r;
    assert NumberUnit(t[0]);
    NoWord(t);
    NumberReads(digits, r);
    WordDiffers("[]", t, 0);
    WordDiffers("{}", t, 0);
    assert t[..|digits|] == digits && t[|digits|..] == r;
  }

  lemma StringReadBack(s: Text, r: Text)
    ensures ReadValue(Quote(s) + r) == Some((String(s), r))
  {
    NoWord(Quote(s) + r);
    QuotedReads(s, r);
  }

  lemma EmptyReads(v: Json, r: Text)
    requires v == Array([]) || v == Object([])
    ensures ReadValue(Print(v) + r) == Some((v, r))
  {
    var t := Print(v) + r;
    NoWord(t);
    if v.Array? {
      assert Print(v) == [91, 93];
      WordReads("[]", Print(v), r);
    } else {
      assert Print(v) == [123, 125];
      WordDiffers("[]", t, 0);
      WordReads("{}", Print(v), r);
    }
  }

  /** A list in brackets, once its inside reads. */
  lemma ListReads(items: seq<Json>, inside: Text, r: Text)
    requires items != [] && inside != [] && inside[0] != ']' as int
    requires ReadItems(inside + ([CLOSE_BRACKET] + r)) == Some((items, r))
    ensures ReadValue([OPEN_BRACKET] + inside + [CLOSE_BRACKET] + r) == Some((Array(items), r))
  {
    var t := [OPEN_BRACKET] + inside + [CLOSE_BRACKET] + r;
    Unwrap(OPEN_BRACKET, inside, CLOSE_BRACKET, r);
    NoWord(t);
    WordDiffers("[]", t, 1);
    WordDiffers("{}", t, 0);
  }

  lemma ObjectReads(fields: seq<Field>, inside: Text, r: Text)
    requires fields != [] && inside != [] && inside[0] != '}' as int
    requires ReadFields(inside + ([CLOSE_BRACE] + r)) == Some((fields, r))
    ensures ReadValue([OPEN_BRACE] + inside + [CLOSE_BRACE] + r) == Some((Object(fields), r))
  {
    var t := [OPEN_BRACE] + inside + [CLOSE_BRACE] + r;
    Unwrap(OPEN_BRACE, inside, CLOSE_BRACE, r);
    NoWord(t);
    WordDiffers("[]", t, 0);
    WordDiffers("{}", t, 1);
  }

  lemma JoinHead(parts: seq<Text>)
    requires parts != [] && parts[0] != []
    ensures Join(parts) != [] && Join(parts)[0] == parts[0][0]
  {}

  /** Printed text reads back, whatever comes after the value. */
  lemma {:induction false} PrintedReads(v: Json, r: Text)
    requires Printable(v) && Ends(r)
    ensures ReadValue(Print(v) + r) == Some((v, r))
    decreases Size(v), 0
  {
    match v
    case Number(digits) => NumberReadBack(digits, r);
    case String(text) => StringReadBack(text, r);
    case Array(items) =>
      if items == [] {
        EmptyReads(v, r);
      } else {
        ItemsRead(items, r);
        PrintHead(items[0], []);
        JoinHead(PrintItems(items));
        ListReads(items, Join(PrintItems(items)), r);
      }
    case Object(fields) =>
      if fields == [] {
        EmptyReads(v, r);
      } else {
        FieldsRead(fields, r);
        JoinHead(PrintFields(fields));
        ObjectReads(fields, Join(PrintFields(fields)), r);
      }
    case _ => WordsRead(v, r);
  }

  lemma AfterFirstEnds(parts: seq<Text>, close: CodeUnit, r: Text)
    requires parts != [] && (close == CLOSE_BRACKET || close == CLOSE_BRACE)
    ensures var x := AfterFirst(parts, close, r); Ends(x) && x != []
    ensures var x := AfterFirst(parts, close, r);
      if |parts| == 1 then x[0] == close && x[1..] == r else x[0] == ',' as int && x[1..] == Join(parts[1..]) + ([close] + r)
  {}

  lemma {:induction false} ItemsRead(items: seq<Json>, r: Text)
    requires items != [] && PrintableItems(items)
    ensures ReadItems(Join(PrintItems(items)) + ([CLOSE_BRACKET] + r)) == Some((items, r))
    decreases ItemsSize(items), 1
  {
    var parts := PrintItems(items);
    JoinSplits(parts, CLOSE_BRACKET, r);
    AfterFirstEnds(parts, CLOSE_BRACKET, r);
    PrintedReads(items[0], AfterFirst(parts, CLOSE_BRACKET, r));
    if |items| == 1 {
      assert items == [items[0]];
    } else {
      ItemsRead(items[1..], r);
      assert items == [items[0]] + items[1..];
    }
  }

  lemma {:induction false} FieldReads(f: Field, r: Text)
    requires Printable(f.value) && Ends(r)
    ensures ReadField(PrintField(f) + r) == Some((f, r))
    decreases Size(f.value), 1
  {
    var tail := [COLON] + (Print(f.value) + r);
    FieldSplits(f, r);
    QuotedReads(f.key, tail);
    assert tail[1..] == Print(f.value) + r;
    PrintedReads(f.value, r);
  }

  lemma {:induction false} FieldsRead(fields: seq<Field>, r: Text)
    requires fields != [] && PrintableFields(fields)
    ensures ReadFields(Join(PrintFields(fields)) + ([CLOSE_BRACE] + r)) == Some((fields, r))
    decreases FieldsSize(fields), 1
  {
    var parts := PrintFields(fields);
    JoinSplits(parts, CLOSE_BRACE, r);
    AfterFirstEnds(parts, CLOSE_BRACE, r);
    FieldReads(fields[0], AfterFirst(parts, CLOSE_BRACE, r));
    if |fields| == 1 {
      assert fields == [fields[0]];
    } else {
      FieldsRead(fields[1..], r);
      assert fields == [fields[0]] + fields[1..];
    }
  }

  // --- Canonical text ---

  predicate Climbs(fields: seq<Field>, le: KeyOrder) {
    forall i, j :: 0 <= i < j < |fields| ==> le(fields[i].key, fields[j].key)
  }

  /** The keys of every object inside are in order. */
  predicate InOrder(v: Json, le: KeyOrder)
    decreases Size(v), 0
  {
    match v
    case Array(items) => forall i :: 0 <= i < |items| ==> ItemSmaller(items, i) && InOrder(items[i], le)
    case Object(fields) =>
      Climbs(fields, le) && forall i :: 0 <= i < |fields| ==> FieldSmaller(fields, i) && InOrder(fields[i].value, le)
    case _ => true
  }

  lemma {:induction false} InsertClimbs(f: Field, sorted: seq<Field>, le: KeyOrder)
    requires TotalPreorder(le) && Climbs(sorted, le)
    ensures Climbs(InsertField(f, sorted, le), le)
  {
    if sorted == [] || le(f.key, sorted[0].key) {
      assert forall j :: 0 < j < |sorted| ==> le(sorted[0].key, sorted[j].key);
    } else {
      var rest := InsertField(f, sorted[1..], le);
      InsertClimbs(f, sorted[1..], le);
      forall j | 0 <= j < |rest| ensures le(sorted[0].key, rest[j].key) {
        assert rest[j] in rest;
        if rest[j] != f {
          var k :| 0 <= k < |sorted[1..]| && sorted[1..][k] == rest[j];
          assert le(sorted[0].key, sorted[k + 1].key);
        }
      }
    }
  }

  lemma {:induction false} SortClimbs(fields: seq<Field>, le: KeyOrder)
    requires TotalPreorder(le)
    ensures Climbs(SortFields(fields, le), le)
  {
    if fields != [] {
      SortClimbs(fields[1..], le);
      InsertClimbs(fields[0], SortFields(fields[1..], le), le);
    }
  }

  lemma {:induction false} SortedInOrder(v: Json, le: KeyOrder)
    requires TotalPreorder(le)
    ensures InOrder(Sorted(v, le), le)
    decreases Size(v)
  {
    match v
    case Array(items) =>
      forall i | 0 <= i < |items| ensures InOrder(SortedItems(items, le)[i], le) {
        ItemSize(items, i);
        SortedItemsAt(items, le, i);
        SortedInOrder(items[i], le);
      }
    case Object(fields) =>
      var a := SortFields(fields, le);
      SortClimbs(fields, le);
      forall i | 0 <= i < |a| ensures SortedFields(a, le)[i].key == a[i].key && InOrder(SortedFields(a, le)[i].value, le) {
        FieldSize(a, i);
        SortedFieldsAt(a, le, i);
        SortedInOrder(a[i].value, le);
      }
    case _ =>
  }

  lemma {:induction false} SortedAlike(v: Json, le: KeyOrder)
    ensures Alike(v, Sorted(v, le))
    decreases Size(v)
  {
    match v
    case Array(items) =>
      forall i | 0 <= i < |items| ensures Alike(items[i], SortedItems(items, le)[i]) {
        ItemSize(items, i);
        SortedItemsAt(items, le, i);
        SortedAlike(items[i], le);
      }
    case Object(fields) =>
      var a := SortFields(fields, le);
      forall i | 0 <= i < |fields| ensures HasAlike(fields[i], SortedFields(a, le)) {
        FieldSize(fields, i);
        assert fields[i] in fields;
        var k := PositionOf(fields[i], a);
        SortedFieldsAt(a, le, k);
        SortedAlike(fields[i].value, le);
      }
    case _ =>
  }

  /** Canonical text reads back as the same value with the keys of every object in order. */
  lemma CanonicalReadsBack(v: Json, le: KeyOrder) returns (w: Json)
    requires Printable(v) && TotalPreorder(le)
    ensures Read(Canonical(v, le)) == Some(w) && Alike(v, w) && InOrder(w, le)
  {
    w := Sorted(v, le);
    CanonicalPrintsSorted(v, le);
    SortedPrintable(v, le);
    PrintedReads(w, []);
    assert Print(w) + [] == Print(w);
    SortedAlike(v, le);
    SortedInOrder(v, le);
  }
}
