/**
  The canonical text of a JSON value: objects with their keys sorted, no white space,
  strings escaped as `JSON.stringify` escapes them. Text is UTF-16 code units.

  A number is represented by the text JavaScript prints for it. The order that
  `localeCompare` puts on keys is the parameter `le`.
*/
module CanonicalJson {

  type CodeUnit = u: int | 0 <= u < 0x10000

  type Text = seq<CodeUnit>

  datatype Field = Field(key: Text, value: Json)

  datatype Json =
    | Null
    | Bool(b: bool)
    | Number(digits: Text)
    | String(text: Text)
    | Array(items: seq<Json>)
    | Object(fields: seq<Field>)

  const QUOTE: CodeUnit := 34
  const COMMA: CodeUnit := 44
  const COLON: CodeUnit := 58
  const OPEN_BRACKET: CodeUnit := 91
  const BACKSLASH: CodeUnit := 92
  const CLOSE_BRACKET: CodeUnit := 93
  const OPEN_BRACE: CodeUnit := 123
  const CLOSE_BRACE: CodeUnit := 125

  function Size(v: Json): nat {
    match v
    case Array(items) => 1 + ItemsSize(items)
    case Object(fields) => 1 + FieldsSize(fields)
    case _ => 1
  }

  function ItemsSize(items: seq<Json>): nat {
    if items == [] then 0 else 1 + Size(items[0]) + ItemsSize(items[1..])
  }

  function FieldsSize(fields: seq<Field>): nat {
    if fields == [] then 0 else 1 + Size(fields[0].value) + FieldsSize(fields[1..])
  }

  // --- Strings ---

  predicate HighSurrogate(u: CodeUnit) { 0xD800 <= u <= 0xDBFF }

  predicate LowSurrogate(u: CodeUnit) { 0xDC00 <= u <= 0xDFFF }

  function HexDigit(d: int): CodeUnit
    requires 0 <= d < 16
  {
    if d < 10 then 48 + d else 87 + d
  }

  function HexValue(u: CodeUnit): int {
    if u < 87 then u - 48 else u - 87
  }

  function UnicodeEscape(u: CodeUnit): Text {
    [BACKSLASH, 117, HexDigit(u / 4096), HexDigit(u / 256 % 16), HexDigit(u / 16 % 16), HexDigit(u % 16)]
  }

  /** The letter after the backslash of a two-character escape, or 0 if there is none. */
  function ShortEscape(u: CodeUnit): CodeUnit {
    if u == 8 then 98
    else if u == 9 then 116
    else if u == 10 then 110
    else if u == 12 then 102
    else if u == 13 then 114
    else if u == QUOTE || u == BACKSLASH then u
    else 0
  }

  /** One code unit that is not half of a surrogate pair. */
  function EscapeUnit(u: CodeUnit): Text {
    if ShortEscape(u) != 0 then [BACKSLASH, ShortEscape(u)]
    else if u < 32 || HighSurrogate(u) || LowSurrogate(u) then UnicodeEscape(u)
    else [u]
  }

  predicate StartsWithPair(s: Text) {
    |s| >= 2 && HighSurrogate(s[0]) && LowSurrogate(s[1])
  }

  function Escape(s: Text): Text {
    if s == [] then []
    else if StartsWithPair(s) then s[..2] + Escape(s[2..])
    else EscapeUnit(s[0]) + Escape(s[1..])
  }

  /** `JSON.stringify` of a string. */
  function Quote(s: Text): Text {
    [QUOTE] + Escape(s) + [QUOTE]
  }

  /** The code unit an escaped text starts with, and how long its escape is. */
  function FirstUnit(t: Text): (int, nat) {
    if |t| >= 6 && t[0] == BACKSLASH && t[1] == 117 then
      (4096 * HexValue(t[2]) + 256 * HexValue(t[3]) + 16 * HexValue(t[4]) + HexValue(t[5]), 6)
    else if |t| >= 2 && t[0] == BACKSLASH then
      (if t[1] == 98 then 8 else if t[1] == 116 then 9 else if t[1] == 110 then 10
       else if t[1] == 102 then 12 else if t[1] == 114 then 13 else t[1], 2)
    else if t != [] then (t[0], 1)
    else (0, 0)
  }

  lemma HexDigits(u: CodeUnit)
    ensures u == 4096 * (u / 4096) + 256 * (u / 256 % 16) + 16 * (u / 16 % 16) + u % 16
    ensures 0 <= u / 4096 < 16
  {
    var a := u / 16;
    var b := a / 16;
    assert u / 256 == b && u / 4096 == b / 16;
    assert u == 16 * a + u % 16 && a == 16 * b + a % 16 && b == 16 * (b / 16) + b % 16;
  }

  lemma EscapeReadable(u: CodeUnit, rest: Text)
    ensures FirstUnit(EscapeUnit(u) + rest) == (u, |EscapeUnit(u)|)
    ensures (EscapeUnit(u) + rest)[0] != QUOTE
    ensures HighSurrogate(u) || LowSurrogate(u) ==> (EscapeUnit(u) + rest)[0] == BACKSLASH
  {
    HexDigits(u);
  }

  lemma EscapeStarts(s: Text, rest: Text)
    requires s != []
    ensures Escape(s) != [] && (Escape(s) + rest)[0] != QUOTE
    ensures StartsWithPair(s) ==> (Escape(s) + rest)[0] == s[0]
  {
    if !StartsWithPair(s) {
      EscapeReadable(s[0], Escape(s[1..]));
    }
  }

  /** The text after the first unit, when that unit stands alone. */
  lemma AfterUnit(s: Text, rest: Text)
    requires s != [] && !StartsWithPair(s)
    ensures var t := Escape(s) + rest; var (u, n) := FirstUnit(t);
      u == s[0] && n <= |t| && t[n..] == Escape(s[1..]) + rest
    ensures HighSurrogate(s[0]) ==> (Escape(s) + rest)[0] == BACKSLASH
  {
    var unit, tail := EscapeUnit(s[0]), Escape(s[1..]) + rest;
    Assoc(unit, Escape(s[1..]), rest);
    EscapeReadable(s[0], tail);
    assert (unit + tail)[|unit|..] == tail;
  }

  lemma AfterPair(s: Text, rest: Text)
    requires StartsWithPair(s)
    ensures var t := Escape(s) + rest; |t| >= 2 && t[..2] == s[..2] && t[2..] == Escape(s[2..]) + rest
  {}

  /** Two escaped strings followed by a quote are equal only for the same string and rest. */
  lemma {:induction false} EscapeInjective(s: Text, t: Text, r: Text, q: Text)
    requires Escape(s) + ([QUOTE] + r) == Escape(t) + ([QUOTE] + q)
    ensures s == t && r == q
    decreases |s|
  {
    if s == [] || t == [] {
      if s != [] { EscapeStarts(s, [QUOTE] + r); }
      if t != [] { EscapeStarts(t, [QUOTE] + q); }
      assert s == [] ==> Escape(s) + ([QUOTE] + r) == [QUOTE] + r;
      assert t == [] ==> Escape(t) + ([QUOTE] + q) == [QUOTE] + q;
      assert ([QUOTE] + r)[1..] == r && ([QUOTE] + q)[1..] == q;
    } else {
      EscapeStarts(s, [QUOTE] + r);
      EscapeStarts(t, [QUOTE] + q);
      if StartsWithPair(s) && StartsWithPair(t) {
        AfterPair(s, [QUOTE] + r);
        AfterPair(t, [QUOTE] + q);
        EscapeInjective(s[2..], t[2..], r, q);
        assert s == s[..2] + s[2..] && t == t[..2] + t[2..];
      } else if StartsWithPair(s) {
        AfterUnit(t, [QUOTE] + q);
      } else if StartsWithPair(t) {
        AfterUnit(s, [QUOTE] + r);
      } else {
        AfterUnit(s, [QUOTE] + r);
        AfterUnit(t, [QUOTE] + q);
        EscapeInjective(s[1..], t[1..], r, q);
        assert s == [s[0]] + s[1..] && t == [t[0]] + t[1..];
      }
    }
  }

  lemma QuoteInjective(s: Text, t: Text, r: Text, q: Text)
    requires Quote(s) + r == Quote(t) + q
    ensures s == t && r == q
  {
    assert (Quote(s) + r)[1..] == Escape(s) + ([QUOTE] + r);
    assert (Quote(t) + q)[1..] == Escape(t) + ([QUOTE] + q);
    EscapeInjective(s, t, r, q);
  }

  // --- Values, printed as they stand ---

  /** `parts.join(',')`. */
  function Join(parts: seq<Text>): Text {
    if parts == [] then []
    else if |parts| == 1 then parts[0]
    else parts[0] + [COMMA] + Join(parts[1..])
  }

  function Print(v: Json): Text
    decreases Size(v), 0
  {
    match v
    case Null => [110, 117, 108, 108]
    case Bool(b) => if b then [116, 114, 117, 101] else [102, 97, 108, 115, 101]
    case Number(digits) => digits
    case String(text) => Quote(text)
    case Array(items) => [OPEN_BRACKET] + Join(PrintItems(items)) + [CLOSE_BRACKET]
    case Object(fields) => [OPEN_BRACE] + Join(PrintFields(fields)) + [CLOSE_BRACE]
  }

  function PrintItems(items: seq<Json>): (r: seq<Text>)
    ensures |r| == |items|
    decreases ItemsSize(items), 1
  {
    if items == [] then [] else [Print(items[0])] + PrintItems(items[1..])
  }

  function PrintField(f: Field): Text
    decreases Size(f.value), 1
  {
    Quote(f.key) + [COLON] + Print(f.value)
  }

  function PrintFields(fields: seq<Field>): (r: seq<Text>)
    ensures |r| == |fields|
    decreases FieldsSize(fields), 2
  {
    if fields == [] then [] else [PrintField(fields[0])] + PrintFields(fields[1..])
  }

  // --- Unique readability ---

  predicate NumberUnit(u: CodeUnit) {
    48 <= u <= 57 || u == 43 || u == 45 || u == 46 || u == 101
  }

  /** Every number inside is a non-empty run of the characters numbers are printed with. */
  predicate Printable(v: Json)
    decreases Size(v), 0
  {
    match v
    case Number(digits) => digits != [] && forall i :: 0 <= i < |digits| ==> NumberUnit(digits[i])
    case Array(items) => PrintableItems(items)
    case Object(fields) => PrintableFields(fields)
    case _ => true
  }

  predicate PrintableItems(items: seq<Json>)
    decreases ItemsSize(items), 1
  {
    items != [] ==> Printable(items[0]) && PrintableItems(items[1..])
  }

  predicate PrintableFields(fields: seq<Field>)
    decreases FieldsSize(fields), 1
  {
    fields != [] ==> Printable(fields[0].value) && PrintableFields(fields[1..])
  }

  /** What can follow a value: nothing, a comma, or a closing bracket or brace. */
  predicate Delimited(r: Text) {
    r == [] || r[0] == COMMA || r[0] == CLOSE_BRACKET || r[0] == CLOSE_BRACE
  }

  /** The first character tells the kind of value. */
  predicate HeadFits(v: Json, u: CodeUnit) {
    match v
    case Null => u == 110
    case Bool(b) => u == if b then 116 else 102
    case Number(_) => NumberUnit(u)
    case String(_) => u == QUOTE
    case Array(_) => u == OPEN_BRACKET
    case Object(_) => u == OPEN_BRACE
  }

  lemma PrintHead(v: Json, r: Text)
    requires Printable(v)
    ensures Print(v) != [] && HeadFits(v, (Print(v) + r)[0])
  {}

  lemma NumberInjective(a: Text, b: Text, r: Text, q: Text)
    requires a + r == b + q && Delimited(r) && Delimited(q)
    requires forall i :: 0 <= i < |a| ==> NumberUnit(a[i])
    requires forall i :: 0 <= i < |b| ==> NumberUnit(b[i])
    ensures a == b && r == q
  {
    assert forall i :: 0 <= i < |a| ==> NumberUnit((a + r)[i]);
    assert forall i :: 0 <= i < |b| ==> NumberUnit((b + q)[i]);
    assert r != [] ==> !NumberUnit((a + r)[|a|]);
    assert q != [] ==> !NumberUnit((b + q)[|b|]);
    assert |a + r| == |b + q|;
    assert |a| == |b|;
    SamePrefix(a, b, r, q);
  }

  lemma SamePrefix(a: Text, b: Text, r: Text, q: Text)
    requires |a| == |b| && a + r == b + q
    ensures a == b && r == q
  {
    assert (a + r)[..|a|] == a && (b + q)[..|b|] == b;
    assert (a + r)[|a|..] == r && (b + q)[|b|..] == q;
  }

  lemma {:induction false} PrintInjective(v: Json, w: Json, r: Text, q: Text)
    requires Printable(v) && Printable(w) && Delimited(r) && Delimited(q)
    requires Print(v) + r == Print(w) + q
    ensures v == w && r == q
    decreases Size(v), 0
  {
    PrintHead(v, r);
    PrintHead(w, q);
    match v
    case Null => SamePrefix(Print(v), Print(w), r, q);
    case Bool(_) => SamePrefix(Print(v), Print(w), r, q);
    case Number(digits) => NumberInjective(digits, w.digits, r, q);
    case String(text) => QuoteInjective(text, w.text, r, q);
    case Array(items) =>
      Unwrap(OPEN_BRACKET, Join(PrintItems(items)), CLOSE_BRACKET, r);
      Unwrap(OPEN_BRACKET, Join(PrintItems(w.items)), CLOSE_BRACKET, q);
      ItemsInjective(items, w.items, r, q);
    case Object(fields) =>
      Unwrap(OPEN_BRACE, Join(PrintFields(fields)), CLOSE_BRACE, r);
      Unwrap(OPEN_BRACE, Join(PrintFields(w.fields)), CLOSE_BRACE, q);
      FieldsInjective(fields, w.fields, r, q);
  }

  lemma Unwrap(open: CodeUnit, inside: Text, close: CodeUnit, r: Text)
    ensures ([open] + inside + [close] + r)[1..] == inside + ([close] + r)
  {}

  /** What follows the first part of a joined list. */
  function AfterFirst(parts: seq<Text>, close: CodeUnit, r: Text): Text
    requires parts != []
  {
    if |parts| == 1 then [close] + r else [COMMA] + (Join(parts[1..]) + ([close] + r))
  }

  lemma Assoc(a: Text, b: Text, c: Text)
    ensures (a + b) + c == a + (b + c)
  {}

  lemma JoinSplits(parts: seq<Text>, close: CodeUnit, r: Text)
    requires parts != []
    ensures Join(parts) + ([close] + r) == parts[0] + AfterFirst(parts, close, r)
  {
    if |parts| > 1 {
      var rest, tail := Join(parts[1..]), [close] + r;
      Assoc(parts[0] + [COMMA], rest, tail);
      Assoc(parts[0], [COMMA], rest + tail);
    }
  }

  lemma AfterFirstInjective(a: seq<Text>, b: seq<Text>, close: CodeUnit, r: Text, q: Text)
    requires a != [] && b != [] && close != COMMA
    requires AfterFirst(a, close, r) == AfterFirst(b, close, q)
    ensures |a| == 1 <==> |b| == 1
    ensures |a| == 1 ==> r == q
    ensures |a| > 1 ==> Join(a[1..]) + ([close] + r) == Join(b[1..]) + ([close] + q)
  {
    var x, y := AfterFirst(a, close, r), AfterFirst(b, close, q);
    assert |a| > 1 ==> x[0] == COMMA && x[1..] == Join(a[1..]) + ([close] + r);
    assert |b| > 1 ==> y[0] == COMMA && y[1..] == Join(b[1..]) + ([close] + q);
    assert |a| == 1 ==> x[0] == close && x[1..] == r;
    assert |b| == 1 ==> y[0] == close && y[1..] == q;
  }

  lemma {:induction false} ItemsInjective(xs: seq<Json>, ys: seq<Json>, r: Text, q: Text)
    requires PrintableItems(xs) && PrintableItems(ys)
    requires Join(PrintItems(xs)) + ([CLOSE_BRACKET] + r) == Join(PrintItems(ys)) + ([CLOSE_BRACKET] + q)
    ensures xs == ys && r == q
    decreases ItemsSize(xs), 1
  {
    var a, b := PrintItems(xs), PrintItems(ys);
    if xs == [] || ys == [] {
      if xs != [] {
        JoinSplits(a, CLOSE_BRACKET, r);
        PrintHead(xs[0], AfterFirst(a, CLOSE_BRACKET, r));
      }
      if ys != [] {
        JoinSplits(b, CLOSE_BRACKET, q);
        PrintHead(ys[0], AfterFirst(b, CLOSE_BRACKET, q));
      }
      assert a == [] ==> Join(a) + ([CLOSE_BRACKET] + r) == [CLOSE_BRACKET] + r;
      assert b == [] ==> Join(b) + ([CLOSE_BRACKET] + q) == [CLOSE_BRACKET] + q;
      assert ([CLOSE_BRACKET] + r)[1..] == r && ([CLOSE_BRACKET] + q)[1..] == q;
    } else {
      JoinSplits(a, CLOSE_BRACKET, r);
      JoinSplits(b, CLOSE_BRACKET, q);
      PrintInjective(xs[0], ys[0], AfterFirst(a, CLOSE_BRACKET, r), AfterFirst(b, CLOSE_BRACKET, q));
      AfterFirstInjective(a, b, CLOSE_BRACKET, r, q);
      if |xs| > 1 {
        ItemsInjective(xs[1..], ys[1..], r, q);
      }
      assert xs == [xs[0]] + xs[1..] && ys == [ys[0]] + ys[1..];
    }
  }

  lemma FieldHead(f: Field, r: Text)
    ensures (PrintField(f) + r)[0] == QUOTE
  {}

  lemma FieldSplits(f: Field, r: Text)
    ensures PrintField(f) + r == Quote(f.key) + ([COLON] + (Print(f.value) + r))
  {
    Assoc(Quote(f.key) + [COLON], Print(f.value), r);
    Assoc(Quote(f.key), [COLON], Print(f.value) + r);
  }

  lemma FieldInjective(f: Field, g: Field, r: Text, q: Text)
    requires PrintField(f) + r == PrintField(g) + q
    ensures f.key == g.key && Print(f.value) + r == Print(g.value) + q
  {
    var x, y := [COLON] + (Print(f.value) + r), [COLON] + (Print(g.value) + q);
    FieldSplits(f, r);
    FieldSplits(g, q);
    QuoteInjective(f.key, g.key, x, y);
    assert x[1..] == Print(f.value) + r && y[1..] == Print(g.value) + q;
  }

  lemma {:induction false} FieldsInjective(fs: seq<Field>, gs: seq<Field>, r: Text, q: Text)
    requires PrintableFields(fs) && PrintableFields(gs)
    requires Join(PrintFields(fs)) + ([CLOSE_BRACE] + r) == Join(PrintFields(gs)) + ([CLOSE_BRACE] + q)
    ensures fs == gs && r == q
    decreases FieldsSize(fs), 1
  {
    var a, b := PrintFields(fs), PrintFields(gs);
    if fs == [] || gs == [] {
      if fs != [] {
        JoinSplits(a, CLOSE_BRACE, r);
        FieldHead(fs[0], AfterFirst(a, CLOSE_BRACE, r));
      }
      if gs != [] {
        JoinSplits(b, CLOSE_BRACE, q);
        FieldHead(gs[0], AfterFirst(b, CLOSE_BRACE, q));
      }
      assert a == [] ==> Join(a) + ([CLOSE_BRACE] + r) == [CLOSE_BRACE] + r;
      assert b == [] ==> Join(b) + ([CLOSE_BRACE] + q) == [CLOSE_BRACE] + q;
      assert ([CLOSE_BRACE] + r)[1..] == r && ([CLOSE_BRACE] + q)[1..] == q;
    } else {
      JoinSplits(a, CLOSE_BRACE, r);
      JoinSplits(b, CLOSE_BRACE, q);
      var x, y := AfterFirst(a, CLOSE_BRACE, r), AfterFirst(b, CLOSE_BRACE, q);
      FieldInjective(fs[0], gs[0], x, y);
      PrintInjective(fs[0].value, gs[0].value, x, y);
      AfterFirstInjective(a, b, CLOSE_BRACE, r, q);
      if |fs| > 1 {
        FieldsInjective(fs[1..], gs[1..], r, q);
      }
      assert fs == [fs[0]] + fs[1..] && gs == [gs[0]] + gs[1..];
    }
  }

  // --- The canonical text ---

  type KeyOrder = (Text, Text) -> bool

  /** `localeCompare` is total and transitive; distinct texts may compare as equal. */
  ghost predicate TotalPreorder(le: KeyOrder) {
    && (forall a, b :: le(a, b) || le(b, a))
    && (forall a, b, c :: le(a, b) && le(b, c) ==> le(a, c))
  }

  predicate Tie(le: KeyOrder, a: Text, b: Text) {
    le(a, b) && le(b, a)
  }

  function InsertField(f: Field, sorted: seq<Field>, le: KeyOrder): (r: seq<Field>)
    ensures FieldsSize(r) == 1 + Size(f.value) + FieldsSize(sorted)
    ensures |r| == |sorted| + 1
    ensures forall x :: x in r <==> x == f || x in sorted
  {
    if sorted == [] || le(f.key, sorted[0].key) then [f] + sorted
    else
      var rest := InsertField(f, sorted[1..], le);
      assert ([sorted[0]] + rest)[1..] == rest;
      [sorted[0]] + rest
  }

  /** `Object.entries(value).sort(([a], [b]) => a.localeCompare(b))`. */
  function SortFields(fields: seq<Field>, le: KeyOrder): (r: seq<Field>)
    ensures FieldsSize(r) == FieldsSize(fields)
    ensures |r| == |fields|
    ensures forall x :: x in r <==> x in fields
  {
    if fields == [] then [] else InsertField(fields[0], SortFields(fields[1..], le), le)
  }

  function Canonical(v: Json, le: KeyOrder): Text
    decreases Size(v), 0
  {
    match v
    case Array(items) => [OPEN_BRACKET] + Join(CanonicalItems(items, le)) + [CLOSE_BRACKET]
    case Object(fields) => [OPEN_BRACE] + Join(CanonicalFields(SortFields(fields, le), le)) + [CLOSE_BRACE]
    case _ => Print(v)
  }

  function CanonicalItems(items: seq<Json>, le: KeyOrder): seq<Text>
    decreases ItemsSize(items), 1
  {
    if items == [] then [] else [Canonical(items[0], le)] + CanonicalItems(items[1..], le)
  }

  function CanonicalFields(fields: seq<Field>, le: KeyOrder): seq<Text>
    decreases FieldsSize(fields), 1
  {
    if fields == [] then []
    else [Quote(fields[0].key) + [COLON] + Canonical(fields[0].value, le)] + CanonicalFields(fields[1..], le)
  }

  /** The same value with the keys of every object in order. */
  function Sorted(v: Json, le: KeyOrder): Json
    decreases Size(v), 0
  {
    match v
    case Array(items) => Array(SortedItems(items, le))
    case Object(fields) => Object(SortedFields(SortFields(fields, le), le))
    case _ => v
  }

  function SortedItems(items: seq<Json>, le: KeyOrder): (r: seq<Json>)
    ensures |r| == |items|
    decreases ItemsSize(items), 1
  {
    if items == [] then [] else [Sorted(items[0], le)] + SortedItems(items[1..], le)
  }

  function SortedFields(fields: seq<Field>, le: KeyOrder): (r: seq<Field>)
    ensures |r| == |fields|
    decreases FieldsSize(fields), 1
  {
    if fields == [] then []
    else [Field(fields[0].key, Sorted(fields[0].value, le))] + SortedFields(fields[1..], le)
  }

  lemma {:induction false} CanonicalPrintsSorted(v: Json, le: KeyOrder)
    ensures Canonical(v, le) == Print(Sorted(v, le))
    decreases Size(v), 0
  {
    match v
    case Array(items) => ItemsPrintSorted(items, le);
    case Object(fields) => FieldsPrintSorted(SortFields(fields, le), le);
    case _ =>
  }

  lemma {:induction false} ItemsPrintSorted(items: seq<Json>, le: KeyOrder)
    ensures CanonicalItems(items, le) == PrintItems(SortedItems(items, le))
    decreases ItemsSize(items), 1
  {
    if items != [] {
      CanonicalPrintsSorted(items[0], le);
      ItemsPrintSorted(items[1..], le);
      assert SortedItems(items, le)[1..] == SortedItems(items[1..], le);
    }
  }

  lemma {:induction false} FieldsPrintSorted(fields: seq<Field>, le: KeyOrder)
    ensures CanonicalFields(fields, le) == PrintFields(SortedFields(fields, le))
    decreases FieldsSize(fields), 1
  {
    if fields != [] {
      CanonicalPrintsSorted(fields[0].value, le);
      FieldsPrintSorted(fields[1..], le);
      assert SortedFields(fields, le)[1..] == SortedFields(fields[1..], le);
    }
  }

  lemma PrintableMembers(fields: seq<Field>)
    ensures PrintableFields(fields) <==> forall f :: f in fields ==> Printable(f.value)
  {
    if fields != [] {
      PrintableMembers(fields[1..]);
      assert fields == [fields[0]] + fields[1..];
    }
  }

  lemma {:induction false} SortedPrintable(v: Json, le: KeyOrder)
    requires Printable(v)
    ensures Printable(Sorted(v, le))
    decreases Size(v), 0
  {
    match v
    case Array(items) => SortedItemsPrintable(items, le);
    case Object(fields) =>
      PrintableMembers(fields);
      PrintableMembers(SortFields(fields, le));
      SortedFieldsPrintable(SortFields(fields, le), le);
    case _ =>
  }

  lemma {:induction false} SortedItemsPrintable(items: seq<Json>, le: KeyOrder)
    requires PrintableItems(items)
    ensures PrintableItems(SortedItems(items, le))
    decreases ItemsSize(items), 1
  {
    if items != [] {
      SortedPrintable(items[0], le);
      SortedItemsPrintable(items[1..], le);
      assert SortedItems(items, le)[1..] == SortedItems(items[1..], le);
    }
  }

  lemma {:induction false} SortedFieldsPrintable(fields: seq<Field>, le: KeyOrder)
    requires PrintableFields(fields)
    ensures PrintableFields(SortedFields(fields, le))
    decreases FieldsSize(fields), 1
  {
    if fields != [] {
      SortedPrintable(fields[0].value, le);
      SortedFieldsPrintable(fields[1..], le);
      assert SortedFields(fields, le)[1..] == SortedFields(fields[1..], le);
    }
  }

  /** Two values print the same canonical text exactly when they agree after sorting keys. */
  lemma CanonicalInjective(v: Json, w: Json, le: KeyOrder)
    requires Printable(v) && Printable(w)
    ensures Canonical(v, le) == Canonical(w, le) <==> Sorted(v, le) == Sorted(w, le)
  {
    CanonicalPrintsSorted(v, le);
    CanonicalPrintsSorted(w, le);
    if Canonical(v, le) == Canonical(w, le) {
      SortedPrintable(v, le);
      SortedPrintable(w, le);
      assert Print(Sorted(v, le)) + [] == Print(Sorted(w, le)) + [];
      PrintInjective(Sorted(v, le), Sorted(w, le), [], []);
    }
  }

  // --- Equality up to key order ---

  /** No object inside repeats a key, as JavaScript objects never do. */
  predicate KeysDistinct(v: Json)
    decreases Size(v), 0
  {
    match v
    case Array(items) => forall i :: 0 <= i < |items| ==> ItemSmaller(items, i) && KeysDistinct(items[i])
    case Object(fields) =>
      && (forall i, j :: 0 <= i < j < |fields| ==> fields[i].key != fields[j].key)
      && forall i :: 0 <= i < |fields| ==> FieldSmaller(fields, i) && KeysDistinct(fields[i].value)
    case _ => true
  }

  predicate ItemSmaller(items: seq<Json>, i: nat)
    requires i < |items|
    ensures ItemSmaller(items, i) && Size(items[i]) < 1 + ItemsSize(items)
  {
    ItemSize(items, i);
    true
  }

  predicate FieldSmaller(fields: seq<Field>, i: nat)
    requires i < |fields|
    ensures FieldSmaller(fields, i) && Size(fields[i].value) < 1 + FieldsSize(fields)
  {
    FieldSize(fields, i);
    true
  }

  lemma {:induction false} ItemSize(items: seq<Json>, i: nat)
    requires i < |items|
    ensures Size(items[i]) <= ItemsSize(items)
  {
    if i > 0 { ItemSize(items[1..], i - 1); }
  }

  lemma {:induction false} FieldSize(fields: seq<Field>, i: nat)
    requires i < |fields|
    ensures Size(fields[i].value) <= FieldsSize(fields)
  {
    if i > 0 { FieldSize(fields[1..], i - 1); }
  }

  /** The same value, except that objects may list their keys in another order. */
  predicate Alike(v: Json, w: Json)
    decreases Size(v), 0
  {
    match v
    case Array(items) =>
      w.Array? && |w.items| == |items|
      && forall i :: 0 <= i < |items| ==> ItemSmaller(items, i) && Alike(items[i], w.items[i])
    case Object(fields) =>
      w.Object? && |w.fields| == |fields|
      && forall i :: 0 <= i < |fields| ==> FieldSmaller(fields, i) && HasAlike(fields[i], w.fields)
    case _ => v == w
  }

  predicate HasAlike(f: Field, others: seq<Field>)
    decreases Size(f.value), 1
  {
    exists j :: 0 <= j < |others| && others[j].key == f.key && Alike(f.value, others[j].value)
  }

  predicate KeysAscend(fields: seq<Field>, le: KeyOrder) {
    forall i, j :: 0 <= i < j < |fields| ==> le(fields[i].key, fields[j].key) && !le(fields[j].key, fields[i].key)
  }

  /** No two keys of the list compare as equal. */
  predicate KeysApart(fields: seq<Field>, le: KeyOrder) {
    forall i, j :: 0 <= i < j < |fields| ==> !Tie(le, fields[i].key, fields[j].key)
  }

  /** No object inside has two keys that compare as equal. */
  predicate TieFree(v: Json, le: KeyOrder)
    decreases Size(v), 0
  {
    match v
    case Array(items) => forall i :: 0 <= i < |items| ==> ItemSmaller(items, i) && TieFree(items[i], le)
    case Object(fields) =>
      KeysApart(fields, le) && forall i :: 0 <= i < |fields| ==> FieldSmaller(fields, i) && TieFree(fields[i].value, le)
    case _ => true
  }

  predicate DistinctKeys(fields: seq<Field>) {
    forall i, j :: 0 <= i < j < |fields| ==> fields[i].key != fields[j].key
  }

  lemma {:induction false} InsertAscends(f: Field, sorted: seq<Field>, le: KeyOrder)
    requires TotalPreorder(le) && KeysAscend(sorted, le)
    requires forall x :: x in sorted ==> !Tie(le, f.key, x.key)
    ensures KeysAscend(InsertField(f, sorted, le), le)
  {
    if sorted == [] || le(f.key, sorted[0].key) {
      forall j | 0 <= j < |sorted| ensures le(f.key, sorted[j].key) && !le(sorted[j].key, f.key) {
        assert sorted[j] in sorted;
        assert j > 0 ==> le(sorted[0].key, sorted[j].key);
      }
    } else {
      var rest := InsertField(f, sorted[1..], le);
      InsertAscends(f, sorted[1..], le);
      forall j | 0 <= j < |rest| ensures le(sorted[0].key, rest[j].key) && !le(rest[j].key, sorted[0].key) {
        assert rest[j] in rest;
        if rest[j] != f {
          var k :| 0 <= k < |sorted[1..]| && sorted[1..][k] == rest[j];
          assert le(sorted[0].key, sorted[k + 1].key);
        }
      }
    }
  }

  lemma {:induction false} SortAscends(fields: seq<Field>, le: KeyOrder)
    requires TotalPreorder(le) && KeysApart(fields, le)
    ensures KeysAscend(SortFields(fields, le), le)
  {
    if fields != [] {
      SortAscends(fields[1..], le);
      forall x | x in SortFields(fields[1..], le) ensures !Tie(le, fields[0].key, x.key) {
        var k :| 0 <= k < |fields[1..]| && fields[1..][k] == x;
        assert fields[k + 1] == x;
      }
      InsertAscends(fields[0], SortFields(fields[1..], le), le);
    }
  }

  lemma SortedFieldsAt(fields: seq<Field>, le: KeyOrder, i: nat)
    requires i < |fields|
    ensures SortedFields(fields, le)[i] == Field(fields[i].key, Sorted(fields[i].value, le))
  {
    if i > 0 {
      SortedFieldsAt(fields[1..], le, i - 1);
      assert SortedFields(fields, le)[1..] == SortedFields(fields[1..], le);
    }
  }

  lemma SortedItemsAt(items: seq<Json>, le: KeyOrder, i: nat)
    requires i < |items|
    ensures SortedItems(items, le)[i] == Sorted(items[i], le)
  {
    if i > 0 {
      SortedItemsAt(items[1..], le, i - 1);
      assert SortedItems(items, le)[1..] == SortedItems(items[1..], le);
    }
  }

  lemma PositionOf(f: Field, fields: seq<Field>) returns (i: nat)
    requires f in fields
    ensures i < |fields| && fields[i] == f
  {
    i :| 0 <= i < |fields| && fields[i] == f;
  }

  /** Equal after sorting keys implies equal up to key order. */
  lemma {:induction false} SortedEqualAlike(v: Json, w: Json, le: KeyOrder)
    requires Sorted(v, le) == Sorted(w, le)
    ensures Alike(v, w)
    decreases Size(v)
  {
    match v
    case Array(items) =>
      forall i | 0 <= i < |items| ensures Alike(items[i], w.items[i]) {
        ItemSize(items, i);
        SortedItemsAt(items, le, i);
        SortedItemsAt(w.items, le, i);
        SortedEqualAlike(items[i], w.items[i], le);
      }
    case Object(fields) =>
      var a, b := SortFields(fields, le), SortFields(w.fields, le);
      forall i | 0 <= i < |fields| ensures HasAlike(fields[i], w.fields) {
        FieldSize(fields, i);
        assert fields[i] in fields;
        var k := PositionOf(fields[i], a);
        SortedFieldsAt(a, le, k);
        SortedFieldsAt(b, le, k);
        assert b[k] in b;
        var j := PositionOf(b[k], w.fields);
        SortedEqualAlike(fields[i].value, w.fields[j].value, le);
      }
    case _ =>
  }

  function KeySet(fields: seq<Field>): set<Text> {
    set f | f in fields :: f.key
  }

  lemma FindKey(fields: seq<Field>, key: Text) returns (i: nat)
    requires key in KeySet(fields)
    ensures i < |fields| && fields[i].key == key
  {
    var f :| f in fields && f.key == key;
    i := PositionOf(f, fields);
  }

  /** Two ascending lists with the same keys have them in the same places. */
  lemma {:induction false} SameKeysSamePlaces(a: seq<Field>, b: seq<Field>, le: KeyOrder)
    requires KeysAscend(a, le) && KeysAscend(b, le) && |a| == |b|
    requires KeySet(a) == KeySet(b)
    ensures forall i :: 0 <= i < |a| ==> a[i].key == b[i].key
  {
    if a != [] {
      LeastAgrees(a, b, le);
      AscendDistinct(a, le);
      AscendDistinct(b, le);
      TailKeys(a);
      TailKeys(b);
      SameKeysSamePlaces(a[1..], b[1..], le);
      forall i | 0 <= i < |a| ensures a[i].key == b[i].key {
        if i > 0 { assert a[1..][i - 1].key == b[1..][i - 1].key; }
      }
    }
  }

  lemma TailKeys(a: seq<Field>)
    requires a != [] && DistinctKeys(a)
    ensures KeySet(a[1..]) == KeySet(a) - {a[0].key}
  {
    forall k | k in KeySet(a) - {a[0].key} ensures k in KeySet(a[1..]) {
      var i := FindKey(a, k);
      assert a[1..][i - 1] in a[1..];
    }
    forall k | k in KeySet(a[1..]) ensures k in KeySet(a) - {a[0].key} {
      var i := FindKey(a[1..], k);
      assert a[i + 1] in a;
    }
  }

  lemma KeysAmong(a: seq<Field>, b: seq<Field>)
    requires DistinctKeys(a) && |a| == |b| && KeySet(a) <= KeySet(b)
    ensures KeySet(a) == KeySet(b)
  {
    KeyCount(a);
    KeyBound(b);
    if k :| k in KeySet(b) && k !in KeySet(a) {
      Smaller(KeySet(a), KeySet(b), k);
      assert false;
    }
  }

  lemma Smaller(a: set<Text>, b: set<Text>, k: Text)
    requires a <= b && k in b && k !in a
    ensures |a| < |b|
  {
    SubsetSize(a, b - {k});
  }

  lemma {:induction false} SubsetSize(a: set<Text>, b: set<Text>)
    requires a <= b
    ensures |a| <= |b|
  {
    if x :| x in a {
      SubsetSize(a - {x}, b - {x});
    }
  }

  lemma {:induction false} KeyCount(a: seq<Field>)
    requires DistinctKeys(a)
    ensures |KeySet(a)| == |a|
  {
    if a != [] {
      KeyCount(a[1..]);
      TailKeys(a);
      assert a[0] in a;
      assert KeySet(a) == {a[0].key} + KeySet(a[1..]);
    }
  }

  lemma {:induction false} KeyBound(b: seq<Field>)
    ensures |KeySet(b)| <= |b|
  {
    if b != [] {
      KeyBound(b[1..]);
      assert KeySet(b) == {b[0].key} + KeySet(b[1..]) by {
        assert b == [b[0]] + b[1..];
      }
    }
  }

  lemma LeastAgrees(a: seq<Field>, b: seq<Field>, le: KeyOrder)
    requires KeysAscend(a, le) && KeysAscend(b, le) && |a| == |b| && a != []
    requires KeySet(a) == KeySet(b)
    ensures a[0].key == b[0].key
  {
    assert a[0] in a && b[0] in b;
    var j := FindKey(b, a[0].key);
    var i := FindKey(a, b[0].key);
  }

  /** Some field of the list has the key, with the same value after sorting. */
  predicate Matched(f: Field, b: seq<Field>, le: KeyOrder) {
    exists j :: 0 <= j < |b| && b[j].key == f.key && Sorted(b[j].value, le) == Sorted(f.value, le)
  }

  lemma AscendDistinct(a: seq<Field>, le: KeyOrder)
    requires KeysAscend(a, le)
    ensures DistinctKeys(a)
  {
  }

  /** Two objects without repeated keys that have the same keys: ties in one are ties in the other. */
  lemma ApartAlso(a: seq<Field>, b: seq<Field>, le: KeyOrder)
    requires KeysApart(a, le) && DistinctKeys(b) && KeySet(b) <= KeySet(a)
    ensures KeysApart(b, le)
  {
    forall i, j | 0 <= i < j < |b| ensures !Tie(le, b[i].key, b[j].key) {
      assert b[i] in b && b[j] in b;
      var k := FindKey(a, b[i].key);
      var l := FindKey(a, b[j].key);
      assert k < l ==> !Tie(le, a[k].key, a[l].key);
      assert l < k ==> !Tie(le, a[l].key, a[k].key);
    }
  }

  lemma MatchedKeys(a: seq<Field>, b: seq<Field>, le: KeyOrder)
    requires DistinctKeys(a) && |a| == |b|
    requires forall k :: 0 <= k < |a| ==> Matched(a[k], b, le)
    ensures KeySet(a) == KeySet(b)
  {
    forall key | key in KeySet(a) ensures key in KeySet(b) {
      var k := FindKey(a, key);
      assert Matched(a[k], b, le);
      var j :| 0 <= j < |b| && b[j].key == a[k].key;
      assert b[j] in b;
    }
    KeysAmong(a, b);
  }

  lemma MatchedAt(a: seq<Field>, b: seq<Field>, le: KeyOrder, k: nat)
    requires k < |a| && k < |b| && DistinctKeys(b) && a[k].key == b[k].key && Matched(a[k], b, le)
    ensures SortedFields(a, le)[k] == SortedFields(b, le)[k]
  {
    var j :| 0 <= j < |b| && b[j].key == a[k].key && Sorted(b[j].value, le) == Sorted(a[k].value, le);
    SortedFieldsAt(a, le, k);
    SortedFieldsAt(b, le, k);
  }

  lemma MatchedFieldsAgree(a: seq<Field>, b: seq<Field>, le: KeyOrder)
    requires KeysAscend(a, le) && KeysAscend(b, le) && |a| == |b|
    requires forall k :: 0 <= k < |a| ==> Matched(a[k], b, le)
    ensures SortedFields(a, le) == SortedFields(b, le)
  {
    AscendDistinct(a, le);
    AscendDistinct(b, le);
    MatchedKeys(a, b, le);
    SameKeysSamePlaces(a, b, le);
    forall k | 0 <= k < |a| ensures SortedFields(a, le)[k] == SortedFields(b, le)[k] {
      MatchedAt(a, b, le, k);
    }
  }

  lemma MatchCarries(f: Field, g: Field, fields: seq<Field>, le: KeyOrder)
    requires g in fields && g.key == f.key && Sorted(g.value, le) == Sorted(f.value, le)
    ensures Matched(f, fields, le)
  {
    var j := PositionOf(g, fields);
  }

  lemma AlikeKeys(fields: seq<Field>, others: seq<Field>)
    requires Alike(Object(fields), Object(others)) && DistinctKeys(fields)
    ensures KeySet(others) == KeySet(fields)
  {
    forall key | key in KeySet(fields) ensures key in KeySet(others) {
      var i := FindKey(fields, key);
      assert HasAlike(fields[i], others);
      var j :| 0 <= j < |others| && others[j].key == fields[i].key;
      assert others[j] in others;
    }
    KeysAmong(fields, others);
  }

  /** Equal up to key order implies equal after sorting keys, if no keys tie. */
  lemma {:induction false} AlikeSortedEqual(v: Json, w: Json, le: KeyOrder)
    requires TotalPreorder(le) && KeysDistinct(v) && KeysDistinct(w) && TieFree(v, le) && Alike(v, w)
    ensures Sorted(v, le) == Sorted(w, le)
    decreases Size(v)
  {
    match v
    case Array(items) =>
      forall i | 0 <= i < |items| ensures SortedItems(items, le)[i] == SortedItems(w.items, le)[i] {
        ItemSize(items, i);
        SortedItemsAt(items, le, i);
        SortedItemsAt(w.items, le, i);
        assert ItemSmaller(items, i) && ItemSmaller(w.items, i);
        AlikeSortedEqual(items[i], w.items[i], le);
      }
    case Object(fields) =>
      AlikeKeys(fields, w.fields);
      ApartAlso(fields, w.fields, le);
      var a, b := SortFields(fields, le), SortFields(w.fields, le);
      SortAscends(fields, le);
      SortAscends(w.fields, le);
      forall k | 0 <= k < |a| ensures Matched(a[k], b, le) {
        assert a[k] in a;
        var i := PositionOf(a[k], fields);
        FieldSize(fields, i);
        assert FieldSmaller(fields, i) && HasAlike(fields[i], w.fields);
        var j :| 0 <= j < |w.fields| && w.fields[j].key == fields[i].key && Alike(fields[i].value, w.fields[j].value);
        assert FieldSmaller(w.fields, j);
        AlikeSortedEqual(fields[i].value, w.fields[j].value, le);
        assert w.fields[j] in w.fields;
        MatchCarries(a[k], w.fields[j], b, le);
      }
      MatchedFieldsAgree(a, b, le);
    case _ =>
  }

  /** Whatever the order on keys, values that print the same text are alike. */
  lemma SameTextAlike(v: Json, w: Json, le: KeyOrder)
    requires Printable(v) && Printable(w) && Canonical(v, le) == Canonical(w, le)
    ensures Alike(v, w)
  {
    CanonicalInjective(v, w, le);
    SortedEqualAlike(v, w, le);
  }

  /**
    For a value in which no two keys of an object compare as equal, the canonical text
    identifies it exactly up to the order of object keys.
  */
  lemma CanonicalTextIdentifies(v: Json, w: Json, le: KeyOrder)
    requires TotalPreorder(le) && Printable(v) && Printable(w) && KeysDistinct(v) && KeysDistinct(w) && TieFree(v, le)
    ensures Canonical(v, le) == Canonical(w, le) <==> Alike(v, w)
  {
    CanonicalInjective(v, w, le);
    if Sorted(v, le) == Sorted(w, le) {
      SortedEqualAlike(v, w, le);
    }
    if Alike(v, w) {
      AlikeSortedEqual(v, w, le);
    }
  }
}
