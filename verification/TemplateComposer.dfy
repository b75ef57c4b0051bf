/**
  The composer of the web client: the slots of a template, the components built from the
  values typed into them, and the values read back from components.
*/
module TemplateComposer {
  import opened Collections
  import opened JsonValues
  import opened TemplateChecker

  datatype Side = HeaderSide | BodySide

  /** A slot, with its key: at most one slot of a list has a given key. */
  datatype ParameterSlot =
    | MediaSlot(format: Format)
    | TextSlot(side: Side, order: int)
    | ReplySlot(index: nat)
    | UrlSlot(index: nat)

  datatype Key = HeaderMedia | TextKey(side: Side, order: int) | ButtonKey(index: nat)

  function KeyOf(s: ParameterSlot): Key {
    match s
    case MediaSlot(_) => HeaderMedia
    case TextSlot(side, order) => TextKey(side, order)
    case ReplySlot(i) => ButtonKey(i)
    case UrlSlot(i) => ButtonKey(i)
  }

  // --- The slots of a template ---

  /** A number `Number.isSafeInteger` and `> 0` let through. */
  predicate IsPosition(p: Placeholder) {
    p.Positional? && 0 < p.number <= MAX_SAFE_INTEGER
  }

  predicate Rising(s: seq<int>) {
    forall i, j :: 0 <= i < j < |s| ==> s[i] < s[j]
  }

  function InsertPosition(n: int, s: seq<int>): (r: seq<int>)
    requires Rising(s)
    ensures Rising(r) && forall x :: x in r <==> x == n || x in s
  {
    if s == [] || n < s[0] then [n] + s
    else if n == s[0] then s
    else
      assert [s[0]] + s[1..] == s;
      var rest := InsertPosition(n, s[1..]);
      RisingCons(s[0], s[1..], rest, n);
      [s[0]] + rest
  }

  lemma RisingCons(a: int, tail: seq<int>, rest: seq<int>, n: int)
    requires Rising([a] + tail) && Rising(rest) && a < n
    requires forall x :: x in rest <==> x == n || x in tail
    ensures Rising([a] + rest)
  {
    var s, r := [a] + tail, [a] + rest;
    forall i, j | 0 <= i < j < |r| ensures r[i] < r[j] {
      if i == 0 && r[j] != n {
        assert r[j] == rest[j - 1] && rest[j - 1] in rest;
        var k :| 0 <= k < |tail| && tail[k] == r[j];
        assert s[0] < s[k + 1];
      } else if i > 0 {
        assert rest[i - 1] < rest[j - 1];
      }
    }
  }

  /** The positions a text refers to, in ascending order and without repetition. */
  function Positions(text: seq<Placeholder>): (r: seq<int>)
    ensures Rising(r)
    ensures forall n :: n in r <==> exists p :: p in text && IsPosition(p) && p.number == n
  {
    if text == [] then []
    else
      var rest, p := Positions(text[1..]), text[0];
      assert forall q :: q in text <==> q == p || q in text[1..];
      if IsPosition(p) then InsertPosition(p.number, rest) else rest
  }

  function TextSlots(side: Side, orders: seq<int>): (r: seq<ParameterSlot>)
    ensures |r| == |orders| && forall i :: 0 <= i < |r| ==> r[i] == TextSlot(side, orders[i])
  {
    seq(|orders|, i requires 0 <= i < |orders| => TextSlot(side, orders[i]))
  }

  function SlotOfButton(b: Button, index: nat): seq<ParameterSlot> {
    if b.kind == URL && b.dynamic then [UrlSlot(index)]
    else if b.kind == QUICK_REPLY then [ReplySlot(index)]
    else []
  }

  function SlotsOfButtons(buttons: seq<Button>): seq<ParameterSlot> {
    if buttons == [] then []
    else
      var last := |buttons| - 1;
      SlotsOfButtons(buttons[..last]) + SlotOfButton(buttons[last], last)
  }

  function SlotsOf(c: Component): seq<ParameterSlot> {
    match c.kind
    case HEADER =>
      (if IsMedia(c.format) then [MediaSlot(c.format)] else []) + TextSlots(HeaderSide, Positions(c.text))
    case BODY => TextSlots(BodySide, Positions(c.text))
    case BUTTONS => SlotsOfButtons(c.buttons)
    case OTHER_COMPONENT => []
  }

  function Slots(template: seq<Component>): seq<ParameterSlot> {
    if template == [] then []
    else
      var last := |template| - 1;
      Slots(template[..last]) + SlotsOf(template[last])
  }

  // --- Composing ---

  predicate IsSpace(ch: char) {
    ch == ' ' || ('\t' <= ch <= '\r') || ch == '\U{A0}' || ch == '\U{1680}' || ('\U{2000}' <= ch <= '\U{200A}')
    || ch == '\U{2028}' || ch == '\U{2029}' || ch == '\U{202F}' || ch == '\U{205F}' || ch == '\U{3000}' || ch == '\U{FEFF}'
  }

  /** `String.prototype.trim`. */
  function Trim(s: string): (r: string)
    ensures r != "" ==> !IsSpace(r[0]) && !IsSpace(r[|r| - 1])
  {
    if s == "" then ""
    else if IsSpace(s[0]) then Trim(s[1..])
    else if IsSpace(s[|s| - 1]) then Trim(s[..|s| - 1])
    else s
  }

  type Values = map<Key, string>

  /** The value a slot is filled with: trimmed, and empty if there is none. */
  function Filling(values: Values, s: ParameterSlot): string {
    if KeyOf(s) in values then Trim(values[KeyOf(s)]) else ""
  }

  datatype Composed =
    | Media(format: Format, asset: string)
    | Reply(index: nat, payload: string)
    | Url(index: nat, text: string)
    | Texts(side: Side, texts: seq<string>)

  /** The component pushed for a slot at once; a text joins its group instead. */
  function Direct(values: Values, s: ParameterSlot): seq<Composed> {
    var value := Filling(values, s);
    if value == "" then []
    else match s
      case MediaSlot(f) => [Media(f, value)]
      case ReplySlot(i) => [Reply(i, value)]
      case UrlSlot(i) => [Url(i, value)]
      case TextSlot(_, _) => []
  }

  function DirectAll(values: Values, slots: seq<ParameterSlot>): seq<Composed> {
    if slots == [] then []
    else DirectAll(values, slots[..|slots| - 1]) + Direct(values, slots[|slots| - 1])
  }

  datatype Entry = Entry(order: int, text: string)

  function GroupOf(values: Values, slots: seq<ParameterSlot>, side: Side): seq<Entry> {
    if slots == [] then []
    else
      var before, s := GroupOf(values, slots[..|slots| - 1], side), slots[|slots| - 1];
      if s.TextSlot? && s.side == side && Filling(values, s) != ""
      then before + [Entry(s.order, Filling(values, s))]
      else before
  }

  /** The sides with a group, in the order their first text came. */
  function Sides(values: Values, slots: seq<ParameterSlot>): seq<Side> {
    if slots == [] then []
    else
      var before, s := Sides(values, slots[..|slots| - 1]), slots[|slots| - 1];
      if s.TextSlot? && Filling(values, s) != "" && s.side !in before then before + [s.side] else before
  }

  function InsertEntry(e: Entry, sorted: seq<Entry>): seq<Entry> {
    if sorted == [] || e.order <= sorted[0].order then [e] + sorted
    else [sorted[0]] + InsertEntry(e, sorted[1..])
  }

  /** The stable sort by order. */
  function SortEntries(entries: seq<Entry>): seq<Entry> {
    if entries == [] then [] else InsertEntry(entries[0], SortEntries(entries[1..]))
  }

  function TextsOf(entries: seq<Entry>): (r: seq<string>)
    ensures |r| == |entries| && forall i :: 0 <= i < |r| ==> r[i] == entries[i].text
  {
    seq(|entries|, i requires 0 <= i < |entries| => entries[i].text)
  }

  function Grouped(values: Values, slots: seq<ParameterSlot>, side: Side): Composed {
    Texts(side, TextsOf(SortEntries(GroupOf(values, slots, side))))
  }

  function GroupedAll(values: Values, slots: seq<ParameterSlot>, sides: seq<Side>): (r: seq<Composed>)
    ensures |r| == |sides| && forall i :: 0 <= i < |r| ==> r[i] == Grouped(values, slots, sides[i])
  {
    seq(|sides|, i requires 0 <= i < |sides| => Grouped(values, slots, sides[i]))
  }

  function Compose(slots: seq<ParameterSlot>, values: Values): seq<Composed> {
    DirectAll(values, slots) + GroupedAll(values, slots, Sides(values, slots))
  }

  function GroupAt(groups: map<Side, seq<Entry>>, side: Side): seq<Entry> {
    if side in groups then groups[side] else []
  }

  /** `groups` and `sides` are the insertion-ordered map of text groups after these slots. */
  predicate IsGrouping(values: Values, slots: seq<ParameterSlot>, groups: map<Side, seq<Entry>>, sides: seq<Side>) {
    && sides == Sides(values, slots)
    && (HeaderSide in groups <==> HeaderSide in sides) && (BodySide in groups <==> BodySide in sides)
    && GroupAt(groups, HeaderSide) == GroupOf(values, slots, HeaderSide)
    && GroupAt(groups, BodySide) == GroupOf(values, slots, BodySide)
  }

  lemma PrefixStep(values: Values, slots: seq<ParameterSlot>, k: nat, side: Side)
    requires k < |slots|
    ensures var s, before := slots[k], slots[..k];
      && DirectAll(values, slots[..k + 1]) == DirectAll(values, before) + Direct(values, s)
      && GroupOf(values, slots[..k + 1], side) == GroupOf(values, before, side) +
           (if s.TextSlot? && s.side == side && Filling(values, s) != "" then [Entry(s.order, Filling(values, s))] else [])
      && Sides(values, slots[..k + 1]) == Sides(values, before) +
           (if s.TextSlot? && Filling(values, s) != "" && s.side !in Sides(values, before) then [s.side] else [])
  {
    assert slots[..k + 1][..k] == slots[..k];
  }

  lemma GroupingStep(values: Values, slots: seq<ParameterSlot>, k: nat, groups: map<Side, seq<Entry>>, sides: seq<Side>)
    requires k < |slots| && IsGrouping(values, slots[..k], groups, sides)
    ensures DirectAll(values, slots[..k + 1]) == DirectAll(values, slots[..k]) + Direct(values, slots[k])
    ensures var s, value := slots[k], Filling(values, slots[k]);
      if s.TextSlot? && value != "" then
        IsGrouping(values, slots[..k + 1], groups[s.side := GroupAt(groups, s.side) + [Entry(s.order, value)]],
          if s.side in groups then sides else sides + [s.side])
      else IsGrouping(values, slots[..k + 1], groups, sides)
  {
    PrefixStep(values, slots, k, HeaderSide);
    PrefixStep(values, slots, k, BodySide);
    assert HeaderSide in groups <==> HeaderSide in sides;
    assert BodySide in groups <==> BodySide in sides;
  }

  /** `whatsAppTemplateComponents`; the empty list stands for `undefined`. */
  method TemplateComponents(slots: seq<ParameterSlot>, values: Values) returns (components: seq<Composed>)
    ensures components == Compose(slots, values)
  {
    var textGroups: map<Side, seq<Entry>>, sides: seq<Side> := map[], [];
    components := [];
    for k := 0 to |slots|
      invariant components == DirectAll(values, slots[..k]) && IsGrouping(values, slots[..k], textGroups, sides)
    {
      var slot := slots[k];
      GroupingStep(values, slots, k, textGroups, sides);
      var value := Filling(values, slot);
      if value == "" {
        continue;
      }
      if slot.MediaSlot? {
        components := components + [Media(slot.format, value)];
      } else if slot.ReplySlot? {
        components := components + [Reply(slot.index, value)];
      } else if slot.UrlSlot? {
        components := components + [Url(slot.index, value)];
      } else {
        var group := GroupAt(textGroups, slot.side);
        sides := if slot.side in textGroups then sides else sides + [slot.side];
        textGroups := textGroups[slot.side := group + [Entry(slot.order, value)]];
      }
    }
    assert slots[..|slots|] == slots;
    var grouped := GroupComponents(values, slots, textGroups, sides);
    components := components + grouped;
  }

  /** The final loop over the map of groups. */
  method GroupComponents(ghost values: Values, ghost slots: seq<ParameterSlot>,
      textGroups: map<Side, seq<Entry>>, sides: seq<Side>) returns (components: seq<Composed>)
    requires IsGrouping(values, slots, textGroups, sides)
    ensures components == GroupedAll(values, slots, sides)
  {
    components := [];
    for i := 0 to |sides|
      invariant components == GroupedAll(values, slots, sides[..i])
    {
      var side := sides[i];
      assert sides[..i + 1] == sides[..i] + [side];
      assert side == HeaderSide || side == BodySide;
      components := components + [Texts(side, TextsOf(SortEntries(textGroups[side])))];
    }
    assert sides[..|sides|] == sides;
  }

  // --- What is composed, member by member ---

  predicate IsText(s: ParameterSlot, side: Side) {
    s.TextSlot? && s.side == side
  }

  function TextsIn(slots: seq<ParameterSlot>, side: Side): (r: seq<ParameterSlot>)
    ensures forall s :: s in r <==> s in slots && IsText(s, side)
  {
    if slots == [] then []
    else
      var before, s := TextsIn(slots[..|slots| - 1], side), slots[|slots| - 1];
      if IsText(s, side) then before + [s] else before
  }

  lemma {:induction false} DirectMembers(values: Values, slots: seq<ParameterSlot>, c: Composed)
    ensures c in DirectAll(values, slots) <==> exists s :: s in slots && c in Direct(values, s)
  {
    if slots != [] {
      var front, last := slots[..|slots| - 1], slots[|slots| - 1];
      DirectMembers(values, front, c);
      assert slots == front + [last];
    }
  }

  lemma {:induction false} GroupMembers(values: Values, slots: seq<ParameterSlot>, side: Side, e: Entry)
    ensures e in GroupOf(values, slots, side) <==>
      TextSlot(side, e.order) in slots && Filling(values, TextSlot(side, e.order)) == e.text != ""
  {
    if slots != [] {
      var front, last := slots[..|slots| - 1], slots[|slots| - 1];
      GroupMembers(values, front, side, e);
      assert slots == front + [last];
    }
  }

  /** A group is as long as there are text slots on its side exactly when all are filled. */
  lemma {:induction false} GroupLength(values: Values, slots: seq<ParameterSlot>, side: Side)
    ensures |GroupOf(values, slots, side)| <= |TextsIn(slots, side)|
    ensures |GroupOf(values, slots, side)| == |TextsIn(slots, side)| <==>
      forall s :: s in TextsIn(slots, side) ==> Filling(values, s) != ""
  {
    if slots != [] {
      GroupLength(values, slots[..|slots| - 1], side);
    }
  }

  lemma {:induction false} SidesMembers(values: Values, slots: seq<ParameterSlot>)
    ensures Distinct(Sides(values, slots))
    ensures forall side :: side in Sides(values, slots) <==> GroupOf(values, slots, side) != []
  {
    if slots != [] {
      SidesMembers(values, slots[..|slots| - 1]);
    }
  }

  lemma {:induction false} InsertEntryMembers(e: Entry, s: seq<Entry>)
    ensures |InsertEntry(e, s)| == |s| + 1 && forall x :: x in InsertEntry(e, s) <==> x == e || x in s
  {
    if s != [] && e.order > s[0].order {
      InsertEntryMembers(e, s[1..]);
    }
  }

  lemma {:induction false} SortEntriesMembers(s: seq<Entry>)
    ensures |SortEntries(s)| == |s| && forall x :: x in SortEntries(s) <==> x in s
  {
    if s != [] {
      SortEntriesMembers(s[1..]);
      InsertEntryMembers(s[0], SortEntries(s[1..]));
    }
  }

  /** The texts of a group: as many as it has entries, each the filling of a text slot. */
  lemma GroupedTexts(values: Values, slots: seq<ParameterSlot>, side: Side, x: string)
    ensures |Grouped(values, slots, side).texts| == |GroupOf(values, slots, side)|
    ensures x in Grouped(values, slots, side).texts <==>
      x != "" && exists s :: s in TextsIn(slots, side) && Filling(values, s) == x
  {
    var entries := GroupOf(values, slots, side);
    SortEntriesMembers(entries);
    var texts := Grouped(values, slots, side).texts;
    if x in texts {
      var i :| 0 <= i < |texts| && texts[i] == x;
      var e := SortEntries(entries)[i];
      GroupMembers(values, slots, side, e);
      assert TextSlot(side, e.order) in TextsIn(slots, side);
    }
    if s :| s in TextsIn(slots, side) && Filling(values, s) == x != "" {
      var e := Entry(s.order, x);
      GroupMembers(values, slots, side, e);
      assert e in SortEntries(entries);
      var i :| 0 <= i < |entries| && SortEntries(entries)[i] == e;
      assert texts[i] == x;
    }
  }
}
