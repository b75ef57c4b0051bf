/**
  `whatsAppTemplateParameterValues`, which reads typed values back from components, and
  when it gives back exactly what was composed.
*/
module ComposerRoundTrip {
  import opened Collections
  import opened TemplateChecker
  import opened TemplateComposer
  import opened TemplateAgreement
  import opened ComposableTemplates

  /** `components.find`: the first component a slot looks at. */
  predicate LooksAt(s: ParameterSlot, c: Composed) {
    match s
    case MediaSlot(_) => c.Media? || (c.Texts? && c.side == HeaderSide)
    case TextSlot(side, _) => (c.Media? && side == HeaderSide) || (c.Texts? && c.side == side)
    case ReplySlot(i) => (c.Reply? || c.Url?) && c.index == i
    case UrlSlot(i) => (c.Reply? || c.Url?) && c.index == i
  }

  function FirstFor(s: ParameterSlot, cs: seq<Composed>): (r: Option<Composed>)
    ensures r.Some? ==> r.value in cs && LooksAt(s, r.value)
    ensures r.None? ==> forall c :: c in cs ==> !LooksAt(s, c)
  {
    if cs == [] then None
    else if LooksAt(s, cs[0]) then Some(cs[0])
    else FirstFor(s, cs[1..])
  }

  /** The parameter a slot takes from its component. */
  function Taken(s: ParameterSlot, c: Composed): Option<string> {
    match s
    case MediaSlot(_) => if c.Media? then Some(c.asset) else None
    case ReplySlot(_) => if c.Reply? then Some(c.payload) else None
    case UrlSlot(_) => if c.Url? then Some(c.text) else None
    case TextSlot(_, order) =>
      if c.Texts? && 1 <= order <= |c.texts| then Some(c.texts[order - 1]) else None
  }

  function ReadSlot(s: ParameterSlot, cs: seq<Composed>): Option<string> {
    var c := FirstFor(s, cs);
    if c.None? then None else Taken(s, c.value)
  }

  function ReadBack(slots: seq<ParameterSlot>, cs: seq<Composed>): Values {
    if slots == [] then map[]
    else
      var before, s := ReadBack(slots[..|slots| - 1], cs), slots[|slots| - 1];
      if ReadSlot(s, cs).Some? then before[KeyOf(s) := ReadSlot(s, cs).value] else before
  }

  method ParameterValues(slots: seq<ParameterSlot>, components: seq<Composed>) returns (values: Values)
    ensures values == ReadBack(slots, components)
  {
    values := map[];
    for k := 0 to |slots|
      invariant values == ReadBack(slots[..k], components)
    {
      assert slots[..k + 1][..k] == slots[..k];
      var slot := slots[k];
      var component := FirstFor(slot, components);
      if component.None? {
        continue;
      }
      var c := component.value;
      match slot {
        case MediaSlot(_) =>
          if c.Media? {
            values := values[KeyOf(slot) := c.asset];
          }
        case ReplySlot(_) =>
          if c.Reply? {
            values := values[KeyOf(slot) := c.payload];
          }
        case UrlSlot(_) =>
          if c.Url? {
            values := values[KeyOf(slot) := c.text];
          }
        case TextSlot(_, order) =>
          if c.Texts? && 1 <= order <= |c.texts| {
            values := values[KeyOf(slot) := c.texts[order - 1]];
          }
      }
    }
    assert slots[..|slots|] == slots;
  }

  // --- What should come back ---

  /** The trimmed, filled values of the slots. */
  function Kept(slots: seq<ParameterSlot>, values: Values): Values {
    map s | s in slots && Filling(values, s) != "" :: KeyOf(s) := Filling(values, s)
  }

  predicate DistinctKeys(slots: seq<ParameterSlot>) {
    forall i, j :: 0 <= i < j < |slots| ==> KeyOf(slots[i]) != KeyOf(slots[j])
  }

  predicate PositiveOrders(slots: seq<ParameterSlot>) {
    forall s :: s in slots && s.TextSlot? ==> s.order >= 1
  }

  function Wanted(values: Values, s: ParameterSlot): Option<string> {
    if Filling(values, s) != "" then Some(Filling(values, s)) else None
  }

  predicate ReadsRight(values: Values, slots: seq<ParameterSlot>, s: ParameterSlot) {
    ReadSlot(s, Compose(slots, values)) == Wanted(values, s)
  }

  lemma KeyDecides(slots: seq<ParameterSlot>, a: ParameterSlot, b: ParameterSlot)
    requires DistinctKeys(slots) && a in slots && b in slots && KeyOf(a) == KeyOf(b)
    ensures a == b
  {
    var i :| 0 <= i < |slots| && slots[i] == a;
    var j :| 0 <= j < |slots| && slots[j] == b;
  }

  lemma FrontKeys(slots: seq<ParameterSlot>)
    requires DistinctKeys(slots) && slots != []
    ensures DistinctKeys(slots[..|slots| - 1])
    ensures forall x :: x in slots[..|slots| - 1] ==> KeyOf(x) != KeyOf(slots[|slots| - 1])
  {
    forall x | x in slots[..|slots| - 1] ensures KeyOf(x) != KeyOf(slots[|slots| - 1]) {
      var i :| 0 <= i < |slots| - 1 && slots[i] == x;
    }
  }

  /** The map read back holds, for every slot, what that slot reads, and nothing else. */
  lemma {:induction false} ReadBackAt(slots: seq<ParameterSlot>, cs: seq<Composed>, s: ParameterSlot)
    requires DistinctKeys(slots) && s in slots
    ensures KeyOf(s) in ReadBack(slots, cs) <==> ReadSlot(s, cs).Some?
    ensures ReadSlot(s, cs).Some? ==> ReadBack(slots, cs)[KeyOf(s)] == ReadSlot(s, cs).value
  {
    var front, last := slots[..|slots| - 1], slots[|slots| - 1];
    FrontKeys(slots);
    if s in front {
      ReadBackAt(front, cs, s);
    } else {
      assert s == last;
      if KeyOf(s) in ReadBack(front, cs) {
        var x := ReadBackKey(front, cs, KeyOf(s));
        assert false;
      }
    }
  }

  lemma {:induction false} ReadBackKey(slots: seq<ParameterSlot>, cs: seq<Composed>, k: Key) returns (s: ParameterSlot)
    requires k in ReadBack(slots, cs)
    ensures s in slots && KeyOf(s) == k
  {
    var front, last := slots[..|slots| - 1], slots[|slots| - 1];
    if KeyOf(last) == k {
      s := last;
    } else {
      s := ReadBackKey(front, cs, k);
    }
  }

  predicate SameAt(a: Values, b: Values, k: Key) {
    (k in a <==> k in b) && (k in a && k in b ==> a[k] == b[k])
  }

  lemma KeptAt(slots: seq<ParameterSlot>, values: Values, s: ParameterSlot)
    requires DistinctKeys(slots) && s in slots
    ensures KeyOf(s) in Kept(slots, values) <==> Wanted(values, s).Some?
    ensures Wanted(values, s).Some? ==> Kept(slots, values)[KeyOf(s)] == Wanted(values, s).value
  {
    if KeyOf(s) in Kept(slots, values) {
      var x :| x in slots && Filling(values, x) != "" && KeyOf(x) == KeyOf(s);
      KeyDecides(slots, x, s);
    }
  }

  lemma RightIffSame(slots: seq<ParameterSlot>, values: Values, s: ParameterSlot)
    requires DistinctKeys(slots) && s in slots
    ensures ReadsRight(values, slots, s) <==>
      SameAt(ReadBack(slots, Compose(slots, values)), Kept(slots, values), KeyOf(s))
  {
    ReadBackAt(slots, Compose(slots, values), s);
    KeptAt(slots, values, s);
  }

  /** Maps with no other keys than those of the slots are equal when they agree at each slot. */
  lemma EqualAtSlots(slots: seq<ParameterSlot>, a: Values, b: Values)
    requires forall k :: k in a || k in b ==> exists s :: s in slots && KeyOf(s) == k
    ensures a == b <==> forall s :: s in slots ==> SameAt(a, b, KeyOf(s))
  {
    if forall s :: s in slots ==> SameAt(a, b, KeyOf(s)) {
      forall k | k in a || k in b ensures SameAt(a, b, k) {
        var s :| s in slots && KeyOf(s) == k;
      }
      assert forall k :: k in a ==> SameAt(a, b, k);
      assert forall k :: k in b ==> SameAt(a, b, k);
      assert a == b;
    }
  }

  lemma RightIffKept(slots: seq<ParameterSlot>, values: Values)
    requires DistinctKeys(slots)
    ensures ReadBack(slots, Compose(slots, values)) == Kept(slots, values) <==>
      forall s :: s in slots ==> ReadsRight(values, slots, s)
  {
    var cs := Compose(slots, values);
    var read, kept := ReadBack(slots, cs), Kept(slots, values);
    forall s | s in slots ensures ReadsRight(values, slots, s) <==> SameAt(read, kept, KeyOf(s)) {
      RightIffSame(slots, values, s);
    }
    forall k | k in read || k in kept ensures exists s :: s in slots && KeyOf(s) == k {
      if k in read {
        var s := ReadBackKey(slots, cs, k);
      }
    }
    EqualAtSlots(slots, read, kept);
  }

  // --- Buttons and media always come back ---

  lemma {:induction false} FirstForJoined(s: ParameterSlot, a: seq<Composed>, b: seq<Composed>)
    ensures FirstFor(s, a + b) == if FirstFor(s, a).Some? then FirstFor(s, a) else FirstFor(s, b)
  {
    if a == [] {
      assert a + b == b;
    } else {
      assert (a + b)[1..] == a[1..] + b;
      FirstForJoined(s, a[1..], b);
    }
  }

  lemma ButtonsRight(slots: seq<ParameterSlot>, values: Values, s: ParameterSlot)
    requires DistinctKeys(slots) && s in slots && (s.ReplySlot? || s.UrlSlot?)
    ensures ReadsRight(values, slots, s)
  {
    var cs := Compose(slots, values);
    var first := FirstFor(s, cs);
    if first.Some? {
      var from := Origin(values, slots, first.value);
      KeyDecides(slots, from, s);
    }
    if Filling(values, s) != "" {
      var c := Produced(values, slots, s);
    }
  }

  lemma MediaRight(slots: seq<ParameterSlot>, values: Values, s: ParameterSlot)
    requires DistinctKeys(slots) && s in slots && s.MediaSlot?
    ensures ReadsRight(values, slots, s)
  {
    var direct, grouped := DirectAll(values, slots), GroupedAll(values, slots, Sides(values, slots));
    FirstForJoined(s, direct, grouped);
    var first := FirstFor(s, direct);
    if first.Some? {
      var from := DirectOrigin(values, slots, first.value);
      KeyDecides(slots, from, s);
    } else {
      if Filling(values, s) != "" {
        DirectMembers(values, slots, Direct(values, s)[0]);
        assert false;
      }
      var later := FirstFor(s, grouped);
      if later.Some? {
        var from := GroupOrigin(values, slots, later.value);
      }
    }
  }

  // --- Texts come back by their position ---

  predicate MediaFilled(slots: seq<ParameterSlot>, values: Values) {
    exists s :: s in slots && s.MediaSlot? && Filling(values, s) != ""
  }

  /** Whether the media component hides the texts of this side. */
  predicate Hidden(slots: seq<ParameterSlot>, values: Values, side: Side) {
    side == HeaderSide && MediaFilled(slots, values)
  }

  lemma HiddenIffDirect(slots: seq<ParameterSlot>, values: Values, s: ParameterSlot)
    requires s in slots && s.TextSlot?
    ensures var first := FirstFor(s, DirectAll(values, slots));
      if Hidden(slots, values, s.side) then first.Some? && first.value.Media? else first.None?
  {
    var first := FirstFor(s, DirectAll(values, slots));
    if first.Some? {
      var from := DirectOrigin(values, slots, first.value);
    }
    if Hidden(slots, values, s.side) {
      var m :| m in slots && m.MediaSlot? && Filling(values, m) != "";
      var c := Direct(values, m)[0];
      DirectMembers(values, slots, c);
      assert LooksAt(s, c);
    }
  }

  lemma GroupSeen(slots: seq<ParameterSlot>, values: Values, s: ParameterSlot)
    requires s in slots && s.TextSlot?
    ensures FirstFor(s, GroupedAll(values, slots, Sides(values, slots))) ==
      if GroupOf(values, slots, s.side) == [] then None else Some(Grouped(values, slots, s.side))
  {
    var sides := Sides(values, slots);
    var grouped := GroupedAll(values, slots, sides);
    SidesMembers(values, slots);
    var first := FirstFor(s, grouped);
    if first.Some? {
      var i :| 0 <= i < |sides| && grouped[i] == first.value;
      assert sides[i] == s.side && sides[i] in sides;
    }
    if s.side in sides {
      var i :| 0 <= i < |sides| && sides[i] == s.side;
      assert grouped[i] in grouped && LooksAt(s, grouped[i]);
    }
  }

  lemma TextSees(slots: seq<ParameterSlot>, values: Values, s: ParameterSlot)
    requires s in slots && s.TextSlot?
    ensures var entries := SortEntries(GroupOf(values, slots, s.side));
      ReadSlot(s, Compose(slots, values)) ==
        if Hidden(slots, values, s.side) || s.order < 1 || s.order > |entries| then None
        else Some(entries[s.order - 1].text)
  {
    FirstForJoined(s, DirectAll(values, slots), GroupedAll(values, slots, Sides(values, slots)));
    HiddenIffDirect(slots, values, s);
    GroupSeen(slots, values, s);
    SortEntriesMembers(GroupOf(values, slots, s.side));
  }

  /** No filled order is beyond the number of filled ones: the orders are exactly 1 to k. */
  predicate Consecutive(slots: seq<ParameterSlot>, values: Values, side: Side) {
    forall s :: s in slots && IsText(s, side) && Filling(values, s) != "" ==> s.order <= |GroupOf(values, slots, side)|
  }

  predicate StrictlyAscending(s: seq<Entry>) {
    forall i, j :: 0 <= i < j < |s| ==> s[i].order < s[j].order
  }

  predicate DistinctOrders(s: seq<Entry>) {
    forall i, j :: 0 <= i < j < |s| ==> s[i].order != s[j].order
  }

  lemma {:induction false} InsertAscending(e: Entry, s: seq<Entry>)
    requires StrictlyAscending(s) && forall x :: x in s ==> x.order != e.order
    ensures StrictlyAscending(InsertEntry(e, s))
  {
    if s != [] && e.order > s[0].order {
      InsertAscending(e, s[1..]);
      InsertEntryMembers(e, s[1..]);
      var r, rest := InsertEntry(e, s), InsertEntry(e, s[1..]);
      forall i, j | 0 <= i < j < |r| ensures r[i].order < r[j].order {
        if i == 0 {
          assert r[j] == rest[j - 1] && rest[j - 1] in rest;
        } else {
          assert rest[i - 1].order < rest[j - 1].order;
        }
      }
    }
  }

  lemma {:induction false} SortAscending(s: seq<Entry>)
    requires DistinctOrders(s)
    ensures StrictlyAscending(SortEntries(s))
  {
    if s != [] {
      SortAscending(s[1..]);
      SortEntriesMembers(s[1..]);
      forall x | x in SortEntries(s[1..]) ensures x.order != s[0].order {
        var i :| 0 <= i < |s| - 1 && s[1..][i] == x;
        assert s[0].order != s[i + 1].order;
      }
      InsertAscending(s[0], SortEntries(s[1..]));
    }
  }

  lemma {:induction false} GroupDistinct(slots: seq<ParameterSlot>, values: Values, side: Side)
    requires DistinctKeys(slots)
    ensures DistinctOrders(GroupOf(values, slots, side))
  {
    if slots != [] {
      var front, last := slots[..|slots| - 1], slots[|slots| - 1];
      GroupDistinct(front, values, side);
      forall e | e in GroupOf(values, front, side) && IsText(last, side) ensures e.order != last.order {
        GroupMembers(values, front, side, e);
        var i :| 0 <= i < |front| && front[i] == TextSlot(side, e.order);
        assert KeyOf(slots[i]) != KeyOf(slots[|slots| - 1]);
      }
    }
  }

  /** Ascending orders from one on that do not exceed their number are 1, 2, ..., k. */
  lemma {:induction false} OrdersAre(s: seq<Entry>, i: nat)
    requires StrictlyAscending(s) && i < |s|
    requires forall e :: e in s ==> 1 <= e.order <= |s|
    ensures s[i].order == i + 1
  {
    AtLeast(s, i);
    AtMost(s, i);
  }

  lemma {:induction false} AtLeast(s: seq<Entry>, i: nat)
    requires StrictlyAscending(s) && i < |s| && forall e :: e in s ==> 1 <= e.order
    ensures s[i].order >= i + 1
  {
    if i > 0 {
      AtLeast(s, i - 1);
    }
  }

  lemma {:induction false} AtMost(s: seq<Entry>, i: nat)
    requires StrictlyAscending(s) && i < |s| && forall e :: e in s ==> e.order <= |s|
    ensures s[i].order <= i + 1
    decreases |s| - i
  {
    if i + 1 < |s| {
      AtMost(s, i + 1);
    }
  }

  /** With consecutive orders, the text at a position is the one typed for that order. */
  lemma SortedByOrder(slots: seq<ParameterSlot>, values: Values, side: Side, i: nat)
    requires DistinctKeys(slots) && PositiveOrders(slots) && Consecutive(slots, values, side)
    requires i < |SortEntries(GroupOf(values, slots, side))|
    ensures var e := SortEntries(GroupOf(values, slots, side))[i];
      e.order == i + 1 && TextSlot(side, i + 1) in slots && e.text == Filling(values, TextSlot(side, i + 1)) != ""
  {
    var entries := GroupOf(values, slots, side);
    var sorted := SortEntries(entries);
    GroupDistinct(slots, values, side);
    SortAscending(entries);
    SortEntriesMembers(entries);
    forall e | e in sorted ensures 1 <= e.order <= |sorted| {
      GroupMembers(values, slots, side, e);
    }
    OrdersAre(sorted, i);
    GroupMembers(values, slots, side, sorted[i]);
  }

  lemma TextRight(slots: seq<ParameterSlot>, values: Values, s: ParameterSlot)
    requires DistinctKeys(slots) && PositiveOrders(slots) && s in slots && s.TextSlot?
    requires Consecutive(slots, values, s.side)
    ensures ReadsRight(values, slots, s) <==> !(Hidden(slots, values, s.side) && Filling(values, s) != "")
  {
    TextSees(slots, values, s);
    var entries := GroupOf(values, slots, s.side);
    SortEntriesMembers(entries);
    if 1 <= s.order <= |entries| {
      SortedByOrder(slots, values, s.side, s.order - 1);
    }
  }

  lemma BeyondIsLost(slots: seq<ParameterSlot>, values: Values, s: ParameterSlot)
    requires s in slots && s.TextSlot? && Filling(values, s) != "" && s.order > |GroupOf(values, slots, s.side)|
    ensures !ReadsRight(values, slots, s)
  {
    TextSees(slots, values, s);
    SortEntriesMembers(GroupOf(values, slots, s.side));
  }

  /** Orders 1 to k on both sides, and no header that is both media and text. */
  predicate Retained(slots: seq<ParameterSlot>, values: Values) {
    && Consecutive(slots, values, HeaderSide) && Consecutive(slots, values, BodySide)
    && !(MediaFilled(slots, values) && exists s :: s in slots && IsText(s, HeaderSide) && Filling(values, s) != "")
  }

  lemma SlotRight(slots: seq<ParameterSlot>, values: Values, s: ParameterSlot)
    requires DistinctKeys(slots) && PositiveOrders(slots) && Retained(slots, values) && s in slots
    ensures ReadsRight(values, slots, s)
  {
    match s
    case MediaSlot(_) => MediaRight(slots, values, s);
    case TextSlot(_, _) => TextRight(slots, values, s);
    case _ => ButtonsRight(slots, values, s);
  }

  /** Which slot reads wrongly when the values are not retained. */
  lemma SomethingLost(slots: seq<ParameterSlot>, values: Values) returns (s: ParameterSlot)
    requires DistinctKeys(slots) && PositiveOrders(slots) && !Retained(slots, values)
    ensures s in slots && !ReadsRight(values, slots, s)
  {
    if side :| !Consecutive(slots, values, side) {
      s :| s in slots && IsText(s, side) && Filling(values, s) != "" && s.order > |GroupOf(values, slots, side)|;
      BeyondIsLost(slots, values, s);
    } else {
      assert Consecutive(slots, values, HeaderSide) && Consecutive(slots, values, BodySide);
      s :| s in slots && IsText(s, HeaderSide) && Filling(values, s) != "";
      TextRight(slots, values, s);
    }
  }

  /**
    Reading back what was composed gives exactly the trimmed, filled values if and only if
    the filled orders of header and body each run from 1 without a gap and the header does
    not have both its media and a text filled.
  */
  lemma RoundTripExact(slots: seq<ParameterSlot>, values: Values)
    requires DistinctKeys(slots) && PositiveOrders(slots)
    ensures ReadBack(slots, Compose(slots, values)) == Kept(slots, values) <==> Retained(slots, values)
  {
    RightIffKept(slots, values);
    if Retained(slots, values) {
      forall s | s in slots ensures ReadsRight(values, slots, s) {
        SlotRight(slots, values, s);
      }
    } else {
      var s := SomethingLost(slots, values);
    }
  }

  // --- The slots of a template have distinct keys and positive orders ---

  lemma KeysJoined(a: seq<ParameterSlot>, b: seq<ParameterSlot>)
    requires DistinctKeys(a) && DistinctKeys(b)
    requires forall x, y :: x in a && y in b ==> KeyOf(x) != KeyOf(y)
    ensures DistinctKeys(a + b)
  {
    var s := a + b;
    forall i, j | 0 <= i < j < |s| ensures KeyOf(s[i]) != KeyOf(s[j]) {
      if i < |a| <= j {
        assert s[i] in a && s[j] in b;
      }
    }
  }

  lemma {:induction false} ButtonKeys(buttons: seq<Button>)
    ensures DistinctKeys(SlotsOfButtons(buttons))
  {
    if buttons != [] {
      var last := |buttons| - 1;
      ButtonKeys(buttons[..last]);
      forall x | x in SlotsOfButtons(buttons[..last]) ensures x.ReplySlot? || x.UrlSlot? {
        ButtonSlotMembers(buttons[..last], x);
      }
      forall x, y | x in SlotsOfButtons(buttons[..last]) && y in SlotOfButton(buttons[last], last)
        ensures KeyOf(x) != KeyOf(y)
      {
        ButtonSlotMembers(buttons[..last], x);
      }
      KeysJoined(SlotsOfButtons(buttons[..last]), SlotOfButton(buttons[last], last));
    }
  }

  lemma TextSlotsPositive(side: Side, text: seq<Placeholder>)
    ensures PositiveOrders(TextSlots(side, Positions(text)))
  {
    var slots := TextSlots(side, Positions(text));
    forall s | s in slots ensures s.order >= 1 {
      assert s.order in Positions(text);
    }
  }

  lemma ComponentKeys(c: Component)
    ensures DistinctKeys(SlotsOf(c)) && PositiveOrders(SlotsOf(c))
  {
    if c.kind == BUTTONS {
      ButtonKeys(c.buttons);
      forall s | s in SlotsOf(c) ensures !s.TextSlot? {
        ButtonSlotMembers(c.buttons, s);
      }
    } else if c.kind == BODY {
      TextSlotsPositive(BodySide, c.text);
    } else if c.kind == HEADER {
      TextSlotsPositive(HeaderSide, c.text);
      KeysJoined(if IsMedia(c.format) then [MediaSlot(c.format)] else [], TextSlots(HeaderSide, Positions(c.text)));
    }
  }

  lemma SameKeySamePlace(a: ParameterSlot, b: ParameterSlot)
    requires KeyOf(a) == KeyOf(b)
    ensures KindOf(SlotPlace(a)) == KindOf(SlotPlace(b))
  {
  }

  lemma {:induction false} TemplateKeys(template: seq<Component>)
    requires Single(template)
    ensures DistinctKeys(Slots(template)) && PositiveOrders(Slots(template))
  {
    if template != [] {
      var front, last := template[..|template| - 1], template[|template| - 1];
      TemplateKeys(front);
      ComponentKeys(last);
      forall x, y | x in Slots(front) && y in SlotsOf(last) ensures KeyOf(x) != KeyOf(y) {
        var c := SlotFrom(front, x);
        SlotKind(c, x);
        SlotKind(last, y);
        KindBefore(template, c, SlotPlace(x));
        if KeyOf(x) == KeyOf(y) {
          SameKeySamePlace(x, y);
        }
      }
      KeysJoined(Slots(front), SlotsOf(last));
    }
  }

  /** The round trip for every template with one header, body and button list at most. */
  lemma TemplateRoundTrip(template: seq<Component>, values: Values)
    requires Single(template)
    ensures var slots := Slots(template);
      ReadBack(slots, Compose(slots, values)) == Kept(slots, values) <==> Retained(slots, values)
  {
    TemplateKeys(template);
    RoundTripExact(Slots(template), values);
  }
}
