/**
  What the composer makes of a template and the typed values, component by component: the
  slots that are offered, what is sent for each, and in which order.
*/
module ComposerLaws {
  import opened Collections
  import opened TemplateChecker
  import opened TemplateComposer
  import opened ComposerRoundTrip

  // --- The slots ---

  predicate Mentions(text: seq<Placeholder>, n: int) {
    1 <= n <= 9007199254740991 && exists k :: 0 <= k < |text| && text[k].Positional? && text[k].number == n
  }

  predicate ButtonOffers(b: Button, k: nat, s: ParameterSlot) {
    || (b.kind == URL && b.dynamic && s == UrlSlot(k))
    || (b.kind == QUICK_REPLY && s == ReplySlot(k))
  }

  predicate SomeButtonOffers(buttons: seq<Button>, s: ParameterSlot) {
    exists k :: 0 <= k < |buttons| && ButtonOffers(buttons[k], k, s)
  }

  predicate ComponentOffers(c: Component, s: ParameterSlot) {
    || (c.kind == HEADER && c.format != LOCATION && c.format != OTHER_FORMAT && s == MediaSlot(c.format))
    || (c.kind == HEADER && s.TextSlot? && s.side == HeaderSide && Mentions(c.text, s.order))
    || (c.kind == BODY && s.TextSlot? && s.side == BodySide && Mentions(c.text, s.order))
    || (c.kind == BUTTONS && SomeButtonOffers(c.buttons, s))
  }

  predicate Offers(template: seq<Component>, s: ParameterSlot) {
    exists i :: 0 <= i < |template| && ComponentOffers(template[i], s)
  }

  lemma MentionsIff(text: seq<Placeholder>, side: Side, s: ParameterSlot)
    ensures s in TextSlots(side, Positions(text)) <==> s.TextSlot? && s.side == side && Mentions(text, s.order)
  {
    var positions := Positions(text);
    if s in TextSlots(side, positions) {
      var i :| 0 <= i < |positions| && TextSlots(side, positions)[i] == s;
      assert positions[i] in positions;
      var p :| p in text && IsPosition(p) && p.number == positions[i];
      var k :| 0 <= k < |text| && text[k] == p;
    }
    if s.TextSlot? && s.side == side && Mentions(text, s.order) {
      var k :| 0 <= k < |text| && text[k].Positional? && text[k].number == s.order;
      assert text[k] in text && IsPosition(text[k]);
      assert s.order in positions;
      var i :| 0 <= i < |positions| && positions[i] == s.order;
      assert TextSlots(side, positions)[i] == s;
    }
  }

  lemma {:induction false} ButtonsOffer(buttons: seq<Button>, s: ParameterSlot)
    ensures s in SlotsOfButtons(buttons) <==> SomeButtonOffers(buttons, s)
  {
    if buttons != [] {
      var last := |buttons| - 1;
      ButtonsOffer(buttons[..last], s);
      assert forall k :: 0 <= k < last ==> buttons[..last][k] == buttons[k];
      assert s in SlotOfButton(buttons[last], last) <==> ButtonOffers(buttons[last], last, s);
    }
  }

  lemma ComponentOffersIff(c: Component, s: ParameterSlot)
    ensures s in SlotsOf(c) <==> ComponentOffers(c, s)
  {
    MentionsIff(c.text, HeaderSide, s);
    MentionsIff(c.text, BodySide, s);
    ButtonsOffer(c.buttons, s);
  }

  lemma OffersLast(template: seq<Component>, s: ParameterSlot)
    requires template != []
    ensures var last := |template| - 1;
      Offers(template, s) <==> Offers(template[..last], s) || ComponentOffers(template[last], s)
  {
    var front := template[..|template| - 1];
    if i :| 0 <= i < |front| && ComponentOffers(front[i], s) {
      assert front[i] == template[i];
    }
    if i :| 0 <= i < |template| && ComponentOffers(template[i], s) {
      assert i < |front| ==> front[i] == template[i];
    }
  }

  /** The slots of a template: one for header media, one for every position, one for a button with a value. */
  lemma {:induction false} SlotsOffered(template: seq<Component>, s: ParameterSlot)
    ensures s in Slots(template) <==> Offers(template, s)
  {
    if template != [] {
      var last := |template| - 1;
      SlotsOffered(template[..last], s);
      ComponentOffersIff(template[last], s);
      OffersLast(template, s);
    }
  }

  /** Within a component: header media first, texts by position, buttons by index. */
  function Standing(s: ParameterSlot): int {
    match s
    case MediaSlot(_) => 0
    case TextSlot(_, order) => order
    case ReplySlot(index) => index
    case UrlSlot(index) => index
  }

  predicate Standings(slots: seq<ParameterSlot>) {
    forall i, j :: 0 <= i < j < |slots| ==> Standing(slots[i]) < Standing(slots[j])
  }

  lemma {:induction false} ButtonsStand(buttons: seq<Button>)
    ensures Standings(SlotsOfButtons(buttons)) && forall s :: s in SlotsOfButtons(buttons) ==> Standing(s) < |buttons|
  {
    if buttons != [] {
      ButtonsStand(buttons[..|buttons| - 1]);
    }
  }

  lemma ComponentStands(c: Component)
    ensures Standings(SlotsOf(c))
  {
    ButtonsStand(c.buttons);
    var positions := Positions(c.text);
    forall i | 0 <= i < |positions| ensures positions[i] > 0 {
      assert positions[i] in positions;
    }
  }

  /** Slots i and j are of components m and n, in the order of the template. */
  predicate SlotsOfComponents(template: seq<Component>, i: nat, j: nat, m: nat, n: nat) {
    && i < j < |Slots(template)| && m <= n < |template|
    && Slots(template)[i] in SlotsOf(template[m]) && Slots(template)[j] in SlotsOf(template[n])
    && (m == n ==> Standing(Slots(template)[i]) < Standing(Slots(template)[j]))
  }

  lemma ConcatAt<T>(a: seq<T>, b: seq<T>, i: nat)
    requires i < |a + b|
    ensures (a + b)[i] == if i < |a| then a[i] else b[i - |a|]
  {}

  lemma TailStands(front: seq<ParameterSlot>, own: seq<ParameterSlot>, i: nat, j: nat)
    requires Standings(own) && |front| <= i < j < |front + own|
    ensures Standing((front + own)[i]) < Standing((front + own)[j])
  {
    ConcatAt(front, own, i);
    ConcatAt(front, own, j);
  }

  lemma TailHolds<T>(front: seq<T>, own: seq<T>, i: nat)
    requires |front| <= i < |front + own|
    ensures (front + own)[i] in own
  {}

  lemma LaterComponents(template: seq<Component>, i: nat, j: nat, m: nat, n: nat)
    requires template != [] && SlotsOfComponents(template[..|template| - 1], i, j, m, n)
    ensures i < j < |Slots(template)| && SlotsOfComponents(template, i, j, m, n)
  {
    ConcatAt(Slots(template[..|template| - 1]), SlotsOf(template[|template| - 1]), i);
    ConcatAt(Slots(template[..|template| - 1]), SlotsOf(template[|template| - 1]), j);
    assert template[..|template| - 1][m] == template[m] && template[..|template| - 1][n] == template[n];
  }

  lemma SlotOfLast(template: seq<Component>, i: nat)
    requires template != [] && |Slots(template[..|template| - 1])| <= i < |Slots(template)|
    ensures Slots(template)[i] in SlotsOf(template[|template| - 1])
  {
    TailHolds(Slots(template[..|template| - 1]), SlotsOf(template[|template| - 1]), i);
  }

  lemma WithinLast(template: seq<Component>, i: nat, j: nat)
    requires template != [] && |Slots(template[..|template| - 1])| <= i < j < |Slots(template)|
    ensures Standing(Slots(template)[i]) < Standing(Slots(template)[j])
  {
    ComponentStands(template[|template| - 1]);
    TailStands(Slots(template[..|template| - 1]), SlotsOf(template[|template| - 1]), i, j);
  }

  /** The slots come component by component, and within one as they stand in it. */
  lemma {:induction false} SlotsInOrder(template: seq<Component>, i: nat, j: nat) returns (m: nat, n: nat)
    requires i < j < |Slots(template)|
    ensures SlotsOfComponents(template, i, j, m, n)
    decreases |template|
  {
    var last := |template| - 1;
    if j < |Slots(template[..last])| {
      m, n := SlotsInOrder(template[..last], i, j);
      LaterComponents(template, i, j, m, n);
    } else {
      n := last;
      SlotOfLast(template, j);
      m := SlotComes(template, i);
      if m == last && i >= |Slots(template[..last])| {
        WithinLast(template, i, j);
      }
    }
  }

  lemma {:induction false} SlotComes(template: seq<Component>, i: nat) returns (m: nat)
    requires i < |Slots(template)|
    ensures m < |template| && Slots(template)[i] in SlotsOf(template[m])
    ensures m == |template| - 1 <==> i >= |Slots(template[..|template| - 1])|
  {
    var last := |template| - 1;
    ConcatAt(Slots(template[..last]), SlotsOf(template[last]), i);
    m := last;
    if i < |Slots(template[..last])| {
      m := SlotComes(template[..last], i);
      assert template[..last][m] == template[m];
    } else {
      SlotOfLast(template, i);
    }
  }

  // --- The value of a slot ---

  /** What `trim` strips, by code unit. */
  predicate Blank(ch: char) {
    var n := ch as int;
    n in {9, 10, 11, 12, 13, 32, 160, 5760, 8232, 8233, 8239, 8287, 12288, 65279} || 8192 <= n <= 8202
  }

  predicate AllBlank(s: string) {
    forall i :: 0 <= i < |s| ==> Blank(s[i])
  }

  predicate TrimmedTo(raw: string, i: nat, j: nat, x: string) {
    i <= j <= |raw| && x == raw[i..j] && AllBlank(raw[..i]) && AllBlank(raw[j..])
  }

  /** The text without the blanks around it; there is something left. */
  ghost predicate Stripped(raw: string, x: string) {
    && x != "" && !Blank(x[0]) && !Blank(x[|x| - 1])
    && exists i, j :: TrimmedTo(raw, i, j, x)
  }

  lemma BlankBefore(raw: string, i: nat, j: nat, x: string)
    requires raw != "" && Blank(raw[0]) && TrimmedTo(raw[1..], i, j, x)
    ensures TrimmedTo(raw, i + 1, j + 1, x)
  {
    var tail := raw[1..];
    assert raw[i + 1..j + 1] == tail[i..j] && raw[j + 1..] == tail[j..];
    assert raw[..i + 1] == [raw[0]] + tail[..i];
  }

  lemma BlankAfter(raw: string, i: nat, j: nat, x: string)
    requires raw != "" && Blank(raw[|raw| - 1]) && TrimmedTo(raw[..|raw| - 1], i, j, x)
    ensures TrimmedTo(raw, i, j, x)
  {
    var front := raw[..|raw| - 1];
    assert raw[i..j] == front[i..j] && raw[..i] == front[..i];
    assert raw[j..] == front[j..] + [raw[|raw| - 1]];
  }

  lemma {:induction false} TrimKeeps(raw: string) returns (i: nat, j: nat)
    ensures TrimmedTo(raw, i, j, Trim(raw))
  {
    if raw != "" && IsSpace(raw[0]) {
      i, j := TrimKeeps(raw[1..]);
      BlankBefore(raw, i, j, Trim(raw));
      i, j := i + 1, j + 1;
    } else if raw != "" && IsSpace(raw[|raw| - 1]) {
      i, j := TrimKeeps(raw[..|raw| - 1]);
      BlankAfter(raw, i, j, Trim(raw));
    } else {
      i, j := 0, |raw|;
    }
  }

  /** What stands outside is blank. */
  lemma Outside(raw: string, i: nat, j: nat, x: string, k: nat)
    requires TrimmedTo(raw, i, j, x) && k < |raw|
    ensures k < i || k >= j ==> Blank(raw[k])
  {
    if k < i {
      assert raw[..i][k] == raw[k];
    } else if k >= j {
      assert raw[j..][k - j] == raw[k];
    }
  }

  lemma SameEnds(raw: string, i: nat, j: nat, k: nat, l: nat, x: string, y: string)
    requires TrimmedTo(raw, i, j, x) && TrimmedTo(raw, k, l, y)
    requires x != "" && !Blank(x[0]) && !Blank(x[|x| - 1])
    ensures k <= i && j <= l
  {
    assert raw[i] == x[0] && raw[j - 1] == x[|x| - 1];
    Outside(raw, k, l, y, i);
    Outside(raw, k, l, y, j - 1);
  }

  /** What is stripped of a text is unique, and it is nothing exactly for blanks. */
  lemma StrippedIsTrim(raw: string, x: string)
    ensures Stripped(raw, x) <==> Trim(raw) == x && x != ""
  {
    var i, j := TrimKeeps(raw);
    var t := Trim(raw);
    if Stripped(raw, x) {
      var k, l :| TrimmedTo(raw, k, l, x);
      SameEnds(raw, k, l, i, j, x, t);
      if t != "" {
        SameEnds(raw, i, j, k, l, t, x);
      }
    }
  }

  ghost predicate Typed(values: Values, key: Key, x: string) {
    key in values && Stripped(values[key], x)
  }

  lemma TypedIff(values: Values, s: ParameterSlot, x: string)
    ensures Typed(values, KeyOf(s), x) <==> Filling(values, s) == x && x != ""
  {
    if KeyOf(s) in values {
      StrippedIsTrim(values[KeyOf(s)], x);
    }
  }

  // --- What is composed ---

  ghost predicate TextAt(slots: seq<ParameterSlot>, values: Values, side: Side, order: int, x: string) {
    TextSlot(side, order) in slots && Typed(values, TextKey(side, order), x)
  }

  predicate Climbing(orders: seq<int>) {
    forall i, j :: 0 <= i < j < |orders| ==> orders[i] < orders[j]
  }

  /** The typed texts of a side, by ascending order, all of them. */
  ghost predicate TextsByOrder(slots: seq<ParameterSlot>, values: Values, side: Side, orders: seq<int>, texts: seq<string>) {
    && |orders| == |texts| > 0 && Climbing(orders)
    && (forall i :: 0 <= i < |texts| ==> TextAt(slots, values, side, orders[i], texts[i]))
    && (forall order, x :: TextAt(slots, values, side, order, x) ==> order in orders)
  }

  ghost predicate IsComposed(slots: seq<ParameterSlot>, values: Values, c: Composed) {
    match c
    case Media(f, a) => MediaSlot(f) in slots && Typed(values, HeaderMedia, a)
    case Reply(i, p) => ReplySlot(i) in slots && Typed(values, ButtonKey(i), p)
    case Url(i, x) => UrlSlot(i) in slots && Typed(values, ButtonKey(i), x)
    case Texts(side, texts) => exists orders: seq<int> :: TextsByOrder(slots, values, side, orders, texts)
  }

  function OrdersOf(entries: seq<Entry>): (r: seq<int>)
    ensures |r| == |entries| && forall i :: 0 <= i < |r| ==> r[i] == entries[i].order
  {
    seq(|entries|, i requires 0 <= i < |entries| => entries[i].order)
  }

  lemma EntryIsText(slots: seq<ParameterSlot>, values: Values, side: Side, e: Entry)
    ensures e in GroupOf(values, slots, side) <==> TextAt(slots, values, side, e.order, e.text)
  {
    GroupMembers(values, slots, side, e);
    TypedIff(values, TextSlot(side, e.order), e.text);
  }

  lemma GroupByOrder(slots: seq<ParameterSlot>, values: Values, side: Side)
    requires DistinctKeys(slots) && GroupOf(values, slots, side) != []
    ensures var sorted := SortEntries(GroupOf(values, slots, side));
      TextsByOrder(slots, values, side, OrdersOf(sorted), TextsOf(sorted))
  {
    var entries := GroupOf(values, slots, side);
    var sorted := SortEntries(entries);
    GroupDistinct(slots, values, side);
    SortAscending(entries);
    SortEntriesMembers(entries);
    forall i | 0 <= i < |sorted| ensures TextAt(slots, values, side, sorted[i].order, sorted[i].text) {
      EntryIsText(slots, values, side, sorted[i]);
    }
    forall order, x | TextAt(slots, values, side, order, x) ensures order in OrdersOf(sorted) {
      EntryIsText(slots, values, side, Entry(order, x));
      var i :| 0 <= i < |sorted| && sorted[i] == Entry(order, x);
      assert OrdersOf(sorted)[i] == order;
    }
  }

  /** At every place of the orders stands the least one not before it: they are unique. */
  lemma {:induction false} ClimbingAlike(a: seq<int>, b: seq<int>)
    requires Climbing(a) && Climbing(b) && forall n :: n in a <==> n in b
    ensures a == b
  {
    assert a != [] ==> a[0] in a;
    assert b != [] ==> b[0] in b;
    if a != [] && b != [] {
      var i :| 0 <= i < |b| && b[i] == a[0];
      var j :| 0 <= j < |a| && a[j] == b[0];
      assert a[0] == b[0];
      forall n ensures n in a[1..] <==> n in b[1..] {
        ClimbingTail(a, n);
        ClimbingTail(b, n);
      }
      ClimbingAlike(a[1..], b[1..]);
    }
  }

  lemma ClimbingTail(a: seq<int>, n: int)
    requires a != [] && Climbing(a)
    ensures n in a[1..] <==> n in a && n != a[0]
  {
    if n in a[1..] {
      var i :| 0 <= i < |a| - 1 && a[1..][i] == n;
      assert a[0] < a[i + 1];
    }
  }

  lemma TypedOnce(values: Values, key: Key, x: string, y: string)
    requires Typed(values, key, x) && Typed(values, key, y)
    ensures x == y
  {
    StrippedIsTrim(values[key], x);
    StrippedIsTrim(values[key], y);
  }

  lemma TextsUnique(slots: seq<ParameterSlot>, values: Values, side: Side, o: seq<int>, x: seq<string>, p: seq<int>, y: seq<string>)
    requires TextsByOrder(slots, values, side, o, x) && TextsByOrder(slots, values, side, p, y)
    ensures x == y
  {
    forall n ensures n in o <==> n in p {
      if n in o {
        var i :| 0 <= i < |o| && o[i] == n;
        assert TextAt(slots, values, side, n, x[i]);
      }
      if n in p {
        var i :| 0 <= i < |p| && p[i] == n;
        assert TextAt(slots, values, side, n, y[i]);
      }
    }
    ClimbingAlike(o, p);
    forall i | 0 <= i < |x| ensures x[i] == y[i] {
      TypedOnce(values, TextKey(side, o[i]), x[i], y[i]);
    }
  }

  lemma TextsComposed(slots: seq<ParameterSlot>, values: Values, side: Side, texts: seq<string>)
    requires DistinctKeys(slots)
    ensures Texts(side, texts) in Compose(slots, values) <==> IsComposed(slots, values, Texts(side, texts))
  {
    SidesMembers(values, slots);
    var c, grouped := Texts(side, texts), GroupedAll(values, slots, Sides(values, slots));
    DirectMembers(values, slots, c);
    assert c in Compose(slots, values) <==> c in grouped;
    if GroupOf(values, slots, side) != [] {
      var sorted := SortEntries(GroupOf(values, slots, side));
      GroupByOrder(slots, values, side);
      if orders :| TextsByOrder(slots, values, side, orders, texts) {
        TextsUnique(slots, values, side, orders, texts, OrdersOf(sorted), TextsOf(sorted));
        var i :| 0 <= i < |grouped| && Sides(values, slots)[i] == side;
        assert grouped[i] == c;
      }
    } else {
      if orders :| TextsByOrder(slots, values, side, orders, texts) {
        EntryIsText(slots, values, side, Entry(orders[0], texts[0]));
        assert false;
      }
    }
  }

  predicate Serves(s: ParameterSlot, c: Composed) {
    match c
    case Media(f, _) => s == MediaSlot(f)
    case Reply(i, _) => s == ReplySlot(i)
    case Url(i, _) => s == UrlSlot(i)
    case Texts(side, _) => s.TextSlot? && s.side == side
  }

  lemma DirectFrom(slots: seq<ParameterSlot>, values: Values, c: Composed, s: ParameterSlot)
    requires !c.Texts? && Serves(s, c)
    ensures c in Compose(slots, values) <==> s in slots && c in Direct(values, s)
  {
    DirectMembers(values, slots, c);
    assert c !in GroupedAll(values, slots, Sides(values, slots));
    forall x | c in Direct(values, x) ensures x == s {
      OnlyServes(values, c, x, s);
    }
  }

  lemma OnlyServes(values: Values, c: Composed, x: ParameterSlot, s: ParameterSlot)
    requires !c.Texts? && Serves(s, c) && c in Direct(values, x)
    ensures x == s
  {
  }

  lemma DirectIff(slots: seq<ParameterSlot>, values: Values, c: Composed)
    requires !c.Texts?
    ensures c in Compose(slots, values) <==> IsComposed(slots, values, c)
  {
    match c
    case Media(f, a) =>
      DirectFrom(slots, values, c, MediaSlot(f));
      TypedIff(values, MediaSlot(f), a);
    case Reply(i, p) =>
      DirectFrom(slots, values, c, ReplySlot(i));
      TypedIff(values, ReplySlot(i), p);
    case Url(i, x) =>
      DirectFrom(slots, values, c, UrlSlot(i));
      TypedIff(values, UrlSlot(i), x);
  }

  /** Exactly this is composed: a component for every value, and one of all texts for each side that has any. */
  lemma ComposedExactly(slots: seq<ParameterSlot>, values: Values, c: Composed)
    requires DistinctKeys(slots)
    ensures c in Compose(slots, values) <==> IsComposed(slots, values, c)
  {
    if c.Texts? {
      TextsComposed(slots, values, c.side, c.texts);
    } else {
      DirectIff(slots, values, c);
    }
  }

  // --- In which order ---

  ghost predicate HasValue(values: Values, s: ParameterSlot) {
    exists x :: Typed(values, KeyOf(s), x)
  }

  ghost predicate ServedAt(slots: seq<ParameterSlot>, values: Values, c: Composed, m: nat) {
    m < |slots| && Serves(slots[m], c) && HasValue(values, slots[m])
  }

  /** The m-th slot is the first with a value that the component serves. */
  ghost predicate FirstServed(slots: seq<ParameterSlot>, values: Values, c: Composed, m: nat) {
    ServedAt(slots, values, c, m) && forall k :: 0 <= k < m ==> !ServedAt(slots, values, c, k)
  }

  lemma HasValueIff(values: Values, s: ParameterSlot)
    ensures HasValue(values, s) <==> Filling(values, s) != ""
  {
    TypedIff(values, s, Filling(values, s));
    if x :| Typed(values, KeyOf(s), x) {
      TypedIff(values, s, x);
    }
  }

  /** All but the last slot's component are those of the slots before. */
  lemma DirectLast(slots: seq<ParameterSlot>, values: Values, i: nat)
    requires i < |DirectAll(values, slots)|
    ensures slots != []
    ensures var d, f := DirectAll(values, slots), DirectAll(values, slots[..|slots| - 1]);
      if i < |f| then d[i] == f[i] else i == |f| && !d[i].Texts? && ServedAt(slots, values, d[i], |slots| - 1)
  {
    HasValueIff(values, slots[|slots| - 1]);
  }

  lemma ServedLater(slots: seq<ParameterSlot>, values: Values, c: Composed, m: nat)
    requires slots != [] && ServedAt(slots[..|slots| - 1], values, c, m)
    ensures m < |slots| - 1 && ServedAt(slots, values, c, m)
  {
    assert slots[..|slots| - 1][m] == slots[m];
  }

  lemma {:induction false} DirectServes(slots: seq<ParameterSlot>, values: Values, i: nat) returns (m: nat)
    requires i < |DirectAll(values, slots)|
    ensures ServedAt(slots, values, DirectAll(values, slots)[i], m) && !DirectAll(values, slots)[i].Texts?
  {
    var front := slots[..|slots| - 1];
    DirectLast(slots, values, i);
    if i < |DirectAll(values, front)| {
      m := DirectServes(front, values, i);
      ServedLater(slots, values, DirectAll(values, front)[i], m);
    } else {
      m := |slots| - 1;
    }
  }

  lemma {:induction false} DirectInOrder(slots: seq<ParameterSlot>, values: Values, i: nat, j: nat) returns (m: nat, n: nat)
    requires i < j < |DirectAll(values, slots)|
    ensures m < n && ServedAt(slots, values, DirectAll(values, slots)[i], m)
    ensures ServedAt(slots, values, DirectAll(values, slots)[j], n)
  {
    var front := slots[..|slots| - 1];
    DirectLast(slots, values, i);
    DirectLast(slots, values, j);
    if j < |DirectAll(values, front)| {
      m, n := DirectInOrder(front, values, i, j);
      ServedLater(slots, values, DirectAll(values, front)[j], n);
    } else {
      m := DirectServes(front, values, i);
      n := |slots| - 1;
    }
    ServedLater(slots, values, DirectAll(values, front)[i], m);
  }

  /** The m-th slot is the first filled text of its side. */
  predicate Opens(slots: seq<ParameterSlot>, values: Values, side: Side, m: nat) {
    && m < |slots| && IsText(slots[m], side) && Filling(values, slots[m]) != ""
    && forall k :: 0 <= k < m && IsText(slots[k], side) ==> Filling(values, slots[k]) == ""
  }

  lemma OpenedBefore(slots: seq<ParameterSlot>, values: Values, side: Side, m: nat)
    requires slots != [] && Opens(slots[..|slots| - 1], values, side, m)
    ensures Opens(slots, values, side, m)
  {
    assert forall k :: 0 <= k <= m ==> slots[..|slots| - 1][k] == slots[k];
  }

  lemma {:induction false} SideOpens(slots: seq<ParameterSlot>, values: Values, i: nat) returns (m: nat)
    requires i < |Sides(values, slots)|
    ensures Opens(slots, values, Sides(values, slots)[i], m)
  {
    var front, last := slots[..|slots| - 1], slots[|slots| - 1];
    if i < |Sides(values, front)| {
      m := SideOpens(front, values, i);
      OpenedBefore(slots, values, Sides(values, slots)[i], m);
    } else {
      m := |slots| - 1;
      forall k | 0 <= k < m && IsText(slots[k], last.side) ensures Filling(values, slots[k]) == "" {
        SideListed(front, values, k);
      }
    }
  }

  lemma {:induction false} SideListed(slots: seq<ParameterSlot>, values: Values, k: nat)
    requires k < |slots| && slots[k].TextSlot?
    ensures Filling(values, slots[k]) != "" ==> slots[k].side in Sides(values, slots)
  {
    if k < |slots| - 1 {
      SideListed(slots[..|slots| - 1], values, k);
    }
  }

  lemma {:induction false} SidesInOrder(slots: seq<ParameterSlot>, values: Values, i: nat, j: nat) returns (m: nat, n: nat)
    requires i < j < |Sides(values, slots)|
    ensures m < n && Opens(slots, values, Sides(values, slots)[i], m) && Opens(slots, values, Sides(values, slots)[j], n)
  {
    var front := slots[..|slots| - 1];
    if j < |Sides(values, front)| {
      m, n := SidesInOrder(front, values, i, j);
      OpenedBefore(slots, values, Sides(values, slots)[i], m);
      OpenedBefore(slots, values, Sides(values, slots)[j], n);
    } else {
      m := SideOpens(front, values, i);
      OpenedBefore(slots, values, Sides(values, slots)[i], m);
      n := |slots| - 1;
      forall k | 0 <= k < n && IsText(slots[k], slots[n].side) ensures Filling(values, slots[k]) == "" {
        SideListed(front, values, k);
      }
    }
  }

  lemma OpensServes(slots: seq<ParameterSlot>, values: Values, c: Composed, m: nat)
    requires c.Texts? && Opens(slots, values, c.side, m)
    ensures FirstServed(slots, values, c, m)
  {
    forall k | 0 <= k <= m ensures ServedAt(slots, values, c, k) <==> k == m {
      HasValueIff(values, slots[k]);
    }
  }

  /** A component of one value: the slot it serves, in the order of the slots. */
  lemma SinglesInOrder(slots: seq<ParameterSlot>, values: Values, i: nat, j: nat) returns (m: nat, n: nat)
    requires i < j < |Compose(slots, values)| && !Compose(slots, values)[j].Texts?
    ensures var a, b := Compose(slots, values)[i], Compose(slots, values)[j];
      !a.Texts? && m < n && ServedAt(slots, values, a, m) && ServedAt(slots, values, b, n)
  {
    TextsAreLast(slots, values, i);
    TextsAreLast(slots, values, j);
    m, n := DirectInOrder(slots, values, i, j);
  }

  lemma TextsAreLast(slots: seq<ParameterSlot>, values: Values, i: nat)
    requires i < |Compose(slots, values)|
    ensures Compose(slots, values)[i].Texts? <==> i >= |DirectAll(values, slots)|
  {
    if i < |DirectAll(values, slots)| {
      var k := DirectServes(slots, values, i);
    }
  }

  lemma TextOfSide(slots: seq<ParameterSlot>, values: Values, i: nat)
    requires |DirectAll(values, slots)| <= i < |Compose(slots, values)|
    ensures var k := i - |DirectAll(values, slots)|;
      k < |Sides(values, slots)| && Compose(slots, values)[i] == Grouped(values, slots, Sides(values, slots)[k])
  {
    ConcatAt(DirectAll(values, slots), GroupedAll(values, slots, Sides(values, slots)), i);
  }

  lemma SidesServed(slots: seq<ParameterSlot>, values: Values, a: nat, b: nat, c: Composed, d: Composed) returns (m: nat, n: nat)
    requires a < b < |Sides(values, slots)|
    requires c == Grouped(values, slots, Sides(values, slots)[a]) && d == Grouped(values, slots, Sides(values, slots)[b])
    ensures m < n && FirstServed(slots, values, c, m) && FirstServed(slots, values, d, n)
  {
    m, n := SidesInOrder(slots, values, a, b);
    OpensServes(slots, values, c, m);
    OpensServes(slots, values, d, n);
  }

  /** The components of texts come last, by the first text of their side that has a value. */
  lemma TextsInOrder(slots: seq<ParameterSlot>, values: Values, i: nat, j: nat) returns (m: nat, n: nat)
    requires i < j < |Compose(slots, values)| && Compose(slots, values)[i].Texts?
    ensures Compose(slots, values)[j].Texts? && m < n
    ensures FirstServed(slots, values, Compose(slots, values)[i], m)
    ensures FirstServed(slots, values, Compose(slots, values)[j], n)
  {
    var direct, cs := |DirectAll(values, slots)|, Compose(slots, values);
    TextsAreLast(slots, values, i);
    TextsAreLast(slots, values, j);
    TextOfSide(slots, values, i);
    TextOfSide(slots, values, j);
    m, n := SidesServed(slots, values, i - direct, j - direct, cs[i], cs[j]);
  }

  // --- Reading back ---

  predicate SeenBy(s: ParameterSlot, c: Composed) {
    match s
    case MediaSlot(_) => c.Media? || (c.Texts? && c.side == HeaderSide)
    case TextSlot(side, _) => if c.Texts? then c.side == side else c.Media? && side == HeaderSide
    case ReplySlot(i) => (c.Reply? && c.index == i) || (c.Url? && c.index == i)
    case UrlSlot(i) => (c.Reply? && c.index == i) || (c.Url? && c.index == i)
  }

  predicate Shows(s: ParameterSlot, c: Composed, x: string) {
    match s
    case MediaSlot(_) => c.Media? && c.asset == x
    case ReplySlot(_) => c.Reply? && c.payload == x
    case UrlSlot(_) => c.Url? && c.text == x
    case TextSlot(_, order) => c.Texts? && 0 <= order - 1 < |c.texts| && c.texts[order - 1] == x
  }

  /** The first component that the slot sees shows it this value. */
  predicate ShownFirst(s: ParameterSlot, cs: seq<Composed>, x: string) {
    exists k :: 0 <= k < |cs| && SeenBy(s, cs[k]) && Shows(s, cs[k], x) && forall l :: 0 <= l < k ==> !SeenBy(s, cs[l])
  }

  lemma {:induction false} FirstIsFirst(s: ParameterSlot, cs: seq<Composed>) returns (k: nat)
    ensures k <= |cs| && (forall l :: 0 <= l < k ==> !SeenBy(s, cs[l]))
    ensures FirstFor(s, cs) == if k < |cs| then Some(cs[k]) else None
    ensures k < |cs| ==> SeenBy(s, cs[k])
  {
    if cs == [] || LooksAt(s, cs[0]) {
      k := 0;
    } else {
      k := FirstIsFirst(s, cs[1..]);
      k := k + 1;
      assert forall l :: 1 <= l < k ==> cs[l] == cs[1..][l - 1];
    }
  }

  lemma ReadsFirst(s: ParameterSlot, cs: seq<Composed>, x: string)
    ensures ReadSlot(s, cs) == Some(x) <==> ShownFirst(s, cs, x)
  {
    var k := FirstIsFirst(s, cs);
    if ShownFirst(s, cs, x) {
      var i :| 0 <= i < |cs| && SeenBy(s, cs[i]) && Shows(s, cs[i], x) && forall l :: 0 <= l < i ==> !SeenBy(s, cs[l]);
      assert i == k;
    }
  }

  /** The values read back from any components, the composer's own or not. */
  lemma ReadBackExactly(slots: seq<ParameterSlot>, cs: seq<Composed>, s: ParameterSlot, x: string)
    requires DistinctKeys(slots) && s in slots
    ensures (KeyOf(s) in ReadBack(slots, cs) && ReadBack(slots, cs)[KeyOf(s)] == x) <==> ShownFirst(s, cs, x)
  {
    ReadBackAt(slots, cs, s);
    ReadsFirst(s, cs, x);
  }
}
