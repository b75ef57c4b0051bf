/**
  Templates the composer can serve: their slots ask for exactly what the checker requires,
  so composing and checking agree on them.
*/
module ComposableTemplates {
  import opened Collections
  import opened JsonValues
  import opened TemplateChecker
  import opened TemplateComposer
  import opened TemplateAgreement

  /** Placeholders are numbered from one, without leading zeros. */
  predicate CanonicalText(text: seq<Placeholder>) {
    forall p :: p in text && p.Positional? ==> p.zeros == 0 && IsPosition(p)
  }

  predicate AtMostOne(template: seq<Component>, kind: ComponentKind) {
    forall i, j :: 0 <= i < j < |template| ==> !(template[i].kind == kind && template[j].kind == kind)
  }

  predicate ComposableComponent(c: Component) {
    && (c.kind == HEADER || c.kind == BODY ==> CanonicalText(c.text))
    && (c.kind == HEADER && IsMedia(c.format) ==> forall p :: p in c.text ==> p.Named?)
  }

  /** One header, body and button list at most. */
  predicate Single(template: seq<Component>) {
    AtMostOne(template, HEADER) && AtMostOne(template, BODY) && AtMostOne(template, BUTTONS)
  }

  /** Furthermore canonical numbers, and no variables beside header media. */
  predicate Composable(template: seq<Component>) {
    Single(template) && forall c :: c in template ==> ComposableComponent(c)
  }

  // --- Counting placeholders ---

  lemma CanonicalTail(positions: seq<int>)
    requires positions != [] && Rising(positions) && forall n :: n in positions ==> n >= 0
    ensures Rising(positions[1..]) && positions[0] >= 0 && positions[0] !in positions[1..]
    ensures forall n :: n in positions[1..] ==> n >= 0
    ensures forall n :: n in positions <==> n == positions[0] || n in positions[1..]
  {
    assert positions[0] in positions;
  }

  /** The canonical placeholders of rising positions. */
  function Canonical(positions: seq<int>): (r: set<Placeholder>)
    requires Rising(positions) && forall n :: n in positions ==> n >= 0
    ensures |r| == |positions|
    ensures forall p :: p in r <==> p.Positional? && p.zeros == 0 && (p.number as int) in positions
  {
    if positions == [] then {}
    else
      var tail := positions[1..];
      CanonicalTail(positions);
      Canonical(tail) + {Positional(positions[0], 0)}
  }

  lemma CountsPositions(text: seq<Placeholder>)
    requires CanonicalText(text)
    ensures PlaceholderCount(text) == |Positions(text)|
  {
    var counted := set p | p in text && p.Positional?;
    var positions := Positions(text);
    forall n | n in positions ensures n >= 0 {
    }
    assert counted == Canonical(positions);
  }

  lemma {:induction false} NoPositions(text: seq<Placeholder>)
    requires forall p :: p in text ==> p.Named?
    ensures Positions(text) == []
  {
    if text != [] {
      assert text[0] in text;
      NoPositions(text[1..]);
    }
  }

  // --- One component ---

  lemma {:induction false} ButtonRequirementMembers(buttons: seq<Button>, r: Requirement)
    ensures r in ButtonRequirements(buttons) <==>
      exists i :: 0 <= i < |buttons| && ButtonRequirement(buttons[i], i) == Some(r)
  {
    if buttons != [] {
      var last := |buttons| - 1;
      ButtonRequirementMembers(buttons[..last], r);
      if i :| 0 <= i < |buttons| && ButtonRequirement(buttons[i], i) == Some(r) {
        if i < last {
          assert buttons[..last][i] == buttons[i];
        }
      }
    }
  }

  lemma {:induction false} ButtonSlotMembers(buttons: seq<Button>, s: ParameterSlot)
    ensures s in SlotsOfButtons(buttons) <==> exists i :: 0 <= i < |buttons| && s in SlotOfButton(buttons[i], i)
  {
    if buttons != [] {
      var last := |buttons| - 1;
      ButtonSlotMembers(buttons[..last], s);
      forall i | 0 <= i < last ensures buttons[..last][i] == buttons[i] {
      }
    }
  }

  /** What a slot of this component asks for. */
  function AskedOf(c: Component, s: ParameterSlot): Requirement {
    if s.TextSlot? then Requirement(SidePlace(s.side), |Positions(c.text)|, None) else Asked([], s)
  }

  lemma SlotAsks(c: Component, s: ParameterSlot)
    requires ComposableComponent(c) && s in SlotsOf(c)
    ensures AskedOf(c, s) in RequirementsOf(c) && (s.MediaSlot? ==> IsMedia(s.format))
  {
    if c.kind == BUTTONS {
      ButtonSlotMembers(c.buttons, s);
      ButtonRequirementMembers(c.buttons, AskedOf(c, s));
    } else {
      if IsMedia(c.format) && c.kind == HEADER {
        NoPositions(c.text);
      }
      CountsPositions(c.text);
    }
  }

  lemma AskedBySlot(c: Component, r: Requirement) returns (s: ParameterSlot)
    requires ComposableComponent(c) && r in RequirementsOf(c)
    ensures s in SlotsOf(c) && AskedOf(c, s) == r
  {
    if c.kind == BUTTONS {
      ButtonRequirementMembers(c.buttons, r);
      var i :| 0 <= i < |c.buttons| && ButtonRequirement(c.buttons[i], i) == Some(r);
      s := SlotOfButton(c.buttons[i], i)[0];
      ButtonSlotMembers(c.buttons, s);
    } else if c.kind == HEADER && IsMedia(c.format) {
      s := MediaSlot(c.format);
    } else {
      CountsPositions(c.text);
      var side := if c.kind == HEADER then HeaderSide else BodySide;
      s := TextSlots(side, Positions(c.text))[0];
    }
  }

  function KindOf(p: Place): ComponentKind {
    match p
    case HeaderPlace => HEADER
    case BodyPlace => BODY
    case ButtonPlace(_, _) => BUTTONS
  }

  lemma SlotKind(c: Component, s: ParameterSlot)
    requires s in SlotsOf(c)
    ensures KindOf(SlotPlace(s)) == c.kind
  {
    if c.kind == BUTTONS {
      ButtonSlotMembers(c.buttons, s);
    }
  }

  lemma RequirementKind(c: Component, r: Requirement)
    requires r in RequirementsOf(c)
    ensures KindOf(r.place) == c.kind
  {
    if c.kind == BUTTONS {
      ButtonRequirementMembers(c.buttons, r);
    }
  }

  lemma ApartJoined(a: seq<ParameterSlot>, b: seq<ParameterSlot>)
    requires Apart(a) && Apart(b)
    requires forall x, y :: x in a && y in b && SamePlace(SlotPlace(x), SlotPlace(y)) ==> x.TextSlot? && y.TextSlot?
    ensures Apart(a + b)
  {
    var s := a + b;
    forall i, j | 0 <= i < j < |s| && SamePlace(SlotPlace(s[i]), SlotPlace(s[j])) ensures s[i].TextSlot? && s[j].TextSlot? {
      if i < |a| <= j {
        assert s[i] in a && s[j] in b;
      }
    }
  }

  lemma DistinctJoined(a: seq<Requirement>, b: seq<Requirement>)
    requires DistinctPlaces(a) && DistinctPlaces(b)
    requires forall x, y :: x in a && y in b ==> !SamePlace(x.place, y.place)
    ensures DistinctPlaces(a + b)
  {
    var s := a + b;
    forall i, j | 0 <= i < j < |s| ensures !SamePlace(s[i].place, s[j].place) {
      if i < |a| <= j {
        assert s[i] in a && s[j] in b;
      }
    }
  }

  lemma {:induction false} ButtonsApart(buttons: seq<Button>)
    ensures Apart(SlotsOfButtons(buttons)) && DistinctPlaces(ButtonRequirements(buttons))
  {
    if buttons != [] {
      var last := |buttons| - 1;
      var front := buttons[..last];
      ButtonsApart(front);
      forall x, y | x in SlotsOfButtons(front) && y in SlotOfButton(buttons[last], last)
        ensures !SamePlace(SlotPlace(x), SlotPlace(y))
      {
        ButtonSlotMembers(front, x);
      }
      ApartJoined(SlotsOfButtons(front), SlotOfButton(buttons[last], last));
      forall x, y | x in ButtonRequirements(front) && y in Listed(ButtonRequirement(buttons[last], last))
        ensures !SamePlace(x.place, y.place)
      {
        ButtonRequirementMembers(front, x);
      }
      DistinctJoined(ButtonRequirements(front), Listed(ButtonRequirement(buttons[last], last)));
    }
  }

  lemma ComponentApart(c: Component)
    requires ComposableComponent(c)
    ensures Apart(SlotsOf(c)) && DistinctPlaces(RequirementsOf(c))
  {
    if c.kind == BUTTONS {
      ButtonsApart(c.buttons);
    } else if c.kind == HEADER && IsMedia(c.format) {
      NoPositions(c.text);
    }
  }

  // --- The whole template ---

  lemma {:induction false} SlotFrom(template: seq<Component>, s: ParameterSlot) returns (c: Component)
    requires s in Slots(template)
    ensures c in template && s in SlotsOf(c)
  {
    var front, last := template[..|template| - 1], template[|template| - 1];
    if s in SlotsOf(last) {
      c := last;
    } else {
      c := SlotFrom(front, s);
    }
  }

  lemma {:induction false} SlotInto(template: seq<Component>, c: Component, s: ParameterSlot)
    requires c in template && s in SlotsOf(c)
    ensures s in Slots(template)
  {
    var front, last := template[..|template| - 1], template[|template| - 1];
    if c in front {
      SlotInto(front, c, s);
    } else {
      assert c == last;
    }
  }

  lemma {:induction false} RequirementFrom(template: seq<Component>, r: Requirement) returns (c: Component)
    requires r in Requirements(template)
    ensures c in template && r in RequirementsOf(c)
  {
    var front, last := template[..|template| - 1], template[|template| - 1];
    if r in RequirementsOf(last) {
      c := last;
    } else {
      c := RequirementFrom(front, r);
    }
  }

  lemma {:induction false} RequirementInto(template: seq<Component>, c: Component, r: Requirement)
    requires c in template && r in RequirementsOf(c)
    ensures r in Requirements(template)
  {
    var front, last := template[..|template| - 1], template[|template| - 1];
    if c in front {
      RequirementInto(front, c, r);
    } else {
      assert c == last;
    }
  }

  /** A component of a kind with slots or requirements has no second of its kind before it. */
  lemma KindBefore(template: seq<Component>, c: Component, p: Place)
    requires Single(template) && template != [] && c in template[..|template| - 1]
    requires KindOf(p) == c.kind
    ensures c.kind != template[|template| - 1].kind
  {
    var i :| 0 <= i < |template| - 1 && template[i] == c;
    var last := template[|template| - 1];
    assert AtMostOne(template, c.kind);
    assert !(template[i].kind == c.kind && last.kind == c.kind);
  }

  lemma ComposableFront(template: seq<Component>)
    requires Composable(template) && template != []
    ensures Composable(template[..|template| - 1]) && ComposableComponent(template[|template| - 1])
  {
    assert template[|template| - 1] in template;
  }

  lemma {:induction false} TemplateApart(template: seq<Component>)
    requires Composable(template)
    ensures Apart(Slots(template)) && DistinctPlaces(Requirements(template))
  {
    if template != [] {
      var front, last := template[..|template| - 1], template[|template| - 1];
      ComposableFront(template);
      TemplateApart(front);
      ComponentApart(last);
      forall x, y | x in Slots(front) && y in SlotsOf(last) ensures !SamePlace(SlotPlace(x), SlotPlace(y)) {
        var c := SlotFrom(front, x);
        SlotKind(c, x);
        SlotKind(last, y);
        KindBefore(template, c, SlotPlace(x));
      }
      ApartJoined(Slots(front), SlotsOf(last));
      forall x, y | x in Requirements(front) && y in RequirementsOf(last) ensures !SamePlace(x.place, y.place) {
        var c := RequirementFrom(front, x);
        RequirementKind(c, x);
        RequirementKind(last, y);
        KindBefore(template, c, x.place);
      }
      DistinctJoined(Requirements(front), RequirementsOf(last));
    }
  }

  lemma {:induction false} TextsJoined(a: seq<ParameterSlot>, b: seq<ParameterSlot>, side: Side)
    ensures TextsIn(a + b, side) == TextsIn(a, side) + TextsIn(b, side)
  {
    if b == [] {
      assert a + b == a;
    } else {
      assert (a + b)[..|a + b| - 1] == a + b[..|b| - 1];
      TextsJoined(a, b[..|b| - 1], side);
    }
  }

  lemma {:induction false} TextsOnly(s: seq<ParameterSlot>, side: Side)
    requires forall x :: x in s ==> IsText(x, side)
    ensures TextsIn(s, side) == s
  {
    if s != [] {
      TextsOnly(s[..|s| - 1], side);
    }
  }

  lemma NoTextsElsewhere(c: Component, side: Side)
    requires c.kind != KindOf(SidePlace(side))
    ensures TextsIn(SlotsOf(c), side) == []
  {
    var texts := TextsIn(SlotsOf(c), side);
    if texts != [] {
      var s := texts[0];
      assert s in texts;
      SlotKind(c, s);
    }
  }

  lemma {:induction false} NoTextsWithout(template: seq<Component>, side: Side)
    requires forall c :: c in template ==> c.kind != KindOf(SidePlace(side))
    ensures TextsIn(Slots(template), side) == []
  {
    if template != [] {
      var front, last := template[..|template| - 1], template[|template| - 1];
      NoTextsWithout(front, side);
      assert last in template;
      NoTextsElsewhere(last, side);
      TextsJoined(Slots(front), SlotsOf(last), side);
    }
  }

  /** The text slots of a side are those of the one component that has any. */
  lemma {:induction false} TextsOfSide(template: seq<Component>, c: Component, side: Side)
    requires Composable(template) && c in template && c.kind == KindOf(SidePlace(side))
    ensures TextsIn(Slots(template), side) == TextsIn(SlotsOf(c), side)
  {
    var front, last := template[..|template| - 1], template[|template| - 1];
    TextsJoined(Slots(front), SlotsOf(last), side);
    ComposableFront(template);
    if c in front {
      KindBefore(template, c, SidePlace(side));
      TextsOfSide(front, c, side);
      NoTextsElsewhere(last, side);
    } else {
      assert c == last;
      forall d | d in front ensures d.kind != c.kind {
        if d.kind == c.kind {
          KindBefore(template, d, SidePlace(side));
        }
      }
      NoTextsWithout(front, side);
    }
  }

  /** A component with a text slot has nothing but text slots. */
  lemma TextComponent(c: Component, s: ParameterSlot)
    requires ComposableComponent(c) && s in SlotsOf(c) && s.TextSlot?
    ensures c.kind == KindOf(SidePlace(s.side)) && SlotsOf(c) == TextSlots(s.side, Positions(c.text))
  {
    SlotKind(c, s);
    if c.kind == HEADER {
      var texts := TextSlots(HeaderSide, Positions(c.text));
      if IsMedia(c.format) {
        NoPositions(c.text);
      } else {
        assert [] + texts == texts;
      }
    }
  }

  lemma TextsAll(side: Side, positions: seq<int>)
    ensures TextsIn(TextSlots(side, positions), side) == TextSlots(side, positions)
  {
    TextsOnly(TextSlots(side, positions), side);
  }

  lemma TextCount(template: seq<Component>, c: Component, s: ParameterSlot)
    requires Composable(template) && c in template && s in SlotsOf(c) && s.TextSlot?
    ensures |TextsIn(Slots(template), s.side)| == |Positions(c.text)|
  {
    TextComponent(c, s);
    TextsOfSide(template, c, s.side);
    TextsAll(s.side, Positions(c.text));
  }

  /** A slot asks for the same in its component and in the template. */
  lemma AskedAlike(template: seq<Component>, c: Component, s: ParameterSlot)
    requires Composable(template) && c in template && s in SlotsOf(c)
    ensures Asked(Slots(template), s) == AskedOf(c, s)
  {
    if s.TextSlot? {
      TextCount(template, c, s);
    }
  }

  /** The slots of the template ask for exactly what it requires. */
  lemma TemplateLinked(template: seq<Component>)
    requires Composable(template)
    ensures Linked(Requirements(template), Slots(template))
  {
    var slots := Slots(template);
    forall s | s in slots
      ensures Asked(slots, s) in Requirements(template) && (s.MediaSlot? ==> IsMedia(s.format))
    {
      var c := SlotFrom(template, s);
      SlotAsks(c, s);
      AskedAlike(template, c, s);
      RequirementInto(template, c, AskedOf(c, s));
    }
    forall r | r in Requirements(template) ensures exists s :: s in slots && Asked(slots, s) == r {
      var c := RequirementFrom(template, r);
      var s := AskedBySlot(c, r);
      AskedAlike(template, c, s);
      SlotInto(template, c, s);
    }
  }

  // --- Composing and checking agree ---

  /** What is sent for composed components; none at all are sent as `undefined`. */
  function Sent(w: Wire, cs: seq<Composed>): Option<Json> {
    if cs == [] then None else Some(Array(AllSent(w, cs)))
  }

  lemma MediaComposed(requirements: seq<Requirement>, slots: seq<ParameterSlot>, values: Values)
    requires Linked(requirements, slots)
    ensures MediaFormats(Compose(slots, values))
  {
    forall c | c in Compose(slots, values) && c.Media? ensures IsMedia(c.format) {
      var s := Origin(values, slots, c);
    }
  }

  lemma AgreesIffFilled(requirements: seq<Requirement>, slots: seq<ParameterSlot>, values: Values)
    requires DistinctPlaces(requirements) && Linked(requirements, slots) && Apart(slots)
    ensures Agrees(requirements, Compose(slots, values)) <==> FullyFilled(values, slots)
  {
    if FullyFilled(values, slots) {
      FilledAgrees(requirements, slots, values);
    }
    if Agrees(requirements, Compose(slots, values)) {
      forall s | s in slots ensures FilledWithin(values, s) {
        AgreesIsFilled(requirements, slots, values, s);
      }
    }
  }

  lemma ComposedCompleteIffFilled(w: Wire, display: Display, template: seq<Component>, values: Values)
    requires Works(w, display) && Composable(template)
    ensures var cs := Compose(Slots(template), values);
      Complete(w.read, display, Requirements(template), AllSent(w, cs)) <==> |cs| <= 64 && FullyFilled(values, Slots(template))
  {
    var requirements, slots := Requirements(template), Slots(template);
    TemplateApart(template);
    TemplateLinked(template);
    ComposedPlaces(values, slots);
    MediaComposed(requirements, slots, values);
    CompleteIffAgrees(w, display, requirements, Compose(slots, values));
    AgreesIffFilled(requirements, slots, values);
  }

  /**
    For a template the composer can serve, the checker accepts what is composed exactly
    when the definition is supported, every slot is filled with a value within its bound,
    and there are at most 64 components.
  */
  lemma ComposedAccepted(display: Display, template: seq<Component>, values: Values)
    requires TellsIntegersApart(display) && Composable(template)
    ensures var cs := Compose(Slots(template), values);
      Accepts(display, template, Sent(JsonWire(display), cs)) <==>
        Supported(template) && |cs| <= 64 && FullyFilled(values, Slots(template))
  {
    var w := JsonWire(display);
    forall c ensures Understood(w, display, c) {
      JsonUnderstood(display, c);
    }
    ComposedCompleteIffFilled(w, display, template, values);
    var cs := Compose(Slots(template), values);
    assert Supplied(Sent(w, cs)) == Some(AllSent(w, cs));
  }
}
