/**
  The composer and the checker agree: what the web client composes for a template that it
  can handle is accepted by the channel exactly when every slot is filled, within bounds.
*/
module TemplateAgreement {
  import opened Collections
  import opened JsonValues
  import opened TemplateChecker
  import opened TemplateComposer

  // --- Composed components as the checker reads them ---

  function TextParameter(text: string): Json {
    Object(map["text" := Text(text), "type" := Text("text")])
  }

  function ParametersOf(c: Composed): seq<Json> {
    match c
    case Media(f, a) => [Object(map["mediaAssetId" := Text(a), "type" := Text(MediaName(f))])]
    case Reply(_, p) => [Object(map["payload" := Text(p), "type" := Text("payload")])]
    case Url(_, x) => [TextParameter(x)]
    case Texts(_, texts) => seq(|texts|, i requires 0 <= i < |texts| => TextParameter(texts[i]))
  }

  function ButtonJson(index: nat, subType: string, parameters: seq<Json>): Json {
    Object(map["index" := Integer(index), "parameters" := Array(parameters), "subType" := Text(subType), "type" := Text("button")])
  }

  function WholeJson(kind: string, parameters: seq<Json>): Json {
    Object(map["parameters" := Array(parameters), "type" := Text(kind)])
  }

  function ToJson(c: Composed): Json {
    match c
    case Media(_, _) => WholeJson("header", ParametersOf(c))
    case Reply(i, _) => ButtonJson(i, "quick_reply", ParametersOf(c))
    case Url(i, _) => ButtonJson(i, "url", ParametersOf(c))
    case Texts(side, _) => WholeJson(if side == HeaderSide then "header" else "body", ParametersOf(c))
  }

  function SidePlace(side: Side): Place {
    if side == HeaderSide then HeaderPlace else BodyPlace
  }

  function PlaceOf(c: Composed): Place {
    match c
    case Media(_, _) => HeaderPlace
    case Reply(i, _) => ButtonPlace(i, "quick_reply")
    case Url(i, _) => ButtonPlace(i, "url")
    case Texts(side, _) => SidePlace(side)
  }

  function PartOf(p: Place): Part {
    match p
    case BodyPlace => BODY_PART
    case HeaderPlace => HEADER_PART
    case ButtonPlace(_, _) => BUTTON_PART
  }

  lemma ButtonClaim(index: nat, subType: string, parameters: seq<Json>)
    requires subType != ""
    ensures ClaimOf(ButtonJson(index, subType, parameters)) ==
      Some(Claim(BUTTON_PART, Some(Integer(index)), Some(subType), parameters))
  {
    var c := ButtonJson(index, subType, parameters);
    assert c.fields.Keys == {"index", "parameters", "subType", "type"};
  }

  lemma WholeClaim(kind: string, parameters: seq<Json>)
    requires kind == "body" || kind == "header"
    ensures ClaimOf(WholeJson(kind, parameters)) ==
      Some(Claim(if kind == "body" then BODY_PART else HEADER_PART, None, None, parameters))
  {
    var c := WholeJson(kind, parameters);
    assert c.fields.Keys == {"parameters", "type"};
  }

  function ClaimFor(c: Composed): Claim {
    match PlaceOf(c)
    case ButtonPlace(i, subType) => Claim(BUTTON_PART, Some(Integer(i)), Some(subType), ParametersOf(c))
    case place => Claim(PartOf(place), None, None, ParametersOf(c))
  }

  lemma ClaimOfComposed(c: Composed)
    ensures ClaimOf(ToJson(c)) == Some(ClaimFor(c))
  {
    match c
    case Reply(i, _) => ButtonClaim(i, "quick_reply", ParametersOf(c));
    case Url(i, _) => ButtonClaim(i, "url", ParametersOf(c));
    case Media(_, _) => WholeClaim("header", ParametersOf(c));
    case Texts(side, _) => WholeClaim(if side == HeaderSide then "header" else "body", ParametersOf(c));
  }

  lemma MatchesComposed(r: Requirement, c: Composed)
    ensures Matches(r, ClaimFor(c)) <==> r.place == PlaceOf(c)
  {
  }

  predicate Within(s: string, limit: nat) {
    1 <= |s| <= limit
  }

  /** What the checker wants of a composed component, in the composer's terms. */
  predicate Meets(r: Requirement, c: Composed) {
    match c
    case Media(f, a) => IsMedia(f) && r.count == 1 && r.parameterType == Some(MediaName(f)) && Within(a, 128)
    case Reply(_, p) => r.count == 1 && r.parameterType == Some("payload") && Within(p, 1024)
    case Url(_, x) => r.count == 1 && (r.parameterType == Some("text") || r.parameterType.None?) && Within(x, 4096)
    case Texts(_, texts) => (
      && |texts| == r.count && (r.parameterType == Some("text") || r.parameterType.None? || texts == [])
      && forall x :: x in texts ==> Within(x, 4096))
  }

  lemma TextFits(wanted: Option<string>, x: string)
    ensures ParameterFits(wanted, TextParameter(x)) <==> (wanted == Some("text") || wanted.None?) && Within(x, 4096)
  {
    var p := TextParameter(x);
    assert p.fields.Keys == {"text", "type"};
    assert NonEmpty(Field(p, "type")) == Some("text");
  }

  lemma PayloadFits(wanted: Option<string>, x: string)
    ensures var p := Object(map["payload" := Text(x), "type" := Text("payload")]);
      ParameterFits(wanted, p) <==> wanted == Some("payload") && Within(x, 1024)
  {
    var p := Object(map["payload" := Text(x), "type" := Text("payload")]);
    assert p.fields.Keys == {"payload", "type"};
    assert NonEmpty(Field(p, "type")) == Some("payload");
  }

  lemma MediaFits(wanted: Option<string>, f: Format, x: string)
    ensures var p := Object(map["mediaAssetId" := Text(x), "type" := Text(MediaName(f))]);
      ParameterFits(wanted, p) <==> wanted == Some(MediaName(f)) && Within(x, 128)
  {
    var p := Object(map["mediaAssetId" := Text(x), "type" := Text(MediaName(f))]);
    assert p.fields.Keys == {"mediaAssetId", "type"};
    assert NonEmpty(Field(p, "type")) == Some(MediaName(f));
  }

  lemma FitsComposed(r: Requirement, c: Composed)
    requires c.Media? ==> IsMedia(c.format)
    ensures ParametersFit(r, ParametersOf(c)) <==> Meets(r, c)
  {
    match c
    case Media(f, a) => MediaFits(r.parameterType, f, a);
    case Reply(_, p) => PayloadFits(r.parameterType, p);
    case Url(_, x) => TextFits(r.parameterType, x);
    case Texts(_, texts) =>
      forall i | 0 <= i < |texts|
        ensures ParameterFits(r.parameterType, ParametersOf(c)[i]) <==>
          (r.parameterType == Some("text") || r.parameterType.None?) && Within(texts[i], 4096)
      {
        TextFits(r.parameterType, texts[i]);
      }
      assert texts != [] ==> texts[0] in texts && ParametersOf(c)[0] in ParametersOf(c);
      forall x | x in texts ensures TextParameter(x) in ParametersOf(c) {
        var i :| 0 <= i < |texts| && texts[i] == x;
        assert ParametersOf(c)[i] == TextParameter(x);
      }
  }

  // --- Slots and requirements ---

  function SlotPlace(s: ParameterSlot): Place {
    match s
    case MediaSlot(_) => HeaderPlace
    case TextSlot(side, _) => SidePlace(side)
    case ReplySlot(i) => ButtonPlace(i, "quick_reply")
    case UrlSlot(i) => ButtonPlace(i, "url")
  }

  /** The requirement behind a slot; the text slots of a side share one. */
  function Asked(slots: seq<ParameterSlot>, s: ParameterSlot): Requirement {
    match s
    case MediaSlot(f) => Requirement(HeaderPlace, 1, Some(MediaName(f)))
    case TextSlot(side, _) => Requirement(SidePlace(side), |TextsIn(slots, side)|, None)
    case ReplySlot(i) => Requirement(ButtonPlace(i, "quick_reply"), 1, Some("payload"))
    case UrlSlot(i) => Requirement(ButtonPlace(i, "url"), 1, Some("text"))
  }

  /** The slots ask for exactly the requirements. */
  predicate Linked(requirements: seq<Requirement>, slots: seq<ParameterSlot>) {
    && (forall s :: s in slots ==> Asked(slots, s) in requirements && (s.MediaSlot? ==> IsMedia(s.format)))
    && (forall r :: r in requirements ==> exists s :: s in slots && Asked(slots, s) == r)
  }

  /** Only text slots share a place. */
  predicate Apart(slots: seq<ParameterSlot>) {
    forall i, j :: 0 <= i < j < |slots| ==>
      SamePlace(SlotPlace(slots[i]), SlotPlace(slots[j])) ==> slots[i].TextSlot? && slots[j].TextSlot?
  }

  lemma ApartMembers(slots: seq<ParameterSlot>, a: ParameterSlot, b: ParameterSlot)
    requires Apart(slots) && a in slots && b in slots && SamePlace(SlotPlace(a), SlotPlace(b))
    ensures a == b || (a.TextSlot? && b.TextSlot?)
  {
    var i :| 0 <= i < |slots| && slots[i] == a;
    var j :| 0 <= j < |slots| && slots[j] == b;
    assert i < j ==> a.TextSlot? && b.TextSlot?;
    assert SamePlace(SlotPlace(slots[j]), SlotPlace(slots[i]));
  }

  function Limit(s: ParameterSlot): nat {
    match s
    case MediaSlot(_) => 128
    case ReplySlot(_) => 1024
    case _ => 4096
  }

  predicate FilledWithin(values: Values, s: ParameterSlot) {
    Within(Filling(values, s), Limit(s))
  }

  predicate FullyFilled(values: Values, slots: seq<ParameterSlot>) {
    forall s :: s in slots ==> FilledWithin(values, s)
  }

  // --- The composed list ---

  /** Where a composed component comes from. */
  predicate ComesFrom(values: Values, slots: seq<ParameterSlot>, c: Composed, s: ParameterSlot) {
    && s in slots && Filling(values, s) != ""
    && (c in Direct(values, s) || (s.TextSlot? && c == Grouped(values, slots, s.side)))
  }

  lemma DirectOrigin(values: Values, slots: seq<ParameterSlot>, c: Composed) returns (s: ParameterSlot)
    requires c in DirectAll(values, slots)
    ensures ComesFrom(values, slots, c, s) && PlaceOf(c) == SlotPlace(s) && !s.TextSlot?
  {
    DirectMembers(values, slots, c);
    s :| s in slots && c in Direct(values, s);
    assert Direct(values, s) == [c];
  }

  lemma GroupOrigin(values: Values, slots: seq<ParameterSlot>, c: Composed) returns (s: ParameterSlot)
    requires c in GroupedAll(values, slots, Sides(values, slots))
    ensures ComesFrom(values, slots, c, s) && PlaceOf(c) == SlotPlace(s) && s.TextSlot?
  {
    var sides := Sides(values, slots);
    var i :| 0 <= i < |sides| && GroupedAll(values, slots, sides)[i] == c;
    SidesMembers(values, slots);
    var e := GroupOf(values, slots, sides[i])[0];
    GroupMembers(values, slots, sides[i], e);
    s := TextSlot(sides[i], e.order);
  }

  lemma Origin(values: Values, slots: seq<ParameterSlot>, c: Composed) returns (s: ParameterSlot)
    requires c in Compose(slots, values)
    ensures ComesFrom(values, slots, c, s) && PlaceOf(c) == SlotPlace(s)
  {
    if c in DirectAll(values, slots) {
      s := DirectOrigin(values, slots, c);
    } else {
      s := GroupOrigin(values, slots, c);
    }
  }

  lemma GroupProduced(values: Values, slots: seq<ParameterSlot>, s: ParameterSlot)
    requires s in slots && s.TextSlot? && Filling(values, s) != ""
    ensures Grouped(values, slots, s.side) in GroupedAll(values, slots, Sides(values, slots))
  {
    GroupMembers(values, slots, s.side, Entry(s.order, Filling(values, s)));
    SidesMembers(values, slots);
    var sides := Sides(values, slots);
    var i :| 0 <= i < |sides| && sides[i] == s.side;
    assert GroupedAll(values, slots, sides)[i] == Grouped(values, slots, s.side);
  }

  lemma Produced(values: Values, slots: seq<ParameterSlot>, s: ParameterSlot) returns (c: Composed)
    requires s in slots && Filling(values, s) != ""
    ensures c in Compose(slots, values) && ComesFrom(values, slots, c, s) && PlaceOf(c) == SlotPlace(s)
  {
    if s.TextSlot? {
      c := Grouped(values, slots, s.side);
      GroupProduced(values, slots, s);
    } else {
      c := Direct(values, s)[0];
      DirectMembers(values, slots, c);
    }
  }

  predicate PlacesDiffer(cs: seq<Composed>) {
    forall i, j :: 0 <= i < j < |cs| ==> !SamePlace(PlaceOf(cs[i]), PlaceOf(cs[j]))
  }

  predicate PlaceFree(cs: seq<Composed>, p: Place) {
    forall c :: c in cs ==> !SamePlace(PlaceOf(c), p)
  }

  lemma DifferJoined(a: seq<Composed>, b: seq<Composed>)
    requires PlacesDiffer(a) && PlacesDiffer(b)
    requires forall c :: c in b ==> PlaceFree(a, PlaceOf(c))
    ensures PlacesDiffer(a + b)
  {
    var cs := a + b;
    forall i, j | 0 <= i < j < |cs| ensures !SamePlace(PlaceOf(cs[i]), PlaceOf(cs[j])) {
      if i < |a| <= j {
        assert cs[i] in a && cs[j] in b;
      }
    }
  }

  lemma DirectPlaceFree(values: Values, slots: seq<ParameterSlot>, s: ParameterSlot)
    requires forall x :: x in slots && SamePlace(SlotPlace(x), SlotPlace(s)) ==> x.TextSlot?
    ensures PlaceFree(DirectAll(values, slots), SlotPlace(s))
  {
    forall c | c in DirectAll(values, slots) ensures !SamePlace(PlaceOf(c), SlotPlace(s)) {
      var x := DirectOrigin(values, slots, c);
    }
  }

  lemma {:induction false} DirectPlaces(values: Values, slots: seq<ParameterSlot>)
    requires Apart(slots)
    ensures PlacesDiffer(DirectAll(values, slots))
  {
    if slots != [] {
      var front, last := slots[..|slots| - 1], slots[|slots| - 1];
      DirectPlaces(values, front);
      if !last.TextSlot? {
        forall x | x in front ensures !SamePlace(SlotPlace(x), SlotPlace(last)) {
          var i :| 0 <= i < |front| && front[i] == x;
          assert slots[i] == x && slots[|slots| - 1] == last;
        }
        DirectPlaceFree(values, front, last);
      }
      DifferJoined(DirectAll(values, front), Direct(values, last));
    }
  }

  lemma GroupedPlaces(values: Values, slots: seq<ParameterSlot>)
    ensures PlacesDiffer(GroupedAll(values, slots, Sides(values, slots)))
  {
    SidesMembers(values, slots);
  }

  /** No two composed components are for the same place. */
  lemma ComposedPlaces(values: Values, slots: seq<ParameterSlot>)
    requires Apart(slots)
    ensures PlacesDiffer(Compose(slots, values))
  {
    DirectPlaces(values, slots);
    GroupedPlaces(values, slots);
    var direct, sides := DirectAll(values, slots), Sides(values, slots);
    var grouped := GroupedAll(values, slots, sides);
    forall c | c in grouped ensures PlaceFree(direct, PlaceOf(c)) {
      var s := GroupOrigin(values, slots, c);
      forall x | x in slots && SamePlace(SlotPlace(x), SlotPlace(s)) ensures x.TextSlot? {
        ApartMembers(slots, x, s);
      }
      DirectPlaceFree(values, slots, s);
    }
    DifferJoined(direct, grouped);
  }

  // --- Acceptance ---

  /** How a composed component goes out as JSON and is read back by the checker. */
  datatype Wire = Wire(send: Composed -> Json, read: Reader)

  function AllSent(w: Wire, cs: seq<Composed>): (r: seq<Json>)
    ensures |r| == |cs| && forall i :: 0 <= i < |r| ==> r[i] == w.send(cs[i])
  {
    seq(|cs|, i requires 0 <= i < |cs| => w.send(cs[i]))
  }

  /** What is read of a sent component: its place, what it fits, and its slot. */
  ghost predicate Understood(w: Wire, display: Display, c: Composed) {
    var claim := w.read.claim(w.send(c));
    && claim.Some?
    && (forall r :: Matches(r, claim.value) <==> r.place == PlaceOf(c))
    && (forall r :: (c.Media? ==> IsMedia(c.format)) ==> (ParametersFit(r, claim.value.parameters) <==> Meets(r, c)))
    && (forall r :: w.read.slot(claim.value) == RequiredSlot(display, r) <==> SamePlace(PlaceOf(c), r.place))
  }

  ghost predicate Works(w: Wire, display: Display) {
    forall c :: Understood(w, display, c)
  }

  lemma {:induction false} PlaceDecides(requirements: seq<Requirement>, a: Requirement, b: Requirement)
    requires DistinctPlaces(requirements) && a in requirements && b in requirements && SamePlace(a.place, b.place)
    ensures a == b
  {
    var i :| 0 <= i < |requirements| && requirements[i] == a;
    var j :| 0 <= j < |requirements| && requirements[j] == b;
    assert SamePlace(b.place, a.place);
  }

  /** The checker's first match for a composed component is the one requirement at its place. */
  lemma FitsAtPlace(w: Wire, display: Display, requirements: seq<Requirement>, r: Requirement, c: Composed)
    requires Understood(w, display, c)
    requires DistinctPlaces(requirements) && r in requirements && r.place == PlaceOf(c)
    requires c.Media? ==> IsMedia(c.format)
    ensures ComponentFits(w.read, requirements, w.send(c)) <==> Meets(r, c)
  {
    var claim := w.read.claim(w.send(c)).value;
    assert Matches(r, claim);
    var first := FirstMatch(requirements, claim).value;
    PlaceDecides(requirements, first, r);
  }

  lemma NoSharedSlot(w: Wire, display: Display, a: Composed, b: Composed)
    requires Understood(w, display, a) && Understood(w, display, b) && !SamePlace(PlaceOf(a), PlaceOf(b))
    ensures !SameSlot(w.read, w.send(a), w.send(b))
  {
    var r := Requirement(PlaceOf(b), 0, None);
    assert w.read.slot(w.read.claim(w.send(b)).value) == RequiredSlot(display, r);
  }

  predicate MetBy(requirements: seq<Requirement>, c: Composed) {
    exists r :: r in requirements && r.place == PlaceOf(c) && Meets(r, c)
  }

  predicate CoveredBy(cs: seq<Composed>, r: Requirement) {
    exists c :: c in cs && SamePlace(PlaceOf(c), r.place)
  }

  /** What acceptance amounts to for composed components. */
  predicate Agrees(requirements: seq<Requirement>, cs: seq<Composed>) {
    && (forall c :: c in cs ==> MetBy(requirements, c))
    && (forall r :: r in requirements ==> CoveredBy(cs, r))
  }

  lemma MetIffFits(w: Wire, display: Display, requirements: seq<Requirement>, c: Composed)
    requires Understood(w, display, c) && DistinctPlaces(requirements) && (c.Media? ==> IsMedia(c.format))
    ensures ComponentFits(w.read, requirements, w.send(c)) <==> MetBy(requirements, c)
  {
    var claim := w.read.claim(w.send(c)).value;
    if r :| r in requirements && r.place == PlaceOf(c) && Meets(r, c) {
      FitsAtPlace(w, display, requirements, r, c);
    }
    if ComponentFits(w.read, requirements, w.send(c)) {
      FitsAtPlace(w, display, requirements, FirstMatch(requirements, claim).value, c);
    }
  }

  lemma CoveredIffFilled(w: Wire, display: Display, cs: seq<Composed>, r: Requirement)
    requires Works(w, display)
    ensures Filled(w.read, AllSent(w, cs), RequiredSlot(display, r)) <==> CoveredBy(cs, r)
  {
    var supplied, s := AllSent(w, cs), RequiredSlot(display, r);
    if Filled(w.read, supplied, s) {
      var j :| j in supplied && HasSlot(w.read, j, s);
      var i :| 0 <= i < |supplied| && supplied[i] == j;
      assert Understood(w, display, cs[i]);
    }
    if c :| c in cs && SamePlace(PlaceOf(c), r.place) {
      var i :| 0 <= i < |cs| && cs[i] == c;
      assert Understood(w, display, c) && supplied[i] == w.send(c);
      assert HasSlot(w.read, supplied[i], s) && supplied[i] in supplied;
    }
  }

  predicate MediaFormats(cs: seq<Composed>) {
    forall c :: c in cs && c.Media? ==> IsMedia(c.format)
  }

  lemma FitAllIffMet(w: Wire, display: Display, requirements: seq<Requirement>, cs: seq<Composed>)
    requires Works(w, display) && DistinctPlaces(requirements) && MediaFormats(cs)
    ensures (forall j :: j in AllSent(w, cs) ==> ComponentFits(w.read, requirements, j)) <==>
      (forall c :: c in cs ==> MetBy(requirements, c))
  {
    var supplied := AllSent(w, cs);
    forall i | 0 <= i < |cs| ensures ComponentFits(w.read, requirements, supplied[i]) <==> MetBy(requirements, cs[i]) {
      assert Understood(w, display, cs[i]) && cs[i] in cs;
      MetIffFits(w, display, requirements, cs[i]);
    }
    assert forall i :: 0 <= i < |cs| ==> cs[i] in cs && supplied[i] in supplied;
  }

  lemma NoneShared(w: Wire, display: Display, cs: seq<Composed>)
    requires Works(w, display) && PlacesDiffer(cs)
    ensures var s := AllSent(w, cs); forall i, j :: 0 <= i < j < |s| ==> !SameSlot(w.read, s[i], s[j])
  {
    var supplied := AllSent(w, cs);
    forall i, j | 0 <= i < j < |supplied| ensures !SameSlot(w.read, supplied[i], supplied[j]) {
      assert Understood(w, display, cs[i]) && Understood(w, display, cs[j]);
      NoSharedSlot(w, display, cs[i], cs[j]);
    }
  }

  lemma FilledAllIffCovered(w: Wire, display: Display, requirements: seq<Requirement>, cs: seq<Composed>)
    requires Works(w, display)
    ensures (forall r :: r in requirements ==> Filled(w.read, AllSent(w, cs), RequiredSlot(display, r))) <==>
      (forall r :: r in requirements ==> CoveredBy(cs, r))
  {
    forall r | r in requirements
      ensures Filled(w.read, AllSent(w, cs), RequiredSlot(display, r)) <==> CoveredBy(cs, r)
    {
      CoveredIffFilled(w, display, cs, r);
    }
  }

  lemma CompleteIffAgrees(w: Wire, display: Display, requirements: seq<Requirement>, cs: seq<Composed>)
    requires Works(w, display) && DistinctPlaces(requirements) && PlacesDiffer(cs) && MediaFormats(cs)
    ensures Complete(w.read, display, requirements, AllSent(w, cs)) <==> |cs| <= 64 && Agrees(requirements, cs)
  {
    FitAllIffMet(w, display, requirements, cs);
    NoneShared(w, display, cs);
    FilledAllIffCovered(w, display, requirements, cs);
  }

  /** A component from a filled slot meets the slot's requirement when all slots are filled within bounds. */
  lemma FilledMeets(values: Values, slots: seq<ParameterSlot>, c: Composed, s: ParameterSlot)
    requires FullyFilled(values, slots) && ComesFrom(values, slots, c, s) && (s.MediaSlot? ==> IsMedia(s.format))
    ensures Meets(Asked(slots, s), c)
  {
    assert FilledWithin(values, s);
    if s.TextSlot? {
      GroupLength(values, slots, s.side);
      GroupedTexts(values, slots, s.side, "");
      forall t | t in TextsIn(slots, s.side) ensures Filling(values, t) != "" {
        assert FilledWithin(values, t);
      }
      forall x | x in c.texts ensures Within(x, 4096) {
        GroupedTexts(values, slots, s.side, x);
        var t :| t in TextsIn(slots, s.side) && Filling(values, t) == x;
        assert FilledWithin(values, t);
      }
    }
  }

  lemma FilledMet(requirements: seq<Requirement>, slots: seq<ParameterSlot>, values: Values, c: Composed)
    requires Linked(requirements, slots) && FullyFilled(values, slots) && c in Compose(slots, values)
    ensures MetBy(requirements, c)
  {
    var s := Origin(values, slots, c);
    FilledMeets(values, slots, c, s);
    assert Asked(slots, s) in requirements;
  }

  lemma Covers(cs: seq<Composed>, c: Composed, r: Requirement)
    requires c in cs && PlaceOf(c) == r.place
    ensures CoveredBy(cs, r)
  {
    assert SamePlace(PlaceOf(c), r.place);
  }

  lemma FilledCovers(requirements: seq<Requirement>, slots: seq<ParameterSlot>, values: Values, r: Requirement)
    requires Linked(requirements, slots) && FullyFilled(values, slots) && r in requirements
    ensures CoveredBy(Compose(slots, values), r)
  {
    var s :| s in slots && Asked(slots, s) == r;
    assert Filling(values, s) != "" by {
      assert FilledWithin(values, s);
    }
    var c := Produced(values, slots, s);
    Covers(Compose(slots, values), c, r);
  }

  lemma FilledAgrees(requirements: seq<Requirement>, slots: seq<ParameterSlot>, values: Values)
    requires Linked(requirements, slots) && FullyFilled(values, slots)
    ensures Agrees(requirements, Compose(slots, values))
  {
    forall c | c in Compose(slots, values) ensures MetBy(requirements, c) {
      FilledMet(requirements, slots, values, c);
    }
    forall r | r in requirements ensures CoveredBy(Compose(slots, values), r) {
      FilledCovers(requirements, slots, values, r);
    }
  }

  /** The component that covers a slot's requirement also meets it. */
  lemma CoveringMeets(requirements: seq<Requirement>, cs: seq<Composed>, asked: Requirement) returns (c: Composed)
    requires DistinctPlaces(requirements) && Agrees(requirements, cs) && asked in requirements
    ensures c in cs && SamePlace(PlaceOf(c), asked.place) && Meets(asked, c)
  {
    assert CoveredBy(cs, asked);
    c :| c in cs && SamePlace(PlaceOf(c), asked.place);
    assert MetBy(requirements, c);
    var r :| r in requirements && r.place == PlaceOf(c) && Meets(r, c);
    PlaceDecides(requirements, r, asked);
  }

  lemma AgreesIsFilled(requirements: seq<Requirement>, slots: seq<ParameterSlot>, values: Values, s: ParameterSlot)
    requires DistinctPlaces(requirements) && Linked(requirements, slots) && Apart(slots)
    requires Agrees(requirements, Compose(slots, values)) && s in slots
    ensures FilledWithin(values, s)
  {
    var c := CoveringMeets(requirements, Compose(slots, values), Asked(slots, s));
    MetSlotFilled(slots, values, c, s);
  }

  lemma MetSlotFilled(slots: seq<ParameterSlot>, values: Values, c: Composed, s: ParameterSlot)
    requires Apart(slots) && c in Compose(slots, values) && s in slots
    requires SamePlace(PlaceOf(c), SlotPlace(s)) && Meets(Asked(slots, s), c)
    ensures FilledWithin(values, s)
  {
    var from := Origin(values, slots, c);
    ApartMembers(slots, from, s);
    AskedFills(values, slots, c, from, s);
  }

  lemma AskedFills(values: Values, slots: seq<ParameterSlot>, c: Composed, from: ParameterSlot, s: ParameterSlot)
    requires ComesFrom(values, slots, c, from) && PlaceOf(c) == SlotPlace(from) && s in slots
    requires from == s || (from.TextSlot? && s.TextSlot? && from.side == s.side)
    requires Meets(Asked(slots, s), c)
    ensures FilledWithin(values, s)
  {
    if s.TextSlot? {
      GroupLength(values, slots, s.side);
      GroupedTexts(values, slots, s.side, Filling(values, s));
      assert s in TextsIn(slots, s.side);
    }
  }

  /** The JSON a component goes out as, and the checker's own reading of it. */
  function JsonWire(display: Display): Wire {
    Wire(ToJson, ReaderOf(display))
  }

  lemma JsonUnderstood(display: Display, c: Composed)
    requires TellsIntegersApart(display)
    ensures Understood(JsonWire(display), display, c)
  {
    ClaimOfComposed(c);
    forall r ensures Matches(r, ClaimFor(c)) <==> r.place == PlaceOf(c) {
      MatchesComposed(r, c);
    }
    forall r | c.Media? ==> IsMedia(c.format) ensures ParametersFit(r, ParametersOf(c)) <==> Meets(r, c) {
      FitsComposed(r, c);
    }
    var own := Requirement(PlaceOf(c), 0, None);
    assert ClaimedSlot(display, ClaimFor(c)) == RequiredSlot(display, own);
    forall r ensures RequiredSlot(display, own) == RequiredSlot(display, r) <==> SamePlace(PlaceOf(c), r.place) {
      SlotsTellPlaces(display, own, r);
    }
  }
}
