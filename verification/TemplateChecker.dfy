/**
  `assertWhatsAppTemplateComponents`: whether a list of filled-in components is exactly
  what a message template asks for.
*/
module TemplateChecker {
  import opened Collections
  import opened JsonValues

  // --- Template definitions ---

  /** A placeholder of a text, already tokenised: its digits are `zeros` zeros and a number. */
  datatype Placeholder = Positional(number: nat, zeros: nat) | Named

  datatype ComponentKind = HEADER | BODY | BUTTONS | OTHER_COMPONENT
  datatype Format = IMAGE | VIDEO | DOCUMENT | LOCATION | OTHER_FORMAT
  datatype Style = POSITIONAL | NAMED_OR_MIXED | UNSTATED
  datatype ButtonKind = QUICK_REPLY | URL | OTHER_BUTTON

  /** `unsupported` says that the definition carries one of the listed reasons. */
  datatype Button = Button(kind: ButtonKind, dynamic: bool, style: Style, unsupported: bool)

  datatype Component = Component(
    kind: ComponentKind, format: Format, text: seq<Placeholder>, style: Style, unsupported: bool,
    buttons: seq<Button>)

  predicate ButtonSupported(b: Button) {
    !b.unsupported && (b.kind == URL && b.dynamic ==> b.style == POSITIONAL)
  }

  predicate ComponentSupported(c: Component) {
    && !(c.kind == HEADER && c.format == LOCATION)
    && !c.unsupported && c.style != NAMED_OR_MIXED && Named !in c.text
    && (c.kind == BUTTONS ==> forall b :: b in c.buttons ==> ButtonSupported(b))
  }

  /** `whatsAppTemplateDisabledReason` finds no reason. */
  predicate Supported(definitions: seq<Component>) {
    forall c :: c in definitions ==> ComponentSupported(c)
  }

  // --- What a definition asks for ---

  datatype Place = BodyPlace | HeaderPlace | ButtonPlace(index: nat, subType: string)

  datatype Requirement = Requirement(place: Place, count: nat, parameterType: Option<string>)

  /** Placeholders with the same digits count once. */
  function PlaceholderCount(text: seq<Placeholder>): nat {
    |set p | p in text && p.Positional?|
  }

  predicate IsMedia(f: Format) {
    f == IMAGE || f == VIDEO || f == DOCUMENT
  }

  function MediaName(f: Format): string {
    if f == IMAGE then "image" else if f == VIDEO then "video" else "document"
  }

  function ButtonRequirement(b: Button, index: nat): Option<Requirement> {
    if b.kind == QUICK_REPLY then Some(Requirement(ButtonPlace(index, "quick_reply"), 1, Some("payload")))
    else if b.kind == URL && b.dynamic then Some(Requirement(ButtonPlace(index, "url"), 1, Some("text")))
    else None
  }

  function Listed(r: Option<Requirement>): seq<Requirement> {
    if r.Some? then [r.value] else []
  }

  function ButtonRequirements(buttons: seq<Button>): seq<Requirement> {
    if buttons == [] then []
    else
      var last := |buttons| - 1;
      ButtonRequirements(buttons[..last]) + Listed(ButtonRequirement(buttons[last], last))
  }

  function TextRequirement(place: Place, text: seq<Placeholder>): seq<Requirement> {
    if PlaceholderCount(text) > 0 then [Requirement(place, PlaceholderCount(text), None)] else []
  }

  function RequirementsOf(c: Component): seq<Requirement> {
    match c.kind
    case BODY => TextRequirement(BodyPlace, c.text)
    case HEADER =>
      if IsMedia(c.format) then [Requirement(HeaderPlace, 1, Some(MediaName(c.format)))]
      else TextRequirement(HeaderPlace, c.text)
    case BUTTONS => ButtonRequirements(c.buttons)
    case OTHER_COMPONENT => []
  }

  function Requirements(definitions: seq<Component>): seq<Requirement> {
    if definitions == [] then []
    else
      var last := |definitions| - 1;
      Requirements(definitions[..last]) + RequirementsOf(definitions[last])
  }

  method CollectButtons(buttons: seq<Button>) returns (requirements: seq<Requirement>)
    ensures requirements == ButtonRequirements(buttons)
  {
    requirements := [];
    for k := 0 to |buttons|
      invariant requirements == ButtonRequirements(buttons[..k])
    {
      assert buttons[..k + 1][..k] == buttons[..k];
      var r := ButtonRequirement(buttons[k], k);
      if r.Some? {
        requirements := requirements + [r.value];
      }
    }
    assert buttons[..|buttons|] == buttons;
  }

  method CollectRequirements(definitions: seq<Component>) returns (requirements: seq<Requirement>)
    ensures requirements == Requirements(definitions)
  {
    requirements := [];
    for i := 0 to |definitions|
      invariant requirements == Requirements(definitions[..i])
    {
      var c := definitions[i];
      assert definitions[..i + 1][..i] == definitions[..i];
      if c.kind == BODY {
        var count := PlaceholderCount(c.text);
        if count > 0 {
          requirements := requirements + [Requirement(BodyPlace, count, None)];
        }
      } else if c.kind == HEADER {
        if IsMedia(c.format) {
          requirements := requirements + [Requirement(HeaderPlace, 1, Some(MediaName(c.format)))];
        } else {
          var count := PlaceholderCount(c.text);
          if count > 0 {
            requirements := requirements + [Requirement(HeaderPlace, count, None)];
          }
        }
      } else if c.kind == BUTTONS {
        var ofButtons := CollectButtons(c.buttons);
        requirements := requirements + ofButtons;
      }
    }
    assert definitions[..|definitions|] == definitions;
  }

  // --- What a supplied component claims to be ---

  datatype Part = BODY_PART | HEADER_PART | BUTTON_PART

  datatype Claim = Claim(part: Part, index: Option<Json>, subType: Option<string>, parameters: seq<Json>)

  predicate HasExactly(v: Json, names: set<string>) {
    v.Object? && v.fields.Keys == names
  }

  function ClaimOf(c: Json): Option<Claim> {
    var kind, parameters := NonEmpty(Field(c, "type")), Field(c, "parameters");
    if kind.None? || parameters.None? || !parameters.value.Array? then None
    else if kind.value == "button" then
      if HasExactly(c, {"index", "parameters", "subType", "type"})
      then Some(Claim(BUTTON_PART, Field(c, "index"), NonEmpty(Field(c, "subType")), parameters.value.items))
      else None
    else if (kind.value == "body" || kind.value == "header") && HasExactly(c, {"parameters", "type"})
      then Some(Claim(if kind.value == "body" then BODY_PART else HEADER_PART, None, None, parameters.value.items))
    else None
  }

  predicate Matches(r: Requirement, c: Claim) {
    match r.place
    case BodyPlace => c.part == BODY_PART
    case HeaderPlace => c.part == HEADER_PART
    case ButtonPlace(index, subType) =>
      c.part == BUTTON_PART && c.index == Some(Integer(index)) && c.subType == Some(subType)
  }

  predicate Bounded(v: Option<Json>, limit: nat) {
    v.Some? && v.value.Text? && 1 <= |v.value.text| <= limit
  }

  const MAX_SAFE_INTEGER := 9007199254740991

  predicate SafeInteger(v: Option<Json>) {
    v.Some? && v.value.Integer? && -MAX_SAFE_INTEGER <= v.value.number <= MAX_SAFE_INTEGER
  }

  /** `/^[A-Z]{3}$/`. */
  predicate CurrencyCode(v: Option<Json>) {
    v.Some? && v.value.Text? && |v.value.text| == 3 && forall ch :: ch in v.value.text ==> 'A' <= ch <= 'Z'
  }

  predicate WellShaped(p: Json, kind: string) {
    match kind
    case "text" => HasExactly(p, {"text", "type"}) && Bounded(Field(p, "text"), 4096)
    case "payload" => HasExactly(p, {"payload", "type"}) && Bounded(Field(p, "payload"), 1024)
    case "image" => HasExactly(p, {"mediaAssetId", "type"}) && Bounded(Field(p, "mediaAssetId"), 128)
    case "video" => HasExactly(p, {"mediaAssetId", "type"}) && Bounded(Field(p, "mediaAssetId"), 128)
    case "document" => HasExactly(p, {"mediaAssetId", "type"}) && Bounded(Field(p, "mediaAssetId"), 128)
    case "date_time" => HasExactly(p, {"fallbackValue", "type"}) && Bounded(Field(p, "fallbackValue"), 128)
    case "currency" =>
      HasExactly(p, {"amount1000", "code", "fallbackValue", "type"}) && SafeInteger(Field(p, "amount1000")) &&
      CurrencyCode(Field(p, "code")) && Bounded(Field(p, "fallbackValue"), 128)
    case _ => false
  }

  predicate ParameterFits(wanted: Option<string>, p: Json) {
    var kind := NonEmpty(Field(p, "type"));
    && kind.Some? && WellShaped(p, kind.value)
    && if wanted.Some? then kind == wanted
       else kind.value == "currency" || kind.value == "date_time" || kind.value == "text"
  }

  predicate ParametersFit(r: Requirement, parameters: seq<Json>) {
    |parameters| == r.count && forall p :: p in parameters ==> ParameterFits(r.parameterType, p)
  }

  // --- The verdict ---

  /** The entries of `keys`; a button is known by its index, printed. */
  datatype Slot = Whole(part: Part) | ButtonSlot(shown: string)

  type Display = Json -> string

  /** `String(index)` tells integers apart. */
  ghost predicate TellsIntegersApart(display: Display) {
    forall m, n :: display(Integer(m)) == display(Integer(n)) ==> m == n
  }

  function RequiredSlot(display: Display, r: Requirement): Slot {
    match r.place
    case BodyPlace => Whole(BODY_PART)
    case HeaderPlace => Whole(HEADER_PART)
    case ButtonPlace(index, _) => ButtonSlot(display(Integer(index)))
  }

  function ClaimedSlot(display: Display, c: Claim): Slot {
    if c.part == BUTTON_PART && c.index.Some? then ButtonSlot(display(c.index.value)) else Whole(c.part)
  }

  function FirstMatch(requirements: seq<Requirement>, c: Claim): (r: Option<Requirement>)
    ensures r.Some? ==> r.value in requirements && Matches(r.value, c)
    ensures r.None? ==> forall x :: x in requirements ==> !Matches(x, c)
  {
    if requirements == [] then None
    else if Matches(requirements[0], c) then Some(requirements[0])
    else FirstMatch(requirements[1..], c)
  }

  /** How supplied components are read: `ClaimOf`, and `ClaimedSlot` for some display of indexes. */
  datatype Reader = Reader(claim: Json -> Option<Claim>, slot: Claim -> Slot)

  function ReaderOf(display: Display): Reader {
    Reader(ClaimOf, c => ClaimedSlot(display, c))
  }

  predicate ClaimFits(requirements: seq<Requirement>, claim: Claim) {
    var r := FirstMatch(requirements, claim);
    r.Some? && ParametersFit(r.value, claim.parameters)
  }

  predicate ComponentFits(read: Reader, requirements: seq<Requirement>, c: Json) {
    var claim := read.claim(c);
    claim.Some? && ClaimFits(requirements, claim.value)
  }

  predicate HasSlot(read: Reader, c: Json, s: Slot) {
    var claim := read.claim(c);
    claim.Some? && read.slot(claim.value) == s
  }

  predicate SameSlot(read: Reader, a: Json, b: Json) {
    var claim := read.claim(b);
    claim.Some? && HasSlot(read, a, read.slot(claim.value))
  }

  predicate Filled(read: Reader, supplied: seq<Json>, s: Slot) {
    exists c :: c in supplied && HasSlot(read, c, s)
  }

  /** Every component fits the requirement it matches first, no slot is filled twice, none is left. */
  predicate Complete(read: Reader, display: Display, requirements: seq<Requirement>, supplied: seq<Json>) {
    && |supplied| <= 64
    && (forall c :: c in supplied ==> ComponentFits(read, requirements, c))
    && (forall i, j :: 0 <= i < j < |supplied| ==> !SameSlot(read, supplied[i], supplied[j]))
    && (forall r :: r in requirements ==> Filled(read, supplied, RequiredSlot(display, r)))
  }

  datatype Verdict = ACCEPTED | DEFINITION_UNSUPPORTED | COMPONENTS_INVALID

  function Supplied(input: Option<Json>): Option<seq<Json>> {
    if input.None? then Some([]) else if input.value.Array? then Some(input.value.items) else None
  }

  method CheckParameters(r: Requirement, parameters: seq<Json>) returns (ok: bool)
    ensures ok <==> ParametersFit(r, parameters)
  {
    if |parameters| != r.count {
      return false;
    }
    for k := 0 to |parameters|
      invariant forall p :: p in parameters[..k] ==> ParameterFits(r.parameterType, p)
    {
      if !ParameterFits(r.parameterType, parameters[k]) {
        return false;
      }
      assert parameters[..k + 1] == parameters[..k] + [parameters[k]];
    }
    assert parameters[..|parameters|] == parameters;
    return true;
  }

  /** The loop over the supplied components, with its set of keys. */
  method CheckSupplied(read: Reader, display: Display, requirements: seq<Requirement>, supplied: seq<Json>) returns (ok: bool)
    ensures ok <==> Complete(read, display, requirements, supplied)
  {
    if |supplied| > 64 {
      return false;
    }
    var keys: set<Slot> := {};
    for k := 0 to |supplied|
      invariant forall i :: 0 <= i < k ==> ComponentFits(read, requirements, supplied[i])
      invariant forall i, j :: 0 <= i < j < k ==> !SameSlot(read, supplied[i], supplied[j])
      invariant forall i, s :: 0 <= i < k && HasSlot(read, supplied[i], s) ==> s in keys
      invariant forall s :: s in keys ==> exists i :: 0 <= i < k && HasSlot(read, supplied[i], s)
    {
      var claim := read.claim(supplied[k]);
      if claim.None? {
        assert !ComponentFits(read, requirements, supplied[k]);
        return false;
      }
      var key := read.slot(claim.value);
      if key in keys {
        ghost var i :| 0 <= i < k && HasSlot(read, supplied[i], key);
        assert SameSlot(read, supplied[i], supplied[k]);
        return false;
      }
      keys := keys + {key};
      assert HasSlot(read, supplied[k], key);
      var requirement := FirstMatch(requirements, claim.value);
      var fits := false;
      if requirement.Some? {
        fits := CheckParameters(requirement.value, claim.value.parameters);
      }
      assert fits == ComponentFits(read, requirements, supplied[k]);
      if !fits {
        return false;
      }
    }
    forall s ensures s in keys <==> Filled(read, supplied, s) {
      if s in keys {
        var i :| 0 <= i < |supplied| && HasSlot(read, supplied[i], s);
        assert supplied[i] in supplied;
      }
    }
    return forall r :: r in requirements ==> RequiredSlot(display, r) in keys;
  }

  predicate Accepts(display: Display, definitions: seq<Component>, input: Option<Json>) {
    && Supported(definitions) && Supplied(input).Some?
    && Complete(ReaderOf(display), display, Requirements(definitions), Supplied(input).value)
  }

  method AssertTemplateComponents(display: Display, definitions: seq<Component>, input: Option<Json>) returns (v: Verdict)
    ensures v == DEFINITION_UNSUPPORTED <==> !Supported(definitions)
    ensures v == ACCEPTED <==> Accepts(display, definitions, input)
  {
    if !Supported(definitions) {
      return DEFINITION_UNSUPPORTED;
    }
    if Supplied(input).None? {
      return COMPONENTS_INVALID;
    }
    var requirements := CollectRequirements(definitions);
    var ok := CheckSupplied(ReaderOf(display), display, requirements, Supplied(input).value);
    return if ok then ACCEPTED else COMPONENTS_INVALID;
  }

  // --- Exactly what is accepted ---

  predicate SamePlace(a: Place, b: Place) {
    match (a, b)
    case (BodyPlace, BodyPlace) => true
    case (HeaderPlace, HeaderPlace) => true
    case (ButtonPlace(i, _), ButtonPlace(j, _)) => i == j
    case _ => false
  }

  predicate DistinctPlaces(requirements: seq<Requirement>) {
    forall i, j :: 0 <= i < j < |requirements| ==> !SamePlace(requirements[i].place, requirements[j].place)
  }

  predicate Satisfies(read: Reader, r: Requirement, c: Json) {
    var claim := read.claim(c);
    claim.Some? && Matches(r, claim.value) && ParametersFit(r, claim.value.parameters)
  }

  /** A one-to-one assignment of the components to the requirements they satisfy. */
  predicate IsAssignment(read: Reader, requirements: seq<Requirement>, supplied: seq<Json>, place: seq<nat>) {
    && |place| == |requirements| == |supplied| && Distinct(place)
    && forall i :: 0 <= i < |place| ==> place[i] < |supplied| && Satisfies(read, requirements[i], supplied[place[i]])
  }

  ghost predicate Assignable(read: Reader, requirements: seq<Requirement>, supplied: seq<Json>) {
    exists place :: IsAssignment(read, requirements, supplied, place)
  }

  /** What the proofs need of a reader: a component has the slot of whatever it matches. */
  ghost predicate Faithful(read: Reader, display: Display) {
    forall c, r :: read.claim(c).Some? && Matches(r, read.claim(c).value) ==>
      read.slot(read.claim(c).value) == RequiredSlot(display, r)
  }

  lemma ReaderFaithful(display: Display)
    ensures Faithful(ReaderOf(display), display)
  {
  }

  lemma SlotsTellPlaces(display: Display, a: Requirement, b: Requirement)
    requires TellsIntegersApart(display)
    ensures RequiredSlot(display, a) == RequiredSlot(display, b) <==> SamePlace(a.place, b.place)
  {
  }

  lemma SlotDecides(display: Display, requirements: seq<Requirement>, a: Requirement, b: Requirement)
    requires TellsIntegersApart(display) && DistinctPlaces(requirements) && a in requirements && b in requirements
    requires RequiredSlot(display, a) == RequiredSlot(display, b)
    ensures a == b
  {
    SlotsTellPlaces(display, a, b);
    var i :| 0 <= i < |requirements| && requirements[i] == a;
    var j :| 0 <= j < |requirements| && requirements[j] == b;
    assert i < j ==> !SamePlace(requirements[i].place, requirements[j].place);
    assert j < i ==> !SamePlace(requirements[j].place, requirements[i].place);
    assert SamePlace(b.place, a.place);
  }

  ghost function FilledAt(read: Reader, supplied: seq<Json>, s: Slot): (j: nat)
    requires Filled(read, supplied, s)
    ensures j < |supplied| && HasSlot(read, supplied[j], s)
  {
    var c :| c in supplied && HasSlot(read, c, s);
    IndexOf(supplied, c)
  }

  lemma FilledSatisfies(read: Reader, display: Display, requirements: seq<Requirement>, supplied: seq<Json>, r: Requirement)
    requires TellsIntegersApart(display) && Faithful(read, display) && DistinctPlaces(requirements)
    requires Complete(read, display, requirements, supplied) && r in requirements
    ensures Satisfies(read, r, supplied[FilledAt(read, supplied, RequiredSlot(display, r))])
  {
    var c := supplied[FilledAt(read, supplied, RequiredSlot(display, r))];
    assert ComponentFits(read, requirements, c);
    var first := FirstMatch(requirements, read.claim(c).value);
    SlotDecides(display, requirements, r, first.value);
  }

  lemma SuppliedFits(read: Reader, display: Display, requirements: seq<Requirement>, supplied: seq<Json>)
    requires Faithful(read, display) && Complete(read, display, requirements, supplied)
    ensures |supplied| <= |requirements|
  {
    var matched := seq(|supplied|, j requires 0 <= j < |supplied| =>
      assert ComponentFits(read, requirements, supplied[j]);
      FirstMatch(requirements, read.claim(supplied[j]).value).value);
    forall i, j | 0 <= i < j < |matched| ensures matched[i] != matched[j] {
      assert ComponentFits(read, requirements, supplied[i]) && ComponentFits(read, requirements, supplied[j]);
      assert !SameSlot(read, supplied[i], supplied[j]);
    }
    forall r | r in Elements(matched) ensures r in Elements(requirements) {
      var j :| 0 <= j < |matched| && matched[j] == r;
      assert ComponentFits(read, requirements, supplied[j]);
    }
    DistinctFits(matched, Elements(requirements));
    ElementsAtMost(requirements);
  }

  lemma {:induction false} ElementsAtMost<T>(s: seq<T>)
    ensures |Elements(s)| <= |s|
  {
    if s != [] {
      var last := |s| - 1;
      ElementsAtMost(s[..last]);
      assert s == s[..last] + [s[last]];
      assert Elements(s) == Elements(s[..last]) + {s[last]};
    }
  }

  function Range(n: nat): (r: set<nat>)
    ensures |r| == n && forall k :: k in r <==> 0 <= k < n
  {
    if n == 0 then {} else Range(n - 1) + {n - 1}
  }

  lemma CompleteIsAssigned(read: Reader, display: Display, requirements: seq<Requirement>, supplied: seq<Json>)
    requires TellsIntegersApart(display) && Faithful(read, display) && DistinctPlaces(requirements)
    requires Complete(read, display, requirements, supplied)
    ensures Assignable(read, requirements, supplied)
  {
    var place := seq(|requirements|, i requires 0 <= i < |requirements| =>
      FilledAt(read, supplied, RequiredSlot(display, requirements[i])));
    forall i | 0 <= i < |requirements| ensures Satisfies(read, requirements[i], supplied[place[i]]) {
      FilledSatisfies(read, display, requirements, supplied, requirements[i]);
    }
    forall i, j | 0 <= i < j < |place| ensures place[i] != place[j] {
      SlotsTellPlaces(display, requirements[i], requirements[j]);
    }
    DistinctFits(place, Range(|supplied|));
    SuppliedFits(read, display, requirements, supplied);
    assert IsAssignment(read, requirements, supplied, place);
  }

  /** A one-to-one assignment leaves no component over. */
  lemma AssignmentCovers(read: Reader, requirements: seq<Requirement>, supplied: seq<Json>, place: seq<nat>, j: nat)
    returns (i: nat)
    requires IsAssignment(read, requirements, supplied, place) && j < |supplied|
    ensures i < |place| && place[i] == j
  {
    if j !in place {
      DistinctFits(place, Range(|supplied|) - {j});
      assert false;
    }
    i :| 0 <= i < |place| && place[i] == j;
  }

  lemma AssignedIsComplete(read: Reader, display: Display, requirements: seq<Requirement>, supplied: seq<Json>, place: seq<nat>)
    requires TellsIntegersApart(display) && Faithful(read, display) && DistinctPlaces(requirements)
    requires IsAssignment(read, requirements, supplied, place) && |supplied| <= 64
    ensures Complete(read, display, requirements, supplied)
  {
    forall c | c in supplied ensures ComponentFits(read, requirements, c) {
      var j :| 0 <= j < |supplied| && supplied[j] == c;
      var i := AssignmentCovers(read, requirements, supplied, place, j);
      assert Satisfies(read, requirements[i], c);
      SlotDecides(display, requirements, requirements[i], FirstMatch(requirements, read.claim(c).value).value);
    }
    forall j, k | 0 <= j < k < |supplied| ensures !SameSlot(read, supplied[j], supplied[k]) {
      var i := AssignmentCovers(read, requirements, supplied, place, j);
      var l := AssignmentCovers(read, requirements, supplied, place, k);
      assert Satisfies(read, requirements[i], supplied[j]) && Satisfies(read, requirements[l], supplied[k]);
      SlotsTellPlaces(display, requirements[i], requirements[l]);
      SlotsTellPlaces(display, requirements[l], requirements[i]);
    }
    forall r | r in requirements ensures Filled(read, supplied, RequiredSlot(display, r)) {
      var i :| 0 <= i < |requirements| && requirements[i] == r;
      assert Satisfies(read, r, supplied[place[i]]);
      assert supplied[place[i]] in supplied;
      assert HasSlot(read, supplied[place[i]], RequiredSlot(display, r));
    }
  }

  /**
    When no two requirements name the same place, a list is accepted exactly when its
    components, in whatever order, satisfy the requirements one to one.
  */
  lemma AcceptedIffAssigned(display: Display, definitions: seq<Component>, input: Option<Json>)
    requires TellsIntegersApart(display) && DistinctPlaces(Requirements(definitions))
    ensures Accepts(display, definitions, input) <==>
      Supported(definitions) && Supplied(input).Some? && |Supplied(input).value| <= 64 &&
      Assignable(ReaderOf(display), Requirements(definitions), Supplied(input).value)
  {
    var read, requirements := ReaderOf(display), Requirements(definitions);
    ReaderFaithful(display);
    if Supplied(input).Some? {
      var supplied := Supplied(input).value;
      if Complete(read, display, requirements, supplied) {
        CompleteIsAssigned(read, display, requirements, supplied);
      }
      if Assignable(read, requirements, supplied) && |supplied| <= 64 {
        var place :| IsAssignment(read, requirements, supplied, place);
        AssignedIsComplete(read, display, requirements, supplied, place);
      }
    }
  }

  /**
    When requirements repeat a place, the code accepts a list that satisfies only the first
    of them: what it accepts is then never a one-to-one assignment.
  */
  lemma RepeatedPlaceNeverAssigned(display: Display, definitions: seq<Component>, input: Option<Json>)
    requires !DistinctPlaces(Requirements(definitions)) && Accepts(display, definitions, input)
    ensures !Assignable(ReaderOf(display), Requirements(definitions), Supplied(input).value)
  {
    ReaderFaithful(display);
    NoAssignment(ReaderOf(display), display, Requirements(definitions), Supplied(input).value);
  }

  lemma NoAssignment(read: Reader, display: Display, requirements: seq<Requirement>, supplied: seq<Json>)
    requires Faithful(read, display) && !DistinctPlaces(requirements) && Complete(read, display, requirements, supplied)
    ensures !Assignable(read, requirements, supplied)
  {
    if place :| IsAssignment(read, requirements, supplied, place) {
      var i, j :| 0 <= i < j < |requirements| && SamePlace(requirements[i].place, requirements[j].place);
      var a, b := supplied[place[i]], supplied[place[j]];
      assert Satisfies(read, requirements[i], a) && Satisfies(read, requirements[j], b);
      assert RequiredSlot(display, requirements[i]) == RequiredSlot(display, requirements[j]);
      assert HasSlot(read, a, read.slot(read.claim(b).value)) && HasSlot(read, b, read.slot(read.claim(a).value));
      assert SameSlot(read, a, b) && SameSlot(read, b, a);
      assert false;
    }
  }
}
