/**
  What the checker accepts, written out as JSON: which definitions can be used, what they
  ask for, and which components answer it.
*/
module TemplateLaws {
  import opened Collections
  import opened JsonValues
  import opened TemplateChecker

  // --- Definitions that can be used ---

  predicate ButtonUsable(b: Button) {
    if b.unsupported then false
    else if b.kind == URL && b.dynamic then b.style == POSITIONAL
    else true
  }

  predicate ComponentUsable(c: Component) {
    && (c.kind == HEADER ==> c.format != LOCATION) && !c.unsupported
    && (c.style == POSITIONAL || c.style == UNSTATED)
    && (forall k :: 0 <= k < |c.text| ==> c.text[k].Positional?)
    && (c.kind == BUTTONS ==> forall k :: 0 <= k < |c.buttons| ==> ButtonUsable(c.buttons[k]))
  }

  predicate Usable(definitions: seq<Component>) {
    forall i :: 0 <= i < |definitions| ==> ComponentUsable(definitions[i])
  }

  lemma ComponentUsableIff(c: Component)
    ensures ComponentUsable(c) <==> ComponentSupported(c)
  {
    if ComponentSupported(c) {
      forall k | 0 <= k < |c.text| ensures c.text[k].Positional? {
        assert c.text[k] in c.text;
      }
      forall k | 0 <= k < |c.buttons| && c.kind == BUTTONS ensures ButtonUsable(c.buttons[k]) {
        assert c.buttons[k] in c.buttons;
      }
    }
  }

  lemma UsableIff(definitions: seq<Component>)
    ensures Usable(definitions) <==> Supported(definitions)
  {
    forall i | 0 <= i < |definitions| ensures ComponentUsable(definitions[i]) <==> ComponentSupported(definitions[i]) {
      ComponentUsableIff(definitions[i]);
    }
    if Supported(definitions) {
      forall i | 0 <= i < |definitions| ensures ComponentUsable(definitions[i]) {
        assert definitions[i] in definitions;
      }
    }
  }

  // --- What is asked for ---

  /** So many different placeholders stand in the text. */
  predicate Placeholders(text: seq<Placeholder>, n: nat) {
    n == |set k | 0 <= k < |text| && text[k].Positional? :: text[k]|
  }

  predicate ButtonAsks(b: Button, k: nat, r: Requirement) {
    || (b.kind == QUICK_REPLY && r == Requirement(ButtonPlace(k, "quick_reply"), 1, Some("payload")))
    || (b.kind == URL && b.dynamic && r == Requirement(ButtonPlace(k, "url"), 1, Some("text")))
  }

  predicate SomeButtonAsks(c: Component, r: Requirement) {
    exists k :: 0 <= k < |c.buttons| && ButtonAsks(c.buttons[k], k, r)
  }

  predicate MediaAsks(f: Format, r: Requirement) {
    || (f == IMAGE && r == Requirement(HeaderPlace, 1, Some("image")))
    || (f == VIDEO && r == Requirement(HeaderPlace, 1, Some("video")))
    || (f == DOCUMENT && r == Requirement(HeaderPlace, 1, Some("document")))
  }

  predicate TextAsks(text: seq<Placeholder>, place: Place, r: Requirement) {
    r.place == place && r.count > 0 && r.parameterType.None? && Placeholders(text, r.count)
  }

  predicate ComponentAsks(c: Component, r: Requirement) {
    || (c.kind == BODY && TextAsks(c.text, BodyPlace, r))
    || (c.kind == HEADER && MediaAsks(c.format, r))
    || (c.kind == HEADER && (c.format == LOCATION || c.format == OTHER_FORMAT) && TextAsks(c.text, HeaderPlace, r))
    || (c.kind == BUTTONS && SomeButtonAsks(c, r))
  }

  predicate Asks(definitions: seq<Component>, r: Requirement) {
    exists i :: 0 <= i < |definitions| && ComponentAsks(definitions[i], r)
  }

  lemma PlaceholdersCounted(text: seq<Placeholder>)
    ensures Placeholders(text, PlaceholderCount(text))
  {
    assert (set k | 0 <= k < |text| && text[k].Positional? :: text[k]) == set p | p in text && p.Positional?;
  }

  lemma {:induction false} ButtonsAsk(buttons: seq<Button>, r: Requirement)
    ensures r in ButtonRequirements(buttons) <==> exists k :: 0 <= k < |buttons| && ButtonAsks(buttons[k], k, r)
  {
    if buttons != [] {
      var last := |buttons| - 1;
      ButtonsAsk(buttons[..last], r);
      assert forall k :: 0 <= k < last ==> buttons[..last][k] == buttons[k];
      assert r in Listed(ButtonRequirement(buttons[last], last)) <==> ButtonAsks(buttons[last], last, r);
    }
  }

  lemma ComponentAsksIff(c: Component, r: Requirement)
    ensures r in RequirementsOf(c) <==> ComponentAsks(c, r)
  {
    PlaceholdersCounted(c.text);
    ButtonsAsk(c.buttons, r);
  }

  lemma AsksLast(definitions: seq<Component>, r: Requirement)
    requires definitions != []
    ensures var last := |definitions| - 1;
      Asks(definitions, r) <==> Asks(definitions[..last], r) || ComponentAsks(definitions[last], r)
  {
    var front := definitions[..|definitions| - 1];
    if i :| 0 <= i < |front| && ComponentAsks(front[i], r) {
      assert front[i] == definitions[i];
    }
    if i :| 0 <= i < |definitions| && ComponentAsks(definitions[i], r) {
      assert i < |front| ==> front[i] == definitions[i];
    }
  }

  lemma {:induction false} AsksIff(definitions: seq<Component>, r: Requirement)
    ensures r in Requirements(definitions) <==> Asks(definitions, r)
  {
    if definitions != [] {
      var last := |definitions| - 1;
      var front := definitions[..last];
      AsksIff(front, r);
      ComponentAsksIff(definitions[last], r);
      AsksLast(definitions, r);
    }
  }

  /** Requirements i and j are of components m and n, in the order of the template. */
  predicate AskedByComponents(definitions: seq<Component>, i: nat, j: nat, m: nat, n: nat) {
    && i < j < |Requirements(definitions)| && m <= n < |definitions|
    && ComponentAsks(definitions[m], Requirements(definitions)[i]) && ComponentAsks(definitions[n], Requirements(definitions)[j])
  }

  lemma {:induction false} RequirementComes(definitions: seq<Component>, i: nat) returns (m: nat)
    requires i < |Requirements(definitions)|
    ensures m < |definitions| && ComponentAsks(definitions[m], Requirements(definitions)[i])
  {
    var last := |definitions| - 1;
    var front := Requirements(definitions[..last]);
    if i < |front| {
      m := RequirementComes(definitions[..last], i);
    } else {
      m := last;
      assert Requirements(definitions)[i] == RequirementsOf(definitions[last])[i - |front|];
      ComponentAsksIff(definitions[last], Requirements(definitions)[i]);
    }
  }

  /** The requirements come component by component. */
  lemma {:induction false} RequirementsInOrder(definitions: seq<Component>, i: nat, j: nat) returns (m: nat, n: nat)
    requires i < j < |Requirements(definitions)|
    ensures AskedByComponents(definitions, i, j, m, n)
    decreases |definitions|
  {
    var last := |definitions| - 1;
    if j < |Requirements(definitions[..last])| {
      m, n := RequirementsInOrder(definitions[..last], i, j);
    } else {
      n := last;
      assert Requirements(definitions)[j] == RequirementsOf(definitions[last])[j - |Requirements(definitions[..last])|];
      ComponentAsksIff(definitions[last], Requirements(definitions)[j]);
      m := RequirementComes(definitions, i);
    }
  }

  /** A component is held against the first requirement that it matches, and no other. */
  lemma {:induction false} HeldAgainstFirst(requirements: seq<Requirement>, c: Claim) returns (k: nat)
    ensures k <= |requirements| && forall j :: 0 <= j < k ==> !Matches(requirements[j], c)
    ensures FirstMatch(requirements, c) == if k < |requirements| then Some(requirements[k]) else None
    ensures k < |requirements| ==> Matches(requirements[k], c)
  {
    if requirements == [] || Matches(requirements[0], c) {
      k := 0;
    } else {
      k := HeldAgainstFirst(requirements[1..], c);
      k := k + 1;
      assert forall j :: 1 <= j < k ==> requirements[j] == requirements[1..][j - 1];
    }
  }

  // --- Components as JSON ---

  predicate Written(x: string, limit: nat) {
    1 <= |x| <= limit
  }

  ghost predicate OneField(p: Json, kind: string, field: string, limit: nat) {
    exists x: string :: Written(x, limit) && p == Object(map[field := Text(x), "type" := Text(kind)])
  }

  predicate IsCurrency(p: Json, n: int, code: string, x: string) {
    && -9007199254740991 <= n <= 9007199254740991 && Written(x, 128)
    && |code| == 3 && 'A' <= code[0] <= 'Z' && 'A' <= code[1] <= 'Z' && 'A' <= code[2] <= 'Z'
    && p == Object(map["amount1000" := Integer(n), "code" := Text(code), "fallbackValue" := Text(x), "type" := Text("currency")])
  }

  ghost predicate CurrencyJson(p: Json) {
    exists n: int, code: string, x: string :: IsCurrency(p, n, code, x)
  }

  ghost predicate ParameterJson(p: Json, kind: string) {
    || (kind == "text" && OneField(p, "text", "text", 4096))
    || (kind == "payload" && OneField(p, "payload", "payload", 1024))
    || (kind == "image" && OneField(p, "image", "mediaAssetId", 128))
    || (kind == "video" && OneField(p, "video", "mediaAssetId", 128))
    || (kind == "document" && OneField(p, "document", "mediaAssetId", 128))
    || (kind == "date_time" && OneField(p, "date_time", "fallbackValue", 128))
    || (kind == "currency" && CurrencyJson(p))
  }

  /** Text may be asked for without a type; then an amount or a date is as good. */
  ghost predicate ParameterAnswers(p: Json, wanted: Option<string>) {
    match wanted
    case Some(kind) => ParameterJson(p, kind)
    case None => ParameterJson(p, "text") || ParameterJson(p, "currency") || ParameterJson(p, "date_time")
  }

  predicate WrittenAs(c: Json, place: Place, parameters: seq<Json>) {
    match place
    case BodyPlace => c == Object(map["type" := Text("body"), "parameters" := Array(parameters)])
    case HeaderPlace => c == Object(map["type" := Text("header"), "parameters" := Array(parameters)])
    case ButtonPlace(index, subType) =>
      c == Object(map["type" := Text("button"), "index" := Integer(index), "subType" := Text(subType), "parameters" := Array(parameters)])
  }

  ghost predicate ParametersAnswer(parameters: seq<Json>, r: Requirement) {
    |parameters| == r.count && forall k :: 0 <= k < |parameters| ==> ParameterAnswers(parameters[k], r.parameterType)
  }

  ghost predicate Answers(c: Json, r: Requirement) {
    exists parameters: seq<Json> :: WrittenAs(c, r.place, parameters) && ParametersAnswer(parameters, r)
  }

  lemma OneFieldIff(p: Json, kind: string, field: string, limit: nat)
    requires kind != "" && field != "type"
    ensures OneField(p, kind, field, limit) <==>
      HasExactly(p, {field, "type"}) && NonEmpty(Field(p, "type")) == Some(kind) && Bounded(Field(p, field), limit)
  {
    if HasExactly(p, {field, "type"}) && NonEmpty(Field(p, "type")) == Some(kind) && Bounded(Field(p, field), limit) {
      var x := p.fields[field].text;
      assert p.fields == map[field := Text(x), "type" := Text(kind)];
      assert Written(x, limit);
    }
    if x :| Written(x, limit) && p == Object(map[field := Text(x), "type" := Text(kind)]) {
      assert p.fields.Keys == {field, "type"};
    }
  }

  predicate CurrencyFields(p: Json) {
    && HasExactly(p, {"amount1000", "code", "fallbackValue", "type"}) && NonEmpty(Field(p, "type")) == Some("currency")
    && SafeInteger(Field(p, "amount1000")) && CurrencyCode(Field(p, "code")) && Bounded(Field(p, "fallbackValue"), 128)
  }

  lemma CurrencyRead(p: Json)
    requires CurrencyFields(p)
    ensures CurrencyJson(p)
  {
    var n, code, x := p.fields["amount1000"].number, p.fields["code"].text, p.fields["fallbackValue"].text;
    assert code[0] in code && code[1] in code && code[2] in code;
    var fields := map["amount1000" := Integer(n), "code" := Text(code), "fallbackValue" := Text(x), "type" := Text("currency")];
    assert p.fields.Keys == fields.Keys;
    assert p.fields == fields;
    assert IsCurrency(p, n, code, x);
  }

  lemma CurrencyWritten(p: Json, n: int, code: string, x: string)
    requires IsCurrency(p, n, code, x)
    ensures CurrencyFields(p)
  {
    assert p.fields.Keys == {"amount1000", "code", "fallbackValue", "type"};
  }

  lemma CurrencyIff(p: Json)
    ensures CurrencyJson(p) <==> CurrencyFields(p)
  {
    if CurrencyFields(p) {
      CurrencyRead(p);
    }
    if n, code, x :| IsCurrency(p, n, code, x) {
      CurrencyWritten(p, n, code, x);
    }
  }

  predicate ReadsAs(p: Json, kind: string) {
    NonEmpty(Field(p, "type")) == Some(kind) && WellShaped(p, kind)
  }

  lemma ParameterJsonIff(p: Json, kind: string)
    ensures ParameterJson(p, kind) <==> ReadsAs(p, kind)
  {
    match kind
    case "text" => OneFieldIff(p, "text", "text", 4096);
    case "payload" => OneFieldIff(p, "payload", "payload", 1024);
    case "image" => OneFieldIff(p, "image", "mediaAssetId", 128);
    case "video" => OneFieldIff(p, "video", "mediaAssetId", 128);
    case "document" => OneFieldIff(p, "document", "mediaAssetId", 128);
    case "date_time" => OneFieldIff(p, "date_time", "fallbackValue", 128);
    case "currency" => CurrencyIff(p);
    case _ =>
  }

  lemma ParameterAnswersIff(p: Json, wanted: Option<string>)
    ensures ParameterAnswers(p, wanted) <==> ParameterFits(wanted, p)
  {
    if wanted.Some? {
      ParameterJsonIff(p, wanted.value);
    } else {
      ParameterJsonIff(p, "text");
      ParameterJsonIff(p, "currency");
      ParameterJsonIff(p, "date_time");
    }
  }

  lemma ParametersAnswerIff(parameters: seq<Json>, r: Requirement)
    ensures ParametersAnswer(parameters, r) <==> ParametersFit(r, parameters)
  {
    forall k | 0 <= k < |parameters|
      ensures ParameterAnswers(parameters[k], r.parameterType) <==> ParameterFits(r.parameterType, parameters[k])
    {
      ParameterAnswersIff(parameters[k], r.parameterType);
    }
    if ParametersFit(r, parameters) {
      forall k | 0 <= k < |parameters| ensures ParameterAnswers(parameters[k], r.parameterType) {
        assert parameters[k] in parameters;
      }
    }
  }

  lemma WrittenIsRead(c: Json, place: Place, parameters: seq<Json>)
    requires WrittenAs(c, place, parameters) && (place.ButtonPlace? ==> place.subType != "")
    ensures ClaimOf(c).Some? && ClaimOf(c).value.parameters == parameters
    ensures Matches(Requirement(place, 0, None), ClaimOf(c).value)
  {
    match place
    case BodyPlace => assert c.fields.Keys == {"parameters", "type"};
    case HeaderPlace => assert c.fields.Keys == {"parameters", "type"};
    case ButtonPlace(_, _) => assert c.fields.Keys == {"index", "parameters", "subType", "type"};
  }

  lemma ReadIsWritten(c: Json, r: Requirement)
    requires ClaimOf(c).Some? && Matches(r, ClaimOf(c).value)
    ensures WrittenAs(c, r.place, ClaimOf(c).value.parameters)
  {
    var parameters := ClaimOf(c).value.parameters;
    match r.place
    case BodyPlace => assert c.fields == map["type" := Text("body"), "parameters" := Array(parameters)];
    case HeaderPlace => assert c.fields == map["type" := Text("header"), "parameters" := Array(parameters)];
    case ButtonPlace(index, subType) =>
      assert c.fields ==
        map["type" := Text("button"), "index" := Integer(index), "subType" := Text(subType), "parameters" := Array(parameters)];
  }

  predicate Proper(r: Requirement) {
    r.place.ButtonPlace? ==> r.place.subType != ""
  }

  lemma AnswersIff(read: Reader, c: Json, r: Requirement)
    requires read.claim == ClaimOf && Proper(r)
    ensures Answers(c, r) <==> Satisfies(read, r, c)
  {
    if parameters :| WrittenAs(c, r.place, parameters) && ParametersAnswer(parameters, r) {
      WrittenIsRead(c, r.place, parameters);
      ParametersAnswerIff(parameters, r);
    }
    if Satisfies(read, r, c) {
      var parameters := ClaimOf(c).value.parameters;
      ReadIsWritten(c, r);
      ParametersAnswerIff(parameters, r);
      assert WrittenAs(c, r.place, parameters) && ParametersAnswer(parameters, r);
    }
  }

  // --- What is accepted ---

  /** No two things asked for share a place. */
  ghost predicate AsksApart(definitions: seq<Component>) {
    forall a, b :: Asks(definitions, a) && Asks(definitions, b) && SamePlace(a.place, b.place) ==> a == b
  }

  ghost predicate AnswersSome(definitions: seq<Component>, c: Json) {
    exists r :: Asks(definitions, r) && Answers(c, r)
  }

  ghost predicate AnswerAlike(definitions: seq<Component>, a: Json, b: Json) {
    exists r :: Asks(definitions, r) && Answers(a, r) && Answers(b, r)
  }

  ghost predicate Answered(supplied: seq<Json>, r: Requirement) {
    exists k :: 0 <= k < |supplied| && Answers(supplied[k], r)
  }

  /** Everything supplied answers something asked for, no two the same, and nothing is left open. */
  ghost predicate AnswersAll(definitions: seq<Component>, supplied: seq<Json>) {
    && |supplied| <= 64
    && (forall k :: 0 <= k < |supplied| ==> AnswersSome(definitions, supplied[k]))
    && (forall j, k :: 0 <= j < k < |supplied| ==> !AnswerAlike(definitions, supplied[j], supplied[k]))
    && (forall r :: Asks(definitions, r) ==> Answered(supplied, r))
  }

  ghost predicate SuppliedAs(input: Option<Json>, supplied: seq<Json>) {
    (input.None? && supplied == []) || input == Some(Array(supplied))
  }

  lemma AsksProper(definitions: seq<Component>, r: Requirement)
    requires Asks(definitions, r)
    ensures Proper(r)
  {
  }

  /** A fitting component answers its first match. */
  lemma FirstIsAnswered(display: Display, definitions: seq<Component>, c: Json) returns (r: Requirement)
    requires ComponentFits(ReaderOf(display), Requirements(definitions), c)
    ensures Asks(definitions, r) && Answers(c, r) && HasSlot(ReaderOf(display), c, RequiredSlot(display, r))
  {
    r := FirstMatch(Requirements(definitions), ClaimOf(c).value).value;
    AsksIff(definitions, r);
    AsksProper(definitions, r);
    AnswersIff(ReaderOf(display), c, r);
    ReaderFaithful(display);
  }

  lemma AnswerFits(display: Display, definitions: seq<Component>, c: Json, r: Requirement)
    requires AsksApart(definitions) && Asks(definitions, r) && Answers(c, r)
    ensures ComponentFits(ReaderOf(display), Requirements(definitions), c)
    ensures HasSlot(ReaderOf(display), c, RequiredSlot(display, r))
  {
    AsksProper(definitions, r);
    AnswersIff(ReaderOf(display), c, r);
    AsksIff(definitions, r);
    ReaderFaithful(display);
    var first := FirstMatch(Requirements(definitions), ClaimOf(c).value).value;
    AsksIff(definitions, first);
    assert SamePlace(first.place, r.place);
  }

  /** In a slot, only the one thing asked for there can be answered. */
  lemma SlotAsksOne(display: Display, definitions: seq<Component>, c: Json, r: Requirement)
    requires TellsIntegersApart(display) && AsksApart(definitions) && Asks(definitions, r)
    requires ComponentFits(ReaderOf(display), Requirements(definitions), c)
    requires HasSlot(ReaderOf(display), c, RequiredSlot(display, r))
    ensures Answers(c, r)
  {
    var first := FirstIsAnswered(display, definitions, c);
    SlotsTellPlaces(display, first, r);
  }

  lemma CompleteAnswers(display: Display, definitions: seq<Component>, supplied: seq<Json>)
    requires TellsIntegersApart(display) && AsksApart(definitions)
    requires Complete(ReaderOf(display), display, Requirements(definitions), supplied)
    ensures AnswersAll(definitions, supplied)
  {
    var read, requirements := ReaderOf(display), Requirements(definitions);
    forall k | 0 <= k < |supplied| ensures AnswersSome(definitions, supplied[k]) {
      assert supplied[k] in supplied;
      var r := FirstIsAnswered(display, definitions, supplied[k]);
    }
    forall j, k | 0 <= j < k < |supplied| ensures !AnswerAlike(definitions, supplied[j], supplied[k]) {
      if r :| Asks(definitions, r) && Answers(supplied[j], r) && Answers(supplied[k], r) {
        AnswerFits(display, definitions, supplied[j], r);
        AnswerFits(display, definitions, supplied[k], r);
        assert SameSlot(read, supplied[j], supplied[k]);
        assert false;
      }
    }
    forall r | Asks(definitions, r) ensures Answered(supplied, r) {
      AsksIff(definitions, r);
      assert Filled(read, supplied, RequiredSlot(display, r));
      var c :| c in supplied && HasSlot(read, c, RequiredSlot(display, r));
      SlotAsksOne(display, definitions, c, r);
      var k :| 0 <= k < |supplied| && supplied[k] == c;
    }
  }

  lemma AnswersComplete(display: Display, definitions: seq<Component>, supplied: seq<Json>)
    requires TellsIntegersApart(display) && AsksApart(definitions) && AnswersAll(definitions, supplied)
    ensures Complete(ReaderOf(display), display, Requirements(definitions), supplied)
  {
    var read, requirements := ReaderOf(display), Requirements(definitions);
    forall k | 0 <= k < |supplied| ensures ComponentFits(read, requirements, supplied[k]) {
      assert AnswersSome(definitions, supplied[k]);
      var r :| Asks(definitions, r) && Answers(supplied[k], r);
      AnswerFits(display, definitions, supplied[k], r);
    }
    forall j, k | 0 <= j < k < |supplied| ensures !SameSlot(read, supplied[j], supplied[k]) {
      var r := FirstIsAnswered(display, definitions, supplied[k]);
      if SameSlot(read, supplied[j], supplied[k]) {
        SlotAsksOne(display, definitions, supplied[j], r);
        assert AnswerAlike(definitions, supplied[j], supplied[k]);
        assert false;
      }
    }
    forall r | r in requirements ensures Filled(read, supplied, RequiredSlot(display, r)) {
      AsksIff(definitions, r);
      assert Answered(supplied, r);
      var k :| 0 <= k < |supplied| && Answers(supplied[k], r);
      AnswerFits(display, definitions, supplied[k], r);
      assert supplied[k] in supplied;
    }
  }

  /** Unless two things are asked for at one place, this is exactly what is accepted. */
  lemma AcceptedInJson(display: Display, definitions: seq<Component>, input: Option<Json>, supplied: seq<Json>)
    requires TellsIntegersApart(display) && AsksApart(definitions) && SuppliedAs(input, supplied)
    ensures Accepts(display, definitions, input) <==> Usable(definitions) && AnswersAll(definitions, supplied)
  {
    UsableIff(definitions);
    if Accepts(display, definitions, input) {
      CompleteAnswers(display, definitions, supplied);
    }
    if Usable(definitions) && AnswersAll(definitions, supplied) {
      AnswersComplete(display, definitions, supplied);
    }
  }

  /** Whatever else is supplied is refused, and everything is for a definition that cannot be used. */
  lemma RefusedOutright(display: Display, definitions: seq<Component>, input: Option<Json>)
    requires !Usable(definitions) || (input.Some? && !input.value.Array?)
    ensures !Accepts(display, definitions, input)
  {
    UsableIff(definitions);
  }
}
