/**
  Where each item of a split webhook call comes from, said of the call's JSON itself, and
  what its event id identifies.
*/
module WebhookLaws {
  import opened Collections
  import opened JsonValues
  import opened WebhookSplitter

  // --- The elements of a call ---

  /** The index of an entry, of a change in it, and of a message or status in that. */
  datatype Place = Place(entry: nat, change: nat, kind: ItemKind, index: nat)

  /** A field that is a non-empty string. */
  function TextAt(v: Json, name: string): Option<string> {
    match v
    case Object(fields) =>
      if name in fields && fields[name].Text? && |fields[name].text| > 0 then Some(fields[name].text) else None
    case _ => None
  }

  function ArrayAt(v: Json, name: string): Option<seq<Json>> {
    match v
    case Object(fields) => if name in fields && fields[name].Array? then Some(fields[name].items) else None
    case _ => None
  }

  function ObjectAt(v: Json, name: string): Option<Json> {
    match v
    case Object(fields) => if name in fields && fields[name].Object? then Some(fields[name]) else None
    case _ => None
  }

  function OrEmpty(items: Option<seq<Json>>): seq<Json> {
    if items.None? then [] else items.value
  }

  /** What a change for messages with a phone number carries at a place of it. */
  function RawInChange(wabaId: string, change: Json, kind: ItemKind, k: nat): Option<Raw> {
    var value := ObjectAt(change, "value");
    if TextAt(change, "field") != Some("messages") || value.None? then None
    else
      var metadata := ObjectAt(value.value, "metadata");
      if metadata.None? || TextAt(metadata.value, "phone_number_id").None? then None
      else
        var elements := OrEmpty(ArrayAt(value.value, if kind == MESSAGE then "messages" else "statuses"));
        var context := Context(wabaId, TextAt(metadata.value, "phone_number_id").value,
                               TextAt(metadata.value, "display_phone_number"), OrEmpty(ArrayAt(value.value, "contacts")));
        if k < |elements| then Some(Raw(context, kind, elements[k])) else None
  }

  /** The same of an entry with an id and a list of changes. */
  function RawInEntry(entry: Json, c: nat, kind: ItemKind, k: nat): Option<Raw> {
    var wabaId, changes := TextAt(entry, "id"), ArrayAt(entry, "changes");
    if wabaId.None? || changes.None? || c >= |changes.value| then None
    else RawInChange(wabaId.value, changes.value[c], kind, k)
  }

  function RawAt(input: Json, p: Place): Option<Raw> {
    var entries := ArrayAt(input, "entry");
    if TextAt(input, "object") != Some("whatsapp_business_account") || entries.None? || p.entry >= |entries.value| then None
    else RawInEntry(entries.value[p.entry], p.change, p.kind, p.index)
  }

  /** Entry by entry, change by change, messages before statuses, in order. */
  predicate Sooner(p: Place, q: Place) {
    p.entry < q.entry || (p.entry == q.entry &&
      (p.change < q.change || (p.change == q.change &&
        ((p.kind == MESSAGE && q.kind == STATUS) || (p.kind == q.kind && p.index < q.index)))))
  }

  /** The places are those that hold something, in order, and the raws what they hold. */
  ghost predicate Lists(raws: seq<Raw>, places: seq<Place>, at: Place -> Option<Raw>) {
    && |raws| == |places|
    && (forall i :: 0 <= i < |places| ==> at(places[i]) == Some(raws[i]))
    && (forall i, j :: 0 <= i < j < |places| ==> Sooner(places[i], places[j]))
    && (forall p :: at(p).Some? ==> p in places)
  }

  lemma ListsJoined(a: seq<Raw>, ps: seq<Place>, f: Place -> Option<Raw>, b: seq<Raw>, qs: seq<Place>, g: Place -> Option<Raw>,
                    both: Place -> Option<Raw>)
    requires Lists(a, ps, f) && Lists(b, qs, g)
    requires forall p, q :: p in ps && q in qs ==> Sooner(p, q)
    requires forall p :: f(p).Some? ==> both(p) == f(p)
    requires forall p :: g(p).Some? ==> both(p) == g(p)
    requires forall p :: both(p).Some? ==> f(p).Some? || g(p).Some?
    ensures Lists(a + b, ps + qs, both)
  {
    var raws, places := a + b, ps + qs;
    forall i | 0 <= i < |places| ensures both(places[i]) == Some(raws[i]) {
      if i < |ps| {
        assert f(ps[i]) == Some(a[i]);
      } else {
        assert g(qs[i - |ps|]) == Some(b[i - |ps|]);
      }
    }
    forall i, j | 0 <= i < j < |places| ensures Sooner(places[i], places[j]) {
      if i < |ps| <= j {
        assert ps[i] in ps && qs[j - |ps|] in qs;
      } else if j < |ps| {
        assert Sooner(ps[i], ps[j]);
      } else {
        assert Sooner(qs[i - |ps|], qs[j - |ps|]);
      }
    }
  }

  // --- What the splitter reads is what is there ---

  lemma FieldsRead(v: Json, name: string)
    ensures NonEmpty(Field(v, name)) == TextAt(v, name)
    ensures OnlyObject(Field(v, name)) == ObjectAt(v, name)
    ensures Items(Field(v, name)) == OrEmpty(ArrayAt(v, name))
    ensures TextAt(v, name) == Some("messages") <==> Field(v, name) == Some(Text("messages"))
    ensures TextAt(v, name) == Some("whatsapp_business_account") <==> Field(v, name) == Some(Text("whatsapp_business_account"))
  {}

  function PlacesOfList(e: nat, c: nat, kind: ItemKind, count: nat): (r: seq<Place>)
    ensures |r| == count && forall k :: 0 <= k < count ==> r[k] == Place(e, c, kind, k)
  {
    seq(count, k requires 0 <= k < count => Place(e, c, kind, k))
  }

  function InChange(e: nat, c: nat, wabaId: string, change: Json): Place -> Option<Raw> {
    (p: Place) => if p.entry == e && p.change == c then RawInChange(wabaId, change, p.kind, p.index) else None
  }

  function OfKind(kind: ItemKind, at: Place -> Option<Raw>): Place -> Option<Raw> {
    (p: Place) => if p.kind == kind then at(p) else None
  }

  /** What the splitter makes of one change. */
  lemma ChangeReads(wabaId: string, change: Json, kind: ItemKind, k: nat)
    ensures var c := ContextOf(wabaId, change);
      var elements := Items(ObjectField(Field(change, "value"), if kind == MESSAGE then "messages" else "statuses"));
      RawInChange(wabaId, change, kind, k) ==
        if c.Some? && k < |elements| then Some(Raw(c.value, kind, elements[k])) else None
  {
    FieldsRead(change, "field");
    FieldsRead(change, "value");
    if ObjectAt(change, "value").Some? {
      var value := ObjectAt(change, "value").value;
      FieldsRead(value, "metadata");
      FieldsRead(value, "contacts");
      FieldsRead(value, "messages");
      FieldsRead(value, "statuses");
      if ObjectAt(value, "metadata").Some? {
        FieldsRead(ObjectAt(value, "metadata").value, "phone_number_id");
        FieldsRead(ObjectAt(value, "metadata").value, "display_phone_number");
      }
    }
  }

  lemma ListListed(e: nat, c: nat, wabaId: string, change: Json, kind: ItemKind)
    requires ContextOf(wabaId, change).Some?
    ensures var elements := Items(ObjectField(Field(change, "value"), if kind == MESSAGE then "messages" else "statuses"));
      Lists(Raws(ContextOf(wabaId, change).value, kind, elements), PlacesOfList(e, c, kind, |elements|),
            OfKind(kind, InChange(e, c, wabaId, change)))
  {
    var elements := Items(ObjectField(Field(change, "value"), if kind == MESSAGE then "messages" else "statuses"));
    var places, at := PlacesOfList(e, c, kind, |elements|), OfKind(kind, InChange(e, c, wabaId, change));
    forall p: Place ensures at(p) == if p.entry == e && p.change == c && p.kind == kind && p.index < |elements|
                                     then Some(Raw(ContextOf(wabaId, change).value, kind, elements[p.index])) else None {
      ChangeReads(wabaId, change, p.kind, p.index);
    }
    forall p | at(p).Some? ensures p in places {
      assert places[p.index] == p;
    }
  }

  lemma ChangeListed(e: nat, c: nat, wabaId: string, change: Json) returns (places: seq<Place>)
    ensures Lists(RawsOfChange(wabaId, change), places, InChange(e, c, wabaId, change))
    ensures forall p :: p in places ==> p.entry == e && p.change == c
  {
    var at := InChange(e, c, wabaId, change);
    if ContextOf(wabaId, change).None? {
      places := [];
      forall p: Place ensures at(p).None? {
        ChangeReads(wabaId, change, p.kind, p.index);
      }
    } else {
      var messages := Items(ObjectField(Field(change, "value"), "messages"));
      var statuses := Items(ObjectField(Field(change, "value"), "statuses"));
      var ps, qs := PlacesOfList(e, c, MESSAGE, |messages|), PlacesOfList(e, c, STATUS, |statuses|);
      ListListed(e, c, wabaId, change, MESSAGE);
      ListListed(e, c, wabaId, change, STATUS);
      ListsJoined(Raws(ContextOf(wabaId, change).value, MESSAGE, messages), ps, OfKind(MESSAGE, at),
                  Raws(ContextOf(wabaId, change).value, STATUS, statuses), qs, OfKind(STATUS, at), at);
      places := ps + qs;
    }
  }

  function InChanges(e: nat, wabaId: string, changes: seq<Json>): Place -> Option<Raw> {
    (p: Place) => if p.entry == e && p.change < |changes| then RawInChange(wabaId, changes[p.change], p.kind, p.index) else None
  }

  lemma {:induction false} ChangesListed(e: nat, wabaId: string, changes: seq<Json>) returns (places: seq<Place>)
    ensures Lists(RawsOfChanges(wabaId, changes), places, InChanges(e, wabaId, changes))
    ensures forall p :: p in places ==> p.entry == e && p.change < |changes|
  {
    if changes == [] {
      places := [];
    } else {
      var n := |changes| - 1;
      var ps := ChangesListed(e, wabaId, changes[..n]);
      var qs := ChangeListed(e, n, wabaId, changes[n]);
      ListsJoined(RawsOfChanges(wabaId, changes[..n]), ps, InChanges(e, wabaId, changes[..n]),
                  RawsOfChange(wabaId, changes[n]), qs, InChange(e, n, wabaId, changes[n]), InChanges(e, wabaId, changes));
      places := ps + qs;
    }
  }

  function InEntry(e: nat, entry: Json): Place -> Option<Raw> {
    (p: Place) => if p.entry == e then RawInEntry(entry, p.change, p.kind, p.index) else None
  }

  lemma EntryReads(entry: Json)
    ensures AcceptedEntry(entry) ==
      if TextAt(entry, "id").Some? && ArrayAt(entry, "changes").Some?
      then Some(Accepted(TextAt(entry, "id").value, ArrayAt(entry, "changes").value)) else None
  {
    FieldsRead(entry, "id");
  }

  lemma EntryListed(e: nat, entry: Json) returns (places: seq<Place>)
    ensures Lists(RawsOfEntry(entry), places, InEntry(e, entry))
    ensures forall p :: p in places ==> p.entry == e
  {
    EntryReads(entry);
    if AcceptedEntry(entry).None? {
      places := [];
    } else {
      var a := AcceptedEntry(entry).value;
      places := ChangesListed(e, a.wabaId, a.changes);
      forall p: Place ensures InEntry(e, entry)(p) == InChanges(e, a.wabaId, a.changes)(p) {}
    }
  }

  function InEntries(entries: seq<Json>): Place -> Option<Raw> {
    (p: Place) => if p.entry < |entries| then RawInEntry(entries[p.entry], p.change, p.kind, p.index) else None
  }

  lemma {:induction false} EntriesListed(entries: seq<Json>) returns (places: seq<Place>)
    ensures Lists(RawsOfEntries(entries), places, InEntries(entries))
    ensures forall p :: p in places ==> p.entry < |entries|
  {
    if entries == [] {
      places := [];
    } else {
      var n := |entries| - 1;
      var ps := EntriesListed(entries[..n]);
      var qs := EntryListed(n, entries[n]);
      ListsJoined(RawsOfEntries(entries[..n]), ps, InEntries(entries[..n]),
                  RawsOfEntry(entries[n]), qs, InEntry(n, entries[n]), InEntries(entries));
      places := ps + qs;
    }
  }

  function In(input: Json): Place -> Option<Raw> {
    (p: Place) => RawAt(input, p)
  }

  lemma CallListed(input: Json) returns (places: seq<Place>)
    ensures Lists(Carried(input), places, In(input))
  {
    FieldsRead(input, "object");
    if Entries(input).None? {
      places := [];
    } else {
      places := EntriesListed(Entries(input).value);
      forall p: Place ensures In(input)(p) == InEntries(Entries(input).value)(p) {}
    }
  }

  // --- The items of a call ---

  /** The fields of the account's entry, down to the value of its only change. */
  predicate Wraps(payload: Json, wabaId: string, value: Json) {
    payload == Object(map[
      "object" := Text("whatsapp_business_account"),
      "entry" := Array([Object(map[
        "id" := Text(wabaId),
        "changes" := Array([Object(map["field" := Text("messages"), "value" := value])])])])])
  }

  /** JavaScript's `===` on what two fields hold, missing or not. */
  predicate SameScalar(a: Json, x: string, b: Json, y: string) {
    var p, q := Field(a, x), Field(b, y);
    p == q && (p.Some? ==> p.value.Null? || p.value.Bool? || p.value.Integer? || p.value.Fraction? || p.value.Text?)
  }

  predicate FirstOfThem(contacts: seq<Json>, message: Json, k: nat)
    requires k < |contacts|
  {
    SameScalar(contacts[k], "wa_id", message, "from")
    && forall j :: 0 <= j < k ==> !SameScalar(contacts[j], "wa_id", message, "from")
  }

  /** The first contact whose `wa_id` is the sender, if there is one. */
  ghost predicate SenderAmong(contacts: seq<Json>, message: Json, found: Option<Json>) {
    match found
    case None => forall k :: 0 <= k < |contacts| ==> !SameScalar(contacts[k], "wa_id", message, "from")
    case Some(c) => exists k :: 0 <= k < |contacts| && contacts[k] == c && FirstOfThem(contacts, message, k)
  }

  /** The value of the change an item carries: its own message or status and nothing of others. */
  predicate ValueOf(value: map<string, Json>, raw: Raw, contact: Option<Json>) {
    && value.Keys == {"messaging_product", "metadata"} + (if contact.Some? then {"contacts"} else {})
         + (if raw.kind == MESSAGE then {"messages"} else {"statuses"})
    && value["messaging_product"] == Text("whatsapp")
    && value["metadata"] == Object(
         if raw.context.display.Some?
         then map["phone_number_id" := Text(raw.context.phoneNumberId), "display_phone_number" := Text(raw.context.display.value)]
         else map["phone_number_id" := Text(raw.context.phoneNumberId)])
    && (contact.Some? ==> value["contacts"] == Array([contact.value]))
    && value[if raw.kind == MESSAGE then "messages" else "statuses"] == Array([raw.json])
  }

  function Named(v: Json, name: string): string {
    if TextAt(v, name).Some? then TextAt(v, name).value else "unknown"
  }

  function EventIdOf(digest: Json -> string, kind: ItemKind, v: Json): string {
    match kind
    case MESSAGE => if TextAt(v, "id").Some? then "message:" + TextAt(v, "id").value else "message:unknown:" + digest(v)
    case STATUS => "status:" + Named(v, "id") + ":" + Named(v, "status") + ":" + Named(v, "timestamp")
  }

  ghost predicate IsItem(digest: Json -> string, raw: Raw, item: Item) {
    && item.kind == raw.kind && item.wabaId == raw.context.wabaId && item.phoneNumberId == raw.context.phoneNumberId
    && item.eventId == EventIdOf(digest, raw.kind, raw.json)
    && exists value: map<string, Json>, contact: Option<Json> ::
         Wraps(item.payload, item.wabaId, Object(value)) && ValueOf(value, raw, contact)
         && (if raw.kind == MESSAGE then SenderAmong(raw.context.contacts, raw.json, contact) else contact.None?)
  }

  lemma SenderSame(contact: Json, message: Json)
    ensures IsSender(message, contact) <==> SameScalar(contact, "wa_id", message, "from")
  {}

  lemma SenderIsAmong(contacts: seq<Json>, message: Json, contact: Option<Json>)
    requires IsFirstSender(contacts, message, contact)
    ensures SenderAmong(contacts, message, contact)
  {
    forall k | 0 <= k < |contacts| ensures IsSender(message, contacts[k]) <==> SameScalar(contacts[k], "wa_id", message, "from") {
      SenderSame(contacts[k], message);
    }
    if contact.Some? {
      var k :| 0 <= k < |contacts| && contacts[k] == contact.value && FirstAt(contacts, message, k);
      assert FirstOfThem(contacts, message, k);
    }
  }

  lemma EnvelopeWraps(wabaId: string, value: Json)
    ensures Wraps(Envelope(wabaId, value), wabaId, value)
  {
    var change := Object(map["field" := Text("messages"), "value" := value]);
    assert ChangeJson(value) == change;
    assert map["changes" := Array([change]), "id" := Text(wabaId)] == map["id" := Text(wabaId), "changes" := Array([change])];
    var entry := Object(map["id" := Text(wabaId), "changes" := Array([change])]);
    assert EntryJson(wabaId, value) == entry;
    assert map["entry" := Array([entry]), "object" := Text("whatsapp_business_account")]
      == map["object" := Text("whatsapp_business_account"), "entry" := Array([entry])];
  }

  lemma MetadataIs(c: Context)
    ensures Metadata(c) == Object(
         if c.display.Some?
         then map["phone_number_id" := Text(c.phoneNumberId), "display_phone_number" := Text(c.display.value)]
         else map["phone_number_id" := Text(c.phoneNumberId)])
  {}

  lemma MessageValue(c: Context, message: Json, contacts: seq<Json>)
    requires |contacts| <= 1
    ensures ValueOf(map["messaging_product" := Text("whatsapp"), "metadata" := Metadata(c)] + MessageBody(contacts, message),
                    Raw(c, MESSAGE, message), if contacts == [] then None else Some(contacts[0]))
  {
    MessageBodyReads(contacts, message);
    MetadataIs(c);
    assert contacts == [] || contacts == [contacts[0]];
  }

  lemma MessageIsItem(digest: Json -> string, c: Context, message: Json)
    ensures IsItem(digest, Raw(c, MESSAGE, message), MessageItem(digest, c, message))
  {
    var contacts := SenderContact(c.contacts, message);
    var contact := if contacts == [] then None else Some(contacts[0]);
    SenderIsFirst(c.contacts, message);
    SenderIsAmong(c.contacts, message, contact);
    var value := map["messaging_product" := Text("whatsapp"), "metadata" := Metadata(c)] + MessageBody(contacts, message);
    MessageValue(c, message, contacts);
    EnvelopeWraps(c.wabaId, Object(value));
    FieldsRead(message, "id");
  }

  lemma StatusIsItem(digest: Json -> string, c: Context, status: Json)
    ensures IsItem(digest, Raw(c, STATUS, status), StatusItem(c, status))
  {
    var value := map["messaging_product" := Text("whatsapp"), "metadata" := Metadata(c)] + map["statuses" := Array([status])];
    MetadataIs(c);
    EnvelopeWraps(c.wabaId, Object(value));
    FieldsRead(status, "id");
    FieldsRead(status, "status");
    FieldsRead(status, "timestamp");
    assert ValueOf(value, Raw(c, STATUS, status), None);
  }

  /** The places that hold an object. */
  function ObjectPlaces(raws: seq<Raw>, places: seq<Place>): seq<Place>
    requires |raws| == |places|
  {
    if raws == [] then []
    else
      var n := |raws| - 1;
      ObjectPlaces(raws[..n], places[..n]) + if raws[n].json.Object? then [places[n]] else []
  }

  ghost predicate ListsObjects(input: Json, objects: seq<Place>) {
    && (forall i, j :: 0 <= i < j < |objects| ==> Sooner(objects[i], objects[j]))
    && (forall p :: p in objects <==> RawAt(input, p).Some? && RawAt(input, p).value.json.Object?)
  }

  lemma LastObject(raws: seq<Raw>)
    requires raws != []
    ensures var n := |raws| - 1;
      Objects(raws) == Objects(raws[..n]) + if raws[n].json.Object? then [raws[n]] else []
  {
    var n := |raws| - 1;
    ObjectsJoined(raws[..n], [raws[n]]);
    assert raws == raws[..n] + [raws[n]];
    assert [raws[n]][1..] == [];
  }

  lemma {:induction false} ObjectPlacesHold(raws: seq<Raw>, places: seq<Place>, at: Place -> Option<Raw>)
    requires |raws| == |places| && forall i :: 0 <= i < |places| ==> at(places[i]) == Some(raws[i])
    ensures var objects := ObjectPlaces(raws, places);
      && |objects| == |Objects(raws)|
      && (forall i :: 0 <= i < |objects| ==> at(objects[i]) == Some(Objects(raws)[i]))
  {
    if raws != [] {
      var n := |raws| - 1;
      LastObject(raws);
      ObjectPlacesHold(raws[..n], places[..n], at);
    }
  }

  lemma {:induction false} ObjectPlacesAmong(raws: seq<Raw>, places: seq<Place>)
    requires |raws| == |places|
    ensures forall p :: p in ObjectPlaces(raws, places) ==> p in places
    ensures forall i :: 0 <= i < |raws| && raws[i].json.Object? ==> places[i] in ObjectPlaces(raws, places)
  {
    if raws != [] {
      var n := |raws| - 1;
      ObjectPlacesAmong(raws[..n], places[..n]);
      forall i | 0 <= i < |raws| && raws[i].json.Object? ensures places[i] in ObjectPlaces(raws, places) {
        if i < n { assert raws[..n][i] == raws[i] && places[..n][i] == places[i]; }
      }
    }
  }

  predicate InOrder(places: seq<Place>) {
    forall i, j :: 0 <= i < j < |places| ==> Sooner(places[i], places[j])
  }

  lemma {:induction false} ObjectPlacesInOrder(raws: seq<Raw>, places: seq<Place>)
    requires |raws| == |places| && InOrder(places)
    ensures InOrder(ObjectPlaces(raws, places))
  {
    if raws != [] {
      var n := |raws| - 1;
      var before := ObjectPlaces(raws[..n], places[..n]);
      ObjectPlacesInOrder(raws[..n], places[..n]);
      ObjectPlacesAmong(raws[..n], places[..n]);
      forall i | 0 <= i < |before| ensures Sooner(before[i], places[n]) {
        assert before[i] in places[..n];
      }
    }
  }

  /** More than five hundred: something comes after the five-hundredth object. */
  ghost predicate GoesOver(input: Json, objects: seq<Place>) {
    |objects| >= 500 && exists p :: RawAt(input, p).Some? && Sooner(objects[499], p)
  }

  ghost predicate TooLong(entry: Json) {
    TextAt(entry, "id").Some? && ArrayAt(entry, "changes").Some? && |ArrayAt(entry, "changes").value| > 100
  }

  ghost predicate TooLarge(input: Json, objects: seq<Place>) {
    var entries := ArrayAt(input, "entry");
    TextAt(input, "object") == Some("whatsapp_business_account") && entries.Some?
    && (|entries.value| > 100 || (exists e :: 0 <= e < |entries.value| && TooLong(entries.value[e])) || GoesOver(input, objects))
  }

  lemma NothingCarried(input: Json, places: seq<Place>)
    requires Lists(Carried(input), places, In(input)) && Carried(input) == []
    ensures forall p :: RawAt(input, p).None?
  {
    forall p ensures RawAt(input, p).None? {
      assert In(input)(p).None?;
    }
  }

  /** The last place comes after every other one, and nothing after it. */
  lemma LastPlace(input: Json, places: seq<Place>, p: Place)
    requires Lists(Carried(input), places, In(input)) && places != []
    requires RawAt(input, p).Some?
    ensures !Sooner(places[|places| - 1], p)
  {
    assert In(input)(p).Some?;
    var j :| 0 <= j < |places| && places[j] == p;
    assert j == |places| - 1 || Sooner(p, places[|places| - 1]);
  }

  lemma OverflowMeans(input: Json, places: seq<Place>)
    requires Lists(Carried(input), places, In(input))
    ensures Overflows(0, Carried(input)) <==> GoesOver(input, ObjectPlaces(Carried(input), places))
  {
    var raws := Carried(input);
    var objects := ObjectPlaces(raws, places);
    if raws == [] {
      NothingCarried(input, places);
    } else {
      var n := |raws| - 1;
      var before := ObjectPlaces(raws[..n], places[..n]);
      ObjectPlacesHold(raws[..n], places[..n], In(input));
      ObjectPlacesAmong(raws[..n], places[..n]);
      if |before| >= 500 {
        assert objects[499] == before[499] && before[499] in places[..n];
        assert Sooner(objects[499], places[n]);
        assert In(input)(places[n]).Some?;
      } else if |objects| >= 500 {
        forall p | RawAt(input, p).Some? ensures !Sooner(objects[499], p) {
          LastPlace(input, places, p);
        }
      }
    }
  }

  lemma ChangesMean(input: Json)
    requires Entries(input).Some?
    ensures SomeTooLarge(Entries(input).value) <==> exists e :: 0 <= e < |Entries(input).value| && TooLong(Entries(input).value[e])
  {
    var entries := Entries(input).value;
    forall e | 0 <= e < |entries| ensures TooManyChanges(entries[e]) <==> TooLong(entries[e]) {
      EntryReads(entries[e]);
    }
    if e :| 0 <= e < |entries| && TooLong(entries[e]) {
      assert entries[e] in entries;
    }
  }

  lemma LargeMeans(input: Json, places: seq<Place>)
    requires Lists(Carried(input), places, In(input))
    ensures Oversized(input) <==> TooLarge(input, ObjectPlaces(Carried(input), places))
  {
    OverflowMeans(input, places);
    FieldsRead(input, "object");
    if Entries(input).Some? {
      ChangesMean(input);
    }
  }

  lemma ObjectsListed(input: Json, places: seq<Place>)
    requires Lists(Carried(input), places, In(input))
    ensures ListsObjects(input, ObjectPlaces(Carried(input), places))
  {
    var raws := Carried(input);
    var objects := ObjectPlaces(raws, places);
    ObjectPlacesHold(raws, places, In(input));
    ObjectPlacesAmong(raws, places);
    ObjectPlacesInOrder(raws, places);
    forall p ensures p in objects <==> RawAt(input, p).Some? && RawAt(input, p).value.json.Object? {
      assert In(input)(p).Some? ==> p in places;
      if p in objects {
        var i :| 0 <= i < |objects| && objects[i] == p;
        assert Objects(raws)[i] in Objects(raws);
      }
    }
  }

  lemma EveryItemIs(digest: Json -> string, raw: Raw)
    ensures IsItem(digest, raw, ItemOf(digest, raw))
  {
    if raw.kind == MESSAGE {
      MessageIsItem(digest, raw.context, raw.json);
    } else {
      StatusIsItem(digest, raw.context, raw.json);
    }
  }

  ghost predicate ItemsMatch(digest: Json -> string, input: Json, objects: seq<Place>, items: seq<Item>) {
    |items| == |objects| && forall i :: 0 <= i < |items| ==>
      RawAt(input, objects[i]).Some? && IsItem(digest, RawAt(input, objects[i]).value, items[i])
  }

  lemma ItemsFromMatch(digest: Json -> string, input: Json, places: seq<Place>)
    requires Lists(Carried(input), places, In(input))
    ensures ItemsMatch(digest, input, ObjectPlaces(Carried(input), places), ItemsFrom(digest, Objects(Carried(input))))
  {
    var raws := Objects(Carried(input));
    var objects := ObjectPlaces(Carried(input), places);
    ObjectPlacesHold(Carried(input), places, In(input));
    forall i | 0 <= i < |objects|
      ensures RawAt(input, objects[i]).Some? && IsItem(digest, RawAt(input, objects[i]).value, ItemsFrom(digest, raws)[i])
    {
      assert In(input)(objects[i]) == Some(raws[i]);
      EveryItemIs(digest, raws[i]);
    }
  }

  /**
    A call fails exactly if it is too large. Otherwise there is one item for each object in a
    list of messages or statuses of a change that counts, in the order they stand in, and
    each item has the kind, account, phone number, event id and payload of its own object.
  */
  lemma ItemsComeFrom(digest: Json -> string, input: Json) returns (objects: seq<Place>)
    ensures ListsObjects(input, objects)
    ensures Split(digest, input).None? <==> TooLarge(input, objects)
    ensures Split(digest, input).Some? ==> |objects| <= 500 && ItemsMatch(digest, input, objects, Split(digest, input).value)
  {
    var places := CallListed(input);
    objects := ObjectPlaces(Carried(input), places);
    ObjectsListed(input, places);
    SplitExact(digest, input);
    LargeMeans(input, places);
    ItemsFromMatch(digest, input, places);
  }

  // --- What an event id identifies ---

  /** Two messages: the same id, or neither has one and the digests agree. */
  predicate SameMessage(digest: Json -> string, v: Json, w: Json) {
    match (TextAt(v, "id"), TextAt(w, "id"))
    case (Some(a), Some(b)) => a == b
    case (Some(a), None) => a == "unknown:" + digest(w)
    case (None, Some(b)) => b == "unknown:" + digest(v)
    case (None, None) => digest(v) == digest(w)
  }

  function Joined(id: string, status: string, timestamp: string): string {
    id + ":" + status + ":" + timestamp
  }

  function JoinedOf(v: Json): string {
    Joined(Named(v, "id"), Named(v, "status"), Named(v, "timestamp"))
  }

  lemma SameRest(head: string, a: string, b: string)
    ensures head + a == head + b <==> a == b
  {
    if head + a == head + b {
      assert (head + a)[|head|..] == a && (head + b)[|head|..] == b;
    }
  }

  lemma MessageEvents(digest: Json -> string, v: Json, w: Json)
    ensures EventIdOf(digest, MESSAGE, v) == EventIdOf(digest, MESSAGE, w) <==> SameMessage(digest, v, w)
  {
    var x := if TextAt(v, "id").Some? then TextAt(v, "id").value else "unknown:" + digest(v);
    var y := if TextAt(w, "id").Some? then TextAt(w, "id").value else "unknown:" + digest(w);
    assert "message:" + ("unknown:" + digest(v)) == "message:unknown:" + digest(v);
    assert "message:" + ("unknown:" + digest(w)) == "message:unknown:" + digest(w);
    assert EventIdOf(digest, MESSAGE, v) == "message:" + x && EventIdOf(digest, MESSAGE, w) == "message:" + y;
    SameRest("message:", x, y);
    SameRest("unknown:", digest(v), digest(w));
  }

  lemma StatusText(a: string, b: string, c: string)
    ensures "status:" + a + ":" + b + ":" + c == "status:" + Joined(a, b, c)
  {
    assert "status:" + a + ":" == "status:" + (a + ":");
    assert "status:" + (a + ":") + b == "status:" + (a + ":" + b);
    assert "status:" + (a + ":" + b) + ":" == "status:" + (a + ":" + b + ":");
  }

  lemma StatusEvents(digest: Json -> string, v: Json, w: Json)
    ensures EventIdOf(digest, STATUS, v) == EventIdOf(digest, STATUS, w) <==> JoinedOf(v) == JoinedOf(w)
  {
    StatusText(Named(v, "id"), Named(v, "status"), Named(v, "timestamp"));
    StatusText(Named(w, "id"), Named(w, "status"), Named(w, "timestamp"));
    SameRest("status:", JoinedOf(v), JoinedOf(w));
  }

  lemma KindsApart(digest: Json -> string, v: Json, w: Json)
    ensures EventIdOf(digest, MESSAGE, v) != EventIdOf(digest, STATUS, w)
  {
    assert EventIdOf(digest, MESSAGE, v)[0] == 'm' && EventIdOf(digest, STATUS, w)[0] == 's';
  }

  /**
    Two items, of one call or of two: a message and a status never share an event id; two
    messages do exactly if their ids agree, where a message without an id is told by its
    digest; two statuses do exactly if id, status and timestamp, joined by colons, agree.
  */
  lemma EventsTell(digest: Json -> string, x: Raw, y: Raw, a: Item, b: Item)
    requires IsItem(digest, x, a) && IsItem(digest, y, b)
    ensures x.kind != y.kind ==> a.eventId != b.eventId
    ensures x.kind == y.kind == MESSAGE ==> (a.eventId == b.eventId <==> SameMessage(digest, x.json, y.json))
    ensures x.kind == y.kind == STATUS ==> (a.eventId == b.eventId <==> JoinedOf(x.json) == JoinedOf(y.json))
  {
    MessageEvents(digest, x.json, y.json);
    StatusEvents(digest, x.json, y.json);
    KindsApart(digest, x.json, y.json);
    KindsApart(digest, y.json, x.json);
  }

  // --- When the joined text tells the three parts ---

  predicate NoColon(s: string) {
    forall i :: 0 <= i < |s| ==> s[i] != ':'
  }

  /** Colons at i and j cut the text into three parts that are not empty. */
  predicate CutAt(text: string, i: int, j: int) {
    0 < i && i + 1 < j < |text| - 1 && text[i] == ':' && text[j] == ':'
  }

  lemma CutJoins(text: string, i: int, j: int)
    requires CutAt(text, i, j)
    ensures text == Joined(text[..i], text[i + 1..j], text[j + 1..])
  {}

  lemma JoinedCut(a: string, b: string, c: string)
    requires a != "" && b != "" && c != ""
    ensures var text := Joined(a, b, c);
      && CutAt(text, |a|, |a| + 1 + |b|)
      && text[..|a|] == a && text[|a| + 1..|a| + 1 + |b|] == b && text[|a| + 2 + |b|..] == c
  {}

  /**
    A status is told apart from every other triple of names exactly if no other two colons
    of its joined text cut it into three parts.
  */
  lemma ToldApartIff(a: string, b: string, c: string)
    requires a != "" && b != "" && c != ""
    ensures (forall x, y, z :: x != "" && y != "" && z != "" && Joined(x, y, z) == Joined(a, b, c) ==> x == a && y == b && z == c)
      <==> (forall i, j :: CutAt(Joined(a, b, c), i, j) ==> i == |a| && j == |a| + 1 + |b|)
  {
    var text := Joined(a, b, c);
    JoinedCut(a, b, c);
    if forall i, j :: CutAt(text, i, j) ==> i == |a| && j == |a| + 1 + |b| {
      forall x, y, z | x != "" && y != "" && z != "" && Joined(x, y, z) == text ensures x == a && y == b && z == c {
        JoinedCut(x, y, z);
      }
    }
    if forall x, y, z :: x != "" && y != "" && z != "" && Joined(x, y, z) == text ==> x == a && y == b && z == c {
      forall i, j | CutAt(text, i, j) ensures i == |a| && j == |a| + 1 + |b| {
        CutJoins(text, i, j);
        assert text[..i] == a && text[i + 1..j] == b;
      }
    }
  }

  /** Two statuses whose names and timestamps hold no colon share an event id exactly if all three parts agree. */
  lemma PlainStatusesTold(v: Json, w: Json)
    requires NoColon(Named(v, "status")) && NoColon(Named(v, "timestamp"))
    requires NoColon(Named(w, "status")) && NoColon(Named(w, "timestamp"))
    ensures JoinedOf(v) == JoinedOf(w) <==>
      Named(v, "id") == Named(w, "id") && Named(v, "status") == Named(w, "status") && Named(v, "timestamp") == Named(w, "timestamp")
  {
    if JoinedOf(v) == JoinedOf(w) {
      var a, b := Named(v, "id") + ":" + Named(v, "status"), Named(w, "id") + ":" + Named(w, "status");
      LastColon(a, Named(v, "timestamp"), b, Named(w, "timestamp"));
      LastColon(Named(v, "id"), Named(v, "status"), Named(w, "id"), Named(w, "status"));
    }
  }

  lemma NoLaterColon(a: string, x: string, b: string, y: string)
    requires a + ":" + x == b + ":" + y && NoColon(x)
    ensures |b| <= |a|
  {
    var text := a + ":" + x;
    forall k | |a| < k < |text| ensures text[k] != ':' {
      assert text[k] == x[k - |a| - 1];
    }
    assert (b + ":" + y)[|b|] == ':';
  }

  lemma LastColon(a: string, x: string, b: string, y: string)
    requires a + ":" + x == b + ":" + y && NoColon(x) && NoColon(y)
    ensures a == b && x == y
  {
    NoLaterColon(a, x, b, y);
    NoLaterColon(b, y, a, x);
    var text := a + ":" + x;
    assert a == text[..|a|] && x == text[|a| + 1..];
    assert b == text[..|a|] && y == text[|a| + 1..];
  }

  /** A colon in a name is enough for two different statuses to share an event id. */
  lemma ColonConfuses(a: string, b: string, c: string, d: string)
    ensures Joined(a, b + ":" + c, d) == Joined(a + ":" + b, c, d)
  {
    assert Joined(a, b + ":" + c, d) == a + ":" + b + ":" + c + ":" + d;
    assert Joined(a + ":" + b, c, d) == a + ":" + b + ":" + c + ":" + d;
  }

  // --- Normalizing ---

  function ProfileOf(contact: Option<Json>): Option<string> {
    if contact.None? || ObjectAt(contact.value, "profile").None? then None
    else TextAt(ObjectAt(contact.value, "profile").value, "name")
  }

  /**
    Normalizing an item gives back its message, with sender and profile name, unless sender,
    id or type is missing; or its status, unless id, status or timestamp is.
  */
  lemma NormalizedFrom(digest: Json -> string, input: Json, i: nat) returns (objects: seq<Place>, contact: Option<Json>)
    requires Split(digest, input).Some? && i < |Split(digest, input).value|
    ensures ListsObjects(input, objects) && i < |objects| && RawAt(input, objects[i]).Some?
    ensures var raw := RawAt(input, objects[i]).value; var v := raw.json;
      Normalize(Split(digest, input).value[i].payload) ==
        if raw.kind == MESSAGE then
          if TextAt(v, "from").Some? && TextAt(v, "id").Some? && TextAt(v, "type").Some?
          then NormalMessage(v, ProfileOf(contact), TextAt(v, "from").value) else MESSAGE_INVALID
        else
          if TextAt(v, "id").Some? && TextAt(v, "status").Some? && TextAt(v, "timestamp").Some?
          then NormalStatus(v) else STATUS_INVALID
    ensures var raw := RawAt(input, objects[i]).value;
      raw.kind == MESSAGE ==> SenderAmong(raw.context.contacts, raw.json, contact)
  {
    var places := CallListed(input);
    objects := ObjectPlaces(Carried(input), places);
    ObjectsListed(input, places);
    ObjectPlacesHold(Carried(input), places, In(input));
    SplitExact(digest, input);
    contact := NormalizesItsSource(digest, input, i);
    var raw := Objects(Carried(input))[i];
    assert In(input)(objects[i]) == Some(raw);
    NormalizeReads(raw.json, contact);
    if raw.kind == MESSAGE {
      SenderIsAmong(raw.context.contacts, raw.json, contact);
    }
  }

  lemma NormalizeReads(v: Json, contact: Option<Json>)
    ensures NormalizeMessage(v, contact) ==
      if TextAt(v, "from").Some? && TextAt(v, "id").Some? && TextAt(v, "type").Some?
      then NormalMessage(v, ProfileOf(contact), TextAt(v, "from").value) else MESSAGE_INVALID
    ensures NormalizeStatus(v) ==
      if TextAt(v, "id").Some? && TextAt(v, "status").Some? && TextAt(v, "timestamp").Some?
      then NormalStatus(v) else STATUS_INVALID
  {
    FieldsRead(v, "from");
    FieldsRead(v, "id");
    FieldsRead(v, "type");
    FieldsRead(v, "status");
    FieldsRead(v, "timestamp");
    if contact.Some? {
      FieldsRead(contact.value, "profile");
      if Field(contact.value, "profile").Some? {
        FieldsRead(Field(contact.value, "profile").value, "name");
      }
    }
  }
}
