/**
  `splitWhatsAppWebhookEnvelope` and `normalizeWhatsAppWebhookItem`: one webhook call is
  split into items that each carry one message or status in an envelope of their own.
  The digest of a message without an id is a parameter.
*/
module WebhookSplitter {
  import opened Collections
  import opened JsonValues

  const MAXIMUM_ENTRIES := 100
  const MAXIMUM_CHANGES := 100
  const MAXIMUM_ITEMS := 500

  datatype ItemKind = MESSAGE | STATUS

  datatype Item = Item(eventId: string, kind: ItemKind, payload: Json, phoneNumberId: string, wabaId: string)

  // --- What is read of an envelope ---

  /** The account, phone number and contacts of a change that is accepted. */
  datatype Context = Context(wabaId: string, phoneNumberId: string, display: Option<string>, contacts: seq<Json>)

  /** One element of a `messages` or `statuses` array, object or not. */
  datatype Raw = Raw(context: Context, kind: ItemKind, json: Json)

  function ObjectField(v: Option<Json>, name: string): Option<Json> {
    if v.Some? then Field(v.value, name) else None
  }

  function OnlyObject(v: Option<Json>): Option<Json> {
    if v.Some? && v.value.Object? then v else None
  }

  function ContextOf(wabaId: string, change: Json): Option<Context> {
    var value := OnlyObject(Field(change, "value"));
    var metadata := ObjectField(value, "metadata");
    var phoneNumberId := NonEmpty(ObjectField(metadata, "phone_number_id"));
    if Field(change, "field") != Some(Text("messages")) || value.None? || phoneNumberId.None? then None
    else Some(Context(wabaId, phoneNumberId.value, NonEmpty(ObjectField(metadata, "display_phone_number")),
                      Items(Field(value.value, "contacts"))))
  }

  function Raws(c: Context, kind: ItemKind, elements: seq<Json>): (r: seq<Raw>)
    ensures |r| == |elements| && forall i :: 0 <= i < |r| ==> r[i] == Raw(c, kind, elements[i])
  {
    seq(|elements|, i requires 0 <= i < |elements| => Raw(c, kind, elements[i]))
  }

  function RawsOfChange(wabaId: string, change: Json): seq<Raw> {
    var c := ContextOf(wabaId, change);
    if c.None? then []
    else
      Raws(c.value, MESSAGE, Items(ObjectField(Field(change, "value"), "messages")))
      + Raws(c.value, STATUS, Items(ObjectField(Field(change, "value"), "statuses")))
  }

  function RawsOfChanges(wabaId: string, changes: seq<Json>): seq<Raw> {
    if changes == [] then []
    else RawsOfChanges(wabaId, changes[..|changes| - 1]) + RawsOfChange(wabaId, changes[|changes| - 1])
  }

  /** The id and the changes of an entry that has both. */
  datatype Accepted = Accepted(wabaId: string, changes: seq<Json>)

  function AcceptedEntry(entry: Json): Option<Accepted> {
    var wabaId, changes := NonEmpty(Field(entry, "id")), Field(entry, "changes");
    if wabaId.None? || changes.None? || !changes.value.Array? then None
    else Some(Accepted(wabaId.value, changes.value.items))
  }

  function RawsOfEntry(entry: Json): seq<Raw> {
    var a := AcceptedEntry(entry);
    if a.None? then [] else RawsOfChanges(a.value.wabaId, a.value.changes)
  }

  function RawsOfEntries(entries: seq<Json>): seq<Raw> {
    if entries == [] then [] else RawsOfEntries(entries[..|entries| - 1]) + RawsOfEntry(entries[|entries| - 1])
  }

  /** The entries of an envelope for this channel. */
  function Entries(input: Json): Option<seq<Json>> {
    var entry := Field(input, "entry");
    if Field(input, "object") == Some(Text("whatsapp_business_account")) && entry.Some? && entry.value.Array?
    then Some(entry.value.items)
    else None
  }

  predicate TooManyChanges(entry: Json) {
    var a := AcceptedEntry(entry);
    a.Some? && |a.value.changes| > MAXIMUM_CHANGES
  }

  // --- The items ---

  function Envelope(wabaId: string, value: Json): Json {
    Object(map["entry" := Array([EntryJson(wabaId, value)]), "object" := Text("whatsapp_business_account")])
  }

  function EntryJson(wabaId: string, value: Json): Json {
    Object(map["changes" := Array([ChangeJson(value)]), "id" := Text(wabaId)])
  }

  function ChangeJson(value: Json): Json {
    Object(map["field" := Text("messages"), "value" := value])
  }

  function Metadata(c: Context): Json {
    Object((if c.display.Some? then map["display_phone_number" := Text(c.display.value)] else map[])
           + map["phone_number_id" := Text(c.phoneNumberId)])
  }

  function ValueJson(c: Context, body: map<string, Json>): Json {
    Object(map["messaging_product" := Text("whatsapp"), "metadata" := Metadata(c)] + body)
  }

  /** `===` between values of one JSON document: no two objects or arrays are the same one. */
  predicate StrictlyEqual(a: Option<Json>, b: Option<Json>) {
    a == b && (a.Some? ==> !a.value.Object? && !a.value.Array?)
  }

  predicate IsSender(message: Json, contact: Json) {
    StrictlyEqual(Field(contact, "wa_id"), Field(message, "from"))
  }

  /** `contacts.filter(...).slice(0, 1)`. */
  function SenderContact(contacts: seq<Json>, message: Json): (r: seq<Json>)
    ensures |r| <= 1 && forall c :: c in r ==> c in contacts && IsSender(message, c)
    ensures r == [] ==> forall c :: c in contacts ==> !IsSender(message, c)
  {
    if contacts == [] then []
    else if IsSender(message, contacts[0]) then [contacts[0]]
    else SenderContact(contacts[1..], message)
  }

  function MessageBody(contacts: seq<Json>, message: Json): map<string, Json> {
    (if contacts == [] then map[] else map["contacts" := Array(contacts)]) + map["messages" := Array([message])]
  }

  function OrUnknown(s: Option<string>): string {
    if s.Some? then s.value else "unknown"
  }

  function MessageItem(digest: Json -> string, c: Context, message: Json): Item {
    var id := NonEmpty(Field(message, "id"));
    var eventId := if id.Some? then "message:" + id.value else "message:unknown:" + digest(message);
    var body := MessageBody(SenderContact(c.contacts, message), message);
    Item(eventId, MESSAGE, Envelope(c.wabaId, ValueJson(c, body)), c.phoneNumberId, c.wabaId)
  }

  function StatusItem(c: Context, status: Json): Item {
    var eventId := "status:" + OrUnknown(NonEmpty(Field(status, "id"))) + ":"
      + OrUnknown(NonEmpty(Field(status, "status"))) + ":" + OrUnknown(NonEmpty(Field(status, "timestamp")));
    var body := map["statuses" := Array([status])];
    Item(eventId, STATUS, Envelope(c.wabaId, ValueJson(c, body)), c.phoneNumberId, c.wabaId)
  }

  function ItemOf(digest: Json -> string, raw: Raw): Item {
    match raw.kind
    case MESSAGE => MessageItem(digest, raw.context, raw.json)
    case STATUS => StatusItem(raw.context, raw.json)
  }

  /** The innermost loop bodies: none when the error is thrown. */
  function Feed(item: Raw -> Item, items: seq<Item>, raws: seq<Raw>): Option<seq<Item>>
    decreases |raws|
  {
    if raws == [] then Some(items)
    else if |items| >= MAXIMUM_ITEMS then None
    else if raws[0].json.Object? then Feed(item, items + [item(raws[0])], raws[1..])
    else Feed(item, items, raws[1..])
  }

  predicate SomeTooLarge(entries: seq<Json>) {
    exists e :: e in entries && TooManyChanges(e)
  }

  function FeedEntries(item: Raw -> Item, entries: seq<Json>): Option<seq<Item>> {
    if |entries| > MAXIMUM_ENTRIES || SomeTooLarge(entries) then None
    else Feed(item, [], RawsOfEntries(entries))
  }

  function Split(digest: Json -> string, input: Json): Option<seq<Item>> {
    var entries := Entries(input);
    if entries.None? then Some([]) else FeedEntries(raw => ItemOf(digest, raw), entries.value)
  }

  // --- The nested loops ---

  lemma {:induction false} FeedJoined(item: Raw -> Item, items: seq<Item>, a: seq<Raw>, b: seq<Raw>)
    ensures Feed(item, items, a + b) ==
      match Feed(item, items, a) case None => None case Some(more) => Feed(item, more, b)
    decreases |a|
  {
    if a == [] {
      assert a + b == b;
    } else {
      assert (a + b)[1..] == a[1..] + b;
      if |items| < MAXIMUM_ITEMS {
        FeedJoined(item, if a[0].json.Object? then items + [item(a[0])] else items, a[1..], b);
      }
    }
  }

  lemma FeedStep(item: Raw -> Item, items: seq<Item>, raws: seq<Raw>, k: nat)
    requires k < |raws| && Feed(item, items, raws[..k]).Some?
    ensures var so := Feed(item, items, raws[..k]).value;
      Feed(item, items, raws[..k + 1]) ==
        if |so| >= MAXIMUM_ITEMS then None
        else if raws[k].json.Object? then Some(so + [item(raws[k])]) else Some(so)
  {
    assert raws[..k + 1] == raws[..k] + [raws[k]];
    FeedJoined(item, items, raws[..k], [raws[k]]);
  }

  lemma FeedPrefixFails(item: Raw -> Item, items: seq<Item>, raws: seq<Raw>, k: nat)
    requires k <= |raws| && Feed(item, items, raws[..k]).None?
    ensures Feed(item, items, raws).None?
  {
    assert raws == raws[..k] + raws[k..];
    FeedJoined(item, items, raws[..k], raws[k..]);
  }

  /** The loop over one `messages` or `statuses` array. */
  method PushAll(item: Raw -> Item, c: Context, kind: ItemKind, elements: seq<Json>, before: seq<Item>)
      returns (items: Option<seq<Item>>)
    ensures items == Feed(item, before, Raws(c, kind, elements))
  {
    var pushed := before;
    ghost var raws := Raws(c, kind, elements);
    for k := 0 to |elements|
      invariant Feed(item, before, raws[..k]) == Some(pushed)
    {
      FeedStep(item, before, raws, k);
      if |pushed| >= MAXIMUM_ITEMS {
        FeedPrefixFails(item, before, raws, k + 1);
        return None;
      }
      if elements[k].Object? {
        pushed := pushed + [item(Raw(c, kind, elements[k]))];
      }
    }
    assert raws[..|elements|] == raws;
    return Some(pushed);
  }

  method SplitChange(item: Raw -> Item, wabaId: string, change: Json, before: seq<Item>) returns (items: Option<seq<Item>>)
    ensures items == Feed(item, before, RawsOfChange(wabaId, change))
  {
    var c := ContextOf(wabaId, change);
    if c.None? {
      return Some(before);
    }
    var messages := Items(ObjectField(Field(change, "value"), "messages"));
    var statuses := Items(ObjectField(Field(change, "value"), "statuses"));
    FeedJoined(item, before, Raws(c.value, MESSAGE, messages), Raws(c.value, STATUS, statuses));
    items := PushAll(item, c.value, MESSAGE, messages, before);
    if items.Some? {
      items := PushAll(item, c.value, STATUS, statuses, items.value);
    }
  }

  lemma ChangesStep(item: Raw -> Item, wabaId: string, changes: seq<Json>, before: seq<Item>, k: nat)
    requires k < |changes|
    ensures Feed(item, before, RawsOfChanges(wabaId, changes[..k + 1])) ==
      match Feed(item, before, RawsOfChanges(wabaId, changes[..k]))
      case None => None
      case Some(more) => Feed(item, more, RawsOfChange(wabaId, changes[k]))
  {
    assert changes[..k + 1][..k] == changes[..k];
    FeedJoined(item, before, RawsOfChanges(wabaId, changes[..k]), RawsOfChange(wabaId, changes[k]));
  }

  lemma {:induction false} ChangesFail(item: Raw -> Item, wabaId: string, changes: seq<Json>, before: seq<Item>, k: nat)
    requires k <= |changes| && Feed(item, before, RawsOfChanges(wabaId, changes[..k])).None?
    ensures Feed(item, before, RawsOfChanges(wabaId, changes)).None?
    decreases |changes| - k
  {
    if k == |changes| {
      assert changes[..k] == changes;
    } else {
      ChangesStep(item, wabaId, changes, before, k);
      ChangesFail(item, wabaId, changes, before, k + 1);
    }
  }

  /** The loop over the changes of one entry. */
  method SplitEntry(item: Raw -> Item, entry: Json, before: seq<Item>) returns (items: Option<seq<Item>>)
    ensures items == Feed(item, before, RawsOfEntry(entry))
  {
    var a := AcceptedEntry(entry);
    if a.None? {
      return Some(before);
    }
    var wabaId, changes := a.value.wabaId, a.value.changes;
    items := Some(before);
    for k := 0 to |changes|
      invariant items.Some? && items == Feed(item, before, RawsOfChanges(wabaId, changes[..k]))
    {
      ChangesStep(item, wabaId, changes, before, k);
      items := SplitChange(item, wabaId, changes[k], items.value);
      if items.None? {
        ChangesFail(item, wabaId, changes, before, k + 1);
        return;
      }
    }
    assert changes[..|changes|] == changes;
  }

  lemma EntriesStep(item: Raw -> Item, entries: seq<Json>, k: nat)
    requires k < |entries|
    ensures Feed(item, [], RawsOfEntries(entries[..k + 1])) ==
      match Feed(item, [], RawsOfEntries(entries[..k]))
      case None => None
      case Some(more) => Feed(item, more, RawsOfEntry(entries[k]))
  {
    assert entries[..k + 1][..k] == entries[..k];
    FeedJoined(item, [], RawsOfEntries(entries[..k]), RawsOfEntry(entries[k]));
  }

  lemma {:induction false} EntriesFail(item: Raw -> Item, entries: seq<Json>, k: nat)
    requires k <= |entries| && Feed(item, [], RawsOfEntries(entries[..k])).None?
    ensures Feed(item, [], RawsOfEntries(entries)).None?
    decreases |entries| - k
  {
    if k == |entries| {
      assert entries[..k] == entries;
    } else {
      EntriesStep(item, entries, k);
      EntriesFail(item, entries, k + 1);
    }
  }

  lemma NoneLarger(entries: seq<Json>, k: nat)
    requires k < |entries| && !SomeTooLarge(entries[..k]) && !TooManyChanges(entries[k])
    ensures !SomeTooLarge(entries[..k + 1])
  {
    forall e | e in entries[..k + 1] ensures !TooManyChanges(e) {
      assert e in entries[..k] || e == entries[k];
    }
  }

  lemma LargeEntry(entries: seq<Json>, k: nat)
    requires k < |entries| && TooManyChanges(entries[k])
    ensures SomeTooLarge(entries)
  {
    assert entries[k] in entries;
  }

  /** The outer loop; none when the envelope is too large. */
  method SplitEntries(item: Raw -> Item, entries: seq<Json>) returns (items: Option<seq<Item>>)
    ensures items == FeedEntries(item, entries)
  {
    if |entries| > MAXIMUM_ENTRIES {
      return None;
    }
    items := Some([]);
    for k := 0 to |entries|
      invariant items.Some? && items == Feed(item, [], RawsOfEntries(entries[..k]))
      invariant !SomeTooLarge(entries[..k])
    {
      if TooManyChanges(entries[k]) {
        LargeEntry(entries, k);
        return None;
      }
      EntriesStep(item, entries, k);
      NoneLarger(entries, k);
      items := SplitEntry(item, entries[k], items.value);
      if items.None? {
        EntriesFail(item, entries, k + 1);
        return;
      }
    }
    assert entries[..|entries|] == entries;
    assert !SomeTooLarge(entries);
  }

  method SplitEnvelope(digest: Json -> string, input: Json) returns (items: Option<seq<Item>>)
    ensures items == Split(digest, input)
  {
    var entries := Entries(input);
    if entries.None? {
      return Some([]);
    }
    items := SplitEntries(raw => ItemOf(digest, raw), entries.value);
  }

  // --- Nothing is lost, added or reordered ---

  function Objects(raws: seq<Raw>): (r: seq<Raw>)
    ensures forall x :: x in r <==> x in raws && x.json.Object?
    ensures |r| <= |raws|
  {
    if raws == [] then []
    else (if raws[0].json.Object? then [raws[0]] else []) + Objects(raws[1..])
  }

  function ItemsOf(item: Raw -> Item, raws: seq<Raw>): (r: seq<Item>)
    ensures |r| == |raws| && forall i :: 0 <= i < |r| ==> r[i] == item(raws[i])
  {
    seq(|raws|, i requires 0 <= i < |raws| => item(raws[i]))
  }

  /** The loops throw exactly when one more element comes after five hundred objects. */
  predicate Overflows(already: nat, raws: seq<Raw>) {
    raws != [] && already + |Objects(raws[..|raws| - 1])| >= MAXIMUM_ITEMS
  }

  lemma OverflowsTail(already: nat, head: Raw, tail: seq<Raw>)
    requires tail != []
    ensures Overflows(already, [head] + tail) <==> Overflows(already + (if head.json.Object? then 1 else 0), tail)
  {
    var raws := [head] + tail;
    assert raws[..|raws| - 1] == [head] + tail[..|tail| - 1];
    assert raws[..|raws| - 1][1..] == tail[..|tail| - 1];
  }

  lemma {:induction false} FeedExact(item: Raw -> Item, items: seq<Item>, raws: seq<Raw>)
    ensures Feed(item, items, raws).None? <==> Overflows(|items|, raws)
    ensures Feed(item, items, raws).Some? ==> Feed(item, items, raws).value == items + ItemsOf(item, Objects(raws))
    decreases |raws|
  {
    if raws != [] {
      var head, tail := raws[0], raws[1..];
      var more := if head.json.Object? then items + [item(head)] else items;
      FeedExact(item, more, tail);
      if tail == [] {
        assert raws[..0] == [];
      } else {
        assert raws == [head] + tail;
        OverflowsTail(|items|, head, tail);
      }
    }
  }

  lemma {:induction false} ObjectsBound(raws: seq<Raw>, already: nat)
    requires already <= MAXIMUM_ITEMS && !Overflows(already, raws)
    ensures already + |Objects(raws)| <= MAXIMUM_ITEMS
  {
    if raws != [] {
      ObjectsJoined(raws[..|raws| - 1], [raws[|raws| - 1]]);
      assert raws == raws[..|raws| - 1] + [raws[|raws| - 1]];
    }
  }

  lemma {:induction false} ObjectsJoined(a: seq<Raw>, b: seq<Raw>)
    ensures Objects(a + b) == Objects(a) + Objects(b)
  {
    if a == [] {
      assert a + b == b;
    } else {
      assert (a + b)[1..] == a[1..] + b;
      ObjectsJoined(a[1..], b);
    }
  }

  /** What an envelope carries for this channel, in order. */
  function Carried(input: Json): seq<Raw> {
    if Entries(input).Some? then RawsOfEntries(Entries(input).value) else []
  }

  predicate Oversized(input: Json) {
    && Entries(input).Some?
    && (|Entries(input).value| > MAXIMUM_ENTRIES || SomeTooLarge(Entries(input).value) || Overflows(0, Carried(input)))
  }

  lemma FeedEntriesExact(item: Raw -> Item, entries: seq<Json>)
    ensures var raws := RawsOfEntries(entries);
      FeedEntries(item, entries) ==
        if |entries| > MAXIMUM_ENTRIES || SomeTooLarge(entries) || Overflows(0, raws) then None
        else Some(ItemsOf(item, Objects(raws)))
  {
    var raws := RawsOfEntries(entries);
    FeedExact(item, [], raws);
    assert [] + ItemsOf(item, Objects(raws)) == ItemsOf(item, Objects(raws));
  }

  /** The items for these elements, in order. */
  function ItemsFrom(digest: Json -> string, raws: seq<Raw>): (r: seq<Item>)
    ensures |r| == |raws| && forall i :: 0 <= i < |r| ==> r[i] == ItemOf(digest, raws[i])
  {
    seq(|raws|, i requires 0 <= i < |raws| => ItemOf(digest, raws[i]))
  }

  /**
    Every object message and status of every accepted change becomes one item, in order,
    and nothing else does; there are at most five hundred; and the call fails exactly when
    the envelope is too large.
  */
  lemma SplitExact(digest: Json -> string, input: Json)
    ensures Split(digest, input) ==
      if Oversized(input) then None else Some(ItemsFrom(digest, Objects(Carried(input))))
    ensures !Oversized(input) ==> |Objects(Carried(input))| <= MAXIMUM_ITEMS
  {
    if Entries(input).Some? {
      var item := raw => ItemOf(digest, raw);
      var raws := Objects(Carried(input));
      FeedEntriesExact(item, Entries(input).value);
      assert ItemsOf(item, raws) == ItemsFrom(digest, raws);
      if !Oversized(input) {
        ObjectsBound(Carried(input), 0);
      }
    }
  }

  // --- An item is an envelope that splits into itself ---

  predicate Usable(c: Context) {
    c.wabaId != "" && c.phoneNumberId != "" && c.display != Some("")
  }

  lemma ContextUsable(wabaId: string, change: Json)
    requires wabaId != ""
    ensures forall r :: r in RawsOfChange(wabaId, change) ==> Usable(r.context)
  {
  }

  lemma {:induction false} ChangesUsable(wabaId: string, changes: seq<Json>)
    requires wabaId != ""
    ensures forall r :: r in RawsOfChanges(wabaId, changes) ==> Usable(r.context)
  {
    if changes != [] {
      ChangesUsable(wabaId, changes[..|changes| - 1]);
      ContextUsable(wabaId, changes[|changes| - 1]);
    }
  }

  lemma {:induction false} EntriesUsable(entries: seq<Json>)
    ensures forall r :: r in RawsOfEntries(entries) ==> Usable(r.context)
  {
    if entries != [] {
      var last := entries[|entries| - 1];
      EntriesUsable(entries[..|entries| - 1]);
      if AcceptedEntry(last).Some? {
        ChangesUsable(AcceptedEntry(last).value.wabaId, AcceptedEntry(last).value.changes);
      }
    }
  }

  lemma EnvelopeReads(wabaId: string, value: Json)
    requires wabaId != ""
    ensures Entries(Envelope(wabaId, value)) == Some([EntryJson(wabaId, value)])
    ensures AcceptedEntry(EntryJson(wabaId, value)) == Some(Accepted(wabaId, [ChangeJson(value)]))
  {
  }

  /** An envelope with a single change carries what that change carries. */
  lemma EnvelopeCarries(wabaId: string, value: Json)
    requires wabaId != ""
    ensures RawsOfEntries([EntryJson(wabaId, value)]) == RawsOfChange(wabaId, ChangeJson(value))
  {
    EnvelopeReads(wabaId, value);
    var entry, change := EntryJson(wabaId, value), ChangeJson(value);
    assert [entry][..0] == [] && [change][..0] == [];
    assert RawsOfChanges(wabaId, [change]) == [] + RawsOfChange(wabaId, change);
    assert RawsOfEntries([entry]) == [] + RawsOfEntry(entry);
  }

  lemma MetadataReads(c: Context)
    ensures Field(Metadata(c), "phone_number_id") == Some(Text(c.phoneNumberId))
    ensures Field(Metadata(c), "display_phone_number") ==
      if c.display.Some? then Some(Text(c.display.value)) else None
  {
    assert "phone_number_id" != "display_phone_number" by {
      assert |"phone_number_id"| != |"display_phone_number"|;
    }
  }

  lemma ValueReads(c: Context, body: map<string, Json>, name: string)
    requires "metadata" !in body && "messaging_product" !in body
    requires name != "metadata" && name != "messaging_product"
    ensures Field(ValueJson(c, body), "metadata") == Some(Metadata(c))
    ensures Field(ValueJson(c, body), name) == if name in body then Some(body[name]) else None
  {
  }

  lemma ContextReads(c: Context, body: map<string, Json>)
    requires Usable(c) && "metadata" !in body && "messaging_product" !in body
    ensures var contacts := Items(if "contacts" in body then Some(body["contacts"]) else None);
      ContextOf(c.wabaId, ChangeJson(ValueJson(c, body))) == Some(c.(contacts := contacts))
  {
    var value := ValueJson(c, body);
    ValueReads(c, body, "contacts");
    MetadataReads(c);
    assert Field(ChangeJson(value), "field") == Some(Text("messages"));
    assert Field(ChangeJson(value), "value") == Some(value);
  }

  lemma {:induction false} SenderAgain(contacts: seq<Json>, message: Json)
    ensures SenderContact(SenderContact(contacts, message), message) == SenderContact(contacts, message)
  {
    if contacts != [] && !IsSender(message, contacts[0]) {
      SenderAgain(contacts[1..], message);
    }
  }

  lemma MessageRaws(c: Context, contacts: seq<Json>, message: Json)
    requires Usable(c)
    ensures RawsOfChange(c.wabaId, ChangeJson(ValueJson(c, MessageBody(contacts, message)))) ==
      [Raw(c.(contacts := contacts), MESSAGE, message)]
  {
    var body := MessageBody(contacts, message);
    assert "contacts" in body <==> contacts != [];
    ContextReads(c, body);
    ValueReads(c, body, "messages");
    ValueReads(c, body, "statuses");
    var value := ValueJson(c, body);
    assert Field(ChangeJson(value), "value") == Some(value);
  }

  lemma StatusRaws(c: Context, status: Json)
    requires Usable(c)
    ensures RawsOfChange(c.wabaId, ChangeJson(ValueJson(c, map["statuses" := Array([status])]))) ==
      [Raw(c.(contacts := []), STATUS, status)]
  {
    var body := map["statuses" := Array([status])];
    ContextReads(c, body);
    ValueReads(c, body, "messages");
    ValueReads(c, body, "statuses");
    var value := ValueJson(c, body);
    assert Field(ChangeJson(value), "value") == Some(value);
  }

  /** The raw element that the payload of an item carries. */
  function Lone(raw: Raw): Raw {
    match raw.kind
    case MESSAGE => raw.(context := raw.context.(contacts := SenderContact(raw.context.contacts, raw.json)))
    case STATUS => raw.(context := raw.context.(contacts := []))
  }

  lemma PayloadCarries(digest: Json -> string, raw: Raw)
    requires Usable(raw.context)
    ensures var p := ItemOf(digest, raw).payload;
      Carried(p) == [Lone(raw)] && Entries(p).Some? && |Entries(p).value| == 1 && !TooManyChanges(Entries(p).value[0])
  {
    var c := raw.context;
    if raw.kind == MESSAGE {
      var contacts := SenderContact(c.contacts, raw.json);
      var value := ValueJson(c, MessageBody(contacts, raw.json));
      EnvelopeReads(c.wabaId, value);
      EnvelopeCarries(c.wabaId, value);
      MessageRaws(c, contacts, raw.json);
    } else {
      var value := ValueJson(c, map["statuses" := Array([raw.json])]);
      EnvelopeReads(c.wabaId, value);
      EnvelopeCarries(c.wabaId, value);
      StatusRaws(c, raw.json);
    }
  }

  lemma LoneItem(digest: Json -> string, raw: Raw)
    ensures ItemOf(digest, Lone(raw)) == ItemOf(digest, raw)
  {
    SenderAgain(raw.context.contacts, raw.json);
  }

  lemma OneObject(raw: Raw)
    requires raw.json.Object?
    ensures Objects([raw]) == [raw] && !Overflows(0, [raw])
  {
    assert [raw][..0] == [] && [raw][1..] == [];
  }

  lemma OneEntry(entries: seq<Json>)
    requires |entries| == 1 && !TooManyChanges(entries[0])
    ensures !SomeTooLarge(entries)
  {
    forall e | e in entries ensures !TooManyChanges(e) {
      assert e == entries[0];
    }
  }

  lemma SplitOne(digest: Json -> string, p: Json, raw: Raw)
    requires Entries(p).Some? && |Entries(p).value| == 1 && !TooManyChanges(Entries(p).value[0])
    requires Carried(p) == [raw] && raw.json.Object?
    ensures Split(digest, p) == Some([ItemOf(digest, raw)])
  {
    OneObject(raw);
    OneEntry(Entries(p).value);
    SplitExact(digest, p);
    assert ItemsFrom(digest, [raw]) == [ItemOf(digest, raw)];
  }

  /** Splitting the payload of an item gives exactly that item. */
  lemma ResplitsItself(digest: Json -> string, input: Json, i: nat)
    requires Split(digest, input).Some? && i < |Split(digest, input).value|
    ensures var item := Split(digest, input).value[i]; Split(digest, item.payload) == Some([item])
  {
    SplitExact(digest, input);
    EntriesUsable(Entries(input).value);
    var raw := Objects(Carried(input))[i];
    assert raw in Objects(Carried(input));
    PayloadCarries(digest, raw);
    LoneItem(digest, raw);
    SplitOne(digest, ItemOf(digest, raw).payload, Lone(raw));
  }

  // --- Normalizing an item ---

  datatype Normalized =
    | NormalMessage(message: Json, profileName: Option<string>, senderId: string)
    | NormalStatus(status: Json)
    | ITEM_INVALID | MESSAGE_INVALID | STATUS_INVALID

  function FirstItem(v: Option<Json>): Option<Json> {
    if Items(v) == [] then None else Some(Items(v)[0])
  }

  function ProfileName(contact: Option<Json>): Option<string> {
    NonEmpty(ObjectField(ObjectField(contact, "profile"), "name"))
  }

  function NormalizeMessage(message: Json, contact: Option<Json>): Normalized {
    var senderId := NonEmpty(Field(message, "from"));
    if senderId.None? || NonEmpty(Field(message, "id")).None? || NonEmpty(Field(message, "type")).None? then MESSAGE_INVALID
    else NormalMessage(message, ProfileName(contact), senderId.value)
  }

  function NormalizeStatus(status: Json): Normalized {
    if NonEmpty(Field(status, "id")).None? || NonEmpty(Field(status, "status")).None?
       || NonEmpty(Field(status, "timestamp")).None?
    then STATUS_INVALID
    else NormalStatus(status)
  }

  function Normalize(input: Json): Normalized {
    var change := FirstItem(ObjectField(FirstItem(Field(input, "entry")), "changes"));
    var value := OnlyObject(ObjectField(change, "value"));
    if value.None? then ITEM_INVALID
    else
      var messages, statuses := Items(Field(value.value, "messages")), Items(Field(value.value, "statuses"));
      if |messages| == 1 then NormalizeMessage(messages[0], FirstItem(Field(value.value, "contacts")))
      else if |statuses| == 1 then NormalizeStatus(statuses[0])
      else ITEM_INVALID
  }

  /** The first contact of the change that is the sender of the message. */
  ghost predicate IsFirstSender(contacts: seq<Json>, message: Json, contact: Option<Json>) {
    match contact
    case None => forall k :: 0 <= k < |contacts| ==> !IsSender(message, contacts[k])
    case Some(c) => exists k :: 0 <= k < |contacts| && contacts[k] == c && FirstAt(contacts, message, k)
  }

  predicate FirstAt(contacts: seq<Json>, message: Json, k: nat)
    requires k < |contacts|
  {
    IsSender(message, contacts[k]) && forall j :: 0 <= j < k ==> !IsSender(message, contacts[j])
  }

  lemma {:induction false} SenderIsFirst(contacts: seq<Json>, message: Json)
    ensures var s := SenderContact(contacts, message);
      IsFirstSender(contacts, message, if s == [] then None else Some(s[0]))
  {
    if contacts != [] {
      if IsSender(message, contacts[0]) {
        assert FirstAt(contacts, message, 0);
      } else {
        var tail := contacts[1..];
        SenderIsFirst(tail, message);
        var s := SenderContact(tail, message);
        if s != [] {
          var k :| 0 <= k < |tail| && tail[k] == s[0] && FirstAt(tail, message, k);
          assert FirstAt(contacts, message, k + 1);
        }
      }
    }
  }

  lemma EnvelopeValue(wabaId: string, value: Json)
    ensures var change := FirstItem(ObjectField(FirstItem(Field(Envelope(wabaId, value), "entry")), "changes"));
      ObjectField(change, "value") == Some(value)
  {
    assert Field(Envelope(wabaId, value), "entry") == Some(Array([EntryJson(wabaId, value)]));
    assert Field(EntryJson(wabaId, value), "changes") == Some(Array([ChangeJson(value)]));
  }

  lemma MessageBodyReads(contacts: seq<Json>, message: Json)
    ensures var body := MessageBody(contacts, message);
      && "messages" in body && body["messages"] == Array([message])
      && ("contacts" in body <==> contacts != []) && (contacts != [] ==> body["contacts"] == Array(contacts))
      && "metadata" !in body && "messaging_product" !in body
  {
  }

  lemma MessageNormalizes(digest: Json -> string, c: Context, message: Json) returns (contact: Option<Json>)
    ensures IsFirstSender(c.contacts, message, contact)
    ensures Normalize(MessageItem(digest, c, message).payload) == NormalizeMessage(message, contact)
  {
    var contacts := SenderContact(c.contacts, message);
    contact := if contacts == [] then None else Some(contacts[0]);
    SenderIsFirst(c.contacts, message);
    var body := MessageBody(contacts, message);
    MessageBodyReads(contacts, message);
    EnvelopeValue(c.wabaId, ValueJson(c, body));
    ValueReads(c, body, "messages");
    ValueReads(c, body, "contacts");
  }

  lemma StatusNormalizes(c: Context, status: Json)
    ensures Normalize(StatusItem(c, status).payload) == NormalizeStatus(status)
  {
    var body := map["statuses" := Array([status])];
    EnvelopeValue(c.wabaId, ValueJson(c, body));
    ValueReads(c, body, "messages");
    ValueReads(c, body, "statuses");
  }

  /**
    Normalizing an item gives the message or status it was made from; a message comes with
    the profile of the first contact of its change whose `wa_id` is the sender.
  */
  lemma NormalizesItsSource(digest: Json -> string, input: Json, i: nat) returns (contact: Option<Json>)
    requires Split(digest, input).Some? && i < |Split(digest, input).value|
    ensures i < |Objects(Carried(input))|
    ensures var raw := Objects(Carried(input))[i];
      && Split(digest, input).value[i].kind == raw.kind
      && (raw.kind == MESSAGE ==> IsFirstSender(raw.context.contacts, raw.json, contact))
      && Normalize(Split(digest, input).value[i].payload) ==
           if raw.kind == MESSAGE then NormalizeMessage(raw.json, contact) else NormalizeStatus(raw.json)
  {
    SplitExact(digest, input);
    var raw := Objects(Carried(input))[i];
    if raw.kind == MESSAGE {
      contact := MessageNormalizes(digest, raw.context, raw.json);
    } else {
      contact := None;
      StatusNormalizes(raw.context, raw.json);
    }
  }
}
