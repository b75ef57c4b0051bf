/**
  `valueAt`, `setAt` and the mapping loop of `executeExternalHttpRequest`. Objects are
  mutable and shared, so they live in an explicit heap: a `json` mapping stores a
  reference to a part of the response, not a copy of it.
*/
module PathUpdate {
  import opened Collections

  type Ref = nat
  type Path = seq<string>

  /** A JavaScript value; numbers are their printed text, arrays are never entered. */
  datatype Value =
    | Null | Bool(flag: bool) | Number(digits: string) | Text(text: string)
    | Array(items: seq<Value>) | Obj(ref: Ref)

  datatype Heap = Heap(objects: map<Ref, map<string, Value>>, next: Ref)

  predicate WellFormed(h: Heap) {
    && (forall r :: r in h.objects ==> r < h.next)
    && forall r, k :: r in h.objects && k in h.objects[r] && h.objects[r][k].Obj? ==> h.objects[r][k].ref in h.objects
  }

  predicate Dangerous(part: string) {
    part == "__proto__" || part == "constructor" || part == "prototype"
  }

  predicate Safe(p: Path) {
    p != [] && forall k :: k in p ==> !Dangerous(k)
  }

  /** Neither path is a prefix of the other. */
  predicate Incomparable(p: Path, q: Path) {
    !(p <= q) && !(q <= p)
  }

  // --- Reading ---

  function Field(h: Heap, v: Option<Value>, part: string): Option<Value> {
    if v.Some? && v.value.Obj? && v.value.ref in h.objects && !Dangerous(part) && part in h.objects[v.value.ref]
    then Some(h.objects[v.value.ref][part])
    else None
  }

  /** `path.split('.').reduce(...)`: `undefined` as soon as a part is missing. */
  function ValueAt(h: Heap, v: Value, p: Path): Option<Value> {
    if p == [] then Some(v) else Field(h, ValueAt(h, v, p[..|p| - 1]), p[|p| - 1])
  }

  // --- Writing ---

  function Store(h: Heap, at: Ref, part: string, v: Value): Heap
    requires at in h.objects
  {
    h.(objects := h.objects[at := h.objects[at][part := v]])
  }

  predicate HasObject(h: Heap, at: Ref, part: string)
    requires at in h.objects
  {
    part in h.objects[at] && h.objects[at][part].Obj?
  }

  /** The object behind a part, created if there is none. */
  function Enter(h: Heap, at: Ref, part: string): (r: (Heap, Ref))
    requires WellFormed(h) && at in h.objects
    ensures WellFormed(r.0) && r.1 in r.0.objects
  {
    if HasObject(h, at, part) then (h, h.objects[at][part].ref)
    else (Heap(h.objects[h.next := map[]][at := h.objects[at][part := Obj(h.next)]], h.next + 1), h.next)
  }

  datatype Outcome = Outcome(heap: Heap, ok: bool)

  predicate Known(h: Heap, v: Value) {
    v.Obj? ==> v.ref in h.objects
  }

  /** `setAt`; `ok` is false when it throws, which leaves the objects created so far. */
  function Write(h: Heap, at: Ref, p: Path, v: Value): (o: Outcome)
    requires WellFormed(h) && at in h.objects && p != [] && Known(h, v)
    ensures WellFormed(o.heap) && h.objects.Keys <= o.heap.objects.Keys
    decreases |p|
  {
    if Dangerous(p[0]) then Outcome(h, false)
    else if |p| == 1 then Outcome(Store(h, at, p[0], v), true)
    else
      var (inner, child) := Enter(h, at, p[0]);
      Write(inner, child, p[1..], v)
  }

  // --- The mapping loop ---

  datatype Kind = BOOLEAN | JSON | NUMBER | STRING

  datatype Mapping = Mapping(source: Path, target: Path, kind: Kind, fallback: Option<Value>, required: bool)

  /** `String`/`JSON.stringify` and `Number`, which may look at the whole value. */
  datatype Conversions = Conversions(text: (Heap, Value) -> string, number: (Heap, Value) -> Option<string>)

  /** `convertValue`; none when it throws. */
  function Convert(h: Heap, v: Value, kind: Kind, c: Conversions): Option<Value> {
    match kind
    case JSON => Some(v)
    case STRING => Some(Text(c.text(h, v)))
    case NUMBER => (match c.number(h, v) case Some(n) => Some(Number(n)) case None => None)
    case BOOLEAN =>
      if v.Bool? then Some(v)
      else if v == Text("true") then Some(Bool(true))
      else if v == Text("false") then Some(Bool(false))
      else None
  }

  function Source(h: Heap, root: Value, m: Mapping): Option<Value> {
    var v := ValueAt(h, root, m.source);
    if v.None? then m.fallback else v
  }

  /** The value a mapping wants at its target, if any. */
  function Wanted(h: Heap, root: Value, m: Mapping, c: Conversions): Option<Value> {
    var v := Source(h, root, m);
    if v.None? then None else Convert(h, v.value, m.kind, c)
  }

  predicate Fails(h: Heap, root: Value, m: Mapping, c: Conversions) {
    var v := Source(h, root, m);
    if v.None? then m.required else Convert(h, v.value, m.kind, c).None?
  }

  /** The heap, the object of mapped variables, and `mappingFailed`. */
  datatype State = State(heap: Heap, failed: bool)

  predicate Ready(h: Heap, root: Value, t: Ref, ms: seq<Mapping>) {
    && WellFormed(h) && Known(h, root) && t in h.objects
    && forall m :: m in ms ==> m.target != [] && (m.fallback.Some? ==> Known(h, m.fallback.value))
  }

  lemma {:induction false} ValueKnown(h: Heap, v: Value, p: Path)
    requires WellFormed(h) && Known(h, v)
    ensures ValueAt(h, v, p).Some? ==> Known(h, ValueAt(h, v, p).value)
  {
    if p != [] {
      ValueKnown(h, v, p[..|p| - 1]);
    }
  }

  lemma WantedKnown(h: Heap, root: Value, m: Mapping, c: Conversions)
    requires WellFormed(h) && Known(h, root) && (m.fallback.Some? ==> Known(h, m.fallback.value))
    ensures Wanted(h, root, m, c).Some? ==> Known(h, Wanted(h, root, m, c).value)
  {
    ValueKnown(h, root, m.source);
  }

  function Apply(s: State, root: Value, t: Ref, m: Mapping, c: Conversions): (r: State)
    requires WellFormed(s.heap) && Known(s.heap, root) && t in s.heap.objects && m.target != []
    requires m.fallback.Some? ==> Known(s.heap, m.fallback.value)
    ensures WellFormed(r.heap) && s.heap.objects.Keys <= r.heap.objects.Keys
  {
    var v := Wanted(s.heap, root, m, c);
    WantedKnown(s.heap, root, m, c);
    if v.None? then State(s.heap, s.failed || Fails(s.heap, root, m, c))
    else
      var o := Write(s.heap, t, m.target, v.value);
      State(o.heap, s.failed || !o.ok)
  }

  function Mapped(h: Heap, root: Value, t: Ref, ms: seq<Mapping>, c: Conversions): (r: State)
    requires Ready(h, root, t, ms)
    ensures WellFormed(r.heap) && h.objects.Keys <= r.heap.objects.Keys
    decreases |ms|
  {
    if ms == [] then State(h, false)
    else Apply(Mapped(h, root, t, ms[..|ms| - 1], c), root, t, ms[|ms| - 1], c)
  }

  lemma WriteStep(h: Heap, at: Ref, parts: Path, i: nat, v: Value)
    requires WellFormed(h) && at in h.objects && i < |parts| - 1 && Known(h, v)
    ensures Write(h, at, parts[i..], v) ==
      if Dangerous(parts[i]) then Outcome(h, false)
      else Write(Enter(h, at, parts[i]).0, Enter(h, at, parts[i]).1, parts[i + 1..], v)
  {
    assert parts[i..][1..] == parts[i + 1..];
  }

  /** The objects of the process, updated in place. */
  class ObjectStore {
    var objects: map<Ref, map<string, Value>>
    var next: Ref

    function Snapshot(): Heap
      reads this
    {
      Heap(objects, next)
    }

    method SetAt(target: Ref, parts: Path, v: Value) returns (ok: bool)
      requires WellFormed(Snapshot()) && target in objects && parts != [] && Known(Snapshot(), v)
      modifies this
      ensures Outcome(Snapshot(), ok) == Write(old(Snapshot()), target, parts, v)
    {
      var current := target;
      var last := |parts| - 1;
      for i := 0 to last
        invariant WellFormed(Snapshot()) && current in objects && Known(Snapshot(), v)
        invariant Write(Snapshot(), current, parts[i..], v) == Write(old(Snapshot()), target, parts, v)
      {
        var part := parts[i];
        WriteStep(Snapshot(), current, parts, i, v);
        if Dangerous(part) {
          return false;
        }
        ghost var entered := Enter(Snapshot(), current, part);
        if part !in objects[current] || !objects[current][part].Obj? {
          objects := objects[next := map[]][current := objects[current][part := Obj(next)]];
          next := next + 1;
        }
        current := objects[current][part].ref;
        assert (Snapshot(), current) == entered;
      }
      if Dangerous(parts[last]) {
        return false;
      }
      objects := objects[current := objects[current][parts[last] := v]];
      return true;
    }

    method MapResponse(root: Value, target: Ref, mappings: seq<Mapping>, c: Conversions) returns (mappingFailed: bool)
      requires Ready(Snapshot(), root, target, mappings)
      modifies this
      ensures State(Snapshot(), mappingFailed) == Mapped(old(Snapshot()), root, target, mappings, c)
    {
      mappingFailed := false;
      for i := 0 to |mappings|
        invariant State(Snapshot(), mappingFailed) == Mapped(old(Snapshot()), root, target, mappings[..i], c)
      {
        assert mappings[..i + 1][..i] == mappings[..i];
        var m := mappings[i];
        var source := ValueAt(Snapshot(), root, m.source);
        var value := if source.None? then m.fallback else source;
        WantedKnown(Snapshot(), root, m, c);
        if value.None? {
          mappingFailed := mappingFailed || m.required;
        } else {
          var converted := Convert(Snapshot(), value.value, m.kind, c);
          if converted.None? {
            mappingFailed := true;
          } else {
            var ok := SetAt(target, m.target, converted.value);
            mappingFailed := mappingFailed || !ok;
          }
        }
      }
      assert mappings[..|mappings|] == mappings;
    }
  }

  // --- The mapped variables form a tree apart from the response ---

  /** `shared` is closed: from the response only response objects can be reached. */
  predicate Closed(h: Heap, shared: set<Ref>) {
    && shared <= h.objects.Keys
    && forall r, k :: r in shared && k in h.objects[r] && h.objects[r][k].Obj? ==> h.objects[r][k].ref in shared
  }

  predicate Within(v: Value, shared: set<Ref>) {
    v.Obj? ==> v.ref in shared
  }

  /** What field k of an own object at path p may hold. */
  predicate Fits(v: Value, p: Path, place: map<Ref, Path>, shared: set<Ref>, leaves: set<Path>) {
    v.Obj? ==>
      if v.ref in shared then p in leaves else v.ref in place && place[v.ref] == p
  }

  /**
    Every object of the mapped variables has a place, the one path that leads to it;
    response objects hang only at the paths in `leaves`.
  */
  ghost predicate Placed(h: Heap, t: Ref, place: map<Ref, Path>, shared: set<Ref>, leaves: set<Path>) {
    && Closed(h, shared)
    && t in place && place[t] == []
    && place.Keys <= h.objects.Keys && place.Keys !! shared
    && forall r, k :: r in place && k in h.objects[r] ==> Fits(h.objects[r][k], place[r] + [k], place, shared, leaves)
  }

  /** An own object is only ever found at its place. */
  lemma {:induction false} FoundAtPlace(h: Heap, t: Ref, place: map<Ref, Path>, shared: set<Ref>, leaves: set<Path>, q: Path)
    requires Placed(h, t, place, shared, leaves)
    ensures var v := ValueAt(h, Obj(t), q);
      v.Some? && v.value.Obj? ==> v.value.ref in shared || (v.value.ref in place && place[v.value.ref] == q)
  {
    if q != [] {
      var front := q[..|q| - 1];
      FoundAtPlace(h, t, place, shared, leaves, front);
      assert q == front + [q[|q| - 1]];
    }
  }

  /** A change to one field of a placed object shows only at paths through that field. */
  lemma {:induction false} OtherPathsUnchanged(h: Heap, g: Heap, t: Ref, at: Ref, part: string,
      place: map<Ref, Path>, shared: set<Ref>, leaves: set<Path>, q: Path)
    requires Placed(h, t, place, shared, leaves) && at in place
    requires h.objects.Keys <= g.objects.Keys
    requires forall r, k :: r in h.objects && (r != at || k != part) ==>
      (k in g.objects[r] <==> k in h.objects[r]) && (k in h.objects[r] ==> g.objects[r][k] == h.objects[r][k])
    requires WellFormed(h)
    requires !(place[at] + [part] <= q)
    ensures ValueAt(g, Obj(t), q) == ValueAt(h, Obj(t), q)
  {
    if q != [] {
      var front := q[..|q| - 1];
      assert q == front + [q[|q| - 1]];
      OtherPathsUnchanged(h, g, t, at, part, place, shared, leaves, front);
      FoundAtPlace(h, t, place, shared, leaves, front);
      ValueKnown(h, Obj(t), front);
    }
  }

  /** Nothing lies below a value without fields. */
  lemma {:induction false} DeadEnd(h: Heap, v: Value, p: Path, q: Path)
    requires p <= q && p != q
    requires var x := ValueAt(h, v, p); x.Some? && x.value.Obj? && x.value.ref in h.objects ==> h.objects[x.value.ref] == map[]
    ensures ValueAt(h, v, q).None?
  {
    var front := q[..|q| - 1];
    if p != front {
      assert p <= front;
      DeadEnd(h, v, p, front);
    }
  }

  predicate Agree(h: Heap, g: Heap, shared: set<Ref>) {
    forall r :: r in shared ==> r in h.objects && r in g.objects && h.objects[r] == g.objects[r]
  }

  /** A part that holds no object yet: entering it places a new one there. */
  lemma EnterPlaces(h: Heap, t: Ref, at: Ref, part: string, place: map<Ref, Path>, shared: set<Ref>, leaves: set<Path>)
    requires WellFormed(h) && Placed(h, t, place, shared, leaves) && at in place && !Dangerous(part)
    requires place[at] + [part] !in leaves && !HasObject(h, at, part)
    ensures var (g, child) := Enter(h, at, part);
      Placed(g, t, place[child := place[at] + [part]], shared, leaves) && Agree(h, g, shared)
  {
    var here := place[at] + [part];
    assert here[..|here| - 1] == place[at];
  }

  /** A part that holds no object yet: entering it changes no value but the one there. */
  lemma EnterElsewhere(h: Heap, t: Ref, at: Ref, part: string,
      place: map<Ref, Path>, shared: set<Ref>, leaves: set<Path>, q: Path)
    requires WellFormed(h) && Placed(h, t, place, shared, leaves) && at in place && !Dangerous(part)
    requires ValueAt(h, Obj(t), place[at]) == Some(Obj(at)) && place[at] + [part] !in leaves
    requires !HasObject(h, at, part)
    requires var (g, child) := Enter(h, at, part); ValueAt(g, Obj(t), place[at] + [part]) == Some(Obj(child))
    ensures q != place[at] + [part] ==> ValueAt(Enter(h, at, part).0, Obj(t), q) == ValueAt(h, Obj(t), q)
  {
    var g := Enter(h, at, part).0;
    var here := place[at] + [part];
    if !(here <= q) {
      OtherPathsUnchanged(h, g, t, at, part, place, shared, leaves, q);
    } else if q != here {
      DeadEnd(h, Obj(t), here, q);
      DeadEnd(g, Obj(t), here, q);
    }
  }

  /** Entering a part keeps the tree and every value but the one at that part. */
  lemma EnterKeeps(h: Heap, t: Ref, at: Ref, part: string,
      place: map<Ref, Path>, shared: set<Ref>, leaves: set<Path>, q: Path) returns (grown: map<Ref, Path>)
    requires WellFormed(h) && Placed(h, t, place, shared, leaves) && at in place && !Dangerous(part)
    requires ValueAt(h, Obj(t), place[at]) == Some(Obj(at)) && place[at] + [part] !in leaves
    ensures var (g, child) := Enter(h, at, part);
      && Placed(g, t, grown, shared, leaves) && Agree(h, g, shared)
      && child in grown && grown[child] == place[at] + [part]
      && ValueAt(g, Obj(t), grown[child]) == Some(Obj(child))
      && (q != grown[child] ==> ValueAt(g, Obj(t), q) == ValueAt(h, Obj(t), q))
  {
    var (g, child) := Enter(h, at, part);
    var here := place[at] + [part];
    assert here[..|here| - 1] == place[at];
    if HasObject(h, at, part) {
      grown := place;
      assert Fits(h.objects[at][part], here, place, shared, leaves);
    } else {
      grown := place[child := here];
      EnterPlaces(h, t, at, part, place, shared, leaves);
      OtherPathsUnchanged(h, g, t, at, part, place, shared, leaves, place[at]);
      EnterElsewhere(h, t, at, part, place, shared, leaves, q);
    }
  }

  /** The final assignment of `setAt`. */
  lemma StoreKeeps(h: Heap, t: Ref, at: Ref, part: string, v: Value,
      place: map<Ref, Path>, shared: set<Ref>, leaves: set<Path>, q: Path)
    requires WellFormed(h) && Placed(h, t, place, shared, leaves) && at in place && !Dangerous(part)
    requires ValueAt(h, Obj(t), place[at]) == Some(Obj(at)) && Within(v, shared)
    ensures var g := Store(h, at, part, v); var here := place[at] + [part];
      && Placed(g, t, place, shared, leaves + {here}) && Agree(h, g, shared)
      && ValueAt(g, Obj(t), here) == Some(v)
      && (!(here <= q) ==> ValueAt(g, Obj(t), q) == ValueAt(h, Obj(t), q))
  {
    var g, here := Store(h, at, part, v), place[at] + [part];
    assert here[..|here| - 1] == place[at];
    OtherPathsUnchanged(h, g, t, at, part, place, shared, leaves, place[at]);
    if !(here <= q) {
      OtherPathsUnchanged(h, g, t, at, part, place, shared, leaves, q);
    }
  }

  /** No proper prefix of `base + p` beyond `base` is in `leaves`. */
  predicate Open(base: Path, p: Path, leaves: set<Path>) {
    forall i :: 0 < i < |p| ==> base + p[..i] !in leaves
  }

  lemma OpenTail(base: Path, p: Path, leaves: set<Path>)
    requires |p| > 1 && Open(base, p, leaves)
    ensures base + [p[0]] !in leaves && Open(base + [p[0]], p[1..], leaves)
    ensures base + [p[0]] + p[1..] == base + p
  {
    assert p[..1] == [p[0]];
    forall i | 0 < i < |p| - 1 ensures base + [p[0]] + p[1..][..i] !in leaves {
      assert base + [p[0]] + p[1..][..i] == base + p[..i + 1];
    }
  }

  lemma SafeTail(p: Path)
    requires p != []
    ensures Safe(p) <==> !Dangerous(p[0]) && (|p| == 1 || Safe(p[1..]))
  {
    assert p == [p[0]] + p[1..];
  }

  /**
    The laws of `setAt` on the tree of mapped variables: it throws exactly on a dangerous
    part; otherwise the value just written is read back. In any case every path that is
    neither a prefix nor an extension reads as before, and no object of the response is touched.
  */
  lemma {:induction false} WriteLaws(h: Heap, t: Ref, at: Ref, p: Path, v: Value,
      place: map<Ref, Path>, shared: set<Ref>, leaves: set<Path>, q: Path) returns (grown: map<Ref, Path>)
    requires WellFormed(h) && Placed(h, t, place, shared, leaves) && at in place && p != []
    requires ValueAt(h, Obj(t), place[at]) == Some(Obj(at)) && Within(v, shared) && Open(place[at], p, leaves)
    ensures var o := Write(h, at, p, v); var target := place[at] + p;
      && (o.ok <==> Safe(p)) && Placed(o.heap, t, grown, shared, leaves + {target}) && Agree(h, o.heap, shared)
      && (Safe(p) ==> ValueAt(o.heap, Obj(t), target) == Some(v))
      && (Incomparable(target, q) ==> ValueAt(o.heap, Obj(t), q) == ValueAt(h, Obj(t), q))
    decreases |p|
  {
    SafeTail(p);
    if Dangerous(p[0]) {
      grown := place;
    } else if |p| == 1 {
      assert p == [p[0]];
      StoreKeeps(h, t, at, p[0], v, place, shared, leaves, q);
      grown := place;
    } else {
      var (g, child) := Enter(h, at, p[0]);
      OpenTail(place[at], p, leaves);
      var inner := EnterKeeps(h, t, at, p[0], place, shared, leaves, q);
      grown := WriteLaws(g, t, child, p[1..], v, inner, shared, leaves, q);
      assert inner[child] <= place[at] + p;
    }
  }

  // --- The loop as a whole ---

  function Targets(ms: seq<Mapping>): set<Path> {
    set m | m in ms :: m.target
  }

  /** No target path runs through an earlier target. */
  predicate NoneBelow(ms: seq<Mapping>) {
    forall i, j :: 0 <= i < j < |ms| ==> !(ms[i].target < ms[j].target)
  }

  predicate PairwiseIncomparable(ms: seq<Mapping>) {
    forall i, j :: 0 <= i < j < |ms| ==> Incomparable(ms[i].target, ms[j].target)
  }

  /** The response and the configured defaults, apart from the empty object of mapped variables. */
  ghost predicate Fresh(h: Heap, root: Value, t: Ref, shared: set<Ref>, ms: seq<Mapping>) {
    && Ready(h, root, t, ms)
    && Closed(h, shared) && Within(root, shared) && t !in shared && h.objects[t] == map[]
    && forall m :: m in ms && m.fallback.Some? ==> Within(m.fallback.value, shared)
  }

  /** Conversions look at the value they are given and at nothing else. */
  ghost predicate Local(c: Conversions) {
    forall h: Heap, g: Heap, shared: set<Ref>, v: Value :: SameConversions(c, h, g, shared, v)
  }

  predicate SameConversions(c: Conversions, h: Heap, g: Heap, shared: set<Ref>, v: Value) {
    Closed(h, shared) && Closed(g, shared) && Agree(h, g, shared) && Within(v, shared) ==>
      c.text(h, v) == c.text(g, v) && c.number(h, v) == c.number(g, v)
  }

  lemma {:induction false} ReadsWithin(h: Heap, g: Heap, shared: set<Ref>, v: Value, p: Path)
    requires Closed(h, shared) && Agree(h, g, shared) && Within(v, shared)
    ensures ValueAt(h, v, p) == ValueAt(g, v, p)
    ensures ValueAt(h, v, p).Some? ==> Within(ValueAt(h, v, p).value, shared)
  {
    if p != [] {
      ReadsWithin(h, g, shared, v, p[..|p| - 1]);
    }
  }

  lemma WantedSame(h: Heap, g: Heap, shared: set<Ref>, root: Value, m: Mapping, c: Conversions)
    requires Closed(h, shared) && Closed(g, shared) && Agree(h, g, shared) && Within(root, shared)
    requires m.fallback.Some? ==> Within(m.fallback.value, shared)
    ensures Wanted(h, root, m, c).Some? ==> Within(Wanted(h, root, m, c).value, shared)
    ensures Local(c) ==> Wanted(g, root, m, c) == Wanted(h, root, m, c) && Fails(g, root, m, c) == Fails(h, root, m, c)
  {
    ReadsWithin(h, g, shared, root, m.source);
    var v := Source(h, root, m);
    if Local(c) && v.Some? {
      assert SameConversions(c, h, g, shared, v.value);
    }
  }

  lemma FrontReady(h: Heap, root: Value, t: Ref, shared: set<Ref>, ms: seq<Mapping>)
    requires ms != [] && Fresh(h, root, t, shared, ms) && NoneBelow(ms)
    ensures var front := ms[..|ms| - 1]; Fresh(h, root, t, shared, front) && NoneBelow(front)
    ensures Open([], ms[|ms| - 1].target, Targets(ms[..|ms| - 1]))
    ensures Targets(ms) == Targets(ms[..|ms| - 1]) + {ms[|ms| - 1].target}
  {
    var front, last := ms[..|ms| - 1], ms[|ms| - 1];
    assert ms == front + [last];
    assert Open([], last.target, Targets(front)) by {
      forall i | 0 < i < |last.target| ensures [] + last.target[..i] !in Targets(front) {
        assert [] + last.target[..i] == last.target[..i] && last.target[..i] < last.target;
        forall m | m in front ensures m.target != last.target[..i] {
          var k :| 0 <= k < |front| && front[k] == m;
          assert !(ms[k].target < ms[|ms| - 1].target);
        }
      }
    }
    forall p | p in Targets(ms) ensures p in Targets(front) + {last.target} {
      var m :| m in ms && m.target == p;
    }
  }

  /**
    If no target path runs through an earlier target, the loop never writes into the
    response or a configured default, although it stores references into them.
  */
  lemma {:induction false} ResponseUntouched(h: Heap, root: Value, t: Ref, shared: set<Ref>, ms: seq<Mapping>, c: Conversions)
      returns (place: map<Ref, Path>)
    requires Fresh(h, root, t, shared, ms) && NoneBelow(ms)
    ensures Agree(h, Mapped(h, root, t, ms, c).heap, shared)
    ensures Placed(Mapped(h, root, t, ms, c).heap, t, place, shared, Targets(ms))
    decreases |ms|
  {
    if ms == [] {
      place := map[t := []];
    } else {
      var front, m := ms[..|ms| - 1], ms[|ms| - 1];
      FrontReady(h, root, t, shared, ms);
      place := ResponseUntouched(h, root, t, shared, front, c);
      var s := Mapped(h, root, t, front, c);
      WantedSame(s.heap, s.heap, shared, root, m, c);
      var v := Wanted(s.heap, root, m, c);
      if v.Some? {
        place := WriteLaws(s.heap, t, t, m.target, v.value, place, shared, Targets(front), []);
        assert [] + m.target == m.target;
      }
    }
  }

  /** What a mapping would write is refused, since its target has a dangerous part. */
  predicate Refused(h: Heap, root: Value, m: Mapping, c: Conversions) {
    Wanted(h, root, m, c).Some? && !Safe(m.target)
  }

  /** One turn of the loop, seen from the mapped variables. */
  lemma LoopStep(h: Heap, root: Value, t: Ref, shared: set<Ref>, ms: seq<Mapping>, c: Conversions, q: Path)
    requires ms != [] && Fresh(h, root, t, shared, ms) && NoneBelow(ms) && Local(c)
    ensures Ready(h, root, t, ms[..|ms| - 1])
    ensures var m := ms[|ms| - 1];
      var s, r, v := Mapped(h, root, t, ms[..|ms| - 1], c), Mapped(h, root, t, ms, c), Wanted(h, root, m, c);
      && (v.None? ==> r.heap == s.heap)
      && (v.Some? && Safe(m.target) ==> ValueAt(r.heap, Obj(t), m.target) == v)
      && (Incomparable(m.target, q) ==> ValueAt(r.heap, Obj(t), q) == ValueAt(s.heap, Obj(t), q))
      && (r.failed <==> s.failed || Fails(h, root, m, c) || Refused(h, root, m, c))
  {
    var front, m := ms[..|ms| - 1], ms[|ms| - 1];
    FrontReady(h, root, t, shared, ms);
    var place := ResponseUntouched(h, root, t, shared, front, c);
    var s := Mapped(h, root, t, front, c);
    WantedSame(h, s.heap, shared, root, m, c);
    var v := Wanted(h, root, m, c);
    if v.Some? {
      var _ := WriteLaws(s.heap, t, t, m.target, v.value, place, shared, Targets(front), q);
      assert [] + m.target == m.target;
    }
  }

  lemma {:induction false} Untouched(h: Heap, root: Value, t: Ref, shared: set<Ref>, ms: seq<Mapping>, c: Conversions, q: Path)
    requires Fresh(h, root, t, shared, ms) && NoneBelow(ms) && Local(c) && q != []
    requires forall m :: m in ms ==> Incomparable(m.target, q)
    ensures ValueAt(Mapped(h, root, t, ms, c).heap, Obj(t), q).None?
    decreases |ms|
  {
    if ms == [] {
      DeadEnd(h, Obj(t), [], q);
    } else {
      FrontReady(h, root, t, shared, ms);
      LoopStep(h, root, t, shared, ms, c, q);
      Untouched(h, root, t, shared, ms[..|ms| - 1], c, q);
    }
  }

  /** What a mapping brings to its target. */
  function Landed(h: Heap, root: Value, m: Mapping, c: Conversions): Option<Value> {
    if Safe(m.target) then Wanted(h, root, m, c) else None
  }

  lemma {:induction false} UnsafeReads(h: Heap, v: Value, p: Path)
    requires p != [] && !Safe(p)
    ensures ValueAt(h, v, p).None?
  {
    if !Dangerous(p[|p| - 1]) {
      assert p == p[..|p| - 1] + [p[|p| - 1]];
      UnsafeReads(h, v, p[..|p| - 1]);
    }
  }

  lemma LandsLast(h: Heap, root: Value, t: Ref, shared: set<Ref>, ms: seq<Mapping>, c: Conversions)
    requires ms != [] && Fresh(h, root, t, shared, ms) && NoneBelow(ms) && Local(c)
    requires forall x :: x in ms[..|ms| - 1] ==> Incomparable(x.target, ms[|ms| - 1].target)
    ensures ValueAt(Mapped(h, root, t, ms, c).heap, Obj(t), ms[|ms| - 1].target) == Landed(h, root, ms[|ms| - 1], c)
  {
    var m := ms[|ms| - 1];
    LoopStep(h, root, t, shared, ms, c, []);
    if !Safe(m.target) {
      assert m in ms;
      UnsafeReads(Mapped(h, root, t, ms, c).heap, Obj(t), m.target);
    } else if Wanted(h, root, m, c).None? {
      FrontReady(h, root, t, shared, ms);
      Untouched(h, root, t, shared, ms[..|ms| - 1], c, ms[|ms| - 1].target);
    }
  }

  lemma PairwiseFront(ms: seq<Mapping>)
    requires ms != [] && PairwiseIncomparable(ms)
    ensures NoneBelow(ms) && PairwiseIncomparable(ms[..|ms| - 1])
    ensures forall x :: x in ms[..|ms| - 1] ==> Incomparable(x.target, ms[|ms| - 1].target)
  {
    forall i, j | 0 <= i < j < |ms| ensures !(ms[i].target < ms[j].target) {
      assert Incomparable(ms[i].target, ms[j].target);
    }
  }

  /**
    With pairwise incomparable targets every mapping gets its way: after the loop each
    target holds exactly the value converted from the original response, or nothing; a
    target with a dangerous part holds nothing.
  */
  lemma {:induction false} MappingsLand(h: Heap, root: Value, t: Ref, shared: set<Ref>, ms: seq<Mapping>, c: Conversions, i: nat)
    requires Fresh(h, root, t, shared, ms) && PairwiseIncomparable(ms) && Local(c) && i < |ms|
    ensures ValueAt(Mapped(h, root, t, ms, c).heap, Obj(t), ms[i].target) == Landed(h, root, ms[i], c)
    decreases |ms|
  {
    PairwiseFront(ms);
    if i == |ms| - 1 {
      LandsLast(h, root, t, shared, ms, c);
    } else {
      FrontReady(h, root, t, shared, ms);
      MappingsLand(h, root, t, shared, ms[..|ms| - 1], c, i);
      assert Incomparable(ms[i].target, ms[|ms| - 1].target);
      LoopStep(h, root, t, shared, ms, c, ms[i].target);
    }
  }

  predicate AnyFails(h: Heap, root: Value, ms: seq<Mapping>, c: Conversions) {
    exists m :: m in ms && (Fails(h, root, m, c) || Refused(h, root, m, c))
  }

  lemma AnyFailsFront(h: Heap, root: Value, ms: seq<Mapping>, c: Conversions)
    requires ms != []
    ensures AnyFails(h, root, ms, c) <==>
      AnyFails(h, root, ms[..|ms| - 1], c) || Fails(h, root, ms[|ms| - 1], c) || Refused(h, root, ms[|ms| - 1], c)
  {
    assert ms == ms[..|ms| - 1] + [ms[|ms| - 1]];
  }

  /** The loop reports failure exactly when some mapping failed or was refused. */
  lemma {:induction false} FailureReported(h: Heap, root: Value, t: Ref, shared: set<Ref>, ms: seq<Mapping>, c: Conversions)
    requires Fresh(h, root, t, shared, ms) && NoneBelow(ms) && Local(c)
    ensures Mapped(h, root, t, ms, c).failed <==> AnyFails(h, root, ms, c)
    decreases |ms|
  {
    if ms != [] {
      AnyFailsFront(h, root, ms, c);
      FrontReady(h, root, t, shared, ms);
      LoopStep(h, root, t, shared, ms, c, []);
      FailureReported(h, root, t, shared, ms[..|ms| - 1], c);
    }
  }

  // --- Targets below an earlier target reach into the response ---

  lemma {:induction false} ValueAtFront(h: Heap, v: Value, p: Path)
    requires p != []
    ensures ValueAt(h, v, p) ==
      match Field(h, Some(v), p[0]) case Some(x) => ValueAt(h, x, p[1..]) case None => None
  {
    if |p| == 1 {
      assert p[..0] == [] && p[1..] == [];
    } else {
      var front := p[..|p| - 1];
      ValueAtFront(h, v, front);
      assert p[1..][..|p| - 2] == front[1..];
    }
  }

  /** Writing along a path that leads to an object writes into that object. */
  lemma {:induction false} WriteThrough(h: Heap, at: Ref, p: Path, w: Path, r: Ref, v: Value)
    requires WellFormed(h) && at in h.objects && r in h.objects && w != [] && Known(h, v)
    requires ValueAt(h, Obj(at), p) == Some(Obj(r))
    ensures Write(h, at, p + w, v) == Write(h, r, w, v)
    decreases |p|
  {
    if p == [] {
      assert p + w == w;
    } else {
      ValueAtFront(h, Obj(at), p);
      assert (p + w)[1..] == p[1..] + w;
      if |p| > 1 {
        ValueAtFront(h, h.objects[at][p[0]], p[1..]);
      }
      WriteThrough(h, h.objects[at][p[0]].ref, p[1..], w, r, v);
    }
  }

  lemma {:induction false} WriteKeepsKeys(h: Heap, at: Ref, p: Path, v: Value, r: Ref, k: string)
    requires WellFormed(h) && at in h.objects && p != [] && Known(h, v) && r in h.objects
    ensures k in h.objects[r] ==> k in Write(h, at, p, v).heap.objects[r]
    ensures Safe(p) ==> p[0] in Write(h, at, p, v).heap.objects[at]
    decreases |p|
  {
    if !Dangerous(p[0]) && |p| > 1 {
      var (g, child) := Enter(h, at, p[0]);
      WriteKeepsKeys(g, child, p[1..], v, r, k);
      WriteKeepsKeys(g, child, p[1..], v, at, p[0]);
    }
  }

  /** A response `{ data: {}, status }` (objects 1 to 3) and the empty mapped variables (object 0). */
  function EmptyResponse(): Heap {
    Heap(map[0 := map[], 1 := map["response" := Obj(2)],
             2 := map["data" := Obj(3), "status" := Number("200")], 3 := map[]], 4)
  }

  function TwoMappings(p: Path, q: Path): seq<Mapping> {
    [Mapping(["response", "data"], p, JSON, None, false), Mapping(["response", "status"], q, JSON, None, false)]
  }

  lemma EmptyResponseReads(c: Conversions, p: Path, q: Path)
    ensures var h := EmptyResponse(); var ms := TwoMappings(p, q);
      && Wanted(h, Obj(1), ms[0], c) == Some(Obj(3)) && Wanted(h, Obj(1), ms[1], c) == Some(Number("200"))
  {
    var h := EmptyResponse();
    var d, s := ["response", "data"], ["response", "status"];
    assert d[..1][..0] == [] && s[..1][..0] == [];
    assert ValueAt(h, Obj(1), d[..1]) == Some(Obj(2));
    assert ValueAt(h, Obj(1), s[..1]) == Some(Obj(2));
  }

  lemma EmptyResponseFresh(p: Path, q: Path)
    requires Safe(p) && Safe(q)
    ensures var h := EmptyResponse(); Fresh(h, Obj(1), 0, {1, 2, 3}, TwoMappings(p, q)) && h.objects[3] == map[]
  {
  }

  /** After the first mapping the variables share the response's `data` object. */
  lemma SharesData(c: Conversions, p: Path, q: Path)
    requires Safe(p) && Safe(q) && Local(c)
    ensures var h, ms := EmptyResponse(), TwoMappings(p, q);
      Ready(h, Obj(1), 0, ms) && Ready(h, Obj(1), 0, ms[..1]) &&
      var s := Mapped(h, Obj(1), 0, ms[..1], c).heap;
      && ValueAt(s, Obj(0), p) == Some(Obj(3)) && Wanted(s, Obj(1), ms[1], c) == Some(Number("200"))
  {
    var h, ms := EmptyResponse(), TwoMappings(p, q);
    EmptyResponseReads(c, p, q);
    EmptyResponseFresh(p, q);
    var one := ms[..1];
    assert one == [ms[0]] && one[..0] == [];
    LoopStep(h, Obj(1), 0, {1, 2, 3}, one, c, []);
    var _ := ResponseUntouched(h, Obj(1), 0, {1, 2, 3}, one, c);
    WantedSame(h, Mapped(h, Obj(1), 0, one, c).heap, {1, 2, 3}, Obj(1), ms[1], c);
  }

  /**
    The condition on targets is needed: whenever one target runs through another that
    was mapped as `json` before it, there is a response into which the loop writes.
  */
  lemma TargetBelowAltersResponse(c: Conversions, p: Path, q: Path)
    requires Safe(p) && Safe(q) && p < q && Local(c)
    ensures var h := EmptyResponse(); var ms := TwoMappings(p, q);
      && Fresh(h, Obj(1), 0, {1, 2, 3}, ms)
      && q[|p|] in Mapped(h, Obj(1), 0, ms, c).heap.objects[3] && h.objects[3] == map[]
  {
    var h, ms := EmptyResponse(), TwoMappings(p, q);
    EmptyResponseFresh(p, q);
    SharesData(c, p, q);
    var s := Mapped(h, Obj(1), 0, ms[..1], c).heap;
    assert q == p + q[|p|..];
    WriteThrough(s, 0, p, q[|p|..], 3, Number("200"));
    WriteKeepsKeys(s, 3, q[|p|..], Number("200"), 3, "");
  }
}
