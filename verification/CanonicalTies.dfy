/**
  Keys that `localeCompare` reports as equal, as it must for canonically equivalent
  strings. The sort is stable, so such keys keep the order they were inserted in, and two
  objects that differ in that order only have different canonical texts.
*/
module CanonicalTies {

  import opened CanonicalJson

  /** Every value that equals `v` up to the order of its keys prints the same text. */
  ghost predicate Identified(v: Json, le: KeyOrder) {
    forall w :: Printable(w) && KeysDistinct(w) && Alike(v, w) ==> Canonical(w, le) == Canonical(v, le)
  }

  /** The list has the two keys, in this order. */
  predicate Before(fields: seq<Field>, k: Text, l: Text) {
    exists i, j :: 0 <= i < j < |fields| && fields[i].key == k && fields[j].key == l
  }

  lemma BeforeIsAsymmetric(fields: seq<Field>, k: Text, l: Text)
    requires DistinctKeys(fields) && Before(fields, k, l)
    ensures !Before(fields, l, k)
  {}

  // --- The sort is stable ---

  lemma ConsBefore(f: Field, rest: seq<Field>, k: Text, l: Text)
    requires Before(rest, k, l)
    ensures Before([f] + rest, k, l)
  {
    var i, j :| 0 <= i < j < |rest| && rest[i].key == k && rest[j].key == l;
    assert ([f] + rest)[i + 1] == rest[i] && ([f] + rest)[j + 1] == rest[j];
  }

  lemma HeadBefore(f: Field, rest: seq<Field>, g: Field)
    requires g in rest
    ensures Before([f] + rest, f.key, g.key)
  {
    var j := PositionOf(g, rest);
    assert ([f] + rest)[0] == f && ([f] + rest)[j + 1] == g;
  }

  /** An inserted field goes before every field it is not greater than. */
  lemma {:induction false} InsertBefore(f: Field, sorted: seq<Field>, g: Field, le: KeyOrder)
    requires g in sorted && le(f.key, g.key)
    ensures Before(InsertField(f, sorted, le), f.key, g.key)
  {
    if le(f.key, sorted[0].key) {
      HeadBefore(f, sorted, g);
    } else {
      assert g in sorted[1..];
      InsertBefore(f, sorted[1..], g, le);
      ConsBefore(sorted[0], InsertField(f, sorted[1..], le), f.key, g.key);
    }
  }

  lemma {:induction false} InsertKeeps(f: Field, sorted: seq<Field>, k: Text, l: Text, le: KeyOrder)
    requires Before(sorted, k, l)
    ensures Before(InsertField(f, sorted, le), k, l)
  {
    if le(f.key, sorted[0].key) {
      ConsBefore(f, sorted, k, l);
    } else {
      var rest := InsertField(f, sorted[1..], le);
      var i, j :| 0 <= i < j < |sorted| && sorted[i].key == k && sorted[j].key == l;
      if i == 0 {
        assert sorted[j] == sorted[1..][j - 1];
        HeadBefore(sorted[0], rest, sorted[j]);
      } else {
        assert sorted[1..][i - 1] == sorted[i] && sorted[1..][j - 1] == sorted[j];
        InsertKeeps(f, sorted[1..], k, l, le);
        ConsBefore(sorted[0], rest, k, l);
      }
    }
  }

  lemma {:induction false} SortKeeps(fields: seq<Field>, i: nat, j: nat, le: KeyOrder)
    requires i < j < |fields| && le(fields[i].key, fields[j].key)
    ensures Before(SortFields(fields, le), fields[i].key, fields[j].key)
  {
    var rest := SortFields(fields[1..], le);
    if i == 0 {
      assert fields[j] == fields[1..][j - 1];
      InsertBefore(fields[0], rest, fields[j], le);
    } else {
      SortKeeps(fields[1..], i - 1, j - 1, le);
      InsertKeeps(fields[0], rest, fields[i].key, fields[j].key, le);
    }
  }

  // --- Another listing of the same keys ---

  lemma {:induction false} AlikeReflexive(v: Json)
    ensures Alike(v, v)
    decreases Size(v)
  {
    match v
    case Array(items) =>
      forall i | 0 <= i < |items| ensures ItemSmaller(items, i) && Alike(items[i], items[i]) {
        assert ItemSmaller(items, i);
        AlikeReflexive(items[i]);
      }
    case Object(fields) =>
      forall i | 0 <= i < |fields| ensures FieldSmaller(fields, i) && HasAlike(fields[i], fields) {
        assert FieldSmaller(fields, i);
        AlikeReflexive(fields[i].value);
      }
    case _ =>
  }

  lemma PrintableEach(items: seq<Json>)
    ensures PrintableItems(items) <==> forall i :: 0 <= i < |items| ==> Printable(items[i])
  {
    if items != [] {
      PrintableEach(items[1..]);
      assert forall i :: 0 < i < |items| ==> items[i] == items[1..][i - 1];
    }
  }

  lemma SwapOfTie(fields: seq<Field>, i: nat, j: nat, le: KeyOrder) returns (other: seq<Field>)
    requires i < j < |fields| && Tie(le, fields[i].key, fields[j].key)
    requires Printable(Object(fields)) && KeysDistinct(Object(fields))
    ensures other == fields[i := fields[j]][j := fields[i]]
    ensures Printable(Object(other)) && KeysDistinct(Object(other)) && Alike(Object(fields), Object(other))
    ensures Sorted(Object(fields), le) != Sorted(Object(other), le)
  {
    other := fields[i := fields[j]][j := fields[i]];
    PrintableMembers(fields);
    PrintableMembers(other);
    SwapAlike(fields, i, j);
    SortKeeps(fields, i, j, le);
    SortKeeps(other, i, j, le);
    var a, b := SortFields(fields, le), SortFields(other, le);
    SortDistinct(fields, le);
    BeforeIsAsymmetric(a, fields[i].key, fields[j].key);
    if SortedFields(a, le) == SortedFields(b, le) {
      BeforeCarries(b, a, fields[j].key, fields[i].key, le);
      assert false;
    }
  }

  lemma SwapAlike(fields: seq<Field>, i: nat, j: nat)
    requires i < j < |fields| && KeysDistinct(Object(fields))
    ensures var other := fields[i := fields[j]][j := fields[i]];
      KeysDistinct(Object(other)) && Alike(Object(fields), Object(other))
  {
    var other := fields[i := fields[j]][j := fields[i]];
    forall n | 0 <= n < |fields| ensures FieldSmaller(fields, n) && HasAlike(fields[n], other) {
      assert FieldSmaller(fields, n);
      AlikeReflexive(fields[n].value);
      var m := if n == i then j else if n == j then i else n;
      assert other[m] == fields[n];
    }
    forall n | 0 <= n < |other| ensures FieldSmaller(other, n) && KeysDistinct(other[n].value) {
      assert FieldSmaller(other, n);
      var m := if n == i then j else if n == j then i else n;
      assert FieldSmaller(fields, m) && other[n] == fields[m];
    }
  }

  lemma {:induction false} InsertDistinct(f: Field, sorted: seq<Field>, le: KeyOrder)
    requires DistinctKeys(sorted) && forall g :: g in sorted ==> g.key != f.key
    ensures DistinctKeys(InsertField(f, sorted, le))
  {
    if sorted != [] && !le(f.key, sorted[0].key) {
      var rest := InsertField(f, sorted[1..], le);
      InsertDistinct(f, sorted[1..], le);
      forall j | 0 <= j < |rest| ensures rest[j].key != sorted[0].key {
        assert rest[j] in rest;
      }
    }
  }

  lemma {:induction false} SortDistinct(fields: seq<Field>, le: KeyOrder)
    requires DistinctKeys(fields)
    ensures DistinctKeys(SortFields(fields, le))
  {
    if fields != [] {
      SortDistinct(fields[1..], le);
      forall g | g in SortFields(fields[1..], le) ensures g.key != fields[0].key {
        var k := PositionOf(g, fields[1..]);
        assert fields[k + 1] == g;
      }
      InsertDistinct(fields[0], SortFields(fields[1..], le), le);
    }
  }

  lemma BeforeCarries(a: seq<Field>, b: seq<Field>, k: Text, l: Text, le: KeyOrder)
    requires SortedFields(a, le) == SortedFields(b, le) && Before(a, k, l)
    ensures Before(b, k, l)
  {
    assert |a| == |SortedFields(a, le)| == |b|;
    var i, j :| 0 <= i < j < |a| && a[i].key == k && a[j].key == l;
    SortedFieldsAt(a, le, i);
    SortedFieldsAt(a, le, j);
    SortedFieldsAt(b, le, i);
    SortedFieldsAt(b, le, j);
  }

  lemma OtherItem(items: seq<Json>, i: nat, w: Json, le: KeyOrder)
    requires i < |items| && Printable(Array(items)) && KeysDistinct(Array(items))
    requires Printable(w) && KeysDistinct(w) && Alike(items[i], w) && Sorted(items[i], le) != Sorted(w, le)
    ensures var other := Array(items[i := w]);
      && Printable(other) && KeysDistinct(other) && Alike(Array(items), other)
      && Sorted(Array(items), le) != Sorted(other, le)
  {
    var other := items[i := w];
    PrintableEach(items);
    PrintableEach(other);
    forall n | 0 <= n < |items| ensures ItemSmaller(items, n) && Alike(items[n], other[n]) {
      assert ItemSmaller(items, n);
      AlikeReflexive(items[n]);
    }
    forall n | 0 <= n < |other| ensures ItemSmaller(other, n) && KeysDistinct(other[n]) {
      assert ItemSmaller(other, n) && ItemSmaller(items, n);
    }
    SortedItemsAt(items, le, i);
    SortedItemsAt(other, le, i);
  }

  lemma ReplacedAlike(fields: seq<Field>, i: nat, w: Json)
    requires i < |fields| && Alike(fields[i].value, w)
    ensures Alike(Object(fields), Object(fields[i := Field(fields[i].key, w)]))
  {
    var other := fields[i := Field(fields[i].key, w)];
    forall n | 0 <= n < |fields| ensures FieldSmaller(fields, n) && HasAlike(fields[n], other) {
      assert FieldSmaller(fields, n);
      AlikeReflexive(fields[n].value);
      assert other[n].key == fields[n].key;
    }
  }

  lemma ReplacedDistinct(fields: seq<Field>, i: nat, w: Json)
    requires i < |fields| && KeysDistinct(Object(fields)) && KeysDistinct(w)
    ensures KeysDistinct(Object(fields[i := Field(fields[i].key, w)]))
  {
    var other := fields[i := Field(fields[i].key, w)];
    forall n | 0 <= n < |other| ensures FieldSmaller(other, n) && KeysDistinct(other[n].value) {
      assert FieldSmaller(other, n) && FieldSmaller(fields, n);
    }
  }

  lemma ReplacedPrintable(fields: seq<Field>, i: nat, w: Json)
    requires i < |fields| && Printable(Object(fields)) && Printable(w)
    ensures Printable(Object(fields[i := Field(fields[i].key, w)]))
  {
    PrintableMembers(fields);
    PrintableMembers(fields[i := Field(fields[i].key, w)]);
  }

  lemma OtherValue(fields: seq<Field>, i: nat, w: Json, le: KeyOrder)
    requires i < |fields| && Printable(Object(fields)) && KeysDistinct(Object(fields))
    requires Printable(w) && KeysDistinct(w) && Alike(fields[i].value, w) && Sorted(fields[i].value, le) != Sorted(w, le)
    ensures var other := Object(fields[i := Field(fields[i].key, w)]);
      && Printable(other) && KeysDistinct(other) && Alike(Object(fields), other)
      && Sorted(Object(fields), le) != Sorted(other, le)
  {
    ReplacedPrintable(fields, i, w);
    ReplacedDistinct(fields, i, w);
    ReplacedAlike(fields, i, w);
    ValueShows(fields, i, fields[i := Field(fields[i].key, w)], le);
  }

  /** Lists that agree after sorting give a key the same value after sorting. */
  lemma ValueShows(a: seq<Field>, i: nat, b: seq<Field>, le: KeyOrder)
    requires i < |a| == |b| && DistinctKeys(b) && a[i].key == b[i].key
    requires Sorted(a[i].value, le) != Sorted(b[i].value, le)
    ensures Sorted(Object(a), le) != Sorted(Object(b), le)
  {
    var x, y := SortFields(a, le), SortFields(b, le);
    assert a[i] in a;
    var k := PositionOf(a[i], x);
    SortedFieldsAt(x, le, k);
    SortedFieldsAt(y, le, k);
    assert y[k] in y;
    var j := PositionOf(y[k], b);
  }

  /** A value with a tie somewhere has an equal value that sorts differently. */
  lemma {:induction false} TieShows(v: Json, le: KeyOrder) returns (w: Json)
    requires Printable(v) && KeysDistinct(v) && !TieFree(v, le)
    ensures Printable(w) && KeysDistinct(w) && Alike(v, w) && Sorted(v, le) != Sorted(w, le)
    decreases Size(v)
  {
    match v
    case Array(items) =>
      PrintableEach(items);
      var i :| 0 <= i < |items| && ItemSmaller(items, i) && !TieFree(items[i], le);
      var other := TieShows(items[i], le);
      OtherItem(items, i, other, le);
      w := Array(items[i := other]);
    case Object(fields) =>
      PrintableMembers(fields);
      if i, j :| 0 <= i < j < |fields| && Tie(le, fields[i].key, fields[j].key) {
        var other := SwapOfTie(fields, i, j, le);
        w := Object(other);
      } else {
        assert KeysApart(fields, le);
        var i :| 0 <= i < |fields| && FieldSmaller(fields, i) && !TieFree(fields[i].value, le);
        assert fields[i] in fields;
        var other := TieShows(fields[i].value, le);
        OtherValue(fields, i, other, le);
        w := Object(fields[i := Field(fields[i].key, other)]);
      }
  }

  /**
    The text identifies a value up to the order of keys exactly when no object inside has
    two keys that compare as equal.
  */
  lemma IdentifiedIffTieFree(v: Json, le: KeyOrder)
    requires TotalPreorder(le) && Printable(v) && KeysDistinct(v)
    ensures Identified(v, le) <==> TieFree(v, le)
  {
    if TieFree(v, le) {
      forall w | Printable(w) && KeysDistinct(w) && Alike(v, w) ensures Canonical(w, le) == Canonical(v, le) {
        CanonicalTextIdentifies(v, w, le);
      }
    } else {
      var w := TieShows(v, le);
      CanonicalInjective(v, w, le);
    }
  }

  /** `{k: null, l: null}`. */
  function Pair(k: Text, l: Text): Json {
    Object([Field(k, Null), Field(l, Null)])
  }

  /** Two keys that compare as equal: the same object written in two orders has two texts. */
  lemma TiedKeysShow(k: Text, l: Text, le: KeyOrder)
    requires k != l && Tie(le, k, l)
    ensures Alike(Pair(k, l), Pair(l, k)) && Canonical(Pair(k, l), le) != Canonical(Pair(l, k), le)
  {
    var fields := [Field(k, Null), Field(l, Null)];
    assert FieldSmaller(fields, 0) && FieldSmaller(fields, 1);
    PrintableMembers(fields);
    assert KeysDistinct(Pair(k, l));
    var other := SwapOfTie(fields, 0, 1, le);
    assert fields[0 := fields[1]][1 := fields[0]] == [Field(l, Null), Field(k, Null)];
    CanonicalInjective(Pair(k, l), Pair(l, k), le);
  }
}
