/**
  The mapping loop in terms of objects and their fields: where a path leads, what a mapping
  provides and converts, and what stands at its target afterwards.
*/
module PathLaws {
  import opened Collections
  import opened PathUpdate

  // --- Where a path leads ---

  predicate Forbidden(part: string) {
    part in {"__proto__", "constructor", "prototype"}
  }

  predicate Holds(h: Heap, v: Value, part: string, x: Value) {
    && v.Obj? && v.ref in h.objects && part in h.objects[v.ref] && h.objects[v.ref][part] == x
    && !Forbidden(part)
  }

  /** Each value holds the next one under the next part of the path. */
  predicate IsChain(h: Heap, chain: seq<Value>, p: Path) {
    |chain| == |p| + 1 && forall k :: 0 <= k < |p| ==> Holds(h, chain[k], p[k], chain[k + 1])
  }

  ghost predicate Leads(h: Heap, v: Value, p: Path, x: Value) {
    exists chain: seq<Value> :: IsChain(h, chain, p) && chain[0] == v && chain[|p|] == x
  }

  lemma {:induction false} ChainReads(h: Heap, chain: seq<Value>, p: Path)
    requires IsChain(h, chain, p)
    ensures ValueAt(h, chain[0], p) == Some(chain[|p|])
  {
    if p != [] {
      var n := |p| - 1;
      assert Holds(h, chain[n], p[n], chain[n + 1]);
      assert IsChain(h, chain[..n + 1], p[..n]);
      ChainReads(h, chain[..n + 1], p[..n]);
    }
  }

  lemma {:induction false} ReadingChains(h: Heap, v: Value, p: Path) returns (chain: seq<Value>)
    requires ValueAt(h, v, p).Some?
    ensures IsChain(h, chain, p) && chain[0] == v && chain[|p|] == ValueAt(h, v, p).value
  {
    if p == [] {
      chain := [v];
    } else {
      var front := ReadingChains(h, v, p[..|p| - 1]);
      chain := front + [ValueAt(h, v, p).value];
      assert forall k :: 0 <= k < |p| - 1 ==> Holds(h, front[k], p[..|p| - 1][k], front[k + 1]);
    }
  }

  lemma LeadsIff(h: Heap, v: Value, p: Path, x: Value)
    ensures Leads(h, v, p, x) <==> ValueAt(h, v, p) == Some(x)
  {
    if chain :| IsChain(h, chain, p) && chain[0] == v && chain[|p|] == x {
      ChainReads(h, chain, p);
    }
    if ValueAt(h, v, p) == Some(x) {
      var chain := ReadingChains(h, v, p);
    }
  }

  // --- What a mapping provides ---

  ghost predicate LeadsNowhere(h: Heap, v: Value, p: Path) {
    forall x :: !Leads(h, v, p, x)
  }

  lemma NowhereIff(h: Heap, v: Value, p: Path)
    ensures LeadsNowhere(h, v, p) <==> ValueAt(h, v, p).None?
  {
    if ValueAt(h, v, p).Some? {
      LeadsIff(h, v, p, ValueAt(h, v, p).value);
    }
    forall x | Leads(h, v, p, x) ensures ValueAt(h, v, p) == Some(x) {
      LeadsIff(h, v, p, x);
    }
  }

  /** What the source leads to, or the default if it leads nowhere. */
  ghost predicate Provides(h: Heap, root: Value, m: Mapping, v: Value) {
    Leads(h, root, m.source, v) || (LeadsNowhere(h, root, m.source) && m.fallback == Some(v))
  }

  predicate Converted(h: Heap, v: Value, kind: Kind, c: Conversions, x: Value) {
    || (kind == JSON && x == v)
    || (kind == STRING && x == Text(c.text(h, v)))
    || (kind == NUMBER && x.Number? && c.number(h, v) == Some(x.digits))
    || (kind == BOOLEAN && x == Bool(true) && (v == Bool(true) || v == Text("true")))
    || (kind == BOOLEAN && x == Bool(false) && (v == Bool(false) || v == Text("false")))
  }

  ghost predicate GivesTo(h: Heap, root: Value, m: Mapping, c: Conversions, x: Value) {
    exists v :: Provides(h, root, m, v) && Converted(h, v, m.kind, c, x)
  }

  ghost predicate ProvidesNothing(h: Heap, root: Value, m: Mapping) {
    LeadsNowhere(h, root, m.source) && m.fallback.None?
  }

  /** A required value is missing, or what is provided cannot be converted. */
  ghost predicate GoesWrong(h: Heap, root: Value, m: Mapping, c: Conversions) {
    || (m.required && ProvidesNothing(h, root, m))
    || (exists v :: Provides(h, root, m, v) && forall x :: !Converted(h, v, m.kind, c, x))
  }

  lemma ConvertedIff(h: Heap, v: Value, kind: Kind, c: Conversions, x: Value)
    ensures Converted(h, v, kind, c, x) <==> Convert(h, v, kind, c) == Some(x)
  {}

  lemma ProvidesIff(h: Heap, root: Value, m: Mapping, v: Value)
    ensures Provides(h, root, m, v) <==> Source(h, root, m) == Some(v)
  {
    LeadsIff(h, root, m.source, v);
    NowhereIff(h, root, m.source);
  }

  lemma GivesIff(h: Heap, root: Value, m: Mapping, c: Conversions, x: Value)
    ensures GivesTo(h, root, m, c, x) <==> Wanted(h, root, m, c) == Some(x)
  {
    if v :| Provides(h, root, m, v) && Converted(h, v, m.kind, c, x) {
      ProvidesIff(h, root, m, v);
      ConvertedIff(h, v, m.kind, c, x);
    }
    if Wanted(h, root, m, c) == Some(x) {
      var v := Source(h, root, m).value;
      ProvidesIff(h, root, m, v);
      ConvertedIff(h, v, m.kind, c, x);
    }
  }

  lemma GoesWrongIff(h: Heap, root: Value, m: Mapping, c: Conversions)
    ensures GoesWrong(h, root, m, c) <==> Fails(h, root, m, c)
  {
    NowhereIff(h, root, m.source);
    if v :| Provides(h, root, m, v) && forall x :: !Converted(h, v, m.kind, c, x) {
      ProvidesIff(h, root, m, v);
      if Convert(h, v, m.kind, c).Some? {
        ConvertedIff(h, v, m.kind, c, Convert(h, v, m.kind, c).value);
      }
    }
    if Source(h, root, m).Some? && Fails(h, root, m, c) {
      var v := Source(h, root, m).value;
      ProvidesIff(h, root, m, v);
      forall x ensures !Converted(h, v, m.kind, c, x) {
        ConvertedIff(h, v, m.kind, c, x);
      }
    }
  }

  // --- After the loop ---

  predicate Permitted(p: Path) {
    p != [] && forall k :: 0 <= k < |p| ==> !Forbidden(p[k])
  }

  lemma PermittedIff(p: Path)
    ensures Permitted(p) <==> Safe(p)
  {
    if Safe(p) {
      forall k | 0 <= k < |p| ensures !Forbidden(p[k]) {
        assert p[k] in p;
      }
    }
  }

  /**
    The target of a mapping leads to what the response gives it, and to nothing if it gives
    nothing or the target has a forbidden part.
  */
  lemma TargetsLead(h: Heap, root: Value, t: Ref, shared: set<Ref>, ms: seq<Mapping>, c: Conversions, i: nat, x: Value)
    requires Fresh(h, root, t, shared, ms) && PairwiseIncomparable(ms) && Local(c) && i < |ms|
    ensures Leads(Mapped(h, root, t, ms, c).heap, Obj(t), ms[i].target, x) <==>
      Permitted(ms[i].target) && GivesTo(h, root, ms[i], c, x)
  {
    PermittedIff(ms[i].target);
    MappingsLand(h, root, t, shared, ms, c, i);
    LeadsIff(Mapped(h, root, t, ms, c).heap, Obj(t), ms[i].target, x);
    GivesIff(h, root, ms[i], c, x);
  }

  /** A path that leads anywhere after the loop has to do with some target. */
  lemma NothingElseLeads(h: Heap, root: Value, t: Ref, shared: set<Ref>, ms: seq<Mapping>, c: Conversions, p: Path, x: Value)
    requires Fresh(h, root, t, shared, ms) && NoneBelow(ms) && Local(c) && p != []
    requires Leads(Mapped(h, root, t, ms, c).heap, Obj(t), p, x)
    ensures exists m :: m in ms && (m.target <= p || p <= m.target)
  {
    LeadsIff(Mapped(h, root, t, ms, c).heap, Obj(t), p, x);
    if forall m :: m in ms ==> Incomparable(m.target, p) {
      Untouched(h, root, t, shared, ms, c, p);
      assert false;
    }
    var m :| m in ms && !Incomparable(m.target, p);
    assert m.target <= p || p <= m.target;
  }

  /** The mapping goes wrong on the response, or it gives something that its target does not permit. */
  ghost predicate GoesAstray(h: Heap, root: Value, m: Mapping, c: Conversions) {
    GoesWrong(h, root, m, c) || (!Permitted(m.target) && exists x :: GivesTo(h, root, m, c, x))
  }

  lemma GoesAstrayIff(h: Heap, root: Value, m: Mapping, c: Conversions)
    ensures GoesAstray(h, root, m, c) <==> Fails(h, root, m, c) || Refused(h, root, m, c)
  {
    GoesWrongIff(h, root, m, c);
    PermittedIff(m.target);
    if Wanted(h, root, m, c).Some? {
      GivesIff(h, root, m, c, Wanted(h, root, m, c).value);
    }
    if x :| GivesTo(h, root, m, c, x) {
      GivesIff(h, root, m, c, x);
    }
  }

  /** The loop reports failure exactly when one of the mappings goes astray. */
  lemma FailureMeans(h: Heap, root: Value, t: Ref, shared: set<Ref>, ms: seq<Mapping>, c: Conversions)
    requires Fresh(h, root, t, shared, ms) && NoneBelow(ms) && Local(c)
    ensures Mapped(h, root, t, ms, c).failed <==> exists m :: m in ms && GoesAstray(h, root, m, c)
  {
    FailureReported(h, root, t, shared, ms, c);
    forall m ensures GoesAstray(h, root, m, c) <==> Fails(h, root, m, c) || Refused(h, root, m, c) {
      GoesAstrayIff(h, root, m, c);
    }
  }

  /** A write throws exactly on a forbidden part, wherever on the path it stands. */
  lemma {:induction false} WriteThrows(h: Heap, at: Ref, p: Path, v: Value)
    requires WellFormed(h) && at in h.objects && p != [] && Known(h, v)
    ensures !Write(h, at, p, v).ok <==> exists k :: 0 <= k < |p| && Forbidden(p[k])
    decreases |p|
  {
    if !Forbidden(p[0]) && |p| > 1 {
      var (inner, child) := Enter(h, at, p[0]);
      WriteThrows(inner, child, p[1..], v);
      if k :| 0 <= k < |p| && Forbidden(p[k]) {
        assert p[1..][k - 1] == p[k];
      }
    }
  }
}
