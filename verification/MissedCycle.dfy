/**
  A graph the validator has nothing to report about, although two of its nodes form a
  cycle that never suspends.
*/
module MissedCycle {
  import opened Collections
  import opened ScenarioGraph
  import opened CycleCheck
  import opened GraphValidation

  function Arrow(from: string, to: string, priority: nat): Edge {
    Edge(from, to, "default", Some(priority), None, None)
  }

  /** t -> a -> d -> b -> a and a -> b, where d suspends and a -> d is listed first. */
  function Missed(t: string, a: string, b: string, d: string): Graph {
    Graph(
      [Node(t, INCOMING_MESSAGE, None, true), Node(a, CONDITION, None, true),
       Node(d, DELAY, None, true), Node(b, ADD_TAG, None, true)],
      Arrows(t, a, b, d))
  }

  function Arrows(t: string, a: string, b: string, d: string): seq<Edge> {
    [Arrow(t, a, 0), Arrow(a, d, 0), Arrow(d, b, 0), Arrow(b, a, 0), Arrow(a, b, 1)]
  }

  predicate FourNames(t: string, a: string, b: string, d: string) {
    t != a && t != b && t != d && a != b && a != d && b != d
  }

  // --- Its edges ---

  function Kept<T>(p: T -> bool, x: T): seq<T> {
    if p(x) then [x] else []
  }

  lemma FilterOne<T(!new)>(x: T, p: T -> bool)
    ensures Filter([x], p) == Kept(p, x)
  {
    assert [x][1..] == [];
  }

  lemma FilterCons<T(!new)>(x: T, rest: seq<T>, p: T -> bool)
    ensures Filter([x] + rest, p) == Kept(p, x) + Filter(rest, p)
  {
    FilterOne(x, p);
    FilterAppend([x], rest, p);
  }

  lemma FilterFour<T(!new)>(w: T, x: T, y: T, z: T, p: T -> bool)
    ensures Filter([w, x, y, z], p) == Kept(p, w) + (Kept(p, x) + (Kept(p, y) + Kept(p, z)))
  {
    FilterOne(z, p);
    FilterCons(y, [z], p);
    FilterCons(x, [y] + [z], p);
    FilterCons(w, [x] + ([y] + [z]), p);
    assert [w, x, y, z] == [w] + ([x] + ([y] + [z]));
  }

  lemma FilterFive<T(!new)>(v: T, w: T, x: T, y: T, z: T, p: T -> bool)
    ensures Filter([v, w, x, y, z], p) == Kept(p, v) + (Kept(p, w) + (Kept(p, x) + (Kept(p, y) + Kept(p, z))))
  {
    FilterFour(w, x, y, z, p);
    FilterCons(v, [w, x, y, z], p);
    assert [v, w, x, y, z] == [v] + [w, x, y, z];
  }

  lemma MissedIds(t: string, a: string, b: string, d: string)
    ensures var g := Missed(t, a, b, d); Ids(g) == {t, a, b, d} && NodeIds(g.nodes) == [t, a, d, b]
  {
    var nodes := Missed(t, a, b, d).nodes;
    assert nodes[0] in nodes && nodes[1] in nodes && nodes[2] in nodes && nodes[3] in nodes;
  }

  lemma MissedEdges(t: string, a: string, b: string, d: string)
    ensures KnownEdges(Missed(t, a, b, d)) == Arrows(t, a, b, d)
  {
    MissedIds(t, a, b, d);
    var g := Missed(t, a, b, d);
    FilterAll(g.edges, (e: Edge) => Known(g, e));
  }

  lemma OutOf(ta: Edge, ad: Edge, db: Edge, ba: Edge, ab: Edge, id: string, out: seq<Edge>)
    requires var leaves := (e: Edge) => e.from == id;
      out == Kept(leaves, ta) + (Kept(leaves, ad) + (Kept(leaves, db) + (Kept(leaves, ba) + Kept(leaves, ab))))
    ensures Outgoing([ta, ad, db, ba, ab], id) == out
  {
    FilterFive(ta, ad, db, ba, ab, (e: Edge) => e.from == id);
  }

  lemma FourLists(t: string, a: string, b: string, d: string, ta: Edge, ad: Edge, db: Edge, ba: Edge, ab: Edge)
    requires FourNames(t, a, b, d)
    requires ta.from == t && ad.from == a && db.from == d && ba.from == b && ab.from == a
    ensures var es := [ta, ad, db, ba, ab];
      Outgoing(es, t) == [ta] && Outgoing(es, a) == [ad, ab] && Outgoing(es, d) == [db] && Outgoing(es, b) == [ba]
  {
    OutOf(ta, ad, db, ba, ab, t, [ta]);
    OutOf(ta, ad, db, ba, ab, a, [ad, ab]);
    OutOf(ta, ad, db, ba, ab, d, [db]);
    OutOf(ta, ad, db, ba, ab, b, [ba]);
  }

  lemma MissedOut(t: string, a: string, b: string, d: string)
    requires FourNames(t, a, b, d)
    ensures var g := Missed(t, a, b, d);
      && Out(g, t) == [Arrow(t, a, 0)] && Out(g, a) == [Arrow(a, d, 0), Arrow(a, b, 1)]
      && Out(g, d) == [Arrow(d, b, 0)] && Out(g, b) == [Arrow(b, a, 0)]
  {
    MissedEdges(t, a, b, d);
    FourLists(t, a, b, d, Arrow(t, a, 0), Arrow(a, d, 0), Arrow(d, b, 0), Arrow(b, a, 0), Arrow(a, b, 1));
  }

  lemma LeadsTo(g: Graph, id: string, e: Edge)
    requires Out(g, id) == [e]
    ensures Successors(g, id) == [e.to]
  {}

  lemma LeadsToBoth(g: Graph, id: string, e: Edge, f: Edge)
    requires Out(g, id) == [e, f]
    ensures Successors(g, id) == [e.to, f.to]
  {}

  lemma MissedSuccessors(t: string, a: string, b: string, d: string)
    requires FourNames(t, a, b, d)
    ensures var g := Missed(t, a, b, d);
      Successors(g, t) == [a] && Successors(g, a) == [d, b] && Successors(g, d) == [b] && Successors(g, b) == [a]
  {
    var g := Missed(t, a, b, d);
    MissedOut(t, a, b, d);
    LeadsTo(g, t, Arrow(t, a, 0));
    LeadsToBoth(g, a, Arrow(a, d, 0), Arrow(a, b, 1));
    LeadsTo(g, d, Arrow(d, b, 0));
    LeadsTo(g, b, Arrow(b, a, 0));
  }

  lemma MissedGuards(t: string, a: string, b: string, d: string)
    requires FourNames(t, a, b, d)
    ensures var g := Missed(t, a, b, d); Guard(g, d) && !Guard(g, a) && !Guard(g, b)
  {
    var nodes := Missed(t, a, b, d).nodes;
    assert nodes[..3] == [nodes[0], nodes[1], nodes[2]];
    assert nodes[..3][..2] == [nodes[0], nodes[1]];
    assert Lookup(nodes, b) == Some(nodes[3]);
    assert Lookup(nodes, d) == Lookup(nodes[..3], d) == Some(nodes[2]);
    assert Lookup(nodes, a) == Lookup(nodes[..3], a) == Lookup(nodes[..3][..2], a) == Some(nodes[1]);
  }

  // --- The walk over it ---

  /** Any graph with these successors, whatever else it holds. */
  predicate Diamond(g: Graph, t: string, a: string, b: string, d: string) {
    && FourNames(t, a, b, d)
    && {t, a, b, d} <= Ids(g) && Guard(g, d)
    && Successors(g, t) == [a]
    && Successors(g, a) == [d, b] && Successors(g, d) == [b] && Successors(g, b) == [a]
  }

  lemma MissedIsDiamond(t: string, a: string, b: string, d: string)
    requires FourNames(t, a, b, d)
    ensures Diamond(Missed(t, a, b, d), t, a, b, d)
  {
    MissedIds(t, a, b, d);
    MissedSuccessors(t, a, b, d);
    MissedGuards(t, a, b, d);
  }

  lemma TargetsStep(g: Graph, visiting: seq<string>, visited: seq<string>, first: string, rest: seq<string>, middle: seq<string>)
    requires Stack(g, visiting) && AllKnown(g, [first] + rest) && first in Ids(g) && AllKnown(g, rest)
    requires Visit(g, visiting, visited, first) == (false, middle)
    ensures VisitTargets(g, visiting, visited, [first] + rest) == VisitTargets(g, visiting, middle, rest)
  {
    DistinctFits(visiting, Ids(g));
    assert ([first] + rest)[1..] == rest;
  }

  lemma VisitFresh(g: Graph, visiting: seq<string>, visited: seq<string>, n: string, inner: seq<string>)
    requires Stack(g, visiting) && Stack(g, visiting + [n]) && n in Ids(g) && n !in visiting && n !in visited
    requires AllKnown(g, Successors(g, n))
    requires VisitTargets(g, visiting + [n], visited, Successors(g, n)) == (false, inner)
    ensures Visit(g, visiting, visited, n) == (false, inner + [n])
  {
    StackRoom(g, visiting, n);
  }

  lemma BackToA(g: Graph, t: string, a: string, b: string, d: string)
    requires Stack(g, [t, a, d, b]) && a in Ids(g) && Guard(g, d)
    ensures Visit(g, [t, a, d, b], [], a) == (false, [])
  {
    var path := [t, a, d, b];
    assert path[1] == a && t != a by { assert path[0] == t; }
    assert path[1..] == [a] + path[2..];
    assert IndexOf(path, a) == 1;
    assert path[1..][1] == d;
  }

  lemma DiamondStacks(g: Graph, t: string, a: string, b: string, d: string)
    requires Diamond(g, t, a, b, d)
    ensures Stack(g, [t]) && Stack(g, [t, a]) && Stack(g, [t, a, d]) && Stack(g, [t, a, d, b])
  {}

  lemma OneSuccessor(g: Graph, visiting: seq<string>, n: string, next: string, inner: seq<string>)
    requires Stack(g, visiting) && Stack(g, visiting + [n]) && n in Ids(g) && next in Ids(g) && n !in visiting
    requires Successors(g, n) == [next] && Visit(g, visiting + [n], [], next) == (false, inner)
    ensures Visit(g, visiting, [], n) == (false, inner + [n])
  {
    assert [next] + [] == [next];
    TargetsStep(g, visiting + [n], [], next, [], inner);
    VisitFresh(g, visiting, [], n, inner);
  }

  lemma WalkFromD(g: Graph, t: string, a: string, b: string, d: string)
    requires Diamond(g, t, a, b, d)
    ensures Visit(g, [t, a], [], d) == (false, [b, d])
  {
    DiamondStacks(g, t, a, b, d);
    assert [t, a] + [d] == [t, a, d] && [t, a, d] + [b] == [t, a, d, b] && [] + [b] == [b] && [b] + [d] == [b, d];
    BackToA(g, t, a, b, d);
    OneSuccessor(g, [t, a, d], b, a, []);
    OneSuccessor(g, [t, a], d, b, [b]);
  }

  lemma WalkFromA(g: Graph, t: string, a: string, b: string, d: string)
    requires Diamond(g, t, a, b, d)
    ensures Visit(g, [t], [], a) == (false, [b, d, a])
  {
    DiamondStacks(g, t, a, b, d);
    WalkFromD(g, t, a, b, d);
    assert [d] + [b] == [d, b] && [t] + [a] == [t, a] && [b] + [] == [b] && [b, d] + [a] == [b, d, a];
    TargetsStep(g, [t, a], [], d, [b], [b, d]);
    TargetsStep(g, [t, a], [b, d], b, [], [b, d]);
    VisitFresh(g, [t], [], a, [b, d]);
  }

  lemma WalkAll(g: Graph, t: string, a: string, b: string, d: string)
    requires Diamond(g, t, a, b, d)
    ensures !VisitTargets(g, [], [], [t, a, d, b]).0
  {
    DiamondStacks(g, t, a, b, d);
    WalkFromA(g, t, a, b, d);
    var done := [b, d, a, t];
    assert [] + [t] == [t] && [b, d, a] + [t] == done;
    OneSuccessor(g, [], t, a, [b, d, a]);
    assert [t] + [a, d, b] == [t, a, d, b] && [a] + [d, b] == [a, d, b] && [d] + [b] == [d, b] && [b] + [] == [b];
    TargetsStep(g, [], [], t, [a, d, b], done);
    TargetsStep(g, [], done, a, [d, b], done);
    TargetsStep(g, [], done, d, [b], done);
    TargetsStep(g, [], done, b, [], done);
  }

  lemma DiamondCycle(g: Graph, t: string, a: string, b: string, d: string)
    requires Diamond(g, t, a, b, d) && !Guard(g, a) && !Guard(g, b)
    ensures UnguardedCycle(g, [a, b])
  {
    var c := [a, b];
    assert HasEdge(g, a, b) by { assert [d, b][1] == b; }
    assert HasEdge(g, b, a) by { assert [a][0] == a; }
    assert c[0] == a && c[1] == b;
    assert Distinct(c) && Chain(g, c) && !SomeGuard(g, c);
  }

  // --- The other checks ---

  lemma MissedEdgeIssues(t: string, a: string, b: string, d: string, i: Issue)
    requires i.UnknownEnd? || i.MissingValue? || i.TwoConditionFormats?
    ensures !Holds(Missed(t, a, b, d), i)
  {
    MissedIds(t, a, b, d);
    var g := Missed(t, a, b, d);
    if i.edge in g.edges {
      assert Known(g, i.edge) && Rules(i.edge) == [];
    }
  }

  lemma OnlyTrigger(w: Node, x: Node, y: Node, z: Node)
    requires IsTrigger(w) && !IsTrigger(x) && !IsTrigger(y) && !IsTrigger(z)
    ensures Filter([w, x, y, z], (n: Node) => IsTrigger(n)) == [w]
  {
    FilterFour(w, x, y, z, (n: Node) => IsTrigger(n));
  }

  lemma MissedTriggers(t: string, a: string, b: string, d: string)
    ensures !Holds(Missed(t, a, b, d), TriggerCount)
  {
    OnlyTrigger(Node(t, INCOMING_MESSAGE, None, true), Node(a, CONDITION, None, true),
                Node(d, DELAY, None, true), Node(b, ADD_TAG, None, true));
  }

  lemma TriggerHasPath(g: Graph, t: string)
    requires Out(g, t) != [] && forall n :: n in g.nodes && IsTrigger(n) ==> n.id == t
    ensures !Holds(g, TriggerWithoutPath)
  {}

  lemma MissedTriggerId(t: string, a: string, b: string, d: string)
    ensures forall n :: n in Missed(t, a, b, d).nodes && IsTrigger(n) ==> n.id == t
  {}

  lemma MissedTriggerPath(t: string, a: string, b: string, d: string)
    requires FourNames(t, a, b, d)
    ensures !Holds(Missed(t, a, b, d), TriggerWithoutPath)
  {
    MissedOut(t, a, b, d);
    MissedTriggerId(t, a, b, d);
    TriggerHasPath(Missed(t, a, b, d), t);
  }

  lemma OneEdgeClean(n: Node, e: Edge, i: Issue)
    requires n.kind != CONDITION && n.kind != EXTERNAL_HTTP_REQUEST && n.configOk
    ensures !NodeIssue(n, [e], i)
  {}

  lemma TwoPrioritiesClean(n: Node, e: Edge, f: Edge, i: Issue)
    requires n.kind == CONDITION && n.configOk && !Configured(e) && !Configured(f)
    requires e.priority.Some? && f.priority.Some? && e.priority != f.priority
    ensures !NodeIssue(n, [e, f], i)
  {}

  lemma OneEdgeEach(t: string, a: string, b: string, d: string, n: Node)
    requires FourNames(t, a, b, d) && n in Missed(t, a, b, d).nodes
    ensures if n.kind == CONDITION then Out(Missed(t, a, b, d), n.id) == [Arrow(a, d, 0), Arrow(a, b, 1)]
            else |Out(Missed(t, a, b, d), n.id)| == 1
    ensures n.kind != EXTERNAL_HTTP_REQUEST && n.configOk
  {
    MissedOut(t, a, b, d);
  }

  lemma NodeClean(n: Node, out: seq<Edge>, e: Edge, f: Edge, i: Issue)
    requires n.kind != EXTERNAL_HTTP_REQUEST && n.configOk
    requires !Configured(e) && !Configured(f) && e.priority.Some? && f.priority.Some? && e.priority != f.priority
    requires if n.kind == CONDITION then out == [e, f] else |out| == 1
    ensures !NodeIssue(n, out, i)
  {
    if n.kind == CONDITION {
      TwoPrioritiesClean(n, e, f, i);
    } else {
      assert out == [out[0]];
      OneEdgeClean(n, out[0], i);
    }
  }

  lemma MissedNodeIssues(t: string, a: string, b: string, d: string, n: Node, i: Issue)
    requires FourNames(t, a, b, d) && n in Missed(t, a, b, d).nodes
    ensures !NodeIssue(n, Out(Missed(t, a, b, d), n.id), i)
  {
    OneEdgeEach(t, a, b, d, n);
    NodeClean(n, Out(Missed(t, a, b, d), n.id), Arrow(a, d, 0), Arrow(a, b, 1), i);
  }

  lemma DiamondReached(g: Graph, t: string, a: string, b: string, d: string, id: string)
    requires Diamond(g, t, a, b, d) && id in [t, a, d, b]
    ensures Reaches(g, t, id)
  {
    var p := [t, a, d, b];
    assert [a][0] == a && [d, b][0] == d && [b][0] == b;
    assert p[0] == t && p[1] == a && p[2] == d && p[3] == b;
    assert HasEdge(g, p[0], p[1]) && HasEdge(g, p[1], p[2]) && HasEdge(g, p[2], p[3]);
    assert Chain(g, p);
    var k :| 0 <= k < |p| && p[k] == id;
    ReachesAlong(g, p, 0, k);
  }

  lemma MissedReached(t: string, a: string, b: string, d: string, id: string)
    requires FourNames(t, a, b, d) && id in Ids(Missed(t, a, b, d))
    ensures Reached(Missed(t, a, b, d), id)
  {
    var g := Missed(t, a, b, d);
    assert id in [t, a, d, b] by { MissedIds(t, a, b, d); }
    assert Reaches(g, t, id) by {
      MissedIsDiamond(t, a, b, d);
      DiamondReached(g, t, a, b, d, id);
    }
    assert g.nodes[0] in g.nodes && IsTrigger(g.nodes[0]);
  }

  lemma MissedUncaught(t: string, a: string, b: string, d: string)
    requires FourNames(t, a, b, d)
    ensures UnguardedCycle(Missed(t, a, b, d), [a, b]) && !HasUnguardedCycle(Missed(t, a, b, d))
  {
    var g := Missed(t, a, b, d);
    MissedIsDiamond(t, a, b, d);
    MissedGuards(t, a, b, d);
    DiamondCycle(g, t, a, b, d);
    WalkAll(g, t, a, b, d);
    MissedIds(t, a, b, d);
  }

  predicate AboutNode(i: Issue) {
    i.SharedPort? || i.MissingPriority? || i.DuplicatePriority? || i.ManyFallbacks? || i.InvalidConfig? || i.HttpPaths?
  }

  lemma MissedNoNodeIssue(t: string, a: string, b: string, d: string, i: Issue)
    requires FourNames(t, a, b, d) && AboutNode(i)
    ensures !Holds(Missed(t, a, b, d), i)
  {
    var g := Missed(t, a, b, d);
    forall n | n in g.nodes ensures !NodeIssue(n, Out(g, n.id), i) {
      MissedNodeIssues(t, a, b, d, n, i);
    }
  }

  lemma MissedHolds(t: string, a: string, b: string, d: string, i: Issue)
    requires FourNames(t, a, b, d) && !HasUnguardedCycle(Missed(t, a, b, d))
    ensures !Holds(Missed(t, a, b, d), i)
  {
    if AboutNode(i) {
      MissedNoNodeIssue(t, a, b, d, i);
    } else if i.UnknownEnd? || i.MissingValue? || i.TwoConditionFormats? {
      MissedEdgeIssues(t, a, b, d, i);
    } else if i.Unreachable? {
      if i.id in Ids(Missed(t, a, b, d)) { MissedReached(t, a, b, d, i.id); }
    } else {
      MissedTriggers(t, a, b, d);
      MissedTriggerPath(t, a, b, d);
    }
  }

  /** The validator passes a graph in which a -> b -> a never suspends. */
  lemma ValidatorMissesACycle(t: string, a: string, b: string, d: string)
    requires FourNames(t, a, b, d)
    ensures UnguardedCycle(Missed(t, a, b, d), [a, b]) && Publishable(Missed(t, a, b, d))
  {
    MissedUncaught(t, a, b, d);
    forall i: Issue ensures !Holds(Missed(t, a, b, d), i) {
      MissedHolds(t, a, b, d, i);
    }
  }
}
