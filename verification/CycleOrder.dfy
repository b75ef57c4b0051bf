/**
  The cycle check looks only at the cycles its walk happens to close, so its verdict
  can depend on the order in which nodes and edges are listed (`MissedCycle` has an
  example). Where no unguarded cycle shares a component with a suspending node, the
  verdict is exact whatever the order. In the other graphs a report is still real, and
  an unguarded cycle is reported in some listing order, not necessarily in the given one.
*/
module CycleOrder {
  import opened Collections
  import opened ScenarioGraph
  import opened CycleCheck

  predicate DistinctIds(g: Graph) {
    Distinct(NodeIds(g.nodes))
  }

  /** The same nodes and edges, listed in another order. */
  predicate Reordered(g: Graph, h: Graph) {
    multiset(g.nodes) == multiset(h.nodes) && multiset(g.edges) == multiset(h.edges)
  }

  // --- Where the verdict is exact ---

  /** No suspending node lies on a way from the cycle and back to it. */
  ghost predicate Apart(g: Graph, c: seq<string>)
    requires c != []
  {
    forall x :: Guard(g, x) && Reaches(g, c[0], x) ==> !Reaches(g, x, c[0])
  }

  /** No unguarded cycle shares its component with a suspending node. */
  ghost predicate Unmixed(g: Graph) {
    forall c :: UnguardedCycle(g, c) ==> Apart(g, c)
  }

  /** Going once around the cycle. */
  lemma AroundCycle(g: Graph, c: seq<string>)
    requires Cycle(g, c)
    ensures ClosedWalk(g, c + [c[0]])
  {
    var w := c + [c[0]];
    forall i | 0 <= i < |w| - 1 ensures HasEdge(g, w[i], w[i + 1]) {
      if i < |c| - 1 {
        assert HasEdge(g, c[i], c[i + 1]);
      }
    }
  }

  /** Off mixed components the check finds exactly the unguarded cycles. */
  lemma ExactWhereUnmixed(g: Graph)
    requires Unmixed(g)
    ensures HasUnguardedCycle(g) <==> exists c :: UnguardedCycle(g, c)
  {
    if HasUnguardedCycle(g) {
      ReportIsReal(g);
    }
    if c :| UnguardedCycle(g, c) {
      assert Apart(g, c);
      AroundCycle(g, c);
      UnguardedComponentReported(g, c + [c[0]]);
    }
  }

  // --- Some order reports exactly the graphs with an unguarded cycle ---

  /** s with the given distinct elements brought to the front, in the given order. */
  ghost predicate Leads<T>(s: seq<T>, xs: seq<T>, r: seq<T>) {
    xs <= r && multiset(r) == multiset(s)
  }

  lemma FrontExtends<T>(s: seq<T>, xs: seq<T>, x: T)
    requires x in s && x !in xs && xs <= s
    ensures [x] + xs <= MoveToFront(s, x)
  {
    var i := IndexOf(s, x);
    assert s[i] == x;
    assert i >= |xs| by {
      assert forall j :: 0 <= j < |xs| ==> s[j] in xs;
    }
    assert s[..i][..|xs|] == xs;
    assert MoveToFront(s, x)[..|xs| + 1] == [x] + xs;
  }

  lemma {:induction false} LeadWith<T>(s: seq<T>, xs: seq<T>) returns (r: seq<T>)
    requires Distinct(xs) && forall x :: x in xs ==> x in s
    ensures Leads(s, xs, r)
  {
    if xs == [] {
      r := s;
    } else {
      var t := LeadWith(s, xs[1..]);
      var x := xs[0];
      assert x in xs && x in multiset(s) && x in multiset(t);
      MoveToFrontPermutes(t, x);
      FrontExtends(t, xs[1..], x);
      assert [x] + xs[1..] == xs;
      r := MoveToFront(t, x);
    }
  }

  lemma {:induction false} FilterFirst<T(!new)>(s: seq<T>, p: T -> bool, k: nat)
    requires k < |s| && p(s[k]) && forall j :: 0 <= j < k ==> !p(s[j])
    ensures Filter(s, p) != [] && Filter(s, p)[0] == s[k]
  {
    if k > 0 {
      FilterFirst(s[1..], p, k - 1);
    }
  }

  lemma {:induction false} FilterKeepsPrefix<T(!new)>(xs: seq<T>, s: seq<T>, p: T -> bool)
    requires xs <= s && forall x :: x in xs ==> p(x)
    ensures xs <= Filter(s, p)
  {
    if xs != [] {
      assert xs[0] == s[0] && xs[0] in xs;
      assert xs[1..] <= s[1..];
      FilterKeepsPrefix(xs[1..], s[1..], p);
      assert Filter(s, p) == [xs[0]] + Filter(s[1..], p);
    }
  }

  lemma SameIds(g: Graph, h: Graph)
    requires Reordered(g, h)
    ensures Ids(g) == Ids(h)
    ensures forall n :: n in g.nodes <==> n in h.nodes
    ensures forall e :: e in g.edges <==> e in h.edges
  {
    assert forall n :: n in g.nodes <==> n in multiset(g.nodes);
    assert forall n :: n in h.nodes <==> n in multiset(h.nodes);
    assert forall e :: e in g.edges <==> e in multiset(g.edges);
    assert forall e :: e in h.edges <==> e in multiset(h.edges);
  }

  lemma SameNode(g: Graph, h: Graph, id: string)
    requires DistinctIds(g) && Reordered(g, h)
    ensures Lookup(g.nodes, id) == Lookup(h.nodes, id)
  {
    SameIds(g, h);
    var a, b := Lookup(g.nodes, id), Lookup(h.nodes, id);
    if a.Some? && b.Some? {
      var i :| 0 <= i < |g.nodes| && g.nodes[i] == a.value;
      var j :| 0 <= j < |g.nodes| && g.nodes[j] == b.value;
      assert NodeIds(g.nodes)[i] == NodeIds(g.nodes)[j];
    }
  }

  lemma SameEdges(g: Graph, h: Graph, a: string, b: string)
    requires Reordered(g, h)
    ensures HasEdge(g, a, b) <==> HasEdge(h, a, b)
  {
    SameIds(g, h);
    HasEdgeMeaning(g, a, b);
    HasEdgeMeaning(h, a, b);
  }

  lemma SameCycles(g: Graph, h: Graph, c: seq<string>)
    requires DistinctIds(g) && Reordered(g, h) && UnguardedCycle(h, c)
    ensures UnguardedCycle(g, c)
  {
    forall i | 0 <= i < |c| - 1 ensures HasEdge(g, c[i], c[i + 1]) {
      SameEdges(g, h, c[i], c[i + 1]);
    }
    SameEdges(g, h, c[|c| - 1], c[0]);
    forall i | 0 <= i < |c| ensures !Guard(g, c[i]) {
      SameNode(g, h, c[i]);
    }
  }

  function NextOn(c: seq<string>, i: nat): string
    requires i < |c|
  {
    if i + 1 < |c| then c[i + 1] else c[0]
  }

  predicate CycleEdge(g: Graph, c: seq<string>, i: nat, e: Edge)
    requires i < |c|
  {
    e in g.edges && Known(g, e) && e.from == c[i] && e.to == NextOn(c, i)
  }

  predicate CycleEdges(g: Graph, c: seq<string>, es: seq<Edge>) {
    |es| <= |c| && forall i :: 0 <= i < |es| ==> CycleEdge(g, c, i, es[i])
  }

  lemma {:induction false} PickEdges(g: Graph, c: seq<string>, k: nat) returns (es: seq<Edge>)
    requires Cycle(g, c) && k <= |c|
    ensures |es| == k && CycleEdges(g, c, es)
  {
    es := [];
    if k > 0 {
      es := PickEdges(g, c, k - 1);
      var a, b := c[k - 1], NextOn(c, k - 1);
      assert HasEdge(g, a, b) by {
        if k < |c| { assert HasEdge(g, c[k - 1], c[k - 1 + 1]); }
      }
      HasEdgeMeaning(g, a, b);
      var e :| e in g.edges && Known(g, e) && e.from == a && e.to == b;
      assert CycleEdge(g, c, k - 1, e);
      es := es + [e];
    }
  }

  lemma FirstSuccessor(h: Graph, c: seq<string>, es: seq<Edge>, i: nat)
    requires Distinct(c) && CycleEdges(h, c, es) && |es| == |c| && es <= h.edges && i < |c|
    ensures Successors(h, c[i]) != [] && Successors(h, c[i])[0] == NextOn(c, i)
  {
    forall e | e in es ensures Known(h, e) {
      var j :| 0 <= j < |es| && es[j] == e;
      assert CycleEdge(h, c, j, es[j]);
    }
    FilterKeepsPrefix(es, h.edges, (e: Edge) => Known(h, e));
    var known := KnownEdges(h);
    assert CycleEdge(h, c, i, es[i]) && known[i] == es[i];
    forall j | 0 <= j < i ensures known[j].from != c[i] {
      assert CycleEdge(h, c, j, es[j]) && known[j] == es[j] && c[j] != c[i];
    }
    FilterFirst(known, (e: Edge) => e.from == c[i], i);
  }

  /** A walk reports as soon as its first successor's walk does. */
  lemma FirstStepReports(h: Graph, visiting: seq<string>, n: string)
    requires Stack(h, visiting) && n in Ids(h) && n !in visiting
    requires Successors(h, n) != [] && Successors(h, n)[0] in Ids(h) && Stack(h, visiting + [n])
    requires Visit(h, visiting + [n], [], Successors(h, n)[0]).0
    ensures Visit(h, visiting, [], n).0
  {
    SuccessorsKnown(h, n);
    StackRoom(h, visiting, n);
  }

  /** The last step of the walk closes the whole cycle. */
  lemma ClosingReports(h: Graph, c: seq<string>)
    requires c != [] && Distinct(c) && !SomeGuard(h, c) && Stack(h, c) && c[0] in Ids(h)
    ensures Visit(h, c, [], c[0]).0
  {
    assert IndexOf(c, c[0]) == 0 && c[0..] == c;
  }

  /** The walk goes from the i-th node of the cycle to the next one first. */
  predicate FollowsAt(h: Graph, c: seq<string>, i: nat)
    requires i < |c|
  {
    c[i] in Ids(h) && Successors(h, c[i]) != [] && Successors(h, c[i])[0] == NextOn(c, i)
  }

  lemma FollowsCycle(h: Graph, c: seq<string>, es: seq<Edge>, i: nat)
    requires Distinct(c) && CycleEdges(h, c, es) && |es| == |c| && es <= h.edges && i < |c| && c[i] in Ids(h)
    ensures FollowsAt(h, c, i) && NextOn(c, i) in Ids(h)
  {
    FirstSuccessor(h, c, es, i);
    EdgeEnds(h, c[i], Successors(h, c[i])[0]);
  }

  lemma StackPrefix(h: Graph, c: seq<string>, i: nat)
    requires Stack(h, c) && i < |c|
    ensures Stack(h, c[..i]) && c[i] !in c[..i] && c[..i] + [c[i]] == c[..i + 1] && Stack(h, c[..i + 1])
  {
    assert Elements(c[..i]) <= Elements(c) && Elements(c[..i + 1]) <= Elements(c);
  }

  /** The walk that follows the cycle from its start ends in a report. */
  lemma {:induction false} WalkReports(h: Graph, c: seq<string>, i: nat)
    requires Distinct(c) && !SomeGuard(h, c) && Stack(h, c) && i < |c|
    requires forall j :: 0 <= j < |c| ==> FollowsAt(h, c, j)
    ensures Stack(h, c[..i]) && Visit(h, c[..i], [], c[i]).0
    decreases |c| - i
  {
    StackPrefix(h, c, i);
    assert FollowsAt(h, c, i);
    if i + 1 < |c| {
      WalkReports(h, c, i + 1);
      assert FollowsAt(h, c, i + 1);
    } else {
      assert FollowsAt(h, c, 0);
      assert c[..i + 1] == c;
      ClosingReports(h, c);
    }
    FirstStepReports(h, c[..i], c[i]);
  }

  lemma SameUnguardedCycle(g: Graph, h: Graph, c: seq<string>)
    requires DistinctIds(g) && Reordered(g, h) && UnguardedCycle(g, c)
    ensures UnguardedCycle(h, c)
  {
    forall i | 0 <= i < |c| - 1 ensures HasEdge(h, c[i], c[i + 1]) {
      SameEdges(g, h, c[i], c[i + 1]);
    }
    SameEdges(g, h, c[|c| - 1], c[0]);
    forall i | 0 <= i < |c| ensures !Guard(h, c[i]) {
      SameNode(g, h, c[i]);
    }
  }

  lemma StartReports(h: Graph, c: seq<string>, es: seq<Edge>)
    requires UnguardedCycle(h, c) && CycleEdges(h, c, es) && |es| == |c| && es <= h.edges
    requires h.nodes != [] && h.nodes[0].id == c[0]
    ensures HasUnguardedCycle(h)
  {
    assert h.nodes[0] in h.nodes;
    forall j | 0 <= j < |c| ensures FollowsAt(h, c, j) && c[j] in Ids(h) {
      assert CycleEdge(h, c, j, es[j]);
      FollowsCycle(h, c, es, j);
    }
    WalkReports(h, c, 0);
    assert c[..0] == [];
    assert NodeIds(h.nodes)[0] == c[0];
  }

  lemma ReportingOrder(g: Graph, c: seq<string>) returns (h: Graph)
    requires DistinctIds(g) && UnguardedCycle(g, c)
    ensures Reordered(g, h) && HasUnguardedCycle(h)
  {
    var es := PickEdges(g, c, |c|);
    forall i, j | 0 <= i < j < |es| ensures es[i] != es[j] {
      assert CycleEdge(g, c, i, es[i]) && CycleEdge(g, c, j, es[j]);
    }
    forall e | e in es ensures e in g.edges {
      var j :| 0 <= j < |es| && es[j] == e;
      assert CycleEdge(g, c, j, es[j]);
    }
    assert CycleEdge(g, c, 0, es[0]) && c[0] in Ids(g);
    var n :| n in g.nodes && n.id == c[0];
    var edges := LeadWith(g.edges, es);
    h := Graph(MoveToFront(g.nodes, n), edges);
    MoveToFrontPermutes(g.nodes, n);
    SameIds(g, h);
    SameUnguardedCycle(g, h, c);
    forall i | 0 <= i < |es| ensures CycleEdge(h, c, i, es[i]) {
      assert CycleEdge(g, c, i, es[i]);
    }
    StartReports(h, c, es);
  }

  /**
    No order of the nodes and edges makes the check report if and only if no unguarded
    cycle exists.
  */
  lemma SomeOrderReportsIffUnguardedCycle(g: Graph)
    requires DistinctIds(g)
    ensures (exists h :: Reordered(g, h) && HasUnguardedCycle(h)) <==> (exists c :: UnguardedCycle(g, c))
  {
    if h :| Reordered(g, h) && HasUnguardedCycle(h) {
      ReportIsReal(h);
      var c :| UnguardedCycle(h, c);
      SameCycles(g, h, c);
    }
    if c :| UnguardedCycle(g, c) {
      var h := ReportingOrder(g, c);
    }
  }
}
