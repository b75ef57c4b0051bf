/**
  The validator's search for an "unguarded cycle": a depth-first walk that keeps the
  current path in `visiting` and the finished nodes in `visited`, and that inspects
  the part of the path closed by each edge that points back into it.

  A JavaScript `Set` remembers insertion order, so `visited` is a sequence here: the
  order in which nodes finish.
*/
module CycleCheck {
  import opened Collections
  import opened ScenarioGraph

  /** DELAY and WAIT_FOR_REPLY suspend a run, so a cycle through one is allowed. */
  predicate Guard(g: Graph, id: string) {
    var n := Lookup(g.nodes, id);
    n.Some? && (n.value.kind == DELAY || n.value.kind == WAIT_FOR_REPLY)
  }

  predicate SomeGuard(g: Graph, ids: seq<string>) {
    exists i :: 0 <= i < |ids| && Guard(g, ids[i])
  }

  /** What the path stack always is: distinct nodes of the graph. */
  predicate Stack(g: Graph, visiting: seq<string>) {
    Distinct(visiting) && Elements(visiting) <= Ids(g)
  }

  lemma StackRoom(g: Graph, visiting: seq<string>, n: string)
    requires Stack(g, visiting) && n in Ids(g) && n !in visiting
    ensures Stack(g, visiting + [n]) && |visiting| < |Ids(g)|
  {
    DistinctFits(visiting + [n], Ids(g));
  }

  predicate AllKnown(g: Graph, targets: seq<string>) {
    forall t :: t in targets ==> t in Ids(g)
  }

  lemma SuccessorsKnown(g: Graph, n: string)
    ensures AllKnown(g, Successors(g, n))
  {
    forall t | t in Successors(g, n) ensures t in Ids(g) {
      EdgeEnds(g, n, t);
    }
  }

  /** The walk from one node: whether it reports a cycle, and the nodes finished so far. */
  function Visit(g: Graph, visiting: seq<string>, visited: seq<string>, n: string): (bool, seq<string>)
    requires Stack(g, visiting) && n in Ids(g)
    decreases |Ids(g)| - |visiting|, 0
  {
    DistinctFits(visiting, Ids(g));
    if n in visiting then
      (!SomeGuard(g, visiting[IndexOf(visiting, n)..]), visited)
    else if n in visited then
      (false, visited)
    else
      StackRoom(g, visiting, n);
      SuccessorsKnown(g, n);
      var (found, finished) := VisitTargets(g, visiting + [n], visited, Successors(g, n));
      (found, if found then finished else finished + [n])
  }

  function VisitTargets(g: Graph, visiting: seq<string>, visited: seq<string>, targets: seq<string>): (bool, seq<string>)
    requires Stack(g, visiting) && AllKnown(g, targets)
    decreases |Ids(g)| - |visiting|, |targets| + 1
  {
    DistinctFits(visiting, Ids(g));
    if targets == [] then (false, visited)
    else
      var (found, finished) := Visit(g, visiting, visited, targets[0]);
      if found then (true, finished) else VisitTargets(g, visiting, finished, targets[1..])
  }

  function NodeIds(nodes: seq<Node>): (r: seq<string>)
    ensures |r| == |nodes|
    ensures forall i :: 0 <= i < |nodes| ==> r[i] == nodes[i].id
  {
    seq(|nodes|, i requires 0 <= i < |nodes| => nodes[i].id)
  }

  lemma NodesKnown(g: Graph)
    ensures AllKnown(g, NodeIds(g.nodes))
  {
    forall t | t in NodeIds(g.nodes) ensures t in Ids(g) {
      var j :| 0 <= j < |g.nodes| && NodeIds(g.nodes)[j] == t;
      assert g.nodes[j] in g.nodes;
    }
  }

  /** The verdict on a whole graph: the walk is started from every node in turn. */
  predicate HasUnguardedCycle(g: Graph) {
    NodesKnown(g);
    VisitTargets(g, [], [], NodeIds(g.nodes)).0
  }

  // --- The walk with its mutable stack and set ---

  class CycleDetector {
    const graph: Graph
    var visiting: seq<string>
    var visited: seq<string>

    constructor (g: Graph)
      ensures graph == g && visiting == [] && visited == []
    {
      graph := g;
      visiting, visited := [], [];
    }

    method VisitNode(nodeId: string) returns (found: bool)
      requires Stack(graph, visiting) && nodeId in Ids(graph)
      modifies this
      ensures (found, visited) == Visit(graph, old(visiting), old(visited), nodeId)
      ensures !found ==> visiting == old(visiting)
      decreases |Ids(graph)| - |visiting|
    {
      DistinctFits(visiting, Ids(graph));
      if nodeId in visiting {
        var cycleStart := IndexOf(visiting, nodeId);
        return !SomeGuard(graph, visiting[cycleStart..]);
      }
      if nodeId in visited {
        return false;
      }
      StackRoom(graph, visiting, nodeId);
      SuccessorsKnown(graph, nodeId);
      visiting := visiting + [nodeId];
      ghost var path, before := visiting, visited;
      var targets := Successors(graph, nodeId);
      var k := 0;
      while k < |targets|
        invariant 0 <= k <= |targets|
        invariant visiting == path
        invariant VisitTargets(graph, path, before, targets) == VisitTargets(graph, path, visited, targets[k..])
      {
        found := VisitNode(targets[k]);
        assert targets[k..][0] == targets[k] && targets[k..][1..] == targets[k + 1..];
        if found {
          return true;
        }
        k := k + 1;
      }
      visiting := visiting[..|visiting| - 1];
      visited := visited + [nodeId];
      return false;
    }

    /** `graph.nodes.some(node => visit(node.id))` on a fresh detector. */
    method Check() returns (found: bool)
      requires visiting == [] && visited == []
      modifies this
      ensures found == HasUnguardedCycle(graph)
    {
      var ids := NodeIds(graph.nodes);
      var k := 0;
      while k < |ids|
        invariant 0 <= k <= |ids| && visiting == []
        invariant VisitTargets(graph, [], [], ids) == VisitTargets(graph, [], visited, ids[k..])
      {
        found := VisitNode(ids[k]);
        assert ids[k..][0] == ids[k] && ids[k..][1..] == ids[k + 1..];
        if found {
          return true;
        }
        k := k + 1;
      }
      return false;
    }
  }

  // --- What a report means ---

  predicate Cycle(g: Graph, c: seq<string>) {
    |c| > 0 && Distinct(c) && Chain(g, c) && HasEdge(g, c[|c| - 1], c[0])
  }

  predicate UnguardedCycle(g: Graph, c: seq<string>) {
    Cycle(g, c) && !SomeGuard(g, c)
  }

  /** The targets are successors of the node on top of the stack. */
  predicate Outward(g: Graph, visiting: seq<string>, targets: seq<string>) {
    visiting != [] ==> forall t :: t in targets ==> HasEdge(g, visiting[|visiting| - 1], t)
  }

  lemma OutwardStep(g: Graph, visiting: seq<string>, targets: seq<string>)
    requires Chain(g, visiting) && targets != [] && Outward(g, visiting, targets)
    ensures Chain(g, visiting + [targets[0]]) && Outward(g, visiting, targets[1..])
  {
    var path := visiting + [targets[0]];
    assert targets[0] in targets;
    forall i | 0 <= i < |path| - 1 ensures HasEdge(g, path[i], path[i + 1]) {
      if i < |visiting| - 1 {
        assert HasEdge(g, visiting[i], visiting[i + 1]);
      } else {
        assert HasEdge(g, visiting[|visiting| - 1], targets[0]);
      }
    }
    forall t | t in targets[1..] && visiting != [] ensures HasEdge(g, visiting[|visiting| - 1], t) {
      assert t in targets;
    }
  }

  /** The part of the path from an earlier visit of n on is a cycle. */
  lemma ClosedPath(g: Graph, visiting: seq<string>, n: string)
    requires Distinct(visiting) && n in visiting && Chain(g, visiting + [n])
    ensures Cycle(g, visiting[IndexOf(visiting, n)..])
  {
    var k := IndexOf(visiting, n);
    var c := visiting[k..];
    var path := visiting + [n];
    assert path[|visiting| - 1] == c[|c| - 1] && path[|visiting|] == n;
    assert HasEdge(g, path[|visiting| - 1], path[|visiting| - 1 + 1]);
    forall i | 0 <= i < |c| - 1 ensures HasEdge(g, c[i], c[i + 1]) {
      assert c[i] == path[k + i] && c[i + 1] == path[k + i + 1];
    }
  }

  lemma {:induction false} VisitReport(g: Graph, visiting: seq<string>, visited: seq<string>, n: string)
    requires Stack(g, visiting) && n in Ids(g) && Chain(g, visiting + [n])
    requires Visit(g, visiting, visited, n).0
    ensures exists c :: UnguardedCycle(g, c)
    decreases |Ids(g)| - |visiting|, 0
  {
    DistinctFits(visiting, Ids(g));
    if n in visiting {
      ClosedPath(g, visiting, n);
      assert UnguardedCycle(g, visiting[IndexOf(visiting, n)..]);
    } else {
      StackRoom(g, visiting, n);
      SuccessorsKnown(g, n);
      TargetsReport(g, visiting + [n], visited, Successors(g, n));
    }
  }

  lemma {:induction false} TargetsReport(g: Graph, visiting: seq<string>, visited: seq<string>, targets: seq<string>)
    requires Stack(g, visiting) && AllKnown(g, targets) && Chain(g, visiting)
    requires Outward(g, visiting, targets)
    requires VisitTargets(g, visiting, visited, targets).0
    ensures exists c :: UnguardedCycle(g, c)
    decreases |Ids(g)| - |visiting|, |targets| + 1
  {
    DistinctFits(visiting, Ids(g));
    OutwardStep(g, visiting, targets);
    var (found, finished) := Visit(g, visiting, visited, targets[0]);
    if found {
      VisitReport(g, visiting, visited, targets[0]);
    } else {
      TargetsReport(g, visiting, finished, targets[1..]);
    }
  }

  /** A reported cycle is real: distinct nodes, joined head to tail, none of them suspending. */
  lemma ReportIsReal(g: Graph)
    requires HasUnguardedCycle(g)
    ensures exists c :: UnguardedCycle(g, c)
  {
    TargetsReport(g, [], [], NodeIds(g.nodes));
  }

  // --- What silence means ---

  /** Some suspending node lies on a way from v back to u. */
  ghost predicate GuardedReturn(g: Graph, v: string, u: string) {
    exists x :: Guard(g, x) && Reaches(g, v, x) && Reaches(g, x, u)
  }

  /** Every edge out of a finished node leads to a node that finished earlier, or
      back into the path through a suspending node. */
  ghost predicate Ordered(g: Graph, finished: seq<string>) {
    forall i, v :: 0 <= i < |finished| && HasEdge(g, finished[i], v) ==>
      v in finished[..i] || GuardedReturn(g, v, finished[i])
  }

  ghost predicate Silent(g: Graph, visiting: seq<string>, visited: seq<string>) {
    && Ordered(g, visited)
    && Distinct(visited)
    && (forall x :: x in visiting ==> x !in visited)
  }

  lemma GuardOnPath(g: Graph, path: seq<string>, i: nat, j: nat)
    requires Chain(g, path) && i <= j < |path| && Guard(g, path[j])
    ensures GuardedReturn(g, path[i], path[|path| - 1])
  {
    ReachesAlong(g, path, i, j);
    ReachesAlong(g, path, j, |path| - 1);
  }

  lemma BackEdge(g: Graph, visiting: seq<string>, n: string)
    requires Chain(g, visiting) && n in visiting
    requires SomeGuard(g, visiting[IndexOf(visiting, n)..])
    ensures GuardedReturn(g, n, visiting[|visiting| - 1])
  {
    var k := IndexOf(visiting, n);
    var j :| 0 <= j < |visiting[k..]| && Guard(g, visiting[k..][j]);
    GuardOnPath(g, visiting, k, k + j);
  }

  lemma {:induction false} VisitSilence(g: Graph, visiting: seq<string>, visited: seq<string>, n: string)
    requires Stack(g, visiting) && n in Ids(g) && Chain(g, visiting + [n])
    requires Silent(g, visiting, visited)
    requires !Visit(g, visiting, visited, n).0
    ensures var finished := Visit(g, visiting, visited, n).1;
      && visited <= finished && Silent(g, visiting, finished)
      && (n in finished || (visiting != [] && GuardedReturn(g, n, visiting[|visiting| - 1])))
    decreases |Ids(g)| - |visiting|, 0
  {
    DistinctFits(visiting, Ids(g));
    var path := visiting + [n];
    assert Chain(g, visiting) by {
      forall i | 0 <= i < |visiting| - 1 ensures HasEdge(g, visiting[i], visiting[i + 1]) {
        assert path[i] == visiting[i] && path[i + 1] == visiting[i + 1];
      }
    }
    if n in visiting {
      BackEdge(g, visiting, n);
    } else if n !in visited {
      StackRoom(g, visiting, n);
      SuccessorsKnown(g, n);
      var targets := Successors(g, n);
      forall t | t in targets ensures HasEdge(g, path[|path| - 1], t) {}
      TargetsSilence(g, path, visited, targets);
      var inner := VisitTargets(g, path, visited, targets).1;
      var finished := inner + [n];
      assert n in path;
      forall i, v | 0 <= i < |finished| && HasEdge(g, finished[i], v)
        ensures v in finished[..i] || GuardedReturn(g, v, finished[i])
      {
        if i < |inner| {
          assert finished[..i] == inner[..i];
        } else {
          assert finished[..i] == inner && finished[i] == n && v in targets;
        }
      }
    }
  }

  lemma {:induction false} TargetsSilence(g: Graph, visiting: seq<string>, visited: seq<string>, targets: seq<string>)
    requires Stack(g, visiting) && AllKnown(g, targets) && Chain(g, visiting)
    requires Outward(g, visiting, targets)
    requires Silent(g, visiting, visited)
    requires !VisitTargets(g, visiting, visited, targets).0
    ensures var finished := VisitTargets(g, visiting, visited, targets).1;
      && visited <= finished && Silent(g, visiting, finished)
      && forall t :: t in targets ==> t in finished || (visiting != [] && GuardedReturn(g, t, visiting[|visiting| - 1]))
    decreases |Ids(g)| - |visiting|, |targets| + 1
  {
    DistinctFits(visiting, Ids(g));
    if targets != [] {
      OutwardStep(g, visiting, targets);
      VisitSilence(g, visiting, visited, targets[0]);
      var next := Visit(g, visiting, visited, targets[0]).1;
      TargetsSilence(g, visiting, next, targets[1..]);
      var finished := VisitTargets(g, visiting, next, targets[1..]).1;
      assert forall t :: t in next ==> t in finished;
      forall t | t in targets
        ensures t in finished || (visiting != [] && GuardedReturn(g, t, visiting[|visiting| - 1]))
      {
        assert t == targets[0] || t in targets[1..];
      }
    }
  }

  /** Where on the closed walk the earliest-finished node sits. */
  lemma {:induction false} EarliestFinished(c: seq<string>, order: seq<string>) returns (k: nat)
    requires |c| > 0 && Distinct(order) && forall x :: x in c ==> x in order
    ensures k < |c| && forall i :: 0 <= i < |c| ==> c[i] !in order[..IndexOf(order, c[k])]
  {
    if |c| == 1 {
      k := 0;
    } else {
      var front := c[..|c| - 1];
      forall x | x in front ensures x in order { assert x in c; }
      k := EarliestFinished(front, order);
      var last := c[|c| - 1];
      var p := IndexOf(order, front[k]);
      if last in order[..p] {
        var q := IndexOf(order, last);
        assert q < p;
        forall i | 0 <= i < |c| ensures c[i] !in order[..q] {
          if i < |front| {
            assert front[i] !in order[..p];
            assert order[..q] == order[..p][..q];
          }
        }
        k := |c| - 1;
      } else {
        forall i | 0 <= i < |c| ensures c[i] !in order[..p] {
          if i < |front| { assert c[i] == front[i]; }
        }
      }
    }
  }

  predicate ClosedWalk(g: Graph, c: seq<string>) {
    |c| >= 2 && Chain(g, c) && c[0] == c[|c| - 1]
  }

  /** The walk finishes every node of the graph, in an order that is `Ordered`. */
  lemma SilenceFinishesAll(g: Graph) returns (finished: seq<string>)
    requires !HasUnguardedCycle(g)
    ensures Ordered(g, finished) && Distinct(finished)
    ensures forall id :: id in Ids(g) ==> id in finished
  {
    var ids := NodeIds(g.nodes);
    TargetsSilence(g, [], [], ids);
    finished := VisitTargets(g, [], [], ids).1;
    forall id | id in Ids(g) ensures id in finished {
      var n :| n in g.nodes && n.id == id;
      var j :| 0 <= j < |g.nodes| && g.nodes[j] == n;
      assert ids[j] == id;
    }
  }

  /** On a closed walk through finished nodes, one step is a guarded return. */
  lemma ClosedWalkReturns(g: Graph, c: seq<string>, finished: seq<string>) returns (k: nat)
    requires ClosedWalk(g, c) && Ordered(g, finished) && Distinct(finished)
    requires forall id :: id in Ids(g) ==> id in finished
    ensures k < |c| - 1 && GuardedReturn(g, c[k + 1], c[k])
  {
    var round := c[..|c| - 1];
    forall x | x in round ensures x in finished {
      var i :| 0 <= i < |round| && round[i] == x;
      assert HasEdge(g, c[i], c[i + 1]);
      EdgeEnds(g, c[i], c[i + 1]);
    }
    k := EarliestFinished(round, finished);
    var p := IndexOf(finished, c[k]);
    assert round[k] == c[k];
    assert HasEdge(g, c[k], c[k + 1]);
    var next := if k + 1 == |round| then 0 else k + 1;
    assert round[next] == c[k + 1];
    assert c[k + 1] !in finished[..p];
  }

  /**
    Without a report, every closed walk shares its strongly connected component with
    a suspending node: one can go from the walk to that node and back.
  */
  lemma SilenceGuardsComponents(g: Graph, c: seq<string>)
    requires !HasUnguardedCycle(g) && ClosedWalk(g, c)
    ensures exists x :: Guard(g, x) && Reaches(g, c[0], x) && Reaches(g, x, c[0])
  {
    var finished := SilenceFinishesAll(g);
    var k := ClosedWalkReturns(g, c, finished);
    var x :| Guard(g, x) && Reaches(g, c[k + 1], x) && Reaches(g, x, c[k]);
    ReachesAlong(g, c, 0, k + 1);
    ReachesAlong(g, c, k, |c| - 1);
    ReachesTrans(g, c[0], c[k + 1], x);
    ReachesTrans(g, x, c[k], c[0]);
  }

  /** With no suspending node at all, the check is an exact test for cycles. */
  lemma ExactWithoutGuards(g: Graph)
    requires forall id :: !Guard(g, id)
    ensures HasUnguardedCycle(g) <==> exists c :: ClosedWalk(g, c)
  {
    if HasUnguardedCycle(g) {
      ReportIsReal(g);
      var c :| UnguardedCycle(g, c);
      assert ClosedWalk(g, c + [c[0]]);
    } else if c :| ClosedWalk(g, c) {
      SilenceGuardsComponents(g, c);
    }
  }

  /** A component without a suspending node is cyclic only if the check reports. */
  lemma UnguardedComponentReported(g: Graph, c: seq<string>)
    requires ClosedWalk(g, c)
    requires forall x :: Guard(g, x) && Reaches(g, c[0], x) ==> !Reaches(g, x, c[0])
    ensures HasUnguardedCycle(g)
  {
    if !HasUnguardedCycle(g) {
      SilenceGuardsComponents(g, c);
    }
  }
}
