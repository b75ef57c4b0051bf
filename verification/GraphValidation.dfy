/**
  `validateScenarioGraph`: the checks made on a parsed graph. The per-type checks of a
  node's own configuration are summed up in `Node.configOk`.
*/
module GraphValidation {
  import opened Collections
  import opened ScenarioGraph
  import opened CycleCheck

  /** One entry of the source's `errors` list. */
  datatype Issue =
    | UnknownEnd(edge: Edge)
    | MissingValue(edge: Edge)
    | TwoConditionFormats(edge: Edge)
    | TriggerCount
    | TriggerWithoutPath
    | SharedPort(id: string, port: string)
    | MissingPriority(id: string)
    | DuplicatePriority(id: string)
    | ManyFallbacks(id: string)
    | InvalidConfig(id: string)
    | HttpPaths(id: string)
    | Unreachable(id: string)
    | UnguardedCycleFound

  function Rules(e: Edge): seq<Rule> {
    if e.conditionGroup.Some? then e.conditionGroup.value.rules
    else if e.condition.Some? then [e.condition.value]
    else []
  }

  predicate LacksValue(r: Rule) {
    r.operator != "exists" && r.operator != "not_exists" && r.value.None?
  }

  predicate Configured(e: Edge) {
    e.condition.Some? || e.conditionGroup.Some?
  }

  predicate IsTrigger(n: Node) {
    n.kind == INCOMING_MESSAGE
  }

  function Triggers(g: Graph): seq<Node> {
    Filter(g.nodes, (n: Node) => IsTrigger(n))
  }

  function Out(g: Graph, id: string): seq<Edge> {
    Outgoing(KnownEdges(g), id)
  }

  function OnPort(edges: seq<Edge>, port: string): seq<Edge> {
    Filter(edges, (e: Edge) => e.output == port)
  }

  ghost predicate Reached(g: Graph, id: string) {
    exists t :: t in g.nodes && IsTrigger(t) && Reaches(g, t.id, id)
  }

  /** What each kind of issue says about the graph. */
  ghost predicate Holds(g: Graph, issue: Issue) {
    match issue
    case UnknownEnd(e) => e in g.edges && !Known(g, e)
    case MissingValue(e) => e in g.edges && Known(g, e) && exists r :: r in Rules(e) && LacksValue(r)
    case TwoConditionFormats(e) => e in g.edges && Known(g, e) && e.condition.Some? && e.conditionGroup.Some?
    case TriggerCount => |Triggers(g)| != 1
    case TriggerWithoutPath => exists t :: t in g.nodes && IsTrigger(t) && Out(g, t.id) == []
    case Unreachable(id) => id in Ids(g) && !Reached(g, id)
    case UnguardedCycleFound => HasUnguardedCycle(g)
    case _ => exists n :: n in g.nodes && NodeIssue(n, Out(g, n.id), issue)
  }

  /** What can be wrong with one node, given the edges that leave it. */
  predicate NodeIssue(n: Node, edges: seq<Edge>, issue: Issue) {
    match issue
    case SharedPort(id, port) => id == n.id && n.kind != CONDITION && SharesPort(edges, port)
    case MissingPriority(id) => id == n.id && n.kind == CONDITION && exists e :: e in edges && e.priority.None?
    case DuplicatePriority(id) => id == n.id && n.kind == CONDITION && !Distinct(Priorities(edges))
    case ManyFallbacks(id) =>
      id == n.id && n.kind == CONDITION && (exists e :: e in edges && Configured(e)) && |Fallbacks(edges)| > 1
    case InvalidConfig(id) => id == n.id && !n.configOk
    case HttpPaths(id) =>
      id == n.id && n.kind == EXTERNAL_HTTP_REQUEST
      && (|OnPort(edges, "success")| != 1 || |OnPort(edges, "failure")| != 1)
    case _ => false
  }

  predicate SharesPort(edges: seq<Edge>, port: string) {
    |OnPort(edges, port)| > 1
  }

  function Priorities(edges: seq<Edge>): (r: seq<Option<nat>>)
    ensures |r| == |edges| && forall i :: 0 <= i < |edges| ==> r[i] == edges[i].priority
  {
    seq(|edges|, i requires 0 <= i < |edges| => edges[i].priority)
  }

  function Fallbacks(edges: seq<Edge>): seq<Edge> {
    Filter(edges, (e: Edge) => !Configured(e))
  }

  // --- Reachability ---

  lemma ReachThrough(g: Graph, a: string, b: string, s: set<string>)
    requires HasEdge(g, a, b) && forall x :: x in s ==> Reaches(g, b, x)
    ensures forall x :: x in s ==> Reaches(g, a, x)
  {
    ReachesStep(g, a, b);
    forall x | x in s ensures Reaches(g, a, x) {
      ReachesTrans(g, a, b, x);
    }
  }

  /** Every edge out of the set stays inside `all`. */
  ghost predicate ClosedIn(g: Graph, s: set<string>, all: set<string>) {
    forall x, y :: x in s && HasEdge(g, x, y) ==> y in all
  }

  /** A visit that starts from `before` keeps what came after `start` closed, but for n. */
  lemma ClosedGrows(g: Graph, start: set<string>, n: string, before: set<string>, after: set<string>)
    requires start <= before <= after
    requires ClosedIn(g, before - start - {n}, before) && ClosedIn(g, after - before, after)
    ensures ClosedIn(g, after - start - {n}, after)
  {
    forall x, y | x in after - start - {n} && HasEdge(g, x, y) ensures y in after {
      assert x in before ==> x in before - start - {n};
    }
  }

  class ReachabilityWalk {
    const graph: Graph
    var reachable: set<string>

    constructor (g: Graph)
      ensures graph == g && reachable == {}
    {
      graph := g;
      reachable := {};
    }

    /** After a visit the new nodes are reachable from the visited one, and every edge
        out of a new node stays inside the set. */
    method Visit(nodeId: string)
      requires nodeId in Ids(graph) && reachable <= Ids(graph)
      modifies this
      ensures old(reachable) <= reachable <= Ids(graph) && nodeId in reachable
      ensures forall x :: x in reachable - old(reachable) ==> Reaches(graph, nodeId, x)
      ensures ClosedIn(graph, reachable - old(reachable), reachable)
      decreases Ids(graph) - reachable
    {
      if nodeId in reachable {
        return;
      }
      reachable := reachable + {nodeId};
      ReachesSelf(graph, nodeId);
      var targets := Successors(graph, nodeId);
      var k := 0;
      while k < |targets|
        invariant 0 <= k <= |targets|
        invariant old(reachable) + {nodeId} <= reachable <= Ids(graph)
        invariant forall j :: 0 <= j < k ==> targets[j] in reachable
        invariant forall x :: x in reachable - old(reachable) ==> Reaches(graph, nodeId, x)
        invariant ClosedIn(graph, reachable - old(reachable) - {nodeId}, reachable)
      {
        assert targets[k] in targets;
        EdgeEnds(graph, nodeId, targets[k]);
        ghost var before := reachable;
        Visit(targets[k]);
        ReachThrough(graph, nodeId, targets[k], reachable - before);
        ClosedGrows(graph, old(reachable), nodeId, before, reachable);
        k := k + 1;
      }
      assert forall y :: HasEdge(graph, nodeId, y) ==> y in reachable;
    }
  }

  lemma {:induction false} ClosedUnderWalks(g: Graph, s: set<string>, p: seq<string>)
    requires ClosedIn(g, s, s)
    requires |p| > 0 && Chain(g, p) && p[0] in s
    ensures p[|p| - 1] in s
  {
    if |p| > 1 {
      var front := p[..|p| - 1];
      forall i | 0 <= i < |front| - 1 ensures HasEdge(g, front[i], front[i + 1]) {
        assert HasEdge(g, p[i], p[i + 1]);
      }
      ClosedUnderWalks(g, s, front);
      assert HasEdge(g, p[|p| - 2], p[|p| - 2 + 1]);
    }
  }

  /** The nodes the walk marks are exactly those some trigger leads to. */
  method ReachableNodes(g: Graph) returns (reachable: set<string>)
    ensures forall id :: id in reachable <==> Reached(g, id)
  {
    var walk := new ReachabilityWalk(g);
    var triggers := Triggers(g);
    var k := 0;
    while k < |triggers|
      invariant 0 <= k <= |triggers|
      invariant walk.graph == g && fresh(walk) && walk.reachable <= Ids(g)
      invariant forall j :: 0 <= j < k ==> triggers[j].id in walk.reachable
      invariant forall x :: x in walk.reachable ==> Reached(g, x)
      invariant ClosedIn(g, walk.reachable, walk.reachable)
    {
      assert triggers[k] in triggers;
      walk.Visit(triggers[k].id);
      k := k + 1;
    }
    reachable := walk.reachable;
    forall id | Reached(g, id) ensures id in reachable {
      var t :| t in g.nodes && IsTrigger(t) && Reaches(g, t.id, id);
      assert t in triggers;
      var p :| WalkBetween(g, p, t.id, id);
      ClosedUnderWalks(g, reachable, p);
    }
  }

  // --- The checks, in the source's order ---

  method EdgeIssues(g: Graph) returns (errors: seq<Issue>)
    ensures forall i: Issue :: i in errors <==> (i.UnknownEnd? || i.MissingValue? || i.TwoConditionFormats?) && Holds(g, i)
  {
    errors := [];
    var k := 0;
    while k < |g.edges|
      invariant 0 <= k <= |g.edges|
      invariant forall i: Issue :: i in errors <==>
        (i.UnknownEnd? || i.MissingValue? || i.TwoConditionFormats?) && Holds(g, i) && i.edge in g.edges[..k]
    {
      var e := g.edges[k];
      assert g.edges[..k + 1] == g.edges[..k] + [e];
      if !Known(g, e) {
        errors := errors + [UnknownEnd(e)];
      } else {
        var lacking := Filter(Rules(e), (r: Rule) => LacksValue(r));
        if lacking != [] {
          assert lacking[0] in lacking;
          errors := errors + [MissingValue(e)];
        } else {
          assert forall r :: r in Rules(e) && LacksValue(r) ==> r in lacking;
        }
        if e.condition.Some? && e.conditionGroup.Some? {
          errors := errors + [TwoConditionFormats(e)];
        }
      }
      k := k + 1;
    }
    assert g.edges[..k] == g.edges;
  }

  /** The port groups of one node, in the order their first edge is listed. */
  method SharedPorts(n: Node, edges: seq<Edge>) returns (errors: seq<Issue>)
    ensures forall i: Issue :: i in errors <==> i.SharedPort? && NodeIssue(n, edges, i)
  {
    errors := [];
    if n.kind == CONDITION {
      return;
    }
    var k := 0;
    while k < |edges|
      invariant 0 <= k <= |edges|
      invariant forall i: Issue :: i in errors <==>
        i.SharedPort? && NodeIssue(n, edges, i) && exists j :: 0 <= j < k && edges[j].output == i.port
    {
      var port := edges[k].output;
      var issue := SharedPort(n.id, port);
      if |OnPort(edges, port)| > 1 && issue !in errors {
        errors := errors + [issue];
      }
      k := k + 1;
    }
    forall i: Issue | i.SharedPort? && NodeIssue(n, edges, i) ensures exists j :: 0 <= j < |edges| && edges[j].output == i.port {
      var e := OnPort(edges, i.port)[0];
      assert e in OnPort(edges, i.port);
    }
  }

  predicate HasRepeat<T(==)>(s: seq<T>)
    ensures HasRepeat(s) <==> !Distinct(s)
  {
    exists i, j :: 0 <= i < j < |s| && s[i] == s[j]
  }

  lemma FilterFinds<T(!new)>(s: seq<T>, p: T -> bool)
    ensures Filter(s, p) != [] <==> exists x :: x in s && p(x)
  {
    if Filter(s, p) != [] {
      assert Filter(s, p)[0] in Filter(s, p);
    }
    if x :| x in s && p(x) {
      assert x in Filter(s, p);
    }
  }

  lemma MissingFound(n: Node, edges: seq<Edge>)
    requires n.kind == CONDITION
    ensures NodeIssue(n, edges, MissingPriority(n.id)) <==> Filter(edges, (e: Edge) => e.priority.None?) != []
  {
    FilterFinds(edges, (e: Edge) => e.priority.None?);
  }

  lemma FallbacksFound(n: Node, edges: seq<Edge>)
    requires n.kind == CONDITION
    ensures NodeIssue(n, edges, ManyFallbacks(n.id)) <==>
      Filter(edges, (e: Edge) => Configured(e)) != [] && |Fallbacks(edges)| > 1
  {
    FilterFinds(edges, (e: Edge) => Configured(e));
  }

  method ConditionIssues(n: Node, edges: seq<Edge>) returns (errors: seq<Issue>)
    requires n.kind == CONDITION
    ensures forall i: Issue :: i in errors <==>
      (i.MissingPriority? || i.DuplicatePriority? || i.ManyFallbacks?) && NodeIssue(n, edges, i)
  {
    errors := [];
    MissingFound(n, edges);
    if Filter(edges, (e: Edge) => e.priority.None?) != [] {
      errors := errors + [MissingPriority(n.id)];
    }
    if HasRepeat(Priorities(edges)) {
      errors := errors + [DuplicatePriority(n.id)];
    }
    FallbacksFound(n, edges);
    if Filter(edges, (e: Edge) => Configured(e)) != [] && |Fallbacks(edges)| > 1 {
      errors := errors + [ManyFallbacks(n.id)];
    }
  }

  method NodeIssues(n: Node, edges: seq<Edge>) returns (errors: seq<Issue>)
    ensures forall i: Issue :: i in errors <==> NodeIssue(n, edges, i)
  {
    errors := SharedPorts(n, edges);
    if n.kind == CONDITION {
      var more := ConditionIssues(n, edges);
      errors := errors + more;
    }
    if !n.configOk {
      errors := errors + [InvalidConfig(n.id)];
    }
    if n.kind == EXTERNAL_HTTP_REQUEST {
      if |OnPort(edges, "success")| != 1 || |OnPort(edges, "failure")| != 1 {
        errors := errors + [HttpPaths(n.id)];
      }
    }
  }

  method TriggerIssues(g: Graph) returns (errors: seq<Issue>)
    ensures forall i: Issue :: i in errors <==> (i.TriggerCount? || i.TriggerWithoutPath?) && Holds(g, i)
  {
    errors := [];
    var triggers := Triggers(g);
    if |triggers| != 1 {
      errors := [TriggerCount];
    }
    var k := 0;
    while k < |triggers|
      invariant 0 <= k <= |triggers|
      invariant forall i: Issue :: i in errors <==>
        (i == TriggerCount && |triggers| != 1)
        || (i == TriggerWithoutPath && exists j :: 0 <= j < k && Out(g, triggers[j].id) == [])
    {
      if Out(g, triggers[k].id) == [] {
        errors := errors + [TriggerWithoutPath];
      }
      k := k + 1;
    }
    if j :| 0 <= j < |triggers| && Out(g, triggers[j].id) == [] {
      assert triggers[j] in triggers;
    }
    forall t | t in g.nodes && IsTrigger(t) && Out(g, t.id) == []
      ensures exists j :: 0 <= j < |triggers| && Out(g, triggers[j].id) == []
    {
      assert t in triggers;
      var j :| 0 <= j < |triggers| && triggers[j] == t;
    }
  }

  method AllNodeIssues(g: Graph) returns (errors: seq<Issue>)
    ensures forall i: Issue :: i in errors <==> exists n :: n in g.nodes && NodeIssue(n, Out(g, n.id), i)
  {
    errors := [];
    var k := 0;
    while k < |g.nodes|
      invariant 0 <= k <= |g.nodes|
      invariant forall i: Issue :: i in errors <==> exists n :: n in g.nodes[..k] && NodeIssue(n, Out(g, n.id), i)
    {
      var n := g.nodes[k];
      var issues := NodeIssues(n, Out(g, n.id));
      assert g.nodes[..k + 1] == g.nodes[..k] + [n];
      errors := errors + issues;
      k := k + 1;
    }
    assert g.nodes[..k] == g.nodes;
  }

  method UnreachableIssues(g: Graph) returns (errors: seq<Issue>)
    ensures forall i: Issue :: i in errors <==> i.Unreachable? && Holds(g, i)
  {
    errors := [];
    var reachable := ReachableNodes(g);
    var k := 0;
    while k < |g.nodes|
      invariant 0 <= k <= |g.nodes|
      invariant forall i: Issue :: i in errors <==>
        i.Unreachable? && !Reached(g, i.id) && exists n :: n in g.nodes[..k] && n.id == i.id
    {
      var n := g.nodes[k];
      assert g.nodes[..k + 1] == g.nodes[..k] + [n];
      if n.id !in reachable {
        errors := errors + [Unreachable(n.id)];
      }
      k := k + 1;
    }
    assert g.nodes[..k] == g.nodes;
  }

  /** The validator reports exactly the issues that hold of the graph. */
  method Validate(g: Graph) returns (errors: seq<Issue>)
    ensures forall i: Issue :: i in errors <==> Holds(g, i)
  {
    var edgeErrors := EdgeIssues(g);
    var triggerErrors := TriggerIssues(g);
    var nodeErrors := AllNodeIssues(g);
    var reachErrors := UnreachableIssues(g);
    var detector := new CycleDetector(g);
    var cyclic := detector.Check();
    errors := edgeErrors + triggerErrors + nodeErrors + reachErrors + (if cyclic then [UnguardedCycleFound] else []);
  }

  /** A graph that may be published: the validator has nothing to report. */
  ghost predicate Publishable(g: Graph) {
    forall i: Issue :: !Holds(g, i)
  }
}
