/**
  Whether the order in which a scenario lists its edges can change a simulation. It
  cannot on a publishable graph whose plain nodes are settled; and a plain node that is
  not settled does take a different edge under some order.
*/
module EdgeOrder {
  import opened Collections
  import opened ScenarioGraph
  import opened GraphValidation
  import opened PartialWalk
  import opened Simulation

  predicate Permuted(a: seq<Edge>, b: seq<Edge>) {
    multiset(a) == multiset(b)
  }

  lemma PermutedMembers(a: seq<Edge>, b: seq<Edge>)
    requires Permuted(a, b)
    ensures forall e :: e in a <==> e in b
    ensures |a| == |b|
  {
    assert forall e :: e in a <==> e in multiset(a);
    assert forall e :: e in b <==> e in multiset(b);
    assert |multiset(a)| == |a| && |multiset(b)| == |b|;
  }

  // --- What the sort makes of an order ---

  predicate StrictlyAscending(edges: seq<Edge>) {
    forall i, j :: 0 <= i < j < |edges| ==> Key(edges[i]) < Key(edges[j])
  }

  predicate DistinctKeys(edges: seq<Edge>) {
    forall i, j :: 0 <= i < j < |edges| ==> Key(edges[i]) != Key(edges[j])
  }

  lemma {:induction false} InsertStrictly(e: Edge, sorted: seq<Edge>)
    requires StrictlyAscending(sorted) && forall x :: x in sorted ==> Key(x) != Key(e)
    ensures StrictlyAscending(Insert(e, sorted))
  {
    if sorted != [] && Key(e) > Key(sorted[0]) {
      var r := Insert(e, sorted[1..]);
      InsertStrictly(e, sorted[1..]);
      forall j | 0 <= j < |r| ensures Key(sorted[0]) < Key(r[j]) {
        InsertMembers(e, sorted[1..], r[j]);
      }
    }
  }

  lemma {:induction false} SortStrictly(edges: seq<Edge>)
    requires DistinctKeys(edges)
    ensures StrictlyAscending(ByPriority(edges))
  {
    if edges != [] {
      SortStrictly(edges[1..]);
      SortPermutes(edges[1..]);
      InsertStrictly(edges[0], ByPriority(edges[1..]));
    }
  }

  lemma SameLeast(a: seq<Edge>, b: seq<Edge>)
    requires Permuted(a, b) && a != [] && b != [] && StrictlyAscending(a) && Ascending(b)
    ensures a[0] == b[0]
  {
    PermutedMembers(a, b);
    assert b[0] in b && a[0] in a;
    var i :| 0 <= i < |a| && a[i] == b[0];
    var j :| 0 <= j < |b| && b[j] == a[0];
    assert Key(b[0]) <= Key(b[j]);
  }

  lemma PermutedTails(a: seq<Edge>, b: seq<Edge>)
    requires Permuted(a, b) && a != [] && b != [] && a[0] == b[0]
    ensures Permuted(a[1..], b[1..])
  {
    assert a == [a[0]] + a[1..] && b == [b[0]] + b[1..];
    assert multiset(a[1..]) == multiset(a) - multiset{a[0]};
    assert multiset(b[1..]) == multiset(b) - multiset{b[0]};
  }

  lemma {:induction false} StrictOrderUnique(a: seq<Edge>, b: seq<Edge>)
    requires Permuted(a, b) && StrictlyAscending(a) && Ascending(b)
    ensures a == b
  {
    PermutedMembers(a, b);
    if a != [] {
      SameLeast(a, b);
      PermutedTails(a, b);
      StrictOrderUnique(a[1..], b[1..]);
      assert a == [a[0]] + a[1..] && b == [b[0]] + b[1..];
    }
  }

  /** With distinct keys the sort forgets the listing order. */
  lemma SortForgetsOrder(a: seq<Edge>, b: seq<Edge>)
    requires Permuted(a, b) && DistinctKeys(a)
    ensures ByPriority(a) == ByPriority(b)
  {
    SortPermutes(a);
    SortPermutes(b);
    SortStrictly(a);
    StrictOrderUnique(ByPriority(a), ByPriority(b));
  }

  // --- Finding by output ---

  predicate SinglePorts(edges: seq<Edge>) {
    forall port :: port in Outputs(edges) ==> !SharesPort(edges, port)
  }

  function Outputs(edges: seq<Edge>): set<string> {
    set e | e in edges :: e.output
  }

  lemma OnePerPort(edges: seq<Edge>, x: Edge, y: Edge)
    requires SinglePorts(edges) && x in edges && y in edges && x.output == y.output
    ensures x == y
  {
    var on := OnPort(edges, x.output);
    assert x.output in Outputs(edges);
    assert x in on && y in on;
  }

  lemma PortForgetsOrder(a: seq<Edge>, b: seq<Edge>, port: string)
    requires Permuted(a, b) && SinglePorts(a)
    ensures OnOutput(ByPriority(a), port) == OnOutput(ByPriority(b), port)
  {
    PermutedMembers(a, b);
    SortPermutes(a);
    SortPermutes(b);
    var x, y := OnOutput(ByPriority(a), port), OnOutput(ByPriority(b), port);
    if x.Some? && y.Some? {
      OnePerPort(a, x.value, y.value);
    }
  }

  // --- Plain nodes: the default edge, or the first in priority order ---

  predicate UniqueLeast(edges: seq<Edge>) {
    exists i :: 0 <= i < |edges| && LeastAt(edges, i)
  }

  predicate LeastAt(edges: seq<Edge>, i: nat)
    requires i < |edges|
  {
    forall j :: 0 <= j < |edges| && j != i ==> Key(edges[i]) < Key(edges[j])
  }

  /** No order can change where such a node goes. */
  predicate Settled(edges: seq<Edge>) {
    "default" in Outputs(edges) || edges == [] || UniqueLeast(edges)
  }

  lemma LeastFirst(a: seq<Edge>, b: seq<Edge>, i: nat)
    requires Permuted(a, b) && i < |a| && LeastAt(a, i)
    ensures ByPriority(b) != [] && ByPriority(b)[0] == a[i]
  {
    PermutedMembers(a, b);
    SortPermutes(b);
    var s := ByPriority(b);
    PermutedMembers(b, s);
    assert a[i] in s && s[0] in a;
    var j :| 0 <= j < |a| && a[j] == s[0];
    var k :| 0 <= k < |s| && s[k] == a[i];
    assert Key(s[0]) <= Key(s[k]);
  }

  lemma SettledForgetsOrder(a: seq<Edge>, b: seq<Edge>)
    requires Permuted(a, b) && SinglePorts(a) && Settled(a)
    ensures DefaultOrFirst(ByPriority(a)) == DefaultOrFirst(ByPriority(b))
  {
    PortForgetsOrder(a, b, "default");
    PermutedMembers(a, b);
    SortPermutes(a);
    SortPermutes(b);
    if "default" in Outputs(a) {
      var e :| e in a && e.output == "default";
      assert OnOutput(ByPriority(a), "default").Some?;
    } else if a != [] {
      var i :| 0 <= i < |a| && LeastAt(a, i);
      LeastFirst(a, a, i);
      LeastFirst(a, b, i);
      assert OnOutput(ByPriority(a), "default").None?;
    }
  }

  lemma FrontOfEquals(a: seq<Edge>, e: Edge)
    requires e in a && forall x :: x in a ==> Key(e) <= Key(x)
    ensures ByPriority(MoveToFront(a, e)) != [] && ByPriority(MoveToFront(a, e))[0] == e
  {
    var b := MoveToFront(a, e);
    MoveToFrontPermutes(a, e);
    PermutedMembers(a, b);
    assert b[0] == e;
    SortPermutes(b[1..]);
    var rest := ByPriority(b[1..]);
    if rest != [] {
      assert rest[0] in b[1..];
      assert rest[0] in b;
    }
    assert Insert(e, rest) == [e] + rest;
  }

  lemma {:induction false} SomeLeast(a: seq<Edge>) returns (i: nat)
    requires a != []
    ensures i < |a| && forall j :: 0 <= j < |a| ==> Key(a[i]) <= Key(a[j])
  {
    i := 0;
    if |a| > 1 {
      var k := SomeLeast(a[1..]);
      i := if Key(a[0]) <= Key(a[k + 1]) then 0 else k + 1;
      forall j | 0 <= j < |a| ensures Key(a[i]) <= Key(a[j]) {
        if j > 0 { assert a[j] == a[1..][j - 1]; }
      }
    }
  }

  lemma FrontWins(a: seq<Edge>, e: Edge)
    requires "default" !in Outputs(a) && e in a && forall x :: x in a ==> Key(e) <= Key(x)
    ensures DefaultOrFirst(ByPriority(MoveToFront(a, e))) == Some(e)
    ensures Permuted(a, MoveToFront(a, e))
  {
    var b := MoveToFront(a, e);
    MoveToFrontPermutes(a, e);
    PermutedMembers(a, b);
    FrontOfEquals(a, e);
    SortPermutes(b);
    forall x | x in ByPriority(b) ensures x.output != "default" {
      assert x in a && x.output in Outputs(a);
    }
  }

  /** Moving either of two equally urgent edges to the front makes it the one taken. */
  lemma UnsettledDependsOnOrder(a: seq<Edge>) returns (b: seq<Edge>, c: seq<Edge>)
    requires SinglePorts(a) && !Settled(a)
    ensures Permuted(a, b) && Permuted(a, c)
    ensures DefaultOrFirst(ByPriority(b)) != DefaultOrFirst(ByPriority(c))
  {
    var i := SomeLeast(a);
    assert !LeastAt(a, i);
    var j :| 0 <= j < |a| && j != i && Key(a[j]) <= Key(a[i]);
    b, c := MoveToFront(a, a[i]), MoveToFront(a, a[j]);
    forall x | x in a ensures Key(a[i]) <= Key(x) && Key(a[j]) <= Key(x) {
      var k :| 0 <= k < |a| && a[k] == x;
    }
    FrontWins(a, a[i]);
    FrontWins(a, a[j]);
    DistinctPorts(a, if i < j then i else j, if i < j then j else i);
  }

  lemma DistinctPorts(a: seq<Edge>, i: nat, j: nat)
    requires SinglePorts(a) && i < j < |a|
    ensures a[i] != a[j]
  {
    var on := (e: Edge) => e.output == a[i].output;
    if a[i] == a[j] {
      assert a == a[..j] + a[j..];
      FilterAppend(a[..j], a[j..], on);
      assert a[i] in a[..j] && a[j] in a[j..];
      assert a[i] in Filter(a[..j], on) && a[j] in Filter(a[j..], on);
      assert a[i] in a && a[i].output in Outputs(a);
      assert SharesPort(a, a[i].output);
    }
  }

  /** A plain node goes the same way under every listing order exactly when it is settled. */
  lemma PlainChoiceStableIffSettled(a: seq<Edge>)
    requires SinglePorts(a)
    ensures (forall b :: Permuted(a, b) ==> DefaultOrFirst(ByPriority(b)) == DefaultOrFirst(ByPriority(a))) <==> Settled(a)
  {
    if Settled(a) {
      forall b | Permuted(a, b) ensures DefaultOrFirst(ByPriority(b)) == DefaultOrFirst(ByPriority(a)) {
        SettledForgetsOrder(a, b);
      }
    } else {
      var b, c := UnsettledDependsOnOrder(a);
    }
  }

  // --- Whole simulations ---

  predicate PlainNode(n: Node) {
    n.kind != CONDITION && n.kind != WAIT_FOR_REPLY && n.kind != EXTERNAL_HTTP_REQUEST && n.kind != STOP
  }

  /** What the validator guarantees about one node's outgoing edges. */
  lemma PublishableNode(g: Graph, n: Node)
    requires Publishable(g) && n in g.nodes
    ensures Out(g, n.id) == Outgoing(g.edges, n.id)
    ensures n.kind == CONDITION ==> DistinctKeys(Outgoing(g.edges, n.id))
    ensures n.kind != CONDITION ==> SinglePorts(Outgoing(g.edges, n.id))
  {
    forall e | e in g.edges ensures Known(g, e) {
      assert !Holds(g, UnknownEnd(e));
    }
    FilterAll(g.edges, (e: Edge) => Known(g, e));
    var out := Outgoing(g.edges, n.id);
    forall i: Issue ensures !NodeIssue(n, out, i) {
      if NodeIssue(n, out, i) { assert Holds(g, i); }
    }
    if n.kind == CONDITION {
      assert !NodeIssue(n, out, DuplicatePriority(n.id));
      assert !NodeIssue(n, out, MissingPriority(n.id));
      forall i, j | 0 <= i < j < |out| ensures Key(out[i]) != Key(out[j]) {
        assert out[i] in out && out[j] in out;
        assert Priorities(out)[i] != Priorities(out)[j];
      }
    } else {
      forall port ensures !SharesPort(out, port) {
        assert !NodeIssue(n, out, SharedPort(n.id, port));
      }
    }
  }

  lemma ChoiceForgetsOrder(n: Node, a: seq<Edge>, b: seq<Edge>, inp: Input)
    requires Permuted(a, b) && n.kind != CONDITION && SinglePorts(a) && (PlainNode(n) ==> Settled(a))
    ensures Choose(n, ByPriority(a), inp) == Choose(n, ByPriority(b), inp)
  {
    if n.kind == WAIT_FOR_REPLY {
      if inp.wait.Some? { PortForgetsOrder(a, b, WaitPort(inp.wait.value)); }
    } else if n.kind == EXTERNAL_HTTP_REQUEST {
      if inp.http.Some? { PortForgetsOrder(a, b, HttpPort(inp.http.value)); }
    } else if n.kind != STOP {
      SettledForgetsOrder(a, b);
    }
  }

  lemma DecisionForgetsOrder(g: Graph, h: Graph, inp: Input, n: Node)
    requires Publishable(g) && h.nodes == g.nodes && Permuted(g.edges, h.edges) && n in g.nodes
    requires PlainNode(n) ==> Settled(Outgoing(g.edges, n.id))
    ensures Decision(g, inp, n) == Decision(h, inp, n)
  {
    var a, b := Outgoing(g.edges, n.id), Outgoing(h.edges, n.id);
    assert Permuted(a, b) by {
      FilterPermutation(g.edges, h.edges, (e: Edge) => e.from == n.id);
    }
    assert (n.kind == CONDITION ==> DistinctKeys(a)) && (n.kind != CONDITION ==> SinglePorts(a)) by {
      PublishableNode(g, n);
    }
    if n.kind == CONDITION {
      SortForgetsOrder(a, b);
    } else {
      ChoiceForgetsOrder(n, a, b, inp);
    }
  }

  lemma {:induction false} SamePositions(p: Plan, q: Plan, all: set<Node>, k: nat)
    requires p.start == q.start && (p.start.Some? ==> p.start.value in all)
    requires forall id :: p.find(id) == q.find(id) && (p.find(id).Some? ==> p.find(id).value in all)
    requires forall n :: n in all ==> p.decide(n) == q.decide(n)
    ensures At(p, k) == At(q, k)
    ensures At(p, k).Some? ==> At(p, k).value in all
  {
    AtInGraph(p, all, k);
    if k > 0 {
      SamePositions(p, q, all, k - 1);
    }
  }

  lemma SameOutcomes(p: Plan, q: Plan, all: set<Node>, r: Outcome)
    requires p.start == q.start && (p.start.Some? ==> p.start.value in all)
    requires forall id :: p.find(id) == q.find(id) && (p.find(id).Some? ==> p.find(id).value in all)
    requires forall n :: n in all ==> p.decide(n) == q.decide(n)
    requires Describes(p, r)
    ensures Describes(q, r)
  {
    forall k: nat ensures At(p, k) == At(q, k) && (At(p, k).Some? ==> At(p, k).value in all) {
      SamePositions(p, q, all, k);
    }
  }

  /**
    On a publishable graph whose plain nodes are settled, the simulation of any input
    has the same outcome for every permutation of the edge list.
  */
  lemma SimulationForgetsEdgeOrder(g: Graph, h: Graph, inp: Input, r: Outcome)
    requires Publishable(g) && h.nodes == g.nodes && Permuted(g.edges, h.edges)
    requires forall n :: n in g.nodes && PlainNode(n) ==> Settled(Outgoing(g.edges, n.id))
    requires Describes(PlanOf(g, inp), r)
    ensures Describes(PlanOf(h, inp), r)
  {
    forall n | n in Elements(g.nodes) ensures Decision(g, inp, n) == Decision(h, inp, n) {
      DecisionForgetsOrder(g, h, inp, n);
    }
    SameOutcomes(PlanOf(g, inp), PlanOf(h, inp), Elements(g.nodes), r);
  }
}
