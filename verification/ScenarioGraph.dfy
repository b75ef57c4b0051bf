/** The scenario graph as `packages/automation-core` sees it after schema parsing. */
module ScenarioGraph {
  import opened Collections

  datatype NodeType =
    | INCOMING_MESSAGE | CONDITION | ADD_TAG | REMOVE_TAG | SEND_MESSAGE | SEND_TEMPLATE
    | CREATE_OR_UPDATE_LEAD | FORWARD_TO_CRM | SET_CUSTOM_FIELD | CLEAR_CUSTOM_FIELD
    | DELAY | WAIT_FOR_REPLY | START_SUBFLOW | EXTERNAL_HTTP_REQUEST
    | PAUSE_AUTOMATION | RESUME_AUTOMATION | STOP

  /** One comparison; `value` is absent where the source has `undefined`. */
  datatype Rule = Rule(field: string, operator: string, value: Option<string>)

  datatype Combinator = AND | OR

  datatype ConditionGroup = ConditionGroup(combinator: Combinator, rules: seq<Rule>)

  datatype Edge = Edge(
    from: string,
    to: string,
    output: string,
    priority: Option<nat>,
    condition: Option<Rule>,
    conditionGroup: Option<ConditionGroup>)

  /** `legacyRule` is the condition an old node keeps in its own configuration;
      `configOk` says that the per-type configuration checks pass. */
  datatype Node = Node(id: string, kind: NodeType, legacyRule: Option<Rule>, configOk: bool)

  datatype Graph = Graph(nodes: seq<Node>, edges: seq<Edge>)

  function Ids(g: Graph): set<string> {
    set n | n in g.nodes :: n.id
  }

  /** `new Map(nodes.map(n => [n.id, n])).get(id)`: the last node of that id wins. */
  function Lookup(nodes: seq<Node>, id: string): (r: Option<Node>)
    ensures r.Some? ==> r.value in nodes && r.value.id == id
    ensures r.None? ==> forall n :: n in nodes ==> n.id != id
  {
    if nodes == [] then None
    else if nodes[|nodes| - 1].id == id then Some(nodes[|nodes| - 1])
    else Lookup(nodes[..|nodes| - 1], id)
  }

  predicate Known(g: Graph, e: Edge) {
    e.from in Ids(g) && e.to in Ids(g)
  }

  /** The edges the validator keeps: both ends exist. */
  function KnownEdges(g: Graph): seq<Edge> {
    Filter(g.edges, (e: Edge) => Known(g, e))
  }

  /** The edges leaving a node, in list order. */
  function Outgoing(edges: seq<Edge>, id: string): (r: seq<Edge>)
    ensures forall e :: e in r <==> e in edges && e.from == id
  {
    Filter(edges, (e: Edge) => e.from == id)
  }

  function Targets(edges: seq<Edge>): (r: seq<string>)
    ensures |r| == |edges|
    ensures forall i :: 0 <= i < |edges| ==> r[i] == edges[i].to
  {
    seq(|edges|, i requires 0 <= i < |edges| => edges[i].to)
  }

  /** Where a depth-first visit goes from a node, in the order it goes there. */
  function Successors(g: Graph, id: string): seq<string> {
    Targets(Outgoing(KnownEdges(g), id))
  }

  predicate HasEdge(g: Graph, a: string, b: string) {
    b in Successors(g, a)
  }

  lemma HasEdgeMeaning(g: Graph, a: string, b: string)
    ensures HasEdge(g, a, b) <==> exists e :: e in g.edges && Known(g, e) && e.from == a && e.to == b
  {
    var out := Outgoing(KnownEdges(g), a);
    if HasEdge(g, a, b) {
      var i :| 0 <= i < |out| && Targets(out)[i] == b;
      assert out[i] in out;
    }
    if e :| e in g.edges && Known(g, e) && e.from == a && e.to == b {
      assert e in out;
      var i :| 0 <= i < |out| && out[i] == e;
      assert Targets(out)[i] == b;
    }
  }

  lemma EdgeEnds(g: Graph, a: string, b: string)
    requires HasEdge(g, a, b)
    ensures a in Ids(g) && b in Ids(g)
  {
    HasEdgeMeaning(g, a, b);
  }

  /** Consecutive ids are joined by edges. */
  predicate Chain(g: Graph, p: seq<string>) {
    forall i :: 0 <= i < |p| - 1 ==> HasEdge(g, p[i], p[i + 1])
  }

  predicate WalkBetween(g: Graph, p: seq<string>, a: string, b: string) {
    |p| > 0 && Chain(g, p) && p[0] == a && p[|p| - 1] == b
  }

  ghost predicate Reaches(g: Graph, a: string, b: string) {
    exists p :: WalkBetween(g, p, a, b)
  }

  lemma ReachesSelf(g: Graph, a: string)
    ensures Reaches(g, a, a)
  {
    assert WalkBetween(g, [a], a, a);
  }

  lemma ReachesAlong(g: Graph, p: seq<string>, i: nat, j: nat)
    requires Chain(g, p) && i <= j < |p|
    ensures Reaches(g, p[i], p[j])
  {
    assert WalkBetween(g, p[i..j + 1], p[i], p[j]);
  }

  lemma ReachesTrans(g: Graph, a: string, b: string, c: string)
    requires Reaches(g, a, b) && Reaches(g, b, c)
    ensures Reaches(g, a, c)
  {
    var p :| WalkBetween(g, p, a, b);
    var q :| WalkBetween(g, q, b, c);
    var r := p + q[1..];
    forall i | 0 <= i < |r| - 1 ensures HasEdge(g, r[i], r[i + 1]) {
      if i < |p| - 1 {
        assert r[i] == p[i] && r[i + 1] == p[i + 1];
      } else {
        assert r[i] == q[i - |p| + 1] && r[i + 1] == q[i - |p| + 2];
      }
    }
    assert WalkBetween(g, r, a, c);
  }

  lemma ReachesStep(g: Graph, a: string, b: string)
    requires HasEdge(g, a, b)
    ensures Reaches(g, a, b)
  {
    assert WalkBetween(g, [a, b], a, b);
  }
}
