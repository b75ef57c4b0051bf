/**
  `simulateScenarioGraph`: the budgeted dry run of a scenario. Evaluating one rule
  against the test event is the parameter `holds`.
*/
module Simulation {
  import opened Collections
  import opened ScenarioGraph
  import opened GraphValidation
  import opened PartialWalk

  datatype WaitOutcome = REPLY | TIMEOUT

  datatype HttpOutcome = SUCCESS | FAILURE

  datatype Input = Input(wait: Option<WaitOutcome>, http: Option<HttpOutcome>, holds: Rule -> bool)

  datatype StepResult = WOULD_EXECUTE | WAITING | COMPLETED

  datatype Reason =
    | FALLBACK_SELECTED | CONDITION_MATCHED | NO_BRANCH_MATCHED
    | WAIT_OUTCOME_REQUIRED | REPLY_SIMULATED | TIMEOUT_SIMULATED
    | DELAY_SKIPPED_IN_TEST
    | HTTP_OUTCOME_REQUIRED | HTTP_SUCCESS_SIMULATED | HTTP_FAILURE_SIMULATED

  datatype Step = Step(
    nodeId: string,
    kind: NodeType,
    result: StepResult,
    selectedOutput: Option<string>,
    nextNodeId: Option<string>,
    reason: Option<Reason>)

  datatype Outcome = Finished(steps: seq<Step>) | Suspended(steps: seq<Step>) | BudgetExhausted

  const BUDGET := 100
  const MAX_SAFE_INTEGER := 9007199254740991

  function WaitPort(w: WaitOutcome): string {
    match w case REPLY => "reply" case TIMEOUT => "timeout"
  }

  function HttpPort(h: HttpOutcome): string {
    match h case SUCCESS => "success" case FAILURE => "failure"
  }

  // --- Choosing an edge ---

  predicate RuleHolds(r: Rule, inp: Input) {
    r.field != "" && r.operator != "" && inp.holds(r)
  }

  predicate EdgeMatches(e: Edge, n: Node, inp: Input) {
    match e.conditionGroup
    case Some(group) =>
      if group.combinator == AND then forall r :: r in group.rules ==> inp.holds(r)
      else exists r :: r in group.rules && inp.holds(r)
    case None =>
      match if e.condition.Some? then e.condition else n.legacyRule
      case Some(r) => RuleHolds(r, inp)
      case None => false
  }

  function Key(e: Edge): int {
    if e.priority.Some? then e.priority.value else MAX_SAFE_INTEGER
  }

  function Insert(e: Edge, sorted: seq<Edge>): seq<Edge> {
    if sorted == [] || Key(e) <= Key(sorted[0]) then [e] + sorted
    else [sorted[0]] + Insert(e, sorted[1..])
  }

  /** The stable ascending sort by priority. */
  function ByPriority(edges: seq<Edge>): seq<Edge> {
    if edges == [] then [] else Insert(edges[0], ByPriority(edges[1..]))
  }

  function First(edges: seq<Edge>, p: Edge -> bool): (r: Option<Edge>)
    ensures r.Some? ==> r.value in edges && p(r.value)
    ensures r.None? ==> forall e :: e in edges ==> !p(e)
  {
    if edges == [] then None
    else if p(edges[0]) then Some(edges[0])
    else First(edges[1..], p)
  }

  function OnOutput(edges: seq<Edge>, port: string): Option<Edge> {
    First(edges, (e: Edge) => e.output == port)
  }

  /** `edges.find(e => e.output === 'default') ?? edges[0]`. */
  function DefaultOrFirst(edges: seq<Edge>): (r: Option<Edge>)
    ensures r.Some? ==> r.value in edges
  {
    var d := OnOutput(edges, "default");
    if d.Some? then d else if edges == [] then None else Some(edges[0])
  }

  datatype Choice = Choice(result: StepResult, selected: Option<Edge>, reason: Option<Reason>)

  function ChooseBranch(n: Node, edges: seq<Edge>, inp: Input): (c: Choice)
    ensures c.selected.Some? ==> c.selected.value in edges
  {
    var configured := Filter(edges, (e: Edge) => Configured(e));
    var fallback := First(edges, (e: Edge) => !Configured(e));
    var matching := First(configured, (e: Edge) => EdgeMatches(e, n, inp));
    var selected :=
      if configured == [] && n.legacyRule.Some? then First(edges, (e: Edge) => EdgeMatches(e, n, inp))
      else if matching.Some? then matching
      else fallback;
    Choice(WOULD_EXECUTE, selected, Some(
      if selected.None? then NO_BRANCH_MATCHED
      else if configured != [] && selected == fallback then FALLBACK_SELECTED
      else CONDITION_MATCHED))
  }

  /** What the loop body decides for a node, given its edges in priority order. */
  function Choose(n: Node, edges: seq<Edge>, inp: Input): (c: Choice)
    ensures c.selected.Some? ==> c.selected.value in edges
  {
    match n.kind
    case CONDITION => ChooseBranch(n, edges, inp)
    case WAIT_FOR_REPLY =>
      if inp.wait.None? then Choice(WAITING, None, Some(WAIT_OUTCOME_REQUIRED))
      else Choice(WOULD_EXECUTE, OnOutput(edges, WaitPort(inp.wait.value)),
        Some(if inp.wait.value == REPLY then REPLY_SIMULATED else TIMEOUT_SIMULATED))
    case EXTERNAL_HTTP_REQUEST =>
      if inp.http.None? then Choice(WAITING, None, Some(HTTP_OUTCOME_REQUIRED))
      else Choice(WOULD_EXECUTE, OnOutput(edges, HttpPort(inp.http.value)),
        Some(if inp.http.value == SUCCESS then HTTP_SUCCESS_SIMULATED else HTTP_FAILURE_SIMULATED))
    case DELAY => Choice(WOULD_EXECUTE, DefaultOrFirst(edges), Some(DELAY_SKIPPED_IN_TEST))
    case STOP => Choice(COMPLETED, None, None)
    case _ => Choice(WOULD_EXECUTE, DefaultOrFirst(edges), None)
  }

  function StepOf(n: Node, c: Choice): Step {
    Step(n.id, n.kind, c.result,
      if c.selected.Some? && c.selected.value.output != "" then Some(c.selected.value.output) else None,
      if c.selected.Some? && c.selected.value.to != "" then Some(c.selected.value.to) else None,
      c.reason)
  }

  function Start(g: Graph): (r: Option<Node>)
    ensures r.Some? ==> r.value in g.nodes && IsTrigger(r.value)
  {
    var triggers := Triggers(g);
    if triggers == [] then None
    else
      assert triggers[0] in triggers;
      Some(triggers[0])
  }

  /** What the loop needs to know of a graph and a test input: where to start, what to
      decide at a node, and which node an id names. */
  datatype Plan = Plan(start: Option<Node>, decide: Node -> Choice, find: string -> Option<Node>)

  function Decision(g: Graph, inp: Input, n: Node): Choice {
    Choose(n, ByPriority(Outgoing(g.edges, n.id)), inp)
  }

  function PlanOf(g: Graph, inp: Input): Plan {
    Plan(Start(g), (n: Node) => Decision(g, inp, n), (id: string) => Lookup(g.nodes, id))
  }

  // --- The walk ---

  /** The node a decision leads to, if it leads to one. */
  function Target(p: Plan, n: Node): Option<Node> {
    var c := p.decide(n);
    if c.result == WAITING || c.selected.None? then None else p.find(c.selected.value.to)
  }

  function Follow(p: Plan): Node -> Option<Node> {
    (n: Node) => Target(p, n)
  }

  /** The node the walk is at after k steps, if it has neither ended nor stopped to wait. */
  function At(p: Plan, k: nat): Option<Node> {
    Position(p.start, Follow(p), k)
  }

  predicate Trace(p: Plan, steps: seq<Step>) {
    forall k :: 0 <= k < |steps| ==> At(p, k).Some? && steps[k] == StepOf(At(p, k).value, p.decide(At(p, k).value))
  }

  predicate WaitsAt(p: Plan, k: nat) {
    At(p, k).Some? && p.decide(At(p, k).value).result == WAITING
  }

  /** The outcome the walk calls for: it ended within 99 steps, it stopped to wait within
      100, or neither. */
  predicate Describes(p: Plan, r: Outcome) {
    match r
    case Finished(steps) =>
      && |steps| < BUDGET && Trace(p, steps)
      && At(p, |steps|).None? && (|steps| > 0 ==> !WaitsAt(p, |steps| - 1))
    case Suspended(steps) =>
      0 < |steps| <= BUDGET && Trace(p, steps) && WaitsAt(p, |steps| - 1)
    case BudgetExhausted =>
      At(p, BUDGET - 1).Some? && !WaitsAt(p, BUDGET - 1)
  }

  /** The loop: `while (node && budget-- > 0)`, with the budget looked at again at the end. */
  method RunPlan(p: Plan) returns (r: Outcome)
    ensures Describes(p, r)
  {
    var node := p.start;
    var steps: seq<Step> := [];
    var budget := BUDGET;
    while node.Some?
      invariant 0 <= budget <= BUDGET
      invariant |steps| == BUDGET - budget && node == At(p, |steps|)
      invariant |steps| > 0 ==> At(p, |steps| - 1).Some? && !WaitsAt(p, |steps| - 1)
      invariant Trace(p, steps)
      decreases budget
    {
      budget := budget - 1;
      if budget < 0 {
        break;
      }
      var current := node.value;
      var choice := p.decide(current);
      steps := steps + [StepOf(current, choice)];
      if choice.result == WAITING {
        return Suspended(steps);
      }
      node := if choice.selected.Some? then p.find(choice.selected.value.to) else None;
    }
    if budget <= 0 {
      return BudgetExhausted;
    }
    return Finished(steps);
  }

  method Simulate(g: Graph, inp: Input) returns (r: Outcome)
    ensures Describes(PlanOf(g, inp), r)
  {
    r := RunPlan(PlanOf(g, inp));
  }

  // --- Bounds ---

  function Steps(r: Outcome): seq<Step> {
    if r.BudgetExhausted? then [] else r.steps
  }

  /** How many steps the walk takes under the outcome. */
  function Length(r: Outcome): nat {
    match r
    case Finished(steps) => |steps|
    case Suspended(steps) => |steps|
    case BudgetExhausted => BUDGET
  }

  /** The walk is at a node before its length, and nowhere from then on unless the budget cut it. */
  lemma WalkEnds(p: Plan, r: Outcome, k: nat)
    requires Describes(p, r)
    ensures k < Length(r) ==> At(p, k).Some?
    ensures k >= Length(r) && !r.BudgetExhausted? ==> At(p, k).None?
  {
    if k < Length(r) {
      EarlierPositions(p.start, Follow(p), k, Length(r) - 1);
    } else if !r.BudgetExhausted? {
      assert At(p, Length(r)).None?;
      LaterPositions(p.start, Follow(p), Length(r), k);
    }
  }

  lemma NotShorter(p: Plan, r: Outcome, q: Outcome)
    requires Describes(p, r) && Describes(p, q)
    ensures r.BudgetExhausted? || Length(q) <= Length(r)
  {
    if Length(q) > 0 {
      WalkEnds(p, q, Length(q) - 1);
      WalkEnds(p, r, Length(q) - 1);
    }
  }

  /** The walk calls for one outcome only, so the method's answer is determined. */
  lemma OutcomeUnique(p: Plan, r: Outcome, q: Outcome)
    requires Describes(p, r) && Describes(p, q)
    ensures r == q
  {
    NotShorter(p, r, q);
    NotShorter(p, q, r);
    assert Steps(r) == Steps(q);
  }

  predicate Joins(g: Graph, e: Edge, from: Step, to: Step) {
    e in g.edges && e.from == from.nodeId && e.to == to.nodeId
    && (e.output != "" ==> from.selectedOutput == Some(e.output))
  }

  /** Consecutive steps follow real edges, through the output the step names. */
  lemma StepsFollowEdges(g: Graph, inp: Input, r: Outcome, k: nat) returns (e: Edge)
    requires Describes(PlanOf(g, inp), r) && k + 1 < |Steps(r)|
    ensures Joins(g, e, Steps(r)[k], Steps(r)[k + 1])
  {
    var p := PlanOf(g, inp);
    var n := At(p, k).value;
    assert At(p, k + 1) == Target(p, n);
    SortPermutes(Outgoing(g.edges, n.id));
    e := p.decide(n).selected.value;
  }

  // --- Budget and revisits ---

  lemma {:induction false} AtInGraph(p: Plan, all: set<Node>, k: nat)
    requires p.start.Some? ==> p.start.value in all
    requires forall id :: p.find(id).Some? ==> p.find(id).value in all
    ensures At(p, k).Some? ==> At(p, k).value in all
  {
    if k > 0 && At(p, k).Some? {
      assert At(p, k) == Target(p, At(p, k - 1).value);
    }
  }

  /** A plan over fewer than 100 nodes exhausts the budget exactly when its walk returns
      to a node. */
  lemma BudgetMeansReturn(p: Plan, all: set<Node>, r: Outcome)
    requires Describes(p, r) && |all| < BUDGET
    requires p.start.Some? ==> p.start.value in all
    requires forall id :: p.find(id).Some? ==> p.find(id).value in all
    ensures r.BudgetExhausted? <==> Returns(p.start, Follow(p))
  {
    var start, next := p.start, Follow(p);
    if r.BudgetExhausted? {
      forall k: nat ensures At(p, k).Some? ==> At(p, k).value in all {
        AtInGraph(p, all, k);
      }
      LongWalkReturns(start, next, BUDGET - 1, all);
    }
    if Returns(start, next) {
      var i: nat, j: nat :| i < j && Position(start, next, j).Some? && Position(start, next, i) == Position(start, next, j);
      NeverEnds(start, next, i, j, Length(r));
      WalkEnds(p, r, Length(r));
    }
  }

  /**
    For graphs of at most 99 distinct nodes, and any test input, the budget error is
    raised exactly when the walk would come back to a node it has been at.
  */
  lemma BudgetMeansRevisit(g: Graph, inp: Input, r: Outcome)
    requires Describes(PlanOf(g, inp), r) && |Elements(g.nodes)| < BUDGET
    ensures var p := PlanOf(g, inp); r.BudgetExhausted? <==> Returns(p.start, Follow(p))
  {
    BudgetMeansReturn(PlanOf(g, inp), Elements(g.nodes), r);
  }

  // --- The sort ---

  predicate Ascending(edges: seq<Edge>) {
    forall i, j :: 0 <= i < j < |edges| ==> Key(edges[i]) <= Key(edges[j])
  }

  lemma {:induction false} InsertPermutes(e: Edge, sorted: seq<Edge>)
    ensures multiset(Insert(e, sorted)) == multiset([e]) + multiset(sorted)
  {
    if sorted != [] && Key(e) > Key(sorted[0]) {
      InsertPermutes(e, sorted[1..]);
      assert sorted == [sorted[0]] + sorted[1..];
    }
  }

  lemma InsertMembers(e: Edge, sorted: seq<Edge>, x: Edge)
    ensures x in Insert(e, sorted) <==> x == e || x in sorted
  {
    InsertPermutes(e, sorted);
    assert x in Insert(e, sorted) <==> x in multiset(Insert(e, sorted));
  }

  lemma {:induction false} InsertAscends(e: Edge, sorted: seq<Edge>)
    requires Ascending(sorted)
    ensures Ascending(Insert(e, sorted))
  {
    if sorted != [] && Key(e) > Key(sorted[0]) {
      var r := Insert(e, sorted[1..]);
      InsertAscends(e, sorted[1..]);
      forall j | 0 <= j < |r| ensures Key(sorted[0]) <= Key(r[j]) {
        InsertMembers(e, sorted[1..], r[j]);
      }
    }
  }

  lemma {:induction false} SortPermutes(edges: seq<Edge>)
    ensures multiset(ByPriority(edges)) == multiset(edges) && Ascending(ByPriority(edges))
    ensures forall e :: e in ByPriority(edges) <==> e in edges
  {
    if edges != [] {
      SortPermutes(edges[1..]);
      InsertPermutes(edges[0], ByPriority(edges[1..]));
      InsertAscends(edges[0], ByPriority(edges[1..]));
      assert edges == [edges[0]] + edges[1..];
    }
    assert forall e :: e in ByPriority(edges) <==> e in multiset(ByPriority(edges));
    assert forall e :: e in edges <==> e in multiset(edges);
  }
}
