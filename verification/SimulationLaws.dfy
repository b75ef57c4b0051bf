/**
  What a simulation does at each node, said of the graph itself: which of its edges is
  taken, and where that leads. An edge comes before another one if its priority is
  smaller, or equal and it is listed earlier; without a priority it counts as 2^53 - 1.
*/
module SimulationLaws {
  import opened Collections
  import opened ScenarioGraph
  import opened GraphValidation
  import opened PartialWalk
  import opened Simulation

  function Rank(e: Edge): int {
    match e.priority
    case Some(p) => p
    case None => 9007199254740991
  }

  predicate Comes(edges: seq<Edge>, i: nat, j: nat)
    requires i < |edges| && j < |edges|
  {
    Rank(edges[i]) < Rank(edges[j]) || (Rank(edges[i]) == Rank(edges[j]) && i < j)
  }

  predicate Leaves(edges: seq<Edge>, id: string, ok: Edge -> bool, i: nat) {
    i < |edges| && edges[i].from == id && ok(edges[i])
  }

  predicate NoneLeaves(edges: seq<Edge>, id: string, ok: Edge -> bool) {
    forall i :: 0 <= i < |edges| ==> !Leaves(edges, id, ok, i)
  }

  /** Of the edges that leave the node and are fit, the i-th of the graph comes first. */
  predicate Earliest(edges: seq<Edge>, id: string, ok: Edge -> bool, i: nat) {
    Leaves(edges, id, ok, i)
    && forall j :: 0 <= j < |edges| && j != i && Leaves(edges, id, ok, j) ==> Comes(edges, i, j)
  }

  // --- The first edge in priority order ---

  lemma {:induction false} FirstOfInsert(e: Edge, sorted: seq<Edge>, ok: Edge -> bool)
    requires Ascending(sorted)
    ensures var f := First(sorted, ok);
      First(Insert(e, sorted), ok) == if ok(e) && (f.None? || Rank(e) <= Rank(f.value)) then Some(e) else f
  {
    if sorted == [] || Key(e) <= Key(sorted[0]) {
      assert ([e] + sorted)[1..] == sorted;
      if First(sorted, ok).Some? {
        var f := First(sorted, ok).value;
        assert sorted[0] == f || Key(sorted[0]) <= Key(f);
      }
    } else {
      FirstOfInsert(e, sorted[1..], ok);
      assert ([sorted[0]] + Insert(e, sorted[1..]))[1..] == Insert(e, sorted[1..]);
    }
  }

  lemma ShiftLeaves(edges: seq<Edge>, id: string, ok: Edge -> bool, i: nat)
    requires edges != []
    ensures Leaves(edges[1..], id, ok, i) <==> Leaves(edges, id, ok, i + 1)
  {}

  lemma ShiftEarliest(edges: seq<Edge>, id: string, ok: Edge -> bool, i: nat)
    requires edges != [] && Earliest(edges[1..], id, ok, i)
    requires Leaves(edges, id, ok, 0) ==> Rank(edges[i + 1]) < Rank(edges[0])
    ensures Earliest(edges, id, ok, i + 1)
  {
    var rest := edges[1..];
    ShiftLeaves(edges, id, ok, i);
    forall j | 0 <= j < |edges| && j != i + 1 && Leaves(edges, id, ok, j) ensures Comes(edges, i + 1, j) {
      if j > 0 {
        ShiftLeaves(edges, id, ok, j - 1);
        assert Comes(rest, i, j - 1);
      }
    }
  }

  lemma HeadEarliest(edges: seq<Edge>, id: string, ok: Edge -> bool)
    requires edges != [] && Leaves(edges, id, ok, 0)
    requires forall j :: 0 <= j < |edges[1..]| && Leaves(edges[1..], id, ok, j) ==> Rank(edges[0]) <= Rank(edges[1..][j])
    ensures Earliest(edges, id, ok, 0)
  {
    forall j | 0 < j < |edges| && Leaves(edges, id, ok, j) ensures Comes(edges, 0, j) {
      ShiftLeaves(edges, id, ok, j - 1);
      assert edges[1..][j - 1] == edges[j];
    }
  }

  lemma OutgoingTail(edges: seq<Edge>, id: string)
    requires edges != []
    ensures ByPriority(Outgoing(edges, id)) ==
      if edges[0].from == id then Insert(edges[0], ByPriority(Outgoing(edges[1..], id))) else ByPriority(Outgoing(edges[1..], id))
  {
    var rest := Outgoing(edges[1..], id);
    assert ([edges[0]] + rest)[1..] == rest;
  }

  /** Taking the first fit edge of the sorted list takes the earliest of the graph's own. */
  lemma {:induction false} FirstIsEarliest(edges: seq<Edge>, id: string, ok: Edge -> bool) returns (i: nat)
    ensures var f := First(ByPriority(Outgoing(edges, id)), ok);
      if f.Some? then Earliest(edges, id, ok, i) && edges[i] == f.value else NoneLeaves(edges, id, ok)
  {
    i := 0;
    if edges != [] {
      var rest := edges[1..];
      var sorted := ByPriority(Outgoing(rest, id));
      var f := First(sorted, ok);
      var k := FirstIsEarliest(rest, id, ok);
      OutgoingTail(edges, id);
      SortPermutes(Outgoing(rest, id));
      FirstOfInsert(edges[0], sorted, ok);
      forall j: nat ensures Leaves(rest, id, ok, j) <==> Leaves(edges, id, ok, j + 1) {
        ShiftLeaves(edges, id, ok, j);
      }
      if Leaves(edges, id, ok, 0) && (f.None? || Rank(edges[0]) <= Rank(f.value)) {
        HeadFirst(edges, id, ok, k, f);
      } else if f.Some? {
        ShiftEarliest(edges, id, ok, k);
        i := k + 1;
      } else {
        NoneShift(edges, id, ok);
      }
    }
  }

  lemma HeadFirst(edges: seq<Edge>, id: string, ok: Edge -> bool, k: nat, f: Option<Edge>)
    requires edges != [] && Leaves(edges, id, ok, 0)
    requires if f.Some? then Earliest(edges[1..], id, ok, k) && edges[1..][k] == f.value else NoneLeaves(edges[1..], id, ok)
    requires f.Some? ==> Rank(edges[0]) <= Rank(f.value)
    ensures Earliest(edges, id, ok, 0)
  {
    var rest := edges[1..];
    forall j | 0 <= j < |rest| && Leaves(rest, id, ok, j) ensures Rank(edges[0]) <= Rank(rest[j]) {
      assert f.Some?;
      assert j != k ==> Comes(rest, k, j);
    }
    HeadEarliest(edges, id, ok);
  }

  lemma NoneShift(edges: seq<Edge>, id: string, ok: Edge -> bool)
    requires edges != [] && !Leaves(edges, id, ok, 0) && NoneLeaves(edges[1..], id, ok)
    ensures NoneLeaves(edges, id, ok)
  {
    forall i | 0 <= i < |edges| ensures !Leaves(edges, id, ok, i) {
      if i > 0 { ShiftLeaves(edges, id, ok, i - 1); }
    }
  }

  // --- What a step says and where it leads ---

  /** Of several nodes with the id the last one listed is meant. */
  predicate Named(g: Graph, id: string, next: Option<Node>) {
    match next
    case Some(n) => exists i :: 0 <= i < |g.nodes| && g.nodes[i] == n && n.id == id && forall j :: i < j < |g.nodes| ==> g.nodes[j].id != id
    case None => forall i :: 0 <= i < |g.nodes| ==> g.nodes[i].id != id
  }

  function Shown(text: string): Option<string> {
    if text == "" then None else Some(text)
  }

  predicate Through(g: Graph, e: Edge, s: Step, next: Option<Node>) {
    s.selectedOutput == Shown(e.output) && s.nextNodeId == Shown(e.to) && Named(g, e.to, next)
  }

  /** The step follows the earliest fit edge that leaves the node, or ends the walk if there is none. */
  predicate Follows(g: Graph, n: Node, ok: Edge -> bool, s: Step, next: Option<Node>) {
    if NoneLeaves(g.edges, n.id, ok) then s.selectedOutput.None? && s.nextNodeId.None? && next.None?
    else exists i :: 0 <= i < |g.edges| && Earliest(g.edges, n.id, ok, i) && Through(g, g.edges[i], s, next)
  }

  predicate RuleMet(r: Rule, inp: Input) {
    r.field != "" && r.operator != "" && inp.holds(r)
  }

  /** The rules of the edge: a group goes before a single condition. */
  predicate Satisfied(e: Edge, inp: Input) {
    if e.conditionGroup.Some? then
      var rules := e.conditionGroup.value.rules;
      match e.conditionGroup.value.combinator
      case AND => !exists i :: 0 <= i < |rules| && !inp.holds(rules[i])
      case OR => exists i :: 0 <= i < |rules| && inp.holds(rules[i])
    else e.condition.Some? && RuleMet(e.condition.value, inp)
  }

  predicate HasRules(e: Edge) {
    e.condition.Some? || e.conditionGroup.Some?
  }

  function WithRulesMet(inp: Input): Edge -> bool {
    (e: Edge) => HasRules(e) && Satisfied(e, inp)
  }

  function WithoutRules(): Edge -> bool {
    (e: Edge) => !HasRules(e)
  }

  function WithOutput(port: string): Edge -> bool {
    (e: Edge) => e.output == port
  }

  function Any(): Edge -> bool {
    (e: Edge) => true
  }

  predicate AnyRules(g: Graph, id: string) {
    exists i :: 0 <= i < |g.edges| && g.edges[i].from == id && HasRules(g.edges[i])
  }

  /**
    A condition takes the earliest edge whose rules are met; if no edge's are, the
    earliest edge without rules. Where no edge has rules, an old node's own rule decides
    between the earliest edge and none.
  */
  predicate Branches(g: Graph, inp: Input, n: Node, s: Step, next: Option<Node>) {
    if AnyRules(g, n.id) then
      if !NoneLeaves(g.edges, n.id, WithRulesMet(inp)) then
        s.reason == Some(CONDITION_MATCHED) && Follows(g, n, WithRulesMet(inp), s, next)
      else
        && Follows(g, n, WithoutRules(), s, next)
        && s.reason == Some(if NoneLeaves(g.edges, n.id, WithoutRules()) then NO_BRANCH_MATCHED else FALLBACK_SELECTED)
    else if n.legacyRule.Some? && !RuleMet(n.legacyRule.value, inp) then
      s.reason == Some(NO_BRANCH_MATCHED) && s.selectedOutput.None? && s.nextNodeId.None? && next.None?
    else
      && Follows(g, n, Any(), s, next)
      && s.reason == Some(if NoneLeaves(g.edges, n.id, Any()) then NO_BRANCH_MATCHED else CONDITION_MATCHED)
  }

  predicate GoesOn(g: Graph, n: Node, s: Step, next: Option<Node>) {
    if NoneLeaves(g.edges, n.id, WithOutput("default")) then Follows(g, n, Any(), s, next)
    else Follows(g, n, WithOutput("default"), s, next)
  }

  predicate Stops(s: Step, next: Option<Node>) {
    s.selectedOutput.None? && s.nextNodeId.None? && next.None?
  }

  /** The step at node n is right, and `next` is where the walk goes from it. */
  predicate Obeys(g: Graph, inp: Input, n: Node, s: Step, next: Option<Node>) {
    s.nodeId == n.id && s.kind == n.kind &&
    match n.kind
    case CONDITION => s.result == WOULD_EXECUTE && Branches(g, inp, n, s, next)
    case WAIT_FOR_REPLY =>
      (match inp.wait
       case None => s.result == WAITING && s.reason == Some(WAIT_OUTCOME_REQUIRED) && Stops(s, next)
       case Some(REPLY) =>
         s.result == WOULD_EXECUTE && s.reason == Some(REPLY_SIMULATED) && Follows(g, n, WithOutput("reply"), s, next)
       case Some(TIMEOUT) =>
         s.result == WOULD_EXECUTE && s.reason == Some(TIMEOUT_SIMULATED) && Follows(g, n, WithOutput("timeout"), s, next))
    case EXTERNAL_HTTP_REQUEST =>
      (match inp.http
       case None => s.result == WAITING && s.reason == Some(HTTP_OUTCOME_REQUIRED) && Stops(s, next)
       case Some(SUCCESS) =>
         s.result == WOULD_EXECUTE && s.reason == Some(HTTP_SUCCESS_SIMULATED) && Follows(g, n, WithOutput("success"), s, next)
       case Some(FAILURE) =>
         s.result == WOULD_EXECUTE && s.reason == Some(HTTP_FAILURE_SIMULATED) && Follows(g, n, WithOutput("failure"), s, next))
    case STOP => s.result == COMPLETED && s.reason.None? && Stops(s, next)
    case DELAY => s.result == WOULD_EXECUTE && s.reason == Some(DELAY_SKIPPED_IN_TEST) && GoesOn(g, n, s, next)
    case _ => s.result == WOULD_EXECUTE && s.reason.None? && GoesOn(g, n, s, next)
  }

  // --- Every decision is right ---

  lemma LookupNames(nodes: seq<Node>, id: string, g: Graph)
    requires nodes == g.nodes
    ensures Named(g, id, Lookup(g.nodes, id))
  {
    LastOfId(nodes, id);
  }

  lemma {:induction false} LastOfId(nodes: seq<Node>, id: string)
    ensures match Lookup(nodes, id)
      case Some(n) => exists i :: 0 <= i < |nodes| && nodes[i] == n && n.id == id && forall j :: i < j < |nodes| ==> nodes[j].id != id
      case None => forall i :: 0 <= i < |nodes| ==> nodes[i].id != id
  {
    if nodes != [] && nodes[|nodes| - 1].id != id {
      LastOfId(nodes[..|nodes| - 1], id);
    }
  }

  /** Where a choice leads. */
  function Led(g: Graph, c: Choice): Option<Node> {
    if c.result == WAITING || c.selected.None? then None else Lookup(g.nodes, c.selected.value.to)
  }

  lemma EarliestSome(g: Graph, n: Node, ok: Edge -> bool) returns (i: nat)
    ensures var f := First(ByPriority(Outgoing(g.edges, n.id)), ok);
      && (f.None? <==> NoneLeaves(g.edges, n.id, ok))
      && (f.Some? ==> Earliest(g.edges, n.id, ok, i) && g.edges[i] == f.value)
  {
    i := FirstIsEarliest(g.edges, n.id, ok);
  }

  lemma FirstFollowed(g: Graph, n: Node, ok: Edge -> bool, c: Choice)
    requires c.selected == First(ByPriority(Outgoing(g.edges, n.id)), ok) && c.result != WAITING
    ensures Follows(g, n, ok, StepOf(n, c), Led(g, c))
  {
    var i := EarliestSome(g, n, ok);
    if c.selected.Some? {
      LookupNames(g.nodes, g.edges[i].to, g);
    }
  }

  lemma {:induction false} SameFirst(edges: seq<Edge>, p: Edge -> bool, q: Edge -> bool)
    requires forall e :: e in edges ==> p(e) == q(e)
    ensures First(edges, p) == First(edges, q)
  {
    if edges != [] && !p(edges[0]) {
      SameFirst(edges[1..], p, q);
    }
  }

  lemma {:induction false} FirstOfFilter(edges: seq<Edge>, p: Edge -> bool, q: Edge -> bool)
    ensures First(Filter(edges, p), q) == First(edges, (e: Edge) => p(e) && q(e))
  {
    if edges != [] {
      var rest := Filter(edges[1..], p);
      FirstOfFilter(edges[1..], p, q);
      assert ([edges[0]] + rest)[1..] == rest;
    }
  }

  lemma MatchesMeansSatisfied(e: Edge, n: Node, inp: Input)
    requires HasRules(e)
    ensures EdgeMatches(e, n, inp) <==> Satisfied(e, inp)
  {
    if e.conditionGroup.Some? {
      var rules := e.conditionGroup.value.rules;
      assert forall r :: r in rules <==> exists i :: 0 <= i < |rules| && rules[i] == r;
    }
  }


  lemma AnyRulesMeaning(g: Graph, n: Node)
    ensures AnyRules(g, n.id) <==> Filter(ByPriority(Outgoing(g.edges, n.id)), (e: Edge) => Configured(e)) != []
  {
    var out := ByPriority(Outgoing(g.edges, n.id));
    var configured := Filter(out, (e: Edge) => Configured(e));
    SortPermutes(Outgoing(g.edges, n.id));
    if configured != [] {
      var e := configured[0];
      assert e in configured && e in g.edges && e.from == n.id;
      var i :| 0 <= i < |g.edges| && g.edges[i] == e;
      assert HasRules(g.edges[i]);
    }
    if i :| 0 <= i < |g.edges| && g.edges[i].from == n.id && HasRules(g.edges[i]) {
      assert g.edges[i] in out && g.edges[i] in configured;
    }
  }

  lemma ConfiguredFirst(out: seq<Edge>, p: Edge -> bool, q: Edge -> bool, both: Edge -> bool)
    requires forall e :: e in out ==> both(e) == (p(e) && q(e))
    ensures First(Filter(out, p), q) == First(out, both)
  {
    FirstOfFilter(out, p, q);
    SameFirst(out, (e: Edge) => p(e) && q(e), both);
  }

  lemma MatchingFirst(out: seq<Edge>, n: Node, inp: Input)
    ensures First(Filter(out, (e: Edge) => Configured(e)), (e: Edge) => EdgeMatches(e, n, inp)) == First(out, WithRulesMet(inp))
  {
    var p, q := (e: Edge) => Configured(e), (e: Edge) => EdgeMatches(e, n, inp);
    forall e | e in out ensures WithRulesMet(inp)(e) == (p(e) && q(e)) {
      if HasRules(e) { MatchesMeansSatisfied(e, n, inp); }
    }
    ConfiguredFirst(out, p, q, WithRulesMet(inp));
  }

  lemma FallbackFirst(out: seq<Edge>)
    ensures First(out, (e: Edge) => !Configured(e)) == First(out, WithoutRules())
  {
    SameFirst(out, (e: Edge) => !Configured(e), WithoutRules());
  }

  lemma LegacyFirst(g: Graph, n: Node, inp: Input)
    requires !AnyRules(g, n.id) && n.legacyRule.Some?
    ensures First(ByPriority(Outgoing(g.edges, n.id)), (e: Edge) => EdgeMatches(e, n, inp)) ==
      if RuleMet(n.legacyRule.value, inp) then First(ByPriority(Outgoing(g.edges, n.id)), Any()) else None
  {
    var out := ByPriority(Outgoing(g.edges, n.id));
    SortPermutes(Outgoing(g.edges, n.id));
    forall e | e in out ensures EdgeMatches(e, n, inp) == RuleMet(n.legacyRule.value, inp) {
      assert e in g.edges && e.from == n.id;
      var i :| 0 <= i < |g.edges| && g.edges[i] == e;
      assert !HasRules(g.edges[i]);
    }
    if RuleMet(n.legacyRule.value, inp) {
      SameFirst(out, (e: Edge) => EdgeMatches(e, n, inp), Any());
    } else {
      SameFirst(out, (e: Edge) => EdgeMatches(e, n, inp), (e: Edge) => false);
      assert First(out, (e: Edge) => false).None?;
    }
  }

  lemma PlainFirst(g: Graph, n: Node)
    requires !AnyRules(g, n.id)
    ensures First(ByPriority(Outgoing(g.edges, n.id)), WithoutRules()) == First(ByPriority(Outgoing(g.edges, n.id)), Any())
  {
    var out := ByPriority(Outgoing(g.edges, n.id));
    SortPermutes(Outgoing(g.edges, n.id));
    forall e | e in out ensures WithoutRules()(e) {
      assert e in g.edges && e.from == n.id;
      var i :| 0 <= i < |g.edges| && g.edges[i] == e;
      assert !HasRules(g.edges[i]);
    }
    SameFirst(out, WithoutRules(), Any());
  }

  lemma RuledBranch(g: Graph, inp: Input, n: Node)
    requires n.kind == CONDITION && AnyRules(g, n.id)
    ensures var c := Decision(g, inp, n); c.result == WOULD_EXECUTE && Branches(g, inp, n, StepOf(n, c), Led(g, c))
  {
    var out := ByPriority(Outgoing(g.edges, n.id));
    var c := Decision(g, inp, n);
    AnyRulesMeaning(g, n);
    MatchingFirst(out, n, inp);
    FallbackFirst(out);
    var i := EarliestSome(g, n, WithRulesMet(inp));
    if First(out, WithRulesMet(inp)).Some? {
      assert HasRules(First(out, WithRulesMet(inp)).value);
      FirstFollowed(g, n, WithRulesMet(inp), c);
    } else {
      FirstFollowed(g, n, WithoutRules(), c);
      var j := EarliestSome(g, n, WithoutRules());
    }
  }

  lemma UnruledBranch(g: Graph, inp: Input, n: Node)
    requires n.kind == CONDITION && !AnyRules(g, n.id)
    ensures var c := Decision(g, inp, n); c.result == WOULD_EXECUTE && Branches(g, inp, n, StepOf(n, c), Led(g, c))
  {
    var out := ByPriority(Outgoing(g.edges, n.id));
    var c := Decision(g, inp, n);
    AnyRulesMeaning(g, n);
    if n.legacyRule.Some? {
      LegacyFirst(g, n, inp);
    } else {
      MatchingFirst(out, n, inp);
      FallbackFirst(out);
      PlainFirst(g, n);
    }
    var i := EarliestSome(g, n, Any());
    if n.legacyRule.None? || RuleMet(n.legacyRule.value, inp) {
      FirstFollowed(g, n, Any(), c);
    }
  }

  lemma FirstAny(edges: seq<Edge>)
    ensures First(edges, Any()) == if edges == [] then None else Some(edges[0])
  {}

  lemma DefaultFollowed(g: Graph, n: Node, c: Choice)
    requires c.selected == DefaultOrFirst(ByPriority(Outgoing(g.edges, n.id))) && c.result != WAITING
    ensures GoesOn(g, n, StepOf(n, c), Led(g, c))
  {
    var out := ByPriority(Outgoing(g.edges, n.id));
    SameFirst(out, (e: Edge) => e.output == "default", WithOutput("default"));
    FirstAny(out);
    var i := EarliestSome(g, n, WithOutput("default"));
    if First(out, WithOutput("default")).Some? {
      FirstFollowed(g, n, WithOutput("default"), c);
    } else {
      FirstFollowed(g, n, Any(), c);
    }
  }

  lemma PortFollowed(g: Graph, n: Node, port: string, c: Choice)
    requires c.selected == OnOutput(ByPriority(Outgoing(g.edges, n.id)), port) && c.result != WAITING
    ensures Follows(g, n, WithOutput(port), StepOf(n, c), Led(g, c))
  {
    SameFirst(ByPriority(Outgoing(g.edges, n.id)), (e: Edge) => e.output == port, WithOutput(port));
    FirstFollowed(g, n, WithOutput(port), c);
  }

  lemma DecisionObeys(g: Graph, inp: Input, n: Node)
    ensures var c := Decision(g, inp, n); Obeys(g, inp, n, StepOf(n, c), Led(g, c))
  {
    var c := Decision(g, inp, n);
    match n.kind
    case CONDITION => if AnyRules(g, n.id) { RuledBranch(g, inp, n); } else { UnruledBranch(g, inp, n); }
    case WAIT_FOR_REPLY =>
      if inp.wait.Some? { PortFollowed(g, n, if inp.wait.value == REPLY then "reply" else "timeout", c); }
    case EXTERNAL_HTTP_REQUEST =>
      if inp.http.Some? { PortFollowed(g, n, if inp.http.value == SUCCESS then "success" else "failure", c); }
    case STOP =>
    case _ => DefaultFollowed(g, n, c);
  }

  // --- Whole runs ---

  predicate FirstTriggerAt(nodes: seq<Node>, i: nat) {
    i < |nodes| && nodes[i].kind == INCOMING_MESSAGE && forall j :: 0 <= j < i ==> nodes[j].kind != INCOMING_MESSAGE
  }

  /** The first listed trigger, if there is one. */
  predicate FirstTrigger(g: Graph, start: Option<Node>) {
    match start
    case Some(n) => exists i :: 0 <= i < |g.nodes| && g.nodes[i] == n && FirstTriggerAt(g.nodes, i)
    case None => forall i :: 0 <= i < |g.nodes| ==> g.nodes[i].kind != INCOMING_MESSAGE
  }

  /** The walk from the first trigger, as far as the steps go; `nodes` has one entry more. */
  predicate Walked(g: Graph, inp: Input, nodes: seq<Option<Node>>, steps: seq<Step>) {
    && |nodes| == |steps| + 1 && FirstTrigger(g, nodes[0])
    && forall k :: 0 <= k < |steps| ==> nodes[k].Some? && Obeys(g, inp, nodes[k].value, steps[k], nodes[k + 1])
  }

  predicate NeverWaits(steps: seq<Step>) {
    forall k :: 0 <= k < |steps| ==> steps[k].result != WAITING
  }

  /** What each kind of outcome says of the walk. */
  predicate Reports(nodes: seq<Option<Node>>, steps: seq<Step>, r: Outcome)
    requires |nodes| == |steps| + 1
  {
    match r
    case Finished(shown) => steps == shown && |shown| < 100 && NeverWaits(shown) && nodes[|shown|].None?
    case Suspended(shown) =>
      steps == shown && 0 < |shown| <= 100 && NeverWaits(shown[..|shown| - 1]) && shown[|shown| - 1].result == WAITING
    case BudgetExhausted => |steps| == 100 && NeverWaits(steps)
  }

  lemma {:induction false} FirstOfFilterIsFirst(nodes: seq<Node>)
    ensures var triggers := Filter(nodes, (n: Node) => IsTrigger(n));
      if triggers == [] then forall i :: 0 <= i < |nodes| ==> nodes[i].kind != INCOMING_MESSAGE
      else exists i :: 0 <= i < |nodes| && nodes[i] == triggers[0] && FirstTriggerAt(nodes, i)
  {
    if nodes != [] && nodes[0].kind != INCOMING_MESSAGE {
      FirstOfFilterIsFirst(nodes[1..]);
      var triggers := Filter(nodes[1..], (n: Node) => IsTrigger(n));
      if triggers == [] {
        forall i | 0 <= i < |nodes| ensures nodes[i].kind != INCOMING_MESSAGE {
          if i > 0 { assert nodes[1..][i - 1] == nodes[i]; }
        }
      } else {
        var i :| 0 <= i < |nodes[1..]| && nodes[1..][i] == triggers[0] && FirstTriggerAt(nodes[1..], i);
        assert nodes[i + 1] == triggers[0];
        forall j | 0 <= j < i + 1 ensures nodes[j].kind != INCOMING_MESSAGE {
          if j > 0 { assert nodes[1..][j - 1] == nodes[j]; }
        }
      }
    }
  }

  lemma StartIsFirst(g: Graph)
    ensures FirstTrigger(g, Start(g))
  {
    FirstOfFilterIsFirst(g.nodes);
  }

  lemma WalkObeys(g: Graph, inp: Input, k: nat)
    requires At(PlanOf(g, inp), k).Some?
    ensures var n := At(PlanOf(g, inp), k).value;
      Obeys(g, inp, n, StepOf(n, Decision(g, inp, n)), At(PlanOf(g, inp), k + 1))
  {
    DecisionObeys(g, inp, At(PlanOf(g, inp), k).value);
  }

  function NodesOf(p: Plan, count: nat): seq<Option<Node>> {
    seq(count + 1, k requires 0 <= k <= count => At(p, k))
  }

  function StepAt(p: Plan, k: nat): Step
    requires At(p, k).Some?
  {
    StepOf(At(p, k).value, p.decide(At(p, k).value))
  }

  function StepsOf(p: Plan, count: nat): seq<Step>
    requires forall k :: 0 <= k < count ==> At(p, k).Some?
  {
    seq(count, k requires 0 <= k < count => StepAt(p, k))
  }

  lemma PlanWalked(g: Graph, inp: Input, count: nat)
    requires forall k :: 0 <= k < count ==> At(PlanOf(g, inp), k).Some?
    ensures Walked(g, inp, NodesOf(PlanOf(g, inp), count), StepsOf(PlanOf(g, inp), count))
  {
    var p := PlanOf(g, inp);
    StartIsFirst(g);
    forall k | 0 <= k < count ensures Obeys(g, inp, At(p, k).value, StepAt(p, k), At(p, k + 1)) {
      WalkObeys(g, inp, k);
    }
  }

  lemma StepGoesOn(p: Plan, k: nat)
    requires At(p, k).Some? && At(p, k + 1).Some?
    ensures StepAt(p, k).result != WAITING
  {
    assert At(p, k + 1) == Target(p, At(p, k).value);
  }

  lemma PlanReports(p: Plan, r: Outcome)
    requires Describes(p, r) && forall k :: 0 <= k < Length(r) ==> At(p, k).Some?
    ensures Reports(NodesOf(p, Length(r)), StepsOf(p, Length(r)), r)
  {
    forall k | 0 <= k < Length(r) - 1 ensures StepAt(p, k).result != WAITING {
      StepGoesOn(p, k);
    }
  }

  /** Whatever the simulator answers is what a walk by these rules calls for. */
  lemma SimulationObeys(g: Graph, inp: Input, r: Outcome) returns (nodes: seq<Option<Node>>, steps: seq<Step>)
    requires Describes(PlanOf(g, inp), r)
    ensures Walked(g, inp, nodes, steps) && Reports(nodes, steps, r)
  {
    var p := PlanOf(g, inp);
    forall k | 0 <= k < Length(r) ensures At(p, k).Some? {
      WalkEnds(p, r, k);
    }
    PlanWalked(g, inp, Length(r));
    PlanReports(p, r);
    nodes, steps := NodesOf(p, Length(r)), StepsOf(p, Length(r));
  }
}
