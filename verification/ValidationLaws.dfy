/**
  The validator's errors, said of the listed nodes and edges: what has to stand in the
  graph for each of them to be reported.
*/
module ValidationLaws {
  import opened Collections
  import opened ScenarioGraph
  import opened CycleCheck
  import opened GraphValidation

  predicate NodeExists(g: Graph, id: string) {
    exists i :: 0 <= i < |g.nodes| && g.nodes[i].id == id
  }

  predicate Joins(g: Graph, k: nat) {
    k < |g.edges| && NodeExists(g, g.edges[k].from) && NodeExists(g, g.edges[k].to)
  }

  /** The k-th edge leaves the node, and both its ends exist. */
  predicate Leaving(g: Graph, k: nat, id: string) {
    Joins(g, k) && g.edges[k].from == id
  }

  predicate SomeLeaves(g: Graph, id: string, p: Edge -> bool) {
    exists k :: 0 <= k < |g.edges| && Leaving(g, k, id) && p(g.edges[k])
  }

  /** Two different entries of the list leave the node and are in this relation. */
  predicate TwoLeave(g: Graph, id: string, related: (Edge, Edge) -> bool) {
    exists j, k :: 0 <= j < k < |g.edges| && Leaving(g, j, id) && Leaving(g, k, id) && related(g.edges[j], g.edges[k])
  }

  function Whatever<T>(): T -> bool {
    (x: T) => true
  }

  function To(port: string): Edge -> bool {
    (e: Edge) => e.output == port
  }

  function Unranked(): Edge -> bool {
    (e: Edge) => e.priority == None
  }

  function OnePort(port: string): (Edge, Edge) -> bool {
    (a: Edge, b: Edge) => a.output == port == b.output
  }

  function OnePriority(): (Edge, Edge) -> bool {
    (a: Edge, b: Edge) => a.priority == b.priority
  }

  predicate Bare(e: Edge) {
    e.condition == None && e.conditionGroup == None
  }

  function NotBare(): Edge -> bool {
    (e: Edge) => !Bare(e)
  }

  function BothBare(): (Edge, Edge) -> bool {
    (a: Edge, b: Edge) => Bare(a) && Bare(b)
  }

  predicate NotOneOn(g: Graph, id: string, port: string) {
    !SomeLeaves(g, id, To(port)) || TwoLeave(g, id, OnePort(port))
  }

  predicate Incomplete(r: Rule) {
    r.value == None && !(r.operator == "exists" || r.operator == "not_exists")
  }

  /** A rule of the edge's group, or without a group its one condition. */
  predicate HasIncompleteRule(e: Edge) {
    match (e.conditionGroup, e.condition)
    case (Some(group), _) => exists k :: 0 <= k < |group.rules| && Incomplete(group.rules[k])
    case (None, Some(r)) => Incomplete(r)
    case (None, None) => false
  }

  predicate EdgeAt(g: Graph, k: nat, e: Edge, joined: bool) {
    k < |g.edges| && g.edges[k] == e && Joins(g, k) == joined
  }

  predicate NodeAt(g: Graph, i: nat, id: string) {
    i < |g.nodes| && g.nodes[i].id == id
  }

  predicate StartsAt(g: Graph, i: nat) {
    i < |g.nodes| && g.nodes[i].kind == INCOMING_MESSAGE
  }

  predicate OneStart(g: Graph) {
    exists i :: 0 <= i < |g.nodes| && StartsAt(g, i) && forall j :: 0 <= j < |g.nodes| && StartsAt(g, j) ==> j == i
  }

  /** A path of ids, each joined to the next by an edge of the list. */
  predicate Joined(g: Graph, a: string, b: string) {
    exists k :: 0 <= k < |g.edges| && Leaving(g, k, a) && g.edges[k].to == b
  }

  predicate IsPath(g: Graph, p: seq<string>) {
    |p| > 0 && forall i :: 0 <= i < |p| - 1 ==> Joined(g, p[i], p[i + 1])
  }

  /** A path leads to the node from one that starts the scenario. */
  ghost predicate Found(g: Graph, id: string) {
    exists i: nat, p: seq<string> :: StartsAt(g, i) && IsPath(g, p) && p[0] == g.nodes[i].id && p[|p| - 1] == id
  }

  ghost predicate Reported(g: Graph, issue: Issue) {
    match issue
    case UnknownEnd(e) => exists k: nat :: EdgeAt(g, k, e, false)
    case MissingValue(e) => HasIncompleteRule(e) && exists k: nat :: EdgeAt(g, k, e, true)
    case TwoConditionFormats(e) => e.condition != None && e.conditionGroup != None && exists k: nat :: EdgeAt(g, k, e, true)
    case TriggerCount => !OneStart(g)
    case TriggerWithoutPath => exists i: nat :: StartsAt(g, i) && !SomeLeaves(g, g.nodes[i].id, Whatever())
    case Unreachable(id) => NodeExists(g, id) && !Found(g, id)
    case SharedPort(id, port) =>
      && TwoLeave(g, id, OnePort(port))
      && exists i: nat :: NodeAt(g, i, id) && g.nodes[i].kind != CONDITION
    case MissingPriority(id) =>
      SomeLeaves(g, id, Unranked()) && exists i: nat :: NodeAt(g, i, id) && g.nodes[i].kind == CONDITION
    case DuplicatePriority(id) =>
      && TwoLeave(g, id, OnePriority())
      && exists i: nat :: NodeAt(g, i, id) && g.nodes[i].kind == CONDITION
    case ManyFallbacks(id) =>
      && SomeLeaves(g, id, NotBare()) && TwoLeave(g, id, BothBare())
      && exists i: nat :: NodeAt(g, i, id) && g.nodes[i].kind == CONDITION
    case InvalidConfig(id) => exists i: nat :: NodeAt(g, i, id) && !g.nodes[i].configOk
    case HttpPaths(id) =>
      && (NotOneOn(g, id, "success") || NotOneOn(g, id, "failure"))
      && exists i: nat :: NodeAt(g, i, id) && g.nodes[i].kind == EXTERNAL_HTTP_REQUEST
    case UnguardedCycleFound => HasUnguardedCycle(g)
  }

  // --- Lists and what is filtered from them ---

  predicate Pair<T>(s: seq<T>, p: T -> bool, related: (T, T) -> bool) {
    exists j, k :: 0 <= j < k < |s| && p(s[j]) && p(s[k]) && related(s[j], s[k])
  }

  function AnyTwo<T>(): (T, T) -> bool {
    (a: T, b: T) => true
  }

  lemma PairTail<T>(s: seq<T>, p: T -> bool, related: (T, T) -> bool)
    requires s != []
    ensures Pair(s, p, related) <==>
      Pair(s[1..], p, related) || (p(s[0]) && exists x :: x in s[1..] && p(x) && related(s[0], x))
  {
    if j, k :| 0 <= j < k < |s| && p(s[j]) && p(s[k]) && related(s[j], s[k]) {
      assert s[k] == s[1..][k - 1] && s[k] in s[1..];
      if j > 0 {
        assert s[j] == s[1..][j - 1];
      }
    }
    if j, k :| 0 <= j < k < |s[1..]| && p(s[1..][j]) && p(s[1..][k]) && related(s[1..][j], s[1..][k]) {
      assert s[1..][j] == s[j + 1] && s[1..][k] == s[k + 1];
    }
    if x :| x in s[1..] && p(x) && related(s[0], x) && p(s[0]) {
      var k :| 0 <= k < |s[1..]| && s[1..][k] == x;
      assert s[k + 1] == x;
    }
  }

  /** Filtering keeps the order, so it keeps pairs. */
  lemma {:induction false} PairsKept<T(!new)>(s: seq<T>, p: T -> bool, q: T -> bool, related: (T, T) -> bool)
    ensures Pair(Filter(s, p), q, related) <==> Pair(s, (x: T) => p(x) && q(x), related)
  {
    if s != [] {
      var rest := Filter(s[1..], p);
      PairsKept(s[1..], p, q, related);
      PairTail(s, (x: T) => p(x) && q(x), related);
      if p(s[0]) {
        assert Filter(s, p) == [s[0]] + rest && Filter(s, p)[1..] == rest;
        PairTail(Filter(s, p), q, related);
      }
    }
  }

  lemma {:induction false} TwoFiltered<T(!new)>(s: seq<T>, p: T -> bool)
    ensures |Filter(s, p)| > 1 <==> Pair(s, p, AnyTwo())
    ensures |Filter(s, p)| > 0 <==> exists x :: x in s && p(x)
  {
    if s != [] {
      var rest := Filter(s[1..], p);
      TwoFiltered(s[1..], p);
      PairTail(s, p, AnyTwo());
      assert s == [s[0]] + s[1..];
      if |rest| > 0 {
        assert rest[0] in rest;
      }
    }
  }

  // --- Nodes and edges ---

  lemma NodeExistsIff(g: Graph, id: string)
    ensures NodeExists(g, id) <==> id in Ids(g)
  {
    if n :| n in g.nodes && n.id == id {
      var i :| 0 <= i < |g.nodes| && g.nodes[i] == n;
    }
  }

  lemma JoinsIff(g: Graph, k: nat)
    requires k < |g.edges|
    ensures Joins(g, k) <==> Known(g, g.edges[k])
  {
    NodeExistsIff(g, g.edges[k].from);
    NodeExistsIff(g, g.edges[k].to);
  }

  lemma LeavingIff(g: Graph, k: nat, id: string)
    requires k < |g.edges|
    ensures Leaving(g, k, id) <==> Known(g, g.edges[k]) && g.edges[k].from == id
  {
    JoinsIff(g, k);
  }

  lemma SomeLeavesIff(g: Graph, id: string, p: Edge -> bool)
    ensures SomeLeaves(g, id, p) <==> exists e :: e in Out(g, id) && p(e)
  {
    if k :| 0 <= k < |g.edges| && Leaving(g, k, id) && p(g.edges[k]) {
      LeavingIff(g, k, id);
      assert g.edges[k] in Out(g, id);
    }
    if e :| e in Out(g, id) && p(e) {
      var k :| 0 <= k < |g.edges| && g.edges[k] == e;
      LeavingIff(g, k, id);
    }
  }

  lemma PairsAlike<T>(s: seq<T>, p: T -> bool, q: T -> bool, r: (T, T) -> bool, t: (T, T) -> bool)
    requires forall a, b :: a in s && b in s ==> (p(a) && p(b) && r(a, b) <==> q(a) && q(b) && t(a, b))
    ensures Pair(s, p, r) <==> Pair(s, q, t)
  {
    if j, k :| 0 <= j < k < |s| && p(s[j]) && p(s[k]) && r(s[j], s[k]) {
      assert s[j] in s && s[k] in s;
    }
    if j, k :| 0 <= j < k < |s| && q(s[j]) && q(s[k]) && t(s[j], s[k]) {
      assert s[j] in s && s[k] in s;
    }
  }

  function From(id: string): Edge -> bool {
    (e: Edge) => e.from == id
  }

  function KnownIn(g: Graph): Edge -> bool {
    (e: Edge) => Known(g, e)
  }

  lemma PairsInFilter<T(!new)>(s: seq<T>, p: T -> bool, related: (T, T) -> bool)
    ensures Pair(Filter(s, p), Whatever(), related) <==> Pair(s, p, related)
  {
    PairsKept(s, p, Whatever<T>(), related);
    PairsAlike(s, (x: T) => p(x) && Whatever<T>()(x), p, related, related);
  }

  lemma PairsTwice<T(!new)>(s: seq<T>, p: T -> bool, q: T -> bool, related: (T, T) -> bool)
    ensures Pair(Filter(Filter(s, p), q), Whatever(), related) <==> Pair(s, (x: T) => p(x) && q(x), related)
  {
    PairsInFilter(Filter(s, p), q, related);
    PairsKept(s, p, q, related);
  }

  lemma OutIs(g: Graph, id: string)
    ensures Out(g, id) == Filter(Filter(g.edges, KnownIn(g)), From(id))
  {
    FilterAlike(g.edges, (e: Edge) => Known(g, e), KnownIn(g));
    FilterAlike(KnownEdges(g), (e: Edge) => e.from == id, From(id));
  }

  lemma PairOfOut(g: Graph, id: string, related: (Edge, Edge) -> bool)
    ensures Pair(Out(g, id), Whatever(), related) <==> Pair(g.edges, LeavesKnown(g, id), related)
  {
    OutIs(g, id);
    PairsTwice(g.edges, KnownIn(g), From(id), related);
    PairsAlike(g.edges, (e: Edge) => KnownIn(g)(e) && From(id)(e), LeavesKnown(g, id), related, related);
  }

  function LeavesKnown(g: Graph, id: string): Edge -> bool {
    (e: Edge) => Known(g, e) && e.from == id
  }

  lemma {:induction false} FilterAlike<T(!new)>(s: seq<T>, p: T -> bool, q: T -> bool)
    requires forall x :: x in s ==> p(x) == q(x)
    ensures Filter(s, p) == Filter(s, q)
  {
    if s != [] {
      FilterAlike(s[1..], p, q);
    }
  }

  lemma TwoLeaveIff(g: Graph, id: string, related: (Edge, Edge) -> bool)
    ensures TwoLeave(g, id, related) <==> Pair(Out(g, id), Whatever(), related)
  {
    var leaves := LeavesKnown(g, id);
    PairOfOut(g, id, related);
    if j, k :| 0 <= j < k < |g.edges| && Leaving(g, j, id) && Leaving(g, k, id) && related(g.edges[j], g.edges[k]) {
      LeavingIff(g, j, id);
      LeavingIff(g, k, id);
      assert leaves(g.edges[j]) && leaves(g.edges[k]);
    }
    if j, k :| 0 <= j < k < |g.edges| && leaves(g.edges[j]) && leaves(g.edges[k]) && related(g.edges[j], g.edges[k]) {
      LeavingIff(g, j, id);
      LeavingIff(g, k, id);
    }
  }

  // --- What is wrong with one node ---

  lemma SharedIff(g: Graph, id: string, port: string)
    ensures SharesPort(Out(g, id), port) <==> TwoLeave(g, id, OnePort(port))
  {
    var on := (e: Edge) => e.output == port;
    TwoFiltered(Out(g, id), on);
    PairsAlike(Out(g, id), on, Whatever<Edge>(), AnyTwo(), OnePort(port));
    TwoLeaveIff(g, id, OnePort(port));
  }

  lemma OneOnIff(g: Graph, id: string, port: string)
    ensures |OnPort(Out(g, id), port)| != 1 <==> NotOneOn(g, id, port)
  {
    var on := To(port);
    TwoFiltered(Out(g, id), on);
    SharedIff(g, id, port);
    SomeLeavesIff(g, id, on);
  }

  lemma PrioritiesIff(g: Graph, id: string)
    ensures !Distinct(Priorities(Out(g, id))) <==> TwoLeave(g, id, OnePriority())
  {
    var same := OnePriority();
    TwoLeaveIff(g, id, same);
    var out := Out(g, id);
    if j, k :| 0 <= j < k < |out| && same(out[j], out[k]) {
      assert Priorities(out)[j] == Priorities(out)[k];
    }
    if j, k :| 0 <= j < k < |out| && Priorities(out)[j] == Priorities(out)[k] {
      assert Whatever<Edge>()(out[j]) && Whatever<Edge>()(out[k]) && same(out[j], out[k]);
    }
  }

  lemma BarePairs(edges: seq<Edge>, bare: Edge -> bool)
    requires forall e :: bare(e) <==> Bare(e)
    ensures Pair(edges, bare, AnyTwo()) <==> Pair(edges, Whatever(), BothBare())
  {
    PairsAlike(edges, bare, Whatever<Edge>(), AnyTwo<Edge>(), BothBare());
  }

  lemma FallbacksIff(g: Graph, id: string)
    ensures |Fallbacks(Out(g, id))| > 1 <==> TwoLeave(g, id, BothBare())
  {
    var bare := (e: Edge) => !Configured(e);
    TwoFiltered(Out(g, id), bare);
    BarePairs(Out(g, id), bare);
    TwoLeaveIff(g, id, BothBare());
  }

  lemma MissingIff(g: Graph, id: string)
    ensures SomeLeaves(g, id, Unranked()) <==> exists e :: e in Out(g, id) && e.priority.None?
  {
    SomeLeavesIff(g, id, Unranked());
  }

  lemma ConfiguredIff(g: Graph, id: string)
    ensures SomeLeaves(g, id, NotBare()) <==> exists e :: e in Out(g, id) && Configured(e)
  {
    SomeLeavesIff(g, id, NotBare());
  }

  function IssueNode(issue: Issue): Option<string> {
    match issue
    case SharedPort(id, _) => Some(id)
    case MissingPriority(id) => Some(id)
    case DuplicatePriority(id) => Some(id)
    case ManyFallbacks(id) => Some(id)
    case InvalidConfig(id) => Some(id)
    case HttpPaths(id) => Some(id)
    case _ => None
  }

  /** What is reported of the node, apart from which node it is. */
  predicate SaidOf(g: Graph, n: Node, issue: Issue) {
    match issue
    case SharedPort(id, port) => n.kind != CONDITION && TwoLeave(g, id, OnePort(port))
    case MissingPriority(id) => n.kind == CONDITION && SomeLeaves(g, id, Unranked())
    case DuplicatePriority(id) => n.kind == CONDITION && TwoLeave(g, id, OnePriority())
    case ManyFallbacks(id) =>
      n.kind == CONDITION && SomeLeaves(g, id, NotBare()) && TwoLeave(g, id, BothBare())
    case InvalidConfig(_) => !n.configOk
    case HttpPaths(id) => n.kind == EXTERNAL_HTTP_REQUEST && (NotOneOn(g, id, "success") || NotOneOn(g, id, "failure"))
    case _ => false
  }

  lemma SaidIff(g: Graph, n: Node, issue: Issue)
    requires IssueNode(issue).Some?
    ensures NodeIssue(n, Out(g, n.id), issue) <==> n.id == IssueNode(issue).value && SaidOf(g, n, issue)
  {
    match issue
    case SharedPort(_, port) => SharedIff(g, n.id, port);
    case MissingPriority(_) => MissingIff(g, n.id);
    case DuplicatePriority(_) => PrioritiesIff(g, n.id);
    case ManyFallbacks(_) => FallbacksIff(g, n.id); ConfiguredIff(g, n.id);
    case HttpPaths(_) => OneOnIff(g, n.id, "success"); OneOnIff(g, n.id, "failure");
    case _ =>
  }

  lemma NodeReported(g: Graph, issue: Issue)
    requires IssueNode(issue).Some?
    ensures Holds(g, issue) <==> exists i: nat :: NodeAt(g, i, IssueNode(issue).value) && SaidOf(g, g.nodes[i], issue)
  {
    if n :| n in g.nodes && NodeIssue(n, Out(g, n.id), issue) {
      var i :| 0 <= i < |g.nodes| && g.nodes[i] == n;
      SaidIff(g, n, issue);
      assert NodeAt(g, i, IssueNode(issue).value);
    }
    if i: nat :| NodeAt(g, i, IssueNode(issue).value) && SaidOf(g, g.nodes[i], issue) {
      SaidIff(g, g.nodes[i], issue);
      assert g.nodes[i] in g.nodes;
    }
  }

  // --- Edges, starts and paths ---

  lemma RulesIff(e: Edge)
    ensures HasIncompleteRule(e) <==> exists r :: r in Rules(e) && LacksValue(r)
  {
    if HasIncompleteRule(e) {
      if e.conditionGroup.Some? {
        var rules := e.conditionGroup.value.rules;
        var k :| 0 <= k < |rules| && Incomplete(rules[k]);
        assert rules[k] in Rules(e);
      } else {
        assert e.condition.value in Rules(e);
      }
    }
    if r :| r in Rules(e) && LacksValue(r) {
      var k :| 0 <= k < |Rules(e)| && Rules(e)[k] == r;
    }
  }

  lemma EdgeReported(g: Graph, issue: Issue)
    requires issue.UnknownEnd? || issue.MissingValue? || issue.TwoConditionFormats?
    ensures Holds(g, issue) <==> Reported(g, issue)
  {
    var e := issue.edge;
    RulesIff(e);
    if e in g.edges {
      var k :| 0 <= k < |g.edges| && g.edges[k] == e;
      JoinsIff(g, k);
      assert EdgeAt(g, k, e, Known(g, e));
    }
    if k: nat, joined: bool :| EdgeAt(g, k, e, joined) {
      JoinsIff(g, k);
    }
    forall k: nat, joined: bool | EdgeAt(g, k, e, joined) ensures joined == Known(g, e) && e in g.edges {
      JoinsIff(g, k);
    }
  }

  predicate TwoStart(g: Graph) {
    exists j, k :: 0 <= j < k < |g.nodes| && StartsAt(g, j) && StartsAt(g, k)
  }

  predicate SomeStart(g: Graph) {
    exists i :: 0 <= i < |g.nodes| && StartsAt(g, i)
  }

  lemma OneStartIff(g: Graph)
    ensures OneStart(g) <==> SomeStart(g) && !TwoStart(g)
  {
    if SomeStart(g) && !TwoStart(g) {
      var i :| 0 <= i < |g.nodes| && StartsAt(g, i);
      forall j | 0 <= j < |g.nodes| && StartsAt(g, j) ensures j == i {
        assert !(i < j) && !(j < i);
      }
    }
  }

  lemma TriggersIff(g: Graph)
    ensures |Triggers(g)| > 1 <==> TwoStart(g)
    ensures |Triggers(g)| > 0 <==> SomeStart(g)
  {
    var starts := (n: Node) => IsTrigger(n);
    TwoFiltered(g.nodes, starts);
    assert Triggers(g) == Filter(g.nodes, starts);
    if j, k :| 0 <= j < k < |g.nodes| && StartsAt(g, j) && StartsAt(g, k) {
      assert starts(g.nodes[j]) && starts(g.nodes[k]) && AnyTwo<Node>()(g.nodes[j], g.nodes[k]);
    }
    if j, k :| 0 <= j < k < |g.nodes| && starts(g.nodes[j]) && starts(g.nodes[k]) {
      assert StartsAt(g, j) && StartsAt(g, k);
    }
    if i :| 0 <= i < |g.nodes| && StartsAt(g, i) {
      assert g.nodes[i] in g.nodes && starts(g.nodes[i]);
    }
    if n :| n in g.nodes && starts(n) {
      var i :| 0 <= i < |g.nodes| && g.nodes[i] == n;
      assert StartsAt(g, i);
    }
  }

  lemma StartsReported(g: Graph)
    ensures |Triggers(g)| != 1 <==> !OneStart(g)
  {
    OneStartIff(g);
    TriggersIff(g);
  }

  lemma PathlessReported(g: Graph)
    ensures Holds(g, TriggerWithoutPath) <==> Reported(g, TriggerWithoutPath)
  {
    forall n | n in g.nodes ensures Out(g, n.id) == [] <==> !SomeLeaves(g, n.id, Whatever()) {
      SomeLeavesIff(g, n.id, Whatever());
      if Out(g, n.id) != [] {
        assert Out(g, n.id)[0] in Out(g, n.id);
      }
    }
    if n :| n in g.nodes && IsTrigger(n) && Out(g, n.id) == [] {
      var i :| 0 <= i < |g.nodes| && g.nodes[i] == n;
      assert StartsAt(g, i);
    }
    if i: nat :| StartsAt(g, i) && !SomeLeaves(g, g.nodes[i].id, Whatever()) {
      assert g.nodes[i] in g.nodes;
    }
  }

  lemma JoinedIff(g: Graph, a: string, b: string)
    ensures Joined(g, a, b) <==> HasEdge(g, a, b)
  {
    HasEdgeMeaning(g, a, b);
    if k :| 0 <= k < |g.edges| && Leaving(g, k, a) && g.edges[k].to == b {
      LeavingIff(g, k, a);
      assert g.edges[k] in g.edges;
    }
    if e :| e in g.edges && Known(g, e) && e.from == a && e.to == b {
      var k :| 0 <= k < |g.edges| && g.edges[k] == e;
      LeavingIff(g, k, a);
    }
  }

  lemma FoundIff(g: Graph, id: string)
    ensures Found(g, id) <==> Reached(g, id)
  {
    forall a, b ensures Joined(g, a, b) <==> HasEdge(g, a, b) {
      JoinedIff(g, a, b);
    }
    forall p: seq<string> | |p| > 0 ensures IsPath(g, p) <==> Chain(g, p) {}
    if i: nat, p: seq<string> :| StartsAt(g, i) && IsPath(g, p) && p[0] == g.nodes[i].id && p[|p| - 1] == id {
      assert g.nodes[i] in g.nodes && WalkBetween(g, p, g.nodes[i].id, id);
    }
    if t :| t in g.nodes && IsTrigger(t) && Reaches(g, t.id, id) {
      var i :| 0 <= i < |g.nodes| && g.nodes[i] == t;
      var p :| WalkBetween(g, p, t.id, id);
      assert StartsAt(g, i) && IsPath(g, p);
    }
  }

  lemma NodeIssueReported(g: Graph, issue: Issue)
    requires IssueNode(issue).Some?
    ensures Holds(g, issue) <==> Reported(g, issue)
  {
    NodeReported(g, issue);
    var id := IssueNode(issue).value;
    if Reported(g, issue) {
      var i: nat :| NodeAt(g, i, id) && SaidOf(g, g.nodes[i], issue);
    }
  }

  /** The list of errors says exactly this of the graph. */
  lemma HoldsIffReported(g: Graph, issue: Issue)
    ensures Holds(g, issue) <==> Reported(g, issue)
  {
    match issue
    case TriggerCount => StartsReported(g);
    case TriggerWithoutPath => PathlessReported(g);
    case Unreachable(id) => NodeExistsIff(g, id); FoundIff(g, id);
    case UnguardedCycleFound =>
    case _ =>
      if IssueNode(issue).Some? { NodeIssueReported(g, issue); } else { EdgeReported(g, issue); }
  }

  /** The nodes that suspend a run: of several with one id the last listed decides. */
  lemma GuardMeans(g: Graph, id: string)
    ensures Guard(g, id) <==>
      exists i: nat :: NodeAt(g, i, id) && (forall j: nat :: i < j ==> !NodeAt(g, j, id))
        && (g.nodes[i].kind == DELAY || g.nodes[i].kind == WAIT_FOR_REPLY)
  {
    var i := LastOf(g.nodes, id);
    if i < |g.nodes| {
      assert NodeAt(g, i, id) && forall j: nat :: i < j ==> !NodeAt(g, j, id);
    }
  }

  lemma {:induction false} LastOf(nodes: seq<Node>, id: string) returns (i: nat)
    ensures i < |nodes| ==> nodes[i].id == id && Lookup(nodes, id) == Some(nodes[i])
    ensures forall j :: i < j < |nodes| ==> nodes[j].id != id
    ensures i >= |nodes| ==> Lookup(nodes, id).None? && forall j :: 0 <= j < |nodes| ==> nodes[j].id != id
  {
    if nodes == [] || nodes[|nodes| - 1].id == id {
      i := if nodes == [] then 0 else |nodes| - 1;
    } else {
      i := LastOf(nodes[..|nodes| - 1], id);
      if i >= |nodes| - 1 {
        i := |nodes|;
      }
    }
  }
}
