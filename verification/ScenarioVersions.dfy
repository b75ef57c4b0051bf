/**
  Scenario drafts and published versions (`automation.service.ts`).

  Every call reads the scenario first and writes later in one transaction. A step below
  is one read or one transaction, so calls may interleave; an atomic call is a read
  followed at once by its transaction. Each write of a scenario row gets a timestamp
  later than every one before it.
*/
module ScenarioVersions {
  import opened Collections
  import ScenarioGraph
  import GraphValidation

  type Uuid = nat

  type Graph = ScenarioGraph.Graph

  /** What the validator accepts. */
  type GraphCheck = Graph -> bool

  datatype VersionStatus = DRAFT | PUBLISHED | SUPERSEDED

  datatype ScenarioStatus = NEW | LIVE | PAUSED | ARCHIVED

  datatype Version = Version(
    scenario: Uuid,
    number: nat,
    status: VersionStatus,
    graph: Graph,
    hash: Uuid,
    compiled: Option<Graph>)

  datatype Scenario = Scenario(
    draft: Option<Uuid>,
    active: Option<Uuid>,
    status: ScenarioStatus,
    updatedAt: nat)

  /** What a call has read and will act on in its transaction. */
  datatype Call =
    | Updating(scenario: Uuid, draft: Option<Uuid>, graph: Graph, expected: Option<nat>, readAt: nat)
    | Publishing(scenario: Uuid, target: Uuid, active: Option<Uuid>, graph: Graph)

  datatype Store = Store(
    scenarios: map<Uuid, Scenario>,
    versions: map<Uuid, Version>,
    clock: nat,
    calls: map<Uuid, Call>)

  datatype Step =
    | Create(scenario: Uuid, version: Uuid, graph: Graph, hash: Uuid)
    | ReadForUpdate(call: Uuid, scenario: Uuid, replacement: Option<Graph>, expected: Option<nat>)
    | CommitUpdate(call: Uuid, version: Uuid, number: nat, hash: Uuid)
    | ReadForPublish(call: Uuid, scenario: Uuid)
    | CommitPublish(call: Uuid)
    | SetStatus(scenario: Uuid, live: bool)
    | Archive(scenario: Uuid)

  const Blank := Store(map[], map[], 0, map[])

  /** `max(version) + 1` over the versions of the scenario, or 1. */
  predicate NextNumber(versions: map<Uuid, Version>, scenario: Uuid, n: nat) {
    && n > 0
    && (forall v :: v in versions && versions[v].scenario == scenario ==> versions[v].number < n)
    && (n > 1 ==> exists v :: v in versions && versions[v].scenario == scenario && versions[v].number == n - 1)
  }

  /** The unique index on scenario and content hash. */
  predicate HashTaken(versions: map<Uuid, Version>, scenario: Uuid, self: Uuid, hash: Uuid) {
    exists v :: v in versions && v != self && versions[v].scenario == scenario && versions[v].hash == hash
  }

  function Finish(s: Store, call: Uuid): Store {
    s.(calls := s.calls - {call})
  }

  /** A write of the scenario row, which also moves its `updatedAt`. */
  function Touch(s: Store, id: Uuid, row: Scenario): Store {
    s.(scenarios := s.scenarios[id := row.(updatedAt := s.clock + 1)], clock := s.clock + 1)
  }

  function DraftGraph(s: Store, id: Uuid): Option<Graph> {
    if id in s.scenarios && s.scenarios[id].draft.Some? && s.scenarios[id].draft.value in s.versions
    then Some(s.versions[s.scenarios[id].draft.value].graph) else None
  }

  /** The version row the update writes. */
  function Written(s: Store, c: Call, version: Uuid, number: nat, hash: Uuid): (Uuid, Version)
    requires c.Updating? && (c.draft.Some? ==> c.draft.value in s.versions)
  {
    match c.draft
    case Some(d) => (d, s.versions[d].(graph := c.graph, hash := hash))
    case None => (version, Version(c.scenario, number, DRAFT, c.graph, hash, None))
  }

  predicate UpdateCommits(s: Store, c: Call, version: Uuid, number: nat, hash: Uuid) {
    && c.Updating? && c.scenario in s.scenarios
    && (c.draft.Some? ==> c.draft.value in s.versions)
    && (c.draft.None? ==> version !in s.versions && NextNumber(s.versions, c.scenario, number))
    && !HashTaken(s.versions, c.scenario, Written(s, c, version, number, hash).0, hash)
    && (c.expected.Some? ==> s.scenarios[c.scenario].updatedAt == c.expected.value)
  }

  predicate PublishCommits(s: Store, c: Call) {
    && c.Publishing? && c.scenario in s.scenarios && c.target in s.versions
    && (c.active.Some? ==> c.active.value in s.versions)
  }

  /** The version table after a publication: the former active version as read is
      superseded, then the draft as read is published. */
  function PublishedVersions(versions: map<Uuid, Version>, c: Call): map<Uuid, Version>
    requires c.Publishing? && c.target in versions && (c.active.Some? ==> c.active.value in versions)
  {
    var retired := if c.active.Some? then versions[c.active.value := versions[c.active.value].(status := SUPERSEDED)] else versions;
    retired[c.target := retired[c.target].(status := PUBLISHED, compiled := Some(c.graph))]
  }

  /** A step that is not enabled, or whose transaction is rolled back, changes no table. */
  ghost function Apply(valid: GraphCheck, s: Store, step: Step): Store {
    match step
    case Create(id, version, graph, hash) =>
      if id in s.scenarios || version in s.versions then s
      else Touch(s.(versions := s.versions[version := Version(id, 1, DRAFT, graph, hash, None)]), id, Scenario(Some(version), None, NEW, 0))
    case ReadForUpdate(call, id, graph, expected) =>
      var chosen := if graph.Some? then graph else DraftGraph(s, id);
      if call in s.calls || id !in s.scenarios || chosen.None? || (expected.Some? && expected.value > s.clock) then s
      else s.(calls := s.calls[call := Updating(id, s.scenarios[id].draft, chosen.value, expected, s.clock)])
    case CommitUpdate(call, version, number, hash) =>
      if call !in s.calls || !s.calls[call].Updating? then s
      else
        var c := s.calls[call];
        if UpdateCommits(s, c, version, number, hash)
        then
          var (d, row) := Written(s, c, version, number, hash);
          Finish(Touch(s.(versions := s.versions[d := row]), c.scenario, s.scenarios[c.scenario].(draft := Some(d))), call)
        else Finish(s, call)
    case ReadForPublish(call, id) =>
      if call in s.calls || DraftGraph(s, id).None? || !valid(DraftGraph(s, id).value) then s
      else s.(calls := s.calls[call :=
        Publishing(id, s.scenarios[id].draft.value, s.scenarios[id].active, DraftGraph(s, id).value)])
    case CommitPublish(call) =>
      if call !in s.calls || !s.calls[call].Publishing? then s
      else
        var c := s.calls[call];
        if PublishCommits(s, c)
        then Finish(Touch(s.(versions := PublishedVersions(s.versions, c)), c.scenario,
          s.scenarios[c.scenario].(active := Some(c.target), draft := None, status := LIVE)), call)
        else Finish(s, call)
    case SetStatus(id, live) =>
      if id !in s.scenarios || (live && s.scenarios[id].active.None?) then s
      else Touch(s, id, s.scenarios[id].(status := if live then LIVE else PAUSED))
    case Archive(id) =>
      if id !in s.scenarios then s else Touch(s, id, s.scenarios[id].(status := ARCHIVED))
  }

  ghost function Run(valid: GraphCheck, s: Store, steps: seq<Step>): Store
    decreases |steps|
  {
    if steps == [] then s else Run(valid, Apply(valid, s, steps[0]), steps[1..])
  }

  // --- The tables agree ---

  predicate NumbersUnique(s: Store) {
    forall a, b ::
      (a in s.versions && b in s.versions && s.versions[a].scenario == s.versions[b].scenario
       && s.versions[a].number == s.versions[b].number) ==> a == b
  }

  predicate Owned(s: Store, id: Uuid, version: Uuid) {
    version in s.versions && s.versions[version].scenario == id
  }

  /** A scenario's draft is a DRAFT of its own; its active version is its own and is not. */
  predicate VersionLinks(s: Store) {
    forall id :: id in s.scenarios ==>
      && (s.scenarios[id].draft.Some? ==>
            Owned(s, id, s.scenarios[id].draft.value) && s.versions[s.scenarios[id].draft.value].status == DRAFT)
      && (s.scenarios[id].active.Some? ==>
            Owned(s, id, s.scenarios[id].active.value) && s.versions[s.scenarios[id].active.value].status != DRAFT)
      && s.scenarios[id].updatedAt <= s.clock
  }

  predicate VersionsOwned(s: Store) {
    forall v :: v in s.versions ==> s.versions[v].scenario in s.scenarios
  }

  predicate CompiledValid(valid: GraphCheck, s: Store) {
    forall v :: v in s.versions && s.versions[v].compiled.Some? ==> valid(s.versions[v].compiled.value)
  }

  /** What a call has read is of its scenario; and as long as the scenario has not been
      written since, its draft is still the one read. */
  predicate CallSound(valid: GraphCheck, s: Store, c: Call) {
    match c
    case Updating(id, draft, _, expected, readAt) =>
      && id in s.scenarios && readAt <= s.clock
      && (draft.Some? ==> Owned(s, id, draft.value))
      && (expected.Some? ==> expected.value <= readAt)
      && (s.scenarios[id].updatedAt <= readAt ==> s.scenarios[id].draft == draft)
    case Publishing(id, draft, active, graph) =>
      && id in s.scenarios && Owned(s, id, draft) && valid(graph)
      && (active.Some? ==> Owned(s, id, active.value) && s.versions[active.value].status != DRAFT)
  }

  predicate CallsSound(valid: GraphCheck, s: Store) {
    forall r :: r in s.calls ==> CallSound(valid, s, s.calls[r])
  }

  predicate Inv(valid: GraphCheck, s: Store) {
    NumbersUnique(s) && VersionLinks(s) && VersionsOwned(s) && CompiledValid(valid, s) && CallsSound(valid, s)
  }

  // --- What holds in every interleaving ---

  /** A scenario's draft and active versions are its own. */
  predicate OwnLinks(s: Store) {
    forall id :: id in s.scenarios ==>
      && (s.scenarios[id].draft.Some? ==> Owned(s, id, s.scenarios[id].draft.value))
      && (s.scenarios[id].active.Some? ==> Owned(s, id, s.scenarios[id].active.value))
  }

  /** What a call has read is of its scenario, and a graph to be published has been validated. */
  predicate CallOwned(valid: GraphCheck, s: Store, c: Call) {
    match c
    case Updating(id, draft, _, _, _) => id in s.scenarios && (draft.Some? ==> Owned(s, id, draft.value))
    case Publishing(id, draft, active, graph) =>
      id in s.scenarios && Owned(s, id, draft) && valid(graph) && (active.Some? ==> Owned(s, id, active.value))
  }

  predicate CallsOwned(valid: GraphCheck, s: Store) {
    forall r :: r in s.calls ==> CallOwned(valid, s, s.calls[r])
  }

  predicate BaseInv(valid: GraphCheck, s: Store) {
    NumbersUnique(s) && OwnLinks(s) && VersionsOwned(s) && CompiledValid(valid, s) && CallsOwned(valid, s)
  }

  /** Rows stay where they belong: no version leaves its scenario and no scenario goes away. */
  predicate StaysOwned(s: Store, t: Store) {
    && (forall id :: id in s.scenarios ==> id in t.scenarios)
    && (forall v :: v in s.versions ==> v in t.versions && t.versions[v].scenario == s.versions[v].scenario)
    && (forall r :: r in t.calls ==> r in s.calls && t.calls[r] == s.calls[r])
  }

  lemma CallsStayOwned(valid: GraphCheck, s: Store, t: Store)
    requires StaysOwned(s, t) && CallsOwned(valid, s)
    ensures CallsOwned(valid, t)
  {
    forall r | r in t.calls ensures CallOwned(valid, t, t.calls[r]) {
      assert CallOwned(valid, s, s.calls[r]);
    }
  }

  lemma UpdateKeepsBase(valid: GraphCheck, s: Store, call: Uuid, version: Uuid, number: nat, hash: Uuid)
    requires BaseInv(valid, s) && call in s.calls && UpdateCommits(s, s.calls[call], version, number, hash)
    ensures BaseInv(valid, Updated(s, s.calls[call], version, number, hash, call))
  {
    var c := s.calls[call];
    var t := Updated(s, c, version, number, hash, call);
    assert CallOwned(valid, s, c);
    CallsStayOwned(valid, s, t);
    assert NumbersUnique(t);
  }

  /** No version is added, renumbered or moved. */
  predicate SameNumbers(s: Store, t: Store) {
    t.versions.Keys == s.versions.Keys &&
    forall v :: v in s.versions ==> t.versions[v].scenario == s.versions[v].scenario && t.versions[v].number == s.versions[v].number
  }

  lemma NumbersStayUnique(s: Store, t: Store)
    requires NumbersUnique(s) && SameNumbers(s, t)
    ensures NumbersUnique(t)
  {
  }

  lemma PublishStaysOwned(s: Store, c: Call, call: Uuid)
    requires PublishCommits(s, c)
    ensures StaysOwned(s, Published(s, c, call)) && SameNumbers(s, Published(s, c, call))
  {}

  lemma VersionsStayOwned(s: Store, t: Store)
    requires VersionsOwned(s) && StaysOwned(s, t) && SameNumbers(s, t)
    ensures VersionsOwned(t)
  {}

  lemma PublishKeepsLinks(valid: GraphCheck, s: Store, c: Call, call: Uuid)
    requires OwnLinks(s) && PublishCommits(s, c) && CallOwned(valid, s, c)
    ensures OwnLinks(Published(s, c, call))
  {}

  lemma PublishKeepsCompiled(valid: GraphCheck, s: Store, c: Call, call: Uuid)
    requires CompiledValid(valid, s) && PublishCommits(s, c) && CallOwned(valid, s, c)
    ensures CompiledValid(valid, Published(s, c, call))
  {}

  lemma PublishKeepsBase(valid: GraphCheck, s: Store, call: Uuid)
    requires BaseInv(valid, s) && call in s.calls && PublishCommits(s, s.calls[call])
    ensures BaseInv(valid, Published(s, s.calls[call], call))
  {
    var c := s.calls[call];
    var t := Published(s, c, call);
    assert CallOwned(valid, s, c);
    PublishStaysOwned(s, c, call);
    CallsStayOwned(valid, s, t);
    NumbersStayUnique(s, t);
    VersionsStayOwned(s, t);
    PublishKeepsLinks(valid, s, c, call);
    PublishKeepsCompiled(valid, s, c, call);
  }

  lemma CommitKeepsBase(valid: GraphCheck, s: Store, step: Step)
    requires BaseInv(valid, s) && (step.CommitUpdate? || step.CommitPublish?)
    ensures BaseInv(valid, Apply(valid, s, step))
  {
    if step.call in s.calls {
      var c := s.calls[step.call];
      if step.CommitUpdate? && UpdateCommits(s, c, step.version, step.number, step.hash) {
        UpdateKeepsBase(valid, s, step.call, step.version, step.number, step.hash);
      } else if step.CommitPublish? && PublishCommits(s, c) {
        PublishKeepsBase(valid, s, step.call);
      } else {
        CallsStayOwned(valid, s, Finish(s, step.call));
      }
    }
  }

  lemma ReadKeepsBase(valid: GraphCheck, s: Store, step: Step)
    requires BaseInv(valid, s) && (step.ReadForUpdate? || step.ReadForPublish?)
    ensures BaseInv(valid, Apply(valid, s, step))
  {
    var t := Apply(valid, s, step);
    forall r | r in t.calls ensures CallOwned(valid, t, t.calls[r]) {
      if r in s.calls { assert CallOwned(valid, s, s.calls[r]); }
    }
  }

  lemma FirstNumberUnique(s: Store, t: Store, version: Uuid)
    requires NumbersUnique(s) && VersionsOwned(s) && version !in s.versions && t.versions.Keys == s.versions.Keys + {version}
    requires t.versions[version].scenario !in s.scenarios && forall v :: v in s.versions ==> t.versions[v] == s.versions[v]
    ensures NumbersUnique(t)
  {
    forall a, b | a in t.versions && b in t.versions && t.versions[a].scenario == t.versions[b].scenario
        && t.versions[a].number == t.versions[b].number
      ensures a == b
    {
      assert a in s.versions ==> s.versions[a].scenario in s.scenarios;
      assert b in s.versions ==> s.versions[b].scenario in s.scenarios;
    }
  }

  lemma CreateKeepsBase(valid: GraphCheck, s: Store, step: Step)
    requires BaseInv(valid, s) && step.Create?
    ensures BaseInv(valid, Apply(valid, s, step))
  {
    var t := Apply(valid, s, step);
    if t != s {
      CallsStayOwned(valid, s, t);
      FirstNumberUnique(s, t, step.version);
    }
  }

  lemma StatusKeepsBase(valid: GraphCheck, s: Store, step: Step)
    requires BaseInv(valid, s) && (step.SetStatus? || step.Archive?)
    ensures BaseInv(valid, Apply(valid, s, step))
  {
    var t := Apply(valid, s, step);
    assert t.versions == s.versions;
    CallsStayOwned(valid, s, t);
  }

  /** In every interleaving, with or without timestamps: numbers are unique, draft and active
      versions are the scenario's own, and what is compiled has been validated. */
  lemma {:induction false} RunKeepsBase(valid: GraphCheck, s: Store, steps: seq<Step>)
    requires BaseInv(valid, s)
    ensures BaseInv(valid, Run(valid, s, steps))
    decreases |steps|
  {
    if steps != [] {
      match steps[0] {
        case CommitUpdate(_, _, _, _) => CommitKeepsBase(valid, s, steps[0]);
        case CommitPublish(_) => CommitKeepsBase(valid, s, steps[0]);
        case ReadForUpdate(_, _, _, _) => ReadKeepsBase(valid, s, steps[0]);
        case ReadForPublish(_, _) => ReadKeepsBase(valid, s, steps[0]);
        case Create(_, _, _, _) => CreateKeepsBase(valid, s, steps[0]);
        case _ => StatusKeepsBase(valid, s, steps[0]);
      }
      RunKeepsBase(valid, Apply(valid, s, steps[0]), steps[1..]);
    }
  }

  /** Version numbers of a scenario are never reused, and every compiled definition passed
      the validator, whatever calls run and however they interleave. */
  lemma NumbersAndCompiled(steps: seq<Step>)
    ensures var t := Run((g: Graph) => GraphValidation.Publishable(g), Blank, steps);
      NumbersUnique(t)
      && forall v :: v in t.versions && t.versions[v].compiled.Some? ==> GraphValidation.Publishable(t.versions[v].compiled.value)
  {
    RunKeepsBase((g: Graph) => GraphValidation.Publishable(g), Blank, steps);
  }

  // --- What needs the timestamp ---

  /** Every pending and every new update carries `expectedUpdatedAt`. */
  predicate Guarded(s: Store) {
    forall r :: r in s.calls && s.calls[r].Updating? ==> s.calls[r].expected.Some?
  }

  predicate Careful(step: Step) {
    step.ReadForUpdate? ==> step.expected.Some?
  }

  /** The draft a guarded update writes is the scenario's draft at that moment. */
  lemma GuardedWritesDraft(valid: GraphCheck, s: Store, c: Call, version: Uuid, number: nat, hash: Uuid)
    requires VersionLinks(s) && CallSound(valid, s, c) && UpdateCommits(s, c, version, number, hash) && c.expected.Some?
    ensures s.scenarios[c.scenario].draft == c.draft
    ensures c.draft.Some? ==> s.versions[c.draft.value].status == DRAFT
  {}

  /** What the two transactions have in common: versions keep their scenario and number,
      none becomes a DRAFT again, and one scenario row is written anew. */
  predicate Moves(s: Store, t: Store, id: Uuid) {
    && id in s.scenarios && t.scenarios.Keys == s.scenarios.Keys && t.clock == s.clock + 1
    && t.scenarios[id].updatedAt == t.clock
    && (forall other :: other in s.scenarios && other != id ==> t.scenarios[other] == s.scenarios[other])
    && (forall v :: v in s.versions ==>
          && v in t.versions && t.versions[v].scenario == s.versions[v].scenario
          && t.versions[v].number == s.versions[v].number
          && (t.versions[v].status == DRAFT ==> s.versions[v].status == DRAFT)
          && (t.versions[v].status != s.versions[v].status ==> s.versions[v].scenario == id))
    && (forall r :: r in t.calls ==> r in s.calls && t.calls[r] == s.calls[r])
  }

  lemma MovesKeepCalls(valid: GraphCheck, s: Store, t: Store, id: Uuid)
    requires Moves(s, t, id) && VersionLinks(s) && CallsSound(valid, s)
    ensures CallsSound(valid, t)
  {
    forall r | r in t.calls ensures CallSound(valid, t, t.calls[r]) {
      assert CallSound(valid, s, s.calls[r]);
    }
  }

  lemma MovesKeepLinks(s: Store, t: Store, id: Uuid)
    requires Moves(s, t, id) && VersionLinks(s)
    requires t.scenarios[id].draft.Some? ==>
      Owned(t, id, t.scenarios[id].draft.value) && t.versions[t.scenarios[id].draft.value].status == DRAFT
    requires t.scenarios[id].active.Some? ==>
      Owned(t, id, t.scenarios[id].active.value) && t.versions[t.scenarios[id].active.value].status != DRAFT
    ensures VersionLinks(t)
  {
    forall other | other in t.scenarios && other != id && t.scenarios[other].draft.Some?
      ensures t.versions[t.scenarios[other].draft.value].status == DRAFT
    {
      assert Owned(s, other, s.scenarios[other].draft.value);
    }
  }

  /** The update's transaction when it goes through. */
  function Updated(s: Store, c: Call, version: Uuid, number: nat, hash: Uuid, call: Uuid): Store
    requires UpdateCommits(s, c, version, number, hash)
  {
    var (d, row) := Written(s, c, version, number, hash);
    Finish(Touch(s.(versions := s.versions[d := row]), c.scenario, s.scenarios[c.scenario].(draft := Some(d))), call)
  }

  lemma UpdatedInv(valid: GraphCheck, s: Store, c: Call, version: Uuid, number: nat, hash: Uuid, call: Uuid)
    requires Inv(valid, s) && CallSound(valid, s, c) && UpdateCommits(s, c, version, number, hash)
    requires s.scenarios[c.scenario].draft == c.draft
    ensures Inv(valid, Updated(s, c, version, number, hash, call))
    ensures Moves(s, Updated(s, c, version, number, hash, call), c.scenario)
  {
    var t := Updated(s, c, version, number, hash, call);
    assert Moves(s, t, c.scenario);
    MovesKeepCalls(valid, s, t, c.scenario);
    MovesKeepLinks(s, t, c.scenario);
    assert NumbersUnique(t);
    assert VersionsOwned(t);
    assert CompiledValid(valid, t);
  }

  /** The publication's transaction when it goes through. */
  function Published(s: Store, c: Call, call: Uuid): Store
    requires PublishCommits(s, c)
  {
    Finish(Touch(s.(versions := PublishedVersions(s.versions, c)), c.scenario,
      s.scenarios[c.scenario].(active := Some(c.target), draft := None, status := LIVE)), call)
  }

  lemma PublishedMoves(valid: GraphCheck, s: Store, c: Call, call: Uuid)
    requires VersionLinks(s) && CallSound(valid, s, c) && PublishCommits(s, c)
    ensures Moves(s, Published(s, c, call), c.scenario)
    ensures Published(s, c, call).versions.Keys == s.versions.Keys
    ensures forall v :: v in s.versions && v != c.target ==> Published(s, c, call).versions[v].compiled == s.versions[v].compiled
  {}

  lemma PublishedInv(valid: GraphCheck, s: Store, c: Call, call: Uuid)
    requires Inv(valid, s) && CallSound(valid, s, c) && PublishCommits(s, c)
    ensures Inv(valid, Published(s, c, call))
    ensures Moves(s, Published(s, c, call), c.scenario)
  {
    var t := Published(s, c, call);
    PublishedMoves(valid, s, c, call);
    MovesKeepCalls(valid, s, t, c.scenario);
    MovesKeepLinks(s, t, c.scenario);
    assert CompiledValid(valid, t) by {
      assert t.versions[c.target].compiled == Some(c.graph);
    }
  }

  lemma CreatedInv(valid: GraphCheck, s: Store, step: Step)
    requires Inv(valid, s) && step.Create?
    ensures Inv(valid, Apply(valid, s, step))
  {
    var t := Apply(valid, s, step);
    forall r | r in t.calls ensures CallSound(valid, t, t.calls[r]) {
      assert CallSound(valid, s, s.calls[r]);
    }
    assert NumbersUnique(t);
    assert VersionLinks(t);
  }

  lemma ReadInv(valid: GraphCheck, s: Store, step: Step)
    requires Inv(valid, s) && (step.ReadForUpdate? || step.ReadForPublish?)
    ensures Inv(valid, Apply(valid, s, step))
  {
    var t := Apply(valid, s, step);
    forall r | r in t.calls ensures CallSound(valid, t, t.calls[r]) {
      if r in s.calls { assert CallSound(valid, s, s.calls[r]); }
    }
  }

  lemma StatusInv(valid: GraphCheck, s: Store, step: Step)
    requires Inv(valid, s) && (step.SetStatus? || step.Archive?)
    ensures Inv(valid, Apply(valid, s, step))
  {
    var t := Apply(valid, s, step);
    if t != s {
      MovesKeepCalls(valid, s, t, step.scenario);
      MovesKeepLinks(s, t, step.scenario);
    }
  }

  lemma CommitUpdateInv(valid: GraphCheck, s: Store, step: Step)
    requires Inv(valid, s) && Guarded(s) && step.CommitUpdate?
    ensures Inv(valid, Apply(valid, s, step)) && Guarded(Apply(valid, s, step))
  {
    if step.call in s.calls {
      var c := s.calls[step.call];
      assert CallSound(valid, s, c);
      if UpdateCommits(s, c, step.version, step.number, step.hash) {
        GuardedWritesDraft(valid, s, c, step.version, step.number, step.hash);
        UpdatedInv(valid, s, c, step.version, step.number, step.hash, step.call);
      }
    }
  }

  lemma CommitPublishInv(valid: GraphCheck, s: Store, step: Step)
    requires Inv(valid, s) && step.CommitPublish?
    ensures Inv(valid, Apply(valid, s, step))
    ensures Guarded(s) ==> Guarded(Apply(valid, s, step))
  {
    if step.call in s.calls {
      var c := s.calls[step.call];
      assert CallSound(valid, s, c);
      if PublishCommits(s, c) {
        PublishedInv(valid, s, c, step.call);
      }
    }
  }

  lemma StepInv(valid: GraphCheck, s: Store, step: Step)
    requires Inv(valid, s) && Guarded(s) && Careful(step)
    ensures Inv(valid, Apply(valid, s, step)) && Guarded(Apply(valid, s, step))
  {
    match step
    case Create(_, _, _, _) => CreatedInv(valid, s, step);
    case CommitUpdate(_, _, _, _) => CommitUpdateInv(valid, s, step);
    case CommitPublish(_) => CommitPublishInv(valid, s, step);
    case SetStatus(_, _) => StatusInv(valid, s, step);
    case Archive(_) => StatusInv(valid, s, step);
    case _ => ReadInv(valid, s, step);
  }

  /** When all updates are guarded, furthermore every draft is a DRAFT and no active version is,
      and what an update has read of the draft is current when it commits. */
  lemma {:induction false} RunInv(valid: GraphCheck, s: Store, steps: seq<Step>)
    requires Inv(valid, s) && Guarded(s) && forall i :: 0 <= i < |steps| ==> Careful(steps[i])
    ensures Inv(valid, Run(valid, s, steps))
    decreases |steps|
  {
    if steps != [] {
      StepInv(valid, s, steps[0]);
      RunInv(valid, Apply(valid, s, steps[0]), steps[1..]);
    }
  }

  /** A version that is published, or has been, keeps its graph. */
  predicate Frozen(before: map<Uuid, Version>, after: map<Uuid, Version>, v: Uuid)
    requires v in before
  {
    before[v].status != DRAFT ==> v in after && after[v].status != DRAFT && after[v].graph == before[v].graph
  }

  lemma StepFreezes(valid: GraphCheck, s: Store, step: Step, v: Uuid)
    requires Inv(valid, s) && Guarded(s) && Careful(step) && v in s.versions
    ensures Frozen(s.versions, Apply(valid, s, step).versions, v)
  {
    if step.CommitUpdate? && step.call in s.calls {
      var c := s.calls[step.call];
      assert CallSound(valid, s, c);
      if UpdateCommits(s, c, step.version, step.number, step.hash) {
        GuardedWritesDraft(valid, s, c, step.version, step.number, step.hash);
      }
    }
    if step.CommitPublish? && step.call in s.calls {
      assert CallSound(valid, s, s.calls[step.call]);
    }
  }

  /** In every interleaving in which updates carry `expectedUpdatedAt`, the graph of a
      published version never changes again. */
  lemma {:induction false} PublishedGraphNeverChanges(valid: GraphCheck, s: Store, steps: seq<Step>, v: Uuid)
    requires Inv(valid, s) && Guarded(s) && forall i :: 0 <= i < |steps| ==> Careful(steps[i])
    requires v in s.versions
    ensures Frozen(s.versions, Run(valid, s, steps).versions, v)
    decreases |steps|
  {
    if steps != [] && s.versions[v].status != DRAFT {
      StepFreezes(valid, s, steps[0], v);
      StepInv(valid, s, steps[0]);
      PublishedGraphNeverChanges(valid, Apply(valid, s, steps[0]), steps[1..], v);
    }
  }

  lemma BlankInv(valid: GraphCheck)
    ensures Inv(valid, Blank) && Guarded(Blank)
  {}

  /**
    Why the timestamp matters: an update without it, read before a publication and
    committed after it, rewrites the graph of the version just published.
  */
  lemma UnguardedUpdateOverwrites(valid: GraphCheck, s: Store, id: Uuid, update: Uuid, publish: Uuid,
                                  h: Graph, version: Uuid, number: nat, hash: Uuid)
    requires Inv(valid, s) && id in s.scenarios && update !in s.calls && publish !in s.calls && update != publish
    requires DraftGraph(s, id).Some? && valid(DraftGraph(s, id).value) && DraftGraph(s, id).value != h
    requires !HashTaken(s.versions, id, s.scenarios[id].draft.value, hash)
    ensures var d := s.scenarios[id].draft.value;
      var mid := Apply(valid, Apply(valid, Apply(valid, s, ReadForUpdate(update, id, Some(h), None)),
        ReadForPublish(publish, id)), CommitPublish(publish));
      var end := Apply(valid, mid, CommitUpdate(update, version, number, hash));
      && d in mid.versions && mid.versions[d].status == PUBLISHED && mid.versions[d].graph == DraftGraph(s, id).value
      && d in end.versions && end.versions[d].status == PUBLISHED && end.versions[d].graph == h
  {
    var d := s.scenarios[id].draft.value;
    assert Owned(s, id, d);
    var s1 := Apply(valid, s, ReadForUpdate(update, id, Some(h), None));
    var s2 := Apply(valid, s1, ReadForPublish(publish, id));
    assert s2.calls[update] == Updating(id, Some(d), h, None, s.clock);
    assert s2.calls[publish] == Publishing(id, d, s.scenarios[id].active, DraftGraph(s, id).value);
    assert PublishCommits(s2, s2.calls[publish]) by {
      assert s.scenarios[id].active.Some? ==> Owned(s, id, s.scenarios[id].active.value);
    }
    var s3 := Apply(valid, s2, CommitPublish(publish));
    assert s3.calls[update] == s2.calls[update];
    assert !HashTaken(s3.versions, id, d, hash) by {
      forall v | v in s3.versions && v != d && s3.versions[v].scenario == id ensures s3.versions[v].hash != hash {
        assert v in s.versions && s.versions[v].hash == s3.versions[v].hash;
      }
    }
    assert UpdateCommits(s3, s3.calls[update], version, number, hash);
  }

  // --- Atomic calls ---

  datatype Op =
    | CreateOp(scenario: Uuid, version: Uuid, graph: Graph, hash: Uuid)
    | UpdateOp(scenario: Uuid, replacement: Option<Graph>, expected: Option<nat>, version: Uuid, number: nat, hash: Uuid)
    | RestoreOp(scenario: Uuid, source: Uuid, version: Uuid, number: nat, hash: Uuid)
    | PublishOp(scenario: Uuid)
    | StatusOp(scenario: Uuid, live: bool)
    | ArchiveOp(scenario: Uuid)

  ghost function PerformUpdate(valid: GraphCheck, s: Store, id: Uuid, replacement: Option<Graph>, expected: Option<nat>,
                               version: Uuid, number: nat, hash: Uuid): Store {
    Apply(valid, Apply(valid, s, ReadForUpdate(0, id, replacement, expected)), CommitUpdate(0, version, number, hash))
  }

  ghost function PerformPublish(valid: GraphCheck, s: Store, id: Uuid): Store {
    Apply(valid, Apply(valid, s, ReadForPublish(0, id)), CommitPublish(0))
  }

  /** A call whose transaction follows its reads with nothing in between. */
  ghost function Perform(valid: GraphCheck, s: Store, op: Op): Store {
    match op
    case CreateOp(id, version, graph, hash) => Apply(valid, s, Create(id, version, graph, hash))
    case UpdateOp(id, replacement, expected, version, number, hash) =>
      PerformUpdate(valid, s, id, replacement, expected, version, number, hash)
    case RestoreOp(id, source, version, number, hash) =>
      if Owned(s, id, source)
      then PerformUpdate(valid, s, id, Some(s.versions[source].graph), None, version, number, hash)
      else s
    case PublishOp(id) => PerformPublish(valid, s, id)
    case StatusOp(id, live) => Apply(valid, s, SetStatus(id, live))
    case ArchiveOp(id) => Apply(valid, s, Archive(id))
  }

  ghost function PerformAll(valid: GraphCheck, s: Store, ops: seq<Op>): Store
    decreases |ops|
  {
    if ops == [] then s else PerformAll(valid, Perform(valid, s, ops[0]), ops[1..])
  }

  /** The published version of a scenario is its active one, and conversely. */
  predicate ActivePublished(s: Store) {
    && (forall v :: v in s.versions && s.versions[v].status == PUBLISHED ==>
          s.versions[v].scenario in s.scenarios && s.scenarios[s.versions[v].scenario].active == Some(v))
    && (forall id :: id in s.scenarios && s.scenarios[id].active.Some? ==>
          Owned(s, id, s.scenarios[id].active.value) && s.versions[s.scenarios[id].active.value].status == PUBLISHED)
  }

  /** What runs is what was published: exactly the versions that left DRAFT are compiled,
      and to their own graph. */
  predicate CompiledIsGraph(s: Store) {
    forall v :: v in s.versions ==>
      if s.versions[v].status == DRAFT then s.versions[v].compiled.None?
      else s.versions[v].compiled == Some(s.versions[v].graph)
  }

  predicate AtomicInv(valid: GraphCheck, s: Store) {
    Inv(valid, s) && s.calls == map[] && ActivePublished(s) && CompiledIsGraph(s)
  }

  /** A published version keeps graph and compiled definition, and never is a DRAFT again. */
  predicate KeepsPublished(before: map<Uuid, Version>, after: map<Uuid, Version>, v: Uuid)
    requires v in before
  {
    Frozen(before, after, v) && (before[v].status != DRAFT ==> after[v].compiled == before[v].compiled)
  }

  predicate AllKept(before: map<Uuid, Version>, after: map<Uuid, Version>) {
    forall v :: v in before ==> KeepsPublished(before, after, v)
  }

  lemma UpdatedKeepsPublished(s: Store, c: Call, version: Uuid, number: nat, hash: Uuid, call: Uuid)
    requires UpdateCommits(s, c, version, number, hash) && s.scenarios[c.scenario].draft == c.draft
    requires VersionLinks(s) && ActivePublished(s) && CompiledIsGraph(s)
    ensures var t := Updated(s, c, version, number, hash, call);
      ActivePublished(t) && CompiledIsGraph(t) && AllKept(s.versions, t.versions)
  {
    var t := Updated(s, c, version, number, hash, call);
    var (d, row) := Written(s, c, version, number, hash);
    assert row.status == DRAFT && t.versions == s.versions[d := row];
    assert d in s.versions ==> s.versions[d].status == DRAFT;
    assert forall id :: id in s.scenarios ==> t.scenarios[id].active == s.scenarios[id].active;
  }

  lemma PublishedActive(s: Store, c: Call, call: Uuid)
    requires PublishCommits(s, c) && ActivePublished(s) && Owned(s, c.scenario, c.target)
    requires s.scenarios[c.scenario].active == c.active
    ensures ActivePublished(Published(s, c, call))
  {}

  lemma PublishedCompiled(s: Store, c: Call, call: Uuid)
    requires PublishCommits(s, c) && ActivePublished(s) && CompiledIsGraph(s)
    requires s.scenarios[c.scenario].active == c.active
    requires s.versions[c.target].status == DRAFT && s.versions[c.target].graph == c.graph
    ensures CompiledIsGraph(Published(s, c, call)) && AllKept(s.versions, Published(s, c, call).versions)
  {}

  /** The tables of a state in which one call has read and not yet written. */
  predicate MidCall(valid: GraphCheck, m: Store, c: Call) {
    && Inv(valid, m) && m.calls == map[0 := c] && CallSound(valid, m, c)
    && ActivePublished(m) && CompiledIsGraph(m)
  }

  lemma CommitUpdateAtomic(valid: GraphCheck, m: Store, c: Call, version: Uuid, number: nat, hash: Uuid)
    requires MidCall(valid, m, c) && c.Updating? && m.scenarios[c.scenario].draft == c.draft
    ensures var t := Apply(valid, m, CommitUpdate(0, version, number, hash));
      AtomicInv(valid, t) && AllKept(m.versions, t.versions)
  {
    assert CallSound(valid, m, m.calls[0]);
    if UpdateCommits(m, c, version, number, hash) {
      UpdatedInv(valid, m, c, version, number, hash, 0);
      UpdatedKeepsPublished(m, c, version, number, hash, 0);
      assert Updated(m, c, version, number, hash, 0).calls == map[];
    } else {
      assert Finish(m, 0).calls == map[];
      assert CallsSound(valid, Finish(m, 0));
    }
  }

  lemma UpdateOpInv(valid: GraphCheck, s: Store, id: Uuid, replacement: Option<Graph>, expected: Option<nat>,
                    version: Uuid, number: nat, hash: Uuid)
    requires AtomicInv(valid, s)
    ensures var t := PerformUpdate(valid, s, id, replacement, expected, version, number, hash);
      AtomicInv(valid, t) && AllKept(s.versions, t.versions)
  {
    var m := Apply(valid, s, ReadForUpdate(0, id, replacement, expected));
    ReadInv(valid, s, ReadForUpdate(0, id, replacement, expected));
    if 0 in m.calls {
      CommitUpdateAtomic(valid, m, m.calls[0], version, number, hash);
    }
  }

  lemma CommitPublishAtomic(valid: GraphCheck, m: Store, c: Call)
    requires MidCall(valid, m, c) && c.Publishing? && m.scenarios[c.scenario].active == c.active
    requires m.scenarios[c.scenario].draft == Some(c.target) && m.versions[c.target].graph == c.graph
    ensures var t := Apply(valid, m, CommitPublish(0));
      AtomicInv(valid, t) && AllKept(m.versions, t.versions)
  {
    var t := Published(m, c, 0);
    assert Apply(valid, m, CommitPublish(0)) == t;
    assert Inv(valid, t) by { PublishedInv(valid, m, c, 0); }
    assert ActivePublished(t) by { PublishedActive(m, c, 0); }
    assert CompiledIsGraph(t) && AllKept(m.versions, t.versions) by { PublishedCompiled(m, c, 0); }
    assert t.calls == map[];
  }

  lemma PublishOpInv(valid: GraphCheck, s: Store, id: Uuid)
    requires AtomicInv(valid, s)
    ensures var t := PerformPublish(valid, s, id);
      AtomicInv(valid, t) && AllKept(s.versions, t.versions)
  {
    var m := Apply(valid, s, ReadForPublish(0, id));
    ReadInv(valid, s, ReadForPublish(0, id));
    if 0 in m.calls {
      CommitPublishAtomic(valid, m, m.calls[0]);
    }
  }

  lemma CreatedKeepsPublished(valid: GraphCheck, s: Store, step: Step)
    requires step.Create? && ActivePublished(s) && CompiledIsGraph(s)
    ensures var t := Apply(valid, s, step);
      ActivePublished(t) && CompiledIsGraph(t) && AllKept(s.versions, t.versions) && t.calls == s.calls
  {
  }

  lemma CreateOpInv(valid: GraphCheck, s: Store, step: Step)
    requires AtomicInv(valid, s) && step.Create?
    ensures AtomicInv(valid, Apply(valid, s, step)) && AllKept(s.versions, Apply(valid, s, step).versions)
  {
    CreatedInv(valid, s, step);
    CreatedKeepsPublished(valid, s, step);
  }

  lemma StatusOpInv(valid: GraphCheck, s: Store, step: Step)
    requires AtomicInv(valid, s) && (step.SetStatus? || step.Archive?)
    ensures AtomicInv(valid, Apply(valid, s, step)) && AllKept(s.versions, Apply(valid, s, step).versions)
  {
    StatusInv(valid, s, step);
  }

  lemma PerformInv(valid: GraphCheck, s: Store, op: Op)
    requires AtomicInv(valid, s)
    ensures AtomicInv(valid, Perform(valid, s, op)) && AllKept(s.versions, Perform(valid, s, op).versions)
  {
    match op
    case CreateOp(id, version, graph, hash) => CreateOpInv(valid, s, Create(id, version, graph, hash));
    case UpdateOp(id, replacement, expected, version, number, hash) =>
      UpdateOpInv(valid, s, id, replacement, expected, version, number, hash);
    case RestoreOp(id, source, version, number, hash) =>
      if Owned(s, id, source) {
        UpdateOpInv(valid, s, id, Some(s.versions[source].graph), None, version, number, hash);
      }
    case PublishOp(id) => PublishOpInv(valid, s, id);
    case StatusOp(id, live) => StatusOpInv(valid, s, SetStatus(id, live));
    case ArchiveOp(id) => StatusOpInv(valid, s, Archive(id));
  }

  lemma {:induction false} PerformAllInv(valid: GraphCheck, s: Store, ops: seq<Op>)
    requires AtomicInv(valid, s)
    ensures AtomicInv(valid, PerformAll(valid, s, ops))
    ensures AllKept(s.versions, PerformAll(valid, s, ops).versions)
    decreases |ops|
  {
    if ops != [] {
      var t := Perform(valid, s, ops[0]);
      PerformInv(valid, s, ops[0]);
      PerformAllInv(valid, t, ops[1..]);
      var end := PerformAll(valid, s, ops).versions;
      forall v | v in s.versions ensures KeepsPublished(s.versions, end, v) {
        assert KeepsPublished(s.versions, t.versions, v);
        if s.versions[v].status != DRAFT { assert KeepsPublished(t.versions, end, v); }
      }
    }
  }

  /** Over every run of atomic calls a scenario has at most one published version. */
  lemma OnePublished(valid: GraphCheck, ops: seq<Op>, a: Uuid, b: Uuid)
    requires var t := PerformAll(valid, Blank, ops);
      && a in t.versions && b in t.versions && t.versions[a].scenario == t.versions[b].scenario
      && t.versions[a].status == PUBLISHED && t.versions[b].status == PUBLISHED
    ensures a == b
  {
    BlankInv(valid);
    PerformAllInv(valid, Blank, ops);
  }

  /** Over every run of atomic calls, versions that left DRAFT run their own, validated
      graph; the version a scenario is live on is PUBLISHED; and numbers are unique. */
  lemma AtomicRuns(valid: GraphCheck, ops: seq<Op>)
    ensures var t := PerformAll(valid, Blank, ops);
      && NumbersUnique(t) && ActivePublished(t) && CompiledIsGraph(t)
      && forall v :: v in t.versions && t.versions[v].status != DRAFT ==> valid(t.versions[v].graph)
  {
    BlankInv(valid);
    PerformAllInv(valid, Blank, ops);
  }

  /** A publication makes the draft live, retires the former version and leaves no draft. */
  lemma PublishTakesOver(valid: GraphCheck, s: Store, id: Uuid)
    requires AtomicInv(valid, s) && DraftGraph(s, id).Some? && valid(DraftGraph(s, id).value)
    ensures var t := Perform(valid, s, PublishOp(id)); var d := s.scenarios[id].draft.value;
      && t.scenarios[id].active == Some(d) && t.scenarios[id].draft.None? && t.scenarios[id].status == LIVE
      && t.versions[d] == s.versions[d].(status := PUBLISHED, compiled := Some(s.versions[d].graph))
      && forall v :: v in s.versions && v != d ==>
           t.versions[v] == if s.scenarios[id].active == Some(v) then s.versions[v].(status := SUPERSEDED) else s.versions[v]
  {
    assert Owned(s, id, s.scenarios[id].draft.value);
    var m := Apply(valid, s, ReadForPublish(0, id));
    assert PublishCommits(m, m.calls[0]);
  }

  /**
    Why publications must not interleave: committing a publication leaves only its own
    version published exactly when the active version has not changed since it was read.
  */
  lemma StalePublishLeavesTwo(valid: GraphCheck, s: Store, call: Uuid, other: Uuid)
    requires Inv(valid, s) && ActivePublished(s) && call in s.calls && s.calls[call].Publishing?
    requires var c := s.calls[call]; s.scenarios[c.scenario].active == Some(other) && other != c.target
    ensures var c := s.calls[call]; var t := Apply(valid, s, CommitPublish(call));
      && t.versions[c.target].status == PUBLISHED
      && (t.versions[other].status == PUBLISHED <==> c.active != Some(other))
  {
    var c := s.calls[call];
    assert CallSound(valid, s, c);
    assert PublishCommits(s, c);
  }

  lemma RunNext(valid: GraphCheck, s: Store, step: Step, rest: seq<Step>)
    ensures Run(valid, s, [step] + rest) == Run(valid, Apply(valid, s, step), rest)
  {
    assert ([step] + rest)[1..] == rest;
  }

  /** A new scenario, published by one call while another has read the same draft. */
  function FirstSteps(id: Uuid, v: Uuid, g: Graph, hash: Uuid): seq<Step> {
    [Create(id, v, g, hash)] + ([ReadForPublish(0, id)] + ([ReadForPublish(1, id)] + ([CommitPublish(0)] + [])))
  }

  /** Then a second version is drafted and published, and the other call commits. */
  function LaterSteps(id: Uuid, w: Uuid, g: Graph, hash: Uuid): seq<Step> {
    [ReadForUpdate(2, id, Some(g), Some(2))] + ([CommitUpdate(2, w, 2, hash)] +
      ([ReadForPublish(3, id)] + ([CommitPublish(3)] + ([CommitPublish(1)] + []))))
  }

  function AfterFirst(id: Uuid, v: Uuid, g: Graph, hash: Uuid): Store {
    Store(map[id := Scenario(None, Some(v), LIVE, 2)], map[v := Version(id, 1, PUBLISHED, g, hash, Some(g))], 2,
          map[1 := Publishing(id, v, None, g)])
  }

  lemma FirstPublished(valid: GraphCheck, id: Uuid, v: Uuid, g: Graph, hash: Uuid)
    requires valid(g)
    ensures Run(valid, Blank, FirstSteps(id, v, g, hash)) == AfterFirst(id, v, g, hash)
  {
    var s1 := Apply(valid, Blank, Create(id, v, g, hash));
    var s2 := Apply(valid, s1, ReadForPublish(0, id));
    var s3 := Apply(valid, s2, ReadForPublish(1, id));
    var s4 := Apply(valid, s3, CommitPublish(0));
    RunNext(valid, s3, CommitPublish(0), []);
    RunNext(valid, s2, ReadForPublish(1, id), [CommitPublish(0)] + []);
    RunNext(valid, s1, ReadForPublish(0, id), [ReadForPublish(1, id)] + ([CommitPublish(0)] + []));
    RunNext(valid, Blank, Create(id, v, g, hash), [ReadForPublish(0, id)] + ([ReadForPublish(1, id)] + ([CommitPublish(0)] + [])));
    assert s3.calls == map[0 := Publishing(id, v, None, g), 1 := Publishing(id, v, None, g)];
    assert s4.versions == AfterFirst(id, v, g, hash).versions;
    assert s4.scenarios == AfterFirst(id, v, g, hash).scenarios;
    assert s4.calls == AfterFirst(id, v, g, hash).calls;
  }

  lemma LaterRun(valid: GraphCheck, s0: Store, id: Uuid, w: Uuid, h: Graph, other: Uuid)
    ensures var s2 := Apply(valid, Apply(valid, s0, ReadForUpdate(2, id, Some(h), Some(2))), CommitUpdate(2, w, 2, other));
      Run(valid, s0, LaterSteps(id, w, h, other)) ==
      Apply(valid, Apply(valid, Apply(valid, s2, ReadForPublish(3, id)), CommitPublish(3)), CommitPublish(1))
  {
    var s1 := Apply(valid, s0, ReadForUpdate(2, id, Some(h), Some(2)));
    var s2 := Apply(valid, s1, CommitUpdate(2, w, 2, other));
    var s3 := Apply(valid, s2, ReadForPublish(3, id));
    RunNext(valid, Apply(valid, s3, CommitPublish(3)), CommitPublish(1), []);
    RunNext(valid, s3, CommitPublish(3), [CommitPublish(1)] + []);
    RunNext(valid, s2, ReadForPublish(3, id), [CommitPublish(3)] + ([CommitPublish(1)] + []));
    RunNext(valid, s1, CommitUpdate(2, w, 2, other), [ReadForPublish(3, id)] + ([CommitPublish(3)] + ([CommitPublish(1)] + [])));
    RunNext(valid, s0, ReadForUpdate(2, id, Some(h), Some(2)),
      [CommitUpdate(2, w, 2, other)] + ([ReadForPublish(3, id)] + ([CommitPublish(3)] + ([CommitPublish(1)] + []))));
  }

  lemma StaleCommits(valid: GraphCheck, id: Uuid, v: Uuid, w: Uuid, g: Graph, h: Graph, hash: Uuid, other: Uuid)
    requires valid(g) && valid(h) && v != w && hash != other
    ensures var t := Run(valid, AfterFirst(id, v, g, hash), LaterSteps(id, w, h, other));
      t.versions.Keys == {v, w} && t.versions[v].scenario == t.versions[w].scenario == id
      && t.versions[v].status == PUBLISHED && t.versions[w].status == PUBLISHED
  {
    var s0 := AfterFirst(id, v, g, hash);
    var s1 := Apply(valid, s0, ReadForUpdate(2, id, Some(h), Some(2)));
    var s2 := Apply(valid, s1, CommitUpdate(2, w, 2, other));
    var s3 := Apply(valid, s2, ReadForPublish(3, id));
    var s4 := Apply(valid, s3, CommitPublish(3));
    LaterRun(valid, s0, id, w, h, other);
    assert s1.calls[2] == Updating(id, None, h, Some(2), 2);
    assert NextNumber(s1.versions, id, 2) by {
      assert s1.versions[v].number == 1;
    }
    assert UpdateCommits(s1, s1.calls[2], w, 2, other);
    assert s2.scenarios[id].draft == Some(w) && s2.versions.Keys == {v, w};
    assert s3.calls[3] == Publishing(id, w, Some(v), h);
    assert s4.calls[1] == Publishing(id, v, None, g);
    assert s4.versions[w].status == PUBLISHED;
  }

  /**
    Interleaved publications do leave two: from the empty store, with every update carrying
    its timestamp, a run ends with two PUBLISHED versions of one scenario.
  */
  lemma TwoPublished(valid: GraphCheck, id: Uuid, v: Uuid, w: Uuid, g: Graph, h: Graph, hash: Uuid, other: Uuid)
    requires valid(g) && valid(h) && v != w && hash != other
    ensures var steps := FirstSteps(id, v, g, hash) + LaterSteps(id, w, h, other);
      var t := Run(valid, Blank, steps);
      && (forall i :: 0 <= i < |steps| ==> Careful(steps[i]))
      && v in t.versions && w in t.versions && t.versions[v].scenario == t.versions[w].scenario == id
      && t.versions[v].status == PUBLISHED && t.versions[w].status == PUBLISHED
  {
    FirstPublished(valid, id, v, g, hash);
    StaleCommits(valid, id, v, w, g, h, hash, other);
    RunJoined(valid, Blank, FirstSteps(id, v, g, hash), LaterSteps(id, w, h, other));
  }

  lemma {:induction false} RunJoined(valid: GraphCheck, s: Store, a: seq<Step>, b: seq<Step>)
    ensures Run(valid, s, a + b) == Run(valid, Run(valid, s, a), b)
    decreases |a|
  {
    if a == [] {
      assert a + b == b;
    } else {
      assert (a + b)[1..] == a[1..] + b;
      RunJoined(valid, Apply(valid, s, a[0]), a[1..], b);
    }
  }

  // --- The service and its tables, updated in place ---

  class ScenarioStore {
    var scenarios: map<Uuid, Scenario>
    var versions: map<Uuid, Version>
    var clock: nat
    var calls: map<Uuid, Call>

    function Snapshot(): Store
      reads this
    {
      Store(scenarios, versions, clock, calls)
    }

    /** `aggregate({ _max: { version } })`, plus one. */
    method NextVersionNumber(id: Uuid) returns (n: nat)
      ensures NextNumber(versions, id, n)
    {
      var latest := 0;
      var rest := versions.Keys;
      while rest != {}
        invariant rest <= versions.Keys
        invariant forall v :: v in versions && v !in rest && versions[v].scenario == id ==> versions[v].number <= latest
        invariant latest > 0 ==> exists v :: v in versions && versions[v].scenario == id && versions[v].number == latest
        decreases rest
      {
        var v :| v in rest;
        if versions[v].scenario == id && versions[v].number > latest {
          latest := versions[v].number;
        }
        rest := rest - {v};
      }
      return latest + 1;
    }

    /** The transaction of `update`, rolled back when the hash is taken or the scenario
        has been written since the caller saw it. */
    method UpdateTransaction(call: Uuid, version: Uuid, hash: Uuid) returns (committed: bool, ghost number: nat)
      requires call in calls && calls[call].Updating? && calls[call].scenario in scenarios && version !in versions
      requires calls[call].draft.Some? ==> calls[call].draft.value in versions
      modifies this
      ensures committed <==> UpdateCommits(old(Snapshot()), old(calls[call]), version, number, hash)
      ensures forall valid :: Snapshot() == Apply(valid, old(Snapshot()), CommitUpdate(call, version, number, hash))
    {
      var c := calls[call];
      var before := versions;
      calls := calls - {call};
      var latest := NextVersionNumber(c.scenario);
      number := latest;
      var draft := version;
      if c.draft.Some? {
        draft := c.draft.value;
      }
      if exists v :: v in versions && v != draft && versions[v].scenario == c.scenario && versions[v].hash == hash {
        return false, number;
      }
      if c.draft.None? {
        versions := versions[draft := Version(c.scenario, latest, DRAFT, c.graph, hash, None)];
      } else {
        versions := versions[draft := versions[draft].(graph := c.graph, hash := hash)];
      }
      if c.expected.Some? && scenarios[c.scenario].updatedAt != c.expected.value {
        versions := before;
        return false, number;
      }
      clock := clock + 1;
      scenarios := scenarios[c.scenario := scenarios[c.scenario].(draft := Some(draft), updatedAt := clock)];
      return true, number;
    }

    /** The transaction of `publish`. */
    method PublishTransaction(call: Uuid)
      requires call in calls && calls[call].Publishing? && PublishCommits(Snapshot(), calls[call])
      modifies this
      ensures forall valid :: Snapshot() == Apply(valid, old(Snapshot()), CommitPublish(call))
    {
      var c := calls[call];
      if c.active.Some? {
        var former := c.active.value;
        versions := versions[former := versions[former].(status := SUPERSEDED)];
      }
      versions := versions[c.target := versions[c.target].(compiled := Some(c.graph), status := PUBLISHED)];
      clock := clock + 1;
      scenarios := scenarios[c.scenario :=
        scenarios[c.scenario].(active := Some(c.target), draft := None, status := LIVE, updatedAt := clock)];
      calls := calls - {call};
    }
  }
}
