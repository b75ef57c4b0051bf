/**
  What each call on a scenario does to the tables, field by field, and exactly when it is
  refused. A refused call leaves the tables as they were.
*/
module ScenarioLaws {
  import opened Collections
  import opened ScenarioVersions

  predicate SameTables(s: Store, t: Store) {
    t.scenarios == s.scenarios && t.versions == s.versions && t.clock == s.clock
  }

  /** One scenario row is written, and its timestamp with it. */
  predicate OneScenario(s: Store, t: Store, id: Uuid) {
    && id in t.scenarios && t.scenarios.Keys == s.scenarios.Keys + {id}
    && t.clock == s.clock + 1 && t.scenarios[id].updatedAt == t.clock
    && forall other :: other in s.scenarios && other != id ==> t.scenarios[other] == s.scenarios[other]
  }

  predicate OneVersion(s: Store, t: Store, v: Uuid) {
    && v in t.versions && t.versions.Keys == s.versions.Keys + {v}
    && forall other :: other in s.versions && other != v ==> t.versions[other] == s.versions[other]
  }

  // --- Creation ---

  lemma CreateExactly(valid: GraphCheck, s: Store, id: Uuid, version: Uuid, graph: Graph, hash: Uuid)
    ensures var t := Perform(valid, s, CreateOp(id, version, graph, hash));
      if id !in s.scenarios && version !in s.versions then
        && OneScenario(s, t, id) && OneVersion(s, t, version)
        && t.scenarios[id].draft == Some(version) && t.scenarios[id].active.None? && t.scenarios[id].status == NEW
        && t.versions[version].scenario == id && t.versions[version].number == 1 && t.versions[version].status == DRAFT
        && t.versions[version].graph == graph && t.versions[version].hash == hash && t.versions[version].compiled.None?
      else t == s
  {}

  // --- Updates and restores ---

  /** Another version of the scenario, not its draft, has this hash. */
  predicate HashElsewhere(s: Store, id: Uuid, hash: Uuid)
    requires id in s.scenarios
  {
    exists v :: v in s.versions && s.versions[v].scenario == id && s.versions[v].hash == hash && s.scenarios[id].draft != Some(v)
  }

  predicate Highest(s: Store, id: Uuid, number: nat) {
    number > 0
    && (forall v :: v in s.versions && s.versions[v].scenario == id ==> s.versions[v].number < number)
    && (number == 1 || exists v :: v in s.versions && s.versions[v].scenario == id && s.versions[v].number + 1 == number)
  }

  /** The draft the scenario ends with, and nothing else of any version. */
  predicate Drafted(s: Store, t: Store, id: Uuid, graph: Graph, hash: Uuid, version: Uuid, number: nat)
    requires id in s.scenarios
  {
    && OneScenario(s, t, id)
    && t.scenarios[id].active == s.scenarios[id].active && t.scenarios[id].status == s.scenarios[id].status
    && t.scenarios[id].draft == (if s.scenarios[id].draft.Some? then s.scenarios[id].draft else Some(version))
    && var d := t.scenarios[id].draft.value;
       && OneVersion(s, t, d)
       && t.versions[d].scenario == id && t.versions[d].status == DRAFT && t.versions[d].compiled.None?
       && t.versions[d].graph == graph && t.versions[d].hash == hash
       && t.versions[d].number == (if d in s.versions then s.versions[d].number else number)
  }

  /** Whether a draft with this graph can be written. */
  predicate CanDraft(s: Store, id: Uuid, expected: Option<nat>, version: Uuid, number: nat, hash: Uuid) {
    && id in s.scenarios && !HashElsewhere(s, id, hash)
    && (expected.Some? ==> expected.value == s.scenarios[id].updatedAt)
    && (s.scenarios[id].draft.None? ==> version !in s.versions && Highest(s, id, number))
  }

  lemma CommitsIffCanDraft(s: Store, c: Call, version: Uuid, number: nat, hash: Uuid)
    requires VersionLinks(s) && c.Updating? && c.scenario in s.scenarios && c.draft == s.scenarios[c.scenario].draft
    ensures UpdateCommits(s, c, version, number, hash) <==> CanDraft(s, c.scenario, c.expected, version, number, hash)
  {
    var id := c.scenario;
    if c.draft.Some? {
      assert Owned(s, id, c.draft.value);
      assert HashTaken(s.versions, id, c.draft.value, hash) <==> HashElsewhere(s, id, hash);
    } else if version !in s.versions {
      assert HashTaken(s.versions, id, version, hash) <==> HashElsewhere(s, id, hash);
    }
  }

  lemma CommitDrafts(s: Store, c: Call, version: Uuid, number: nat, hash: Uuid, call: Uuid)
    requires VersionLinks(s) && CompiledIsGraph(s) && UpdateCommits(s, c, version, number, hash)
    requires c.draft == s.scenarios[c.scenario].draft
    ensures Drafted(s, Updated(s, c, version, number, hash, call), c.scenario, c.graph, hash, version, number)
  {
    if c.draft.Some? {
      assert Owned(s, c.scenario, c.draft.value);
    }
  }

  /** Without a replacement the draft's own graph is written again; without both there is nothing to write. */
  ghost predicate GraphGiven(s: Store, id: Uuid, replacement: Option<Graph>, graph: Graph) {
    match replacement
    case Some(g) => graph == g
    case None => exists d :: d in s.versions && id in s.scenarios && s.scenarios[id].draft == Some(d) && s.versions[d].graph == graph
  }

  lemma UpdateRead(valid: GraphCheck, s: Store, id: Uuid, replacement: Option<Graph>, expected: Option<nat>, graph: Graph)
    requires s.calls == map[] && VersionLinks(s) && id in s.scenarios && GraphGiven(s, id, replacement, graph)
    requires expected.Some? ==> expected.value <= s.clock
    ensures Apply(valid, s, ReadForUpdate(0, id, replacement, expected)) ==
      s.(calls := map[0 := Updating(id, s.scenarios[id].draft, graph, expected, s.clock)])
  {
  }

  /** An update at one go: refused, or the draft written and nothing else. */
  lemma UpdateExactly(valid: GraphCheck, s: Store, id: Uuid, replacement: Option<Graph>, expected: Option<nat>,
                      version: Uuid, number: nat, hash: Uuid, graph: Graph)
    requires AtomicInv(valid, s) && GraphGiven(s, id, replacement, graph)
    ensures var t := Perform(valid, s, UpdateOp(id, replacement, expected, version, number, hash));
      if CanDraft(s, id, expected, version, number, hash)
      then Drafted(s, t, id, graph, hash, version, number)
      else SameTables(s, t)
  {
    if id in s.scenarios && (expected.Some? ==> expected.value <= s.clock) {
      UpdateRead(valid, s, id, replacement, expected, graph);
      CommitAfterRead(valid, s, Updating(id, s.scenarios[id].draft, graph, expected, s.clock), version, number, hash);
    }
  }

  lemma CommitAfterRead(valid: GraphCheck, s: Store, c: Call, version: Uuid, number: nat, hash: Uuid)
    requires VersionLinks(s) && CompiledIsGraph(s) && c.Updating? && c.scenario in s.scenarios
    requires c.draft == s.scenarios[c.scenario].draft
    ensures var t := Apply(valid, s.(calls := map[0 := c]), CommitUpdate(0, version, number, hash));
      if CanDraft(s, c.scenario, c.expected, version, number, hash)
      then Drafted(s, t, c.scenario, c.graph, hash, version, number)
      else SameTables(s, t)
  {
    var m := s.(calls := map[0 := c]);
    CommitsIffCanDraft(m, c, version, number, hash);
    if UpdateCommits(m, c, version, number, hash) {
      CommitDrafts(m, c, version, number, hash, 0);
    }
  }

  lemma NothingToUpdate(valid: GraphCheck, s: Store, id: Uuid, expected: Option<nat>, version: Uuid, number: nat, hash: Uuid)
    requires AtomicInv(valid, s) && (id !in s.scenarios || s.scenarios[id].draft.None?)
    ensures SameTables(s, Perform(valid, s, UpdateOp(id, None, expected, version, number, hash)))
  {}

  /**
    A restore at one go: the draft takes over the graph of that version of the scenario,
    unless another version than the draft has its hash. The version itself stays as it is.
  */
  lemma RestoreExactly(valid: GraphCheck, s: Store, id: Uuid, source: Uuid, version: Uuid, number: nat, hash: Uuid)
    requires AtomicInv(valid, s)
    ensures var t := Perform(valid, s, RestoreOp(id, source, version, number, hash));
      if source in s.versions && s.versions[source].scenario == id && CanDraft(s, id, None, version, number, hash)
      then Drafted(s, t, id, s.versions[source].graph, hash, version, number) && t.versions[source].graph == s.versions[source].graph
      else SameTables(s, t)
  {
    if source in s.versions && s.versions[source].scenario == id {
      UpdateExactly(valid, s, id, Some(s.versions[source].graph), None, version, number, hash, s.versions[source].graph);
    }
  }

  /** Once a restored graph has been published, it cannot be restored again: its hash is taken. */
  lemma RestoredOnce(valid: GraphCheck, s: Store, id: Uuid, source: Uuid, before: Uuid, version: Uuid, number: nat, hash: Uuid)
    requires AtomicInv(valid, s) && id in s.scenarios
    requires before in s.versions && s.versions[before].scenario == id && s.versions[before].status != DRAFT
    requires s.versions[before].hash == hash
    ensures SameTables(s, Perform(valid, s, RestoreOp(id, source, version, number, hash)))
  {
    RestoreExactly(valid, s, id, source, version, number, hash);
    assert HashElsewhere(s, id, hash);
  }

  // --- Publication, status and archive ---

  /** Nothing is published without a draft that passes validation. */
  lemma PublishRefused(valid: GraphCheck, s: Store, id: Uuid)
    requires AtomicInv(valid, s)
    requires forall d :: d in s.versions && id in s.scenarios && s.scenarios[id].draft == Some(d) ==> !valid(s.versions[d].graph)
    ensures SameTables(s, Perform(valid, s, PublishOp(id)))
  {}

  /** Pausing is always possible, resuming with an active version; only the status changes. */
  lemma StatusExactly(valid: GraphCheck, s: Store, id: Uuid, live: bool)
    ensures var t := Perform(valid, s, StatusOp(id, live));
      if id in s.scenarios && (live ==> s.scenarios[id].active.Some?) then
        && OneScenario(s, t, id) && t.versions == s.versions
        && (live ==> t.scenarios[id].status == LIVE) && (!live ==> t.scenarios[id].status == PAUSED)
        && t.scenarios[id].draft == s.scenarios[id].draft && t.scenarios[id].active == s.scenarios[id].active
      else t == s
  {}

  lemma ArchiveExactly(valid: GraphCheck, s: Store, id: Uuid)
    ensures var t := Perform(valid, s, ArchiveOp(id));
      if id in s.scenarios then
        && OneScenario(s, t, id) && t.versions == s.versions && t.scenarios[id].status == ARCHIVED
        && t.scenarios[id].draft == s.scenarios[id].draft && t.scenarios[id].active == s.scenarios[id].active
      else t == s
  {}

  // --- What is read and what is written later ---

  /** A publication writes the graph it has read and validated, whatever the draft holds by then. */
  lemma CommitPublishExactly(valid: GraphCheck, s: Store, call: Uuid)
    requires Inv(valid, s) && call in s.calls && s.calls[call].Publishing?
    ensures var c, t := s.calls[call], Apply(valid, s, CommitPublish(call));
      && OneScenario(s, t, c.scenario) && t.versions.Keys == s.versions.Keys
      && t.scenarios[c.scenario].active == Some(c.target) && t.scenarios[c.scenario].draft.None?
      && t.scenarios[c.scenario].status == LIVE
      && t.versions[c.target].status == PUBLISHED && t.versions[c.target].compiled == Some(c.graph)
      && t.versions[c.target].graph == s.versions[c.target].graph
      && (forall v :: v in s.versions && v != c.target ==>
            && t.versions[v].graph == s.versions[v].graph && t.versions[v].compiled == s.versions[v].compiled
            && t.versions[v].status == if c.active == Some(v) then SUPERSEDED else s.versions[v].status)
  {
    assert CallSound(valid, s, s.calls[call]);
  }

  /** An update writes the draft it has read; with a timestamp, only if nobody wrote the scenario since. */
  lemma CommitUpdateExactly(valid: GraphCheck, s: Store, call: Uuid, version: Uuid, number: nat, hash: Uuid)
    requires VersionsOwned(s) && OwnLinks(s) && CallsOwned(valid, s) && call in s.calls && s.calls[call].Updating?
    ensures var c, t := s.calls[call], Apply(valid, s, CommitUpdate(call, version, number, hash));
      var d := if c.draft.Some? then c.draft.value else version;
      if (c.expected.Some? && c.expected.value != s.scenarios[c.scenario].updatedAt)
        || (c.draft.None? && (version in s.versions || !Highest(s, c.scenario, number)))
        || exists v :: v in s.versions && v != d && s.versions[v].scenario == c.scenario && s.versions[v].hash == hash
      then SameTables(s, t)
      else
        && OneScenario(s, t, c.scenario) && OneVersion(s, t, d) && t.scenarios[c.scenario].draft == Some(d)
        && t.scenarios[c.scenario].status == s.scenarios[c.scenario].status
        && t.scenarios[c.scenario].active == s.scenarios[c.scenario].active
        && t.versions[d].graph == c.graph && t.versions[d].hash == hash && t.versions[d].scenario == c.scenario
        && if c.draft.Some?
           then t.versions[d].status == s.versions[d].status && t.versions[d].number == s.versions[d].number
                && t.versions[d].compiled == s.versions[d].compiled
           else t.versions[d].status == DRAFT && t.versions[d].number == number && t.versions[d].compiled.None?
  {
    assert CallOwned(valid, s, s.calls[call]);
  }
}
