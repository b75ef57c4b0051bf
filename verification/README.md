# Verified model of the messaging platform's core

This project models, in Dafny, the parts of the platform whose correctness depends on
unbounded inputs or on interleavings, and proves what they guarantee. It has six parts.

1. **Scenario graphs** (`ScenarioGraph`, `CycleCheck`, `CycleOrder`, `MissedCycle`,
   `GraphValidation`, `ValidationLaws`, `PartialWalk`, `Simulation`, `SimulationLaws`,
   `EdgeOrder`). The validator reports exactly the issues that hold, and what each says is
   stated of the listed nodes and edges. The cycle check is modelled with its path stack and its
   visited set. A report is always a real unguarded cycle. Silence is weaker than it looks:
   it guarantees a suspending node in every cyclic component, not on every cycle. Where no
   unguarded cycle shares a component with a suspending node the check is exact. Inside
   mixed components only one direction is proved of the given listing: a report is real;
   the listing order decides whether an unguarded cycle is reported, some order does report
   it, and `MissedCycle` has a graph that passes the whole validator with one.
   The simulator's budget error means a revisited node.
2. **Protocols over tables** (`Sessions`, `AccountLifecycle`, `ScenarioVersions`,
   `Broadcasts`, `BroadcastCancellation`, `BroadcastRuns`, `LatePreparations`, and what each
   step does in `SessionLaws`, `AccountLaws`, `ScenarioLaws`, `BroadcastLaws`,
   `BroadcastDiagrams`, `BroadcastStages`). Requests are
   program counters between atomic statements or transactions; the invariants hold in every
   interleaving. Each service is also a class whose methods update the tables in place and
   are proved against the step functions.
3. **Webhook and canonical text** (`WebhookSplitter`, `WebhookLaws`, `CanonicalJson`,
   `CanonicalTies`, `JsonReader`, `JsonValues`). The splitter loses nothing and is idempotent,
   and its event ids tell messages and statuses apart under an exact condition. Canonical text
   reads back. Equal canonical texts mean
   equal values up to the order of object keys; the converse holds exactly for values in
   which no object has two keys that `localeCompare` reports as equal.
4. **Message templates** (`TemplateChecker`, `TemplateComposer`, `TemplateAgreement`,
   `ComposableTemplates`, `ComposerRoundTrip`, `TemplateLaws`, `ComposerLaws`). The checker accepts exactly one-to-one
   assignments; the web composer's output is accepted exactly when everything is filled in;
   reading values back is exact under a precise condition.
5. **Media** (`JpegScan`, `DocumentStructure`, `PhotoCanvas`, `CanvasLaws`). The JPEG scan is proved
   equivalent to a grammar after ITU-T T.81, Annex B; the ZIP search to a description of
   archives; the photo canvas to the limits of the photo check and to its sides in whole numbers.
6. **Path writes and layout** (`PathUpdate`, `PathLaws`, `FlowLayout`). Path writes go through an
   explicit heap, because `json` mappings share objects of the response.

`Collections` holds facts about sequences that several modules use.

## Assumptions

- Database statements and transactions are atomic and serializable; ids and tokens are fresh.
- When the database checks the foreign key of a session to its replacement is a parameter of
  `Sessions`. The migration declares it without DEFERRABLE, so PostgreSQL checks it at the end
  of each statement; `refresh` names the replacement before it inserts it. With that schema no
  refresh commits (`Sessions.ImmediateNobodyRotated`); the safety results hold either way.
- Hashes and random ids are values supplied to a step. The content hash of a version is
  supplied too; its unique index is modelled.
- Node ids may repeat, as the validator allows; distinct ids are assumed only where stated
  (`CycleOrder`, `FlowLayout`).
- The order `localeCompare` puts on keys is an unknown total preorder: different keys may
  compare as equal, as canonically equivalent strings do. The sort is stable. A number is
  represented by the text JavaScript prints for it.
- The outcome of one comparison in a scenario, the conversion of a value to text or number,
  the printed form of a button index and the size of an encoded image are parameters.
- Numbers in image arithmetic and layout are exact; the canvas bounds are proved from any
  pair of positive sides.
- Strings are sequences of code units; placeholders of a template are already tokenised to
  numbers with leading zeros.
- A call of `restoreVersion` is an update that carries no `expectedUpdatedAt`. What holds in
  every interleaving (`ScenarioVersions.RunKeepsBase`, `ScenarioVersions.NumbersAndCompiled`)
  covers it; what is stated for guarded updates does not.
- An update whose `expectedUpdatedAt` lies beyond the present is not made, and `updatedAt` grows
  with every write of a scenario; the database keeps milliseconds, in which two writes can fall
  together.
- A delivery worker's lease is a fresh value for each claim of an outbox row.

## Model

| member | source | states |
|---|---|---|
| `ScenarioGraph.HasEdgeMeaning` | packages/automation-core/src/index.ts:486-490 | the successor lists the walks follow hold exactly the known edges between existing nodes |
| `CycleCheck.CycleDetector.VisitNode` | packages/automation-core/src/index.ts:486-504 | the recursive walk on its `visiting` stack and `visited` set terminates and changes both exactly as the specification function of the stack, the set and the node says |
| `CycleCheck.CycleDetector.Check` | packages/automation-core/src/index.ts:481-505 | the walk started from every node in turn decides `HasUnguardedCycle` |
| `CycleCheck.ReportIsReal` | packages/automation-core/src/index.ts:486-505 | a reported cycle exists: distinct nodes joined head to tail, none of them DELAY or WAIT_FOR_REPLY |
| `CycleCheck.SilenceGuardsComponents` | packages/automation-core/src/index.ts:481-505 | without a report every closed walk shares its strongly connected component with a DELAY or WAIT_FOR_REPLY node |
| `CycleCheck.UnguardedComponentReported` | packages/automation-core/src/index.ts:481-505 | a cyclic component without such a node is always reported |
| `CycleCheck.ExactWithoutGuards` | packages/automation-core/src/index.ts:481-505 | on graphs without such nodes the check reports if and only if there is a cycle |
| `CycleOrder.ExactWhereUnmixed` | packages/automation-core/src/index.ts:481-505 | on graphs in which no unguarded cycle shares a cyclic component with a suspending node the check reports if and only if there is an unguarded cycle |
| `MissedCycle.ValidatorMissesACycle` | packages/automation-core/src/index.ts:298-505 | the whole validator passes a graph t -> a -> d -> b -> a with a -> b, in which a -> b -> a never suspends: silence does not mean that every simple cycle is guarded |
| `CycleOrder.ReportingOrder` | packages/automation-core/src/index.ts:481-505 | whenever an unguarded cycle exists, listing the same nodes and edges in some other order makes the check report |
| `CycleOrder.SomeOrderReportsIffUnguardedCycle` | packages/automation-core/src/index.ts:481-505 | some listing order of the graph is reported if and only if it has an unguarded cycle (distinct node ids) |
| `GraphValidation.ReachabilityWalk.Visit` | packages/automation-core/src/index.ts:465-470 | the reachability walk adds exactly what can be reached and keeps the marked set closed |
| `GraphValidation.ReachableNodes` | packages/automation-core/src/index.ts:465-471 | the marked nodes are exactly those some trigger leads to |
| `GraphValidation.EdgeIssues` | packages/automation-core/src/index.ts:308-329 | the edge errors are exactly those that hold, for edges with missing ends, values or two condition formats |
| `GraphValidation.SharedPorts` | packages/automation-core/src/index.ts:342-352 | exactly the output ports with more than one edge are reported |
| `GraphValidation.ConditionIssues` | packages/automation-core/src/index.ts:353-368 | exactly the missing priorities, repeated priorities and surplus fallbacks of a condition node are reported |
| `GraphValidation.Validate` | packages/automation-core/src/index.ts:298-479 | the validator reports an issue if and only if it holds of the graph |
| `PartialWalk.LongWalkReturns` | packages/automation-core/src/index.ts:651-712 | a walk longer than the finite set it stays in has come back to an earlier element |
| `PartialWalk.NeverEnds` | packages/automation-core/src/index.ts:651-712 | a deterministic walk that has come back never ends |
| `Simulation.RunPlan` | packages/automation-core/src/index.ts:651-712 | the loop with its count-down budget returns the outcome its walk calls for: finished within 99 steps, suspended within 100, or the budget error |
| `Simulation.Simulate` | packages/automation-core/src/index.ts:641-712 | the simulator returns an outcome that the walk over the graph and input calls for; what a walk does at each node is `SimulationLaws.SimulationObeys` |
| `Simulation.OutcomeUnique` | packages/automation-core/src/index.ts:641-712 | the walk calls for one outcome only, so the simulator is determined by it |
| `Simulation.StepsFollowEdges` | packages/automation-core/src/index.ts:651-712 | consecutive steps of any outcome follow a real edge, by the output the step names |
| `Simulation.BudgetMeansRevisit` | packages/automation-core/src/index.ts:651-712 | on at most 99 nodes the budget error is thrown if and only if the walk returns to a node |
| `Simulation.SortPermutes` | packages/automation-core/src/index.ts:657 | sorting by priority keeps the edges and puts them in ascending order |
| `SimulationLaws.SimulationObeys` | packages/automation-core/src/index.ts:641-733 | whatever is answered, the walk starts at the first listed trigger and follows at each node the earliest fit edge of the list by priority: at a condition the earliest configured edge that matches, without one the earliest edge without a condition; after a reply `reply`, after a timeout `timeout`, after a request `success` or `failure`, else `default` or the first; AND asks for all rules of a group, OR for one; a node without the outcome it needs ends the walk WAITING |
| `SimulationLaws.FirstIsEarliest` | packages/automation-core/src/index.ts:657-733 | the first fit edge of the sorted list is the edge of the graph whose priority is least, and of those the one listed first |
| `ValidationLaws.HoldsIffReported` | packages/automation-core/src/index.ts:298-479 | what each reported error says of the listed nodes and edges, indexes and literal types and ports included: ends that exist, incomplete rules, two edges on one output, priorities, fallbacks, the two HTTP paths, one trigger, paths from it |
| `ValidationLaws.GuardMeans` | packages/automation-core/src/index.ts:294 | the nodes that excuse a cycle are DELAY and WAIT_FOR_REPLY, where of several nodes with one id the last counts |
| `EdgeOrder.SortForgetsOrder` | packages/automation-core/src/index.ts:731-733 | with distinct priorities the sorted list is the same for every listing order |
| `EdgeOrder.PlainChoiceStableIffSettled` | packages/automation-core/src/index.ts:657-658 | a plain node takes the same edge under every listing order if and only if it has a `default` edge, no edge, or a strictly least priority |
| `EdgeOrder.PublishableNode` | packages/automation-core/src/index.ts:340-368 | what an empty error list guarantees of one node: one edge per port, or distinct explicit priorities |
| `EdgeOrder.SimulationForgetsEdgeOrder` | packages/automation-core/src/index.ts:641-733 | on a graph without errors whose plain nodes are settled, every permutation of the edge list gives the same outcome |
| `CanonicalJson.QuoteInjective` | packages/channel-whatsapp/src/index.ts:98-100 | quoted and escaped strings are uniquely readable in front of any text |
| `CanonicalJson.PrintInjective` | packages/channel-whatsapp/src/index.ts:94-103 | the printed text of a value is uniquely readable in front of any separator or end |
| `CanonicalJson.CanonicalInjective` | packages/channel-whatsapp/src/index.ts:94-103 | two values print the same text if and only if they are equal after sorting object keys |
| `CanonicalJson.SameTextAlike` | packages/channel-whatsapp/src/index.ts:94-107 | whatever the order on keys, values that print the same text are equal up to the order of object keys |
| `CanonicalJson.CanonicalTextIdentifies` | packages/channel-whatsapp/src/index.ts:94-107 | for any total preorder on keys: a value in which no object has two keys that compare as equal prints the same text as another if and only if they agree up to the order of object keys |
| `JsonReader.CanonicalReadsBack` | packages/channel-whatsapp/src/index.ts:94-103 | a reader of JSON text without white space, which takes only the shortest spelling of a string, reads canonical text back as the same value with the keys of every object in order |
| `JsonReader.PrintedReads` | packages/channel-whatsapp/src/index.ts:94-103 | printed text reads back in front of any separator or end |
| `JsonReader.EscapedReads` | packages/channel-whatsapp/src/index.ts:98-100 | a quoted string reads back: short escapes, four lower-case hex digits for other controls and lone surrogates, everything else as it is |
| `CanonicalTies.IdentifiedIffTieFree` | packages/channel-whatsapp/src/index.ts:94-107 | all listings of the keys of a value print the same text if and only if no object inside has two keys that compare as equal |
| `CanonicalTies.TiedKeysShow` | packages/channel-whatsapp/src/index.ts:94-103 | two different keys that compare as equal give one object two texts, by the order they were inserted in |
| `Sessions.StepKeepsInv` | apps/api/src/auth/auth.service.ts:56-313 | every statement or transaction of every request keeps the invariant: unique tokens, one user per family, one simple replacement path per family |
| `Sessions.RunKeepsInv` | apps/api/src/auth/auth.service.ts:56-313 | the invariant holds in every interleaving |
| `Sessions.AtMostOneActive` | apps/api/src/auth/auth.service.ts:106-185 | in every reachable state a token family has at most one ACTIVE session |
| `Sessions.ReachableLineage` | apps/api/src/auth/auth.service.ts:150-182 | in every reachable state the `replacedBySessionId` links of a family form one simple path through all its sessions, and only the last can be ACTIVE |
| `Sessions.TokenSucceedsOnce` | apps/api/src/auth/auth.service.ts:150-182 | after a refresh of a session succeeds no later refresh of it does, whatever runs in between |
| `Sessions.NeverRevived` | apps/api/src/auth/auth.service.ts:106-185 | a family without an ACTIVE session never has one again |
| `Sessions.RevocationIsFinal` | apps/api/src/auth/auth.service.ts:236-241 | after logout-all every later ACTIVE session of the user is of a family created afterwards, even with refreshes in flight |
| `Sessions.ReuseIsFinal` | apps/api/src/auth/auth.service.ts:295-303 | once reuse is marked the family has no ACTIVE session ever after |
| `Sessions.RefreshCommitsIffDeferred` | apps/api/src/auth/auth.service.ts:106-185 | an unhindered refresh of a live session changes a row if and only if the foreign key of `replacedBySessionId` is checked at commit; then it replaces the session by the new one and changes no other row |
| `Sessions.ImmediateNobodyRotated` | packages/database/prisma/migrations/20260726000100_stage1_auth_rbac_projects/migration.sql:378-379 | with the key checked at each statement, as this constraint is, no run ever rotates a token: every session stays the only one of its family |
| `Sessions.ReplayMarksFamily` | apps/api/src/auth/auth.service.ts:128-134 | presenting a rotated token again makes every session of its family REUSED |
| `SessionLaws.ReadDecides` | apps/api/src/auth/auth.service.ts:117-145 | a read goes on to a rotation if and only if the row is ACTIVE, before its expiry and of an active user and both tokens are its own; to marking the family if and only if it is ROTATED; to marking it EXPIRED if and only if it is ACTIVE and past its expiry |
| `SessionLaws.RotationGoesBack` | apps/api/src/auth/auth.service.ts:106-185 | in every run a rotation goes back to a read of that token with its csrf token, while the row was ACTIVE and unexpired and its user active, and then to a check that the user still was |
| `SessionLaws.LoginGoesBack` | apps/api/src/auth/auth.service.ts:56-104 | in every run a login session goes back to a login and an identity check of its user, both while active |
| `SessionLaws.LogoutRevokes` | apps/api/src/auth/auth.service.ts:187-220 | an unhindered logout with both tokens makes exactly that session REVOKED, whatever its status |
| `SessionLaws.StatusAfter` | apps/api/src/auth/auth.service.ts:106-303 | which step takes which session to which status; every other session keeps its row |
| `SessionLaws.RunStaysReasonable` | apps/api/src/auth/auth.service.ts:128-182 | in every run EXPIRED sessions are past their expiry and ROTATED ones name their replacement |
| `Sessions.RaceKillsFamily` | apps/api/src/auth/auth.service.ts:150-182 | when two requests carry the same token past the checks, the later one marks the family for good |
| `Sessions.AuthServer.ReadRefreshSession` | apps/api/src/auth/auth.service.ts:117-145 | the first part of `refresh` finds the row by its loop and leaves the state of the step `ReadForRefresh`; what that step decides is `SessionLaws.ReadDecides` |
| `Sessions.LoginStartsFamily` | apps/api/src/auth/auth.service.ts:56-104 | an unhindered login adds one session, alone in a token family of its own; the paths of all other families and all other rows stay as they were |
| `Sessions.AuthServer.RotateSession` | apps/api/src/auth/auth.service.ts:150-182 | the guarded update and insert happen together if the session is still ACTIVE and the foreign key holds whenever it is checked, which it does only if that is at commit; otherwise nothing is written, and the family is to be marked if the session was no longer ACTIVE |
| `Sessions.AuthServer.MarkFamilyReused` | apps/api/src/auth/auth.service.ts:295-303 | exactly the sessions of the family and user become REUSED |
| `Sessions.AuthServer.RevokeAllSessions` | apps/api/src/auth/auth.service.ts:236-241 | exactly the ACTIVE sessions of the user become REVOKED |
| `AccountLifecycle.AfterConsistent` | apps/api/src/account-lifecycle/account-lifecycle.service.ts:93-396 | in every interleaving with time passing, every pending invitation is the one its reservation names and one reset link per user works |
| `AccountLifecycle.OnePendingInvite` | apps/api/src/account-lifecycle/account-lifecycle.service.ts:93-196 | at most one pending invitation exists per project and email, and per email and global role |
| `AccountLifecycle.OneUsableReset` | apps/api/src/account-lifecycle/account-lifecycle.service.ts:436-449 | at most one reset link of a user still works |
| `AccountLifecycle.RefusedIffPending` | apps/api/src/account-lifecycle/account-lifecycle.service.ts:95-124 | a new invitation is refused if and only if another of its scope is pending |
| `AccountLifecycle.AfterAges` | apps/api/src/account-lifecycle/account-lifecycle.service.ts:93-498 | a token that has stopped being pending or usable stays so |
| `AccountLifecycle.AcceptedOnce` | apps/api/src/account-lifecycle/account-lifecycle.service.ts:324-396 | an invitation is accepted at most once, whatever runs in between |
| `AccountLifecycle.RevokedNeverAccepted` | apps/api/src/account-lifecycle/account-lifecycle.service.ts:225-235 | a revocation that commits first prevents every later acceptance, even one already read |
| `AccountLifecycle.ResetOnce` | apps/api/src/account-lifecycle/account-lifecycle.service.ts:478-498 | a reset link is used at most once, whatever runs in between |
| `AccountLifecycle.NewLinkSupersedes` | apps/api/src/account-lifecycle/account-lifecycle.service.ts:436-449 | issuing a link kills every earlier link of the user, even one a request has already read |
| `AccountLifecycle.ResetRevokesSessions` | apps/api/src/account-lifecycle/account-lifecycle.service.ts:487-498 | a completed reset leaves its user no ACTIVE session and changes no session of anyone else |
| `AccountLifecycle.ResetIsFinal` | apps/api/src/account-lifecycle/account-lifecycle.service.ts:487-498 | to the session table a completed reset is a logout-all of its user: every later ACTIVE session of the user is of a family created afterwards |
| `AccountLaws.ReadsStart` | apps/api/src/account-lifecycle/account-lifecycle.service.ts:225-500 | a request to accept goes on if and only if the invitation is neither accepted nor revoked nor expired; one to revoke if it is neither accepted nor revoked; one to reset if the link is unused and unexpired and its user active |
| `AccountLaws.InvitationAfter` | apps/api/src/account-lifecycle/account-lifecycle.service.ts:225-396 | an invitation gets its acceptance time exactly when a request that read it finds it still open, its revocation time exactly by a revocation that read it, and nothing else of it changes |
| `AccountLaws.ReservationAfter` | apps/api/src/account-lifecycle/account-lifecycle.service.ts:227-396 | acceptance and revocation give up exactly the reservations of that invitation |
| `AccountLaws.LinkAfter` | apps/api/src/account-lifecycle/account-lifecycle.service.ts:436-498 | a link is used up exactly by its own reset while it works, or by a new link of its user |
| `AccountLaws.LinkIsNew` | apps/api/src/account-lifecycle/account-lifecycle.service.ts:435-449 | a new link works for 1800000 milliseconds and is its user's own |
| `AccountLaws.SessionAfter` | apps/api/src/account-lifecycle/account-lifecycle.service.ts:487-498 | only a completed reset touches sessions: exactly the ACTIVE ones of its user become REVOKED |
| `AccountLaws.AcceptanceGoesBack` | apps/api/src/account-lifecycle/account-lifecycle.service.ts:324-396 | in every run an accepted invitation was open when its request read it, and still when it was marked |
| `AccountLaws.ResetGoesBack` | apps/api/src/account-lifecycle/account-lifecycle.service.ts:478-498 | in every run a completed reset goes back to a read of its link while it worked and its user was active |
| `AccountLifecycle.AccountServer.CreateInvitation` | apps/api/src/account-lifecycle/account-lifecycle.service.ts:93-124 | refused while the reservation names a pending token; otherwise creates the token and moves the reservation to it |
| `AccountLifecycle.AccountServer.RevokeInvitation` | apps/api/src/account-lifecycle/account-lifecycle.service.ts:227-235 | marks the token revoked and deletes exactly the reservations naming it |
| `AccountLifecycle.AccountServer.AcceptInvitation` | apps/api/src/account-lifecycle/account-lifecycle.service.ts:324-396 | marks the token accepted and deletes exactly the reservations naming it, if it is still pending at that moment |
| `AccountLifecycle.AccountServer.CreatePasswordResetLink` | apps/api/src/account-lifecycle/account-lifecycle.service.ts:436-449 | uses up exactly the usable links of the user and adds the new one |
| `AccountLifecycle.AccountServer.ResetPassword` | apps/api/src/account-lifecycle/account-lifecycle.service.ts:487-498 | uses up the link and revokes the user's ACTIVE sessions, if the link still works |
| `ScenarioVersions.RunKeepsBase` | apps/api/src/automation/automation.service.ts:224-518 | in every interleaving whatever, `restoreVersion` and other updates without `expectedUpdatedAt` included, numbers are unique, versions, drafts, active links and pending calls belong to their scenario, and every compiled definition passed validation |
| `ScenarioVersions.NumbersAndCompiled` | apps/api/src/automation/automation.service.ts:224-518 | in every interleaving, with the graph validator as check: numbers are never reused and every `compiledDefinition` has no validation error |
| `ScenarioVersions.RunInv` | apps/api/src/automation/automation.service.ts:224-447 | in every interleaving in which updates carry `expectedUpdatedAt`, also: the draft link names a version in DRAFT, the active link one that has left it, and what a pending update read is current while its timestamp is |
| `ScenarioVersions.PublishedGraphNeverChanges` | apps/api/src/automation/automation.service.ts:262-395 | in all those interleavings the graph of a version that was published never changes |
| `ScenarioVersions.UnguardedUpdateOverwrites` | apps/api/src/automation/automation.service.ts:262-341 | without `expectedUpdatedAt` an update read before a publication and committed after it rewrites the published graph |
| `ScenarioVersions.OnePublished` | apps/api/src/automation/automation.service.ts:343-395 | over every run of atomic calls a scenario has at most one PUBLISHED version |
| `ScenarioVersions.AtomicRuns` | apps/api/src/automation/automation.service.ts:224-518 | over every run of atomic calls versions out of DRAFT run their own validated graph, the active version is PUBLISHED and numbers are unique |
| `ScenarioVersions.PerformAllInv` | apps/api/src/automation/automation.service.ts:224-518 | every atomic call keeps the invariant, and no version once published changes graph or compiled definition, or becomes a draft |
| `ScenarioVersions.PublishTakesOver` | apps/api/src/automation/automation.service.ts:343-395 | a publication makes the draft the active version, retires the former one, clears the draft and changes no other version |
| `ScenarioVersions.StalePublishLeavesTwo` | apps/api/src/automation/automation.service.ts:343-395 | an interleaved publication leaves only its own version PUBLISHED if and only if the active version has not changed since it was read |
| `ScenarioVersions.TwoPublished` | apps/api/src/automation/automation.service.ts:343-395 | a run from the empty store, with every update guarded, that ends with two PUBLISHED versions of one scenario |
| `ScenarioLaws.UpdateExactly` | apps/api/src/automation/automation.service.ts:262-341 | an update at one go writes the draft, or adds one with the next number, and changes nothing else, if and only if no other version of the scenario has the hash and the timestamp given is the current one; otherwise it changes nothing |
| `ScenarioLaws.RestoreExactly` | apps/api/src/automation/automation.service.ts:495-518 | a restore at one go gives the draft the graph of the named version of the same scenario, under the same condition on the hash; the version restored keeps its graph |
| `ScenarioLaws.RestoredOnce` | apps/api/src/automation/automation.service.ts:495-518 | once a restored graph is published, restoring it again with the same hash is refused |
| `ScenarioLaws.StatusExactly` | apps/api/src/automation/automation.service.ts:397-424 | resuming asks for an active version and sets PUBLISHED, pausing sets PAUSED; nothing else changes |
| `ScenarioLaws.ArchiveExactly` | apps/api/src/automation/automation.service.ts:426-447 | archiving sets ARCHIVED and changes nothing else |
| `ScenarioLaws.CommitUpdateExactly` | apps/api/src/automation/automation.service.ts:278-341 | in every interleaving an update writes the draft it has read, whatever that has become, unless the timestamp moved, the hash is taken or the number is not the next |
| `ScenarioLaws.CommitPublishExactly` | apps/api/src/automation/automation.service.ts:361-394 | in every interleaving a publication compiles the graph it has read, retires the active version it has read, and changes no other version |
| `ScenarioVersions.ScenarioStore.NextVersionNumber` | apps/api/src/automation/automation.service.ts:281-293 | one more than the largest number among the versions of the scenario |
| `ScenarioVersions.ScenarioStore.UpdateTransaction` | apps/api/src/automation/automation.service.ts:278-340 | writes the draft and the scenario row, or rolls everything back when the hash is taken or the timestamp has moved |
| `ScenarioVersions.ScenarioStore.PublishTransaction` | apps/api/src/automation/automation.service.ts:361-394 | the new state of the three writes of a publication |
| `Broadcasts.StampedStep` | apps/api/src/broadcasts/broadcasts.service.ts:224-433 | every call, preparation and delivery step keeps the agreement of status and time stamps; what completes a broadcast is `BroadcastLaws.CountThenComplete` |
| `Broadcasts.EndIsFinal` | apps/api/src/broadcasts/broadcasts.service.ts:224-433 | COMPLETED, CANCELLED and FAILED are final over every run, apart from the archive |
| `Broadcasts.RestoreReturnsArchived` | apps/api/src/broadcasts/broadcasts.service.ts:388-433 | restore returns the status that was archived whatever happened meanwhile; SCHEDULED returns as DRAFT |
| `Broadcasts.RunKeepsRows` | apps/api/src/broadcasts/broadcasts.service.ts:489-610 | over every run links between recipients, outbox rows and messages are sound, idempotency keys unique, and recipients listed for a retry keep their outbox row |
| `Broadcasts.QueuedOwnsOneOfEach` | apps/api/src/broadcasts/broadcasts.service.ts:498-604 | every QUEUED recipient owns exactly one outbox row and exactly one message, and they belong together |
| `BroadcastLaws.CountThenComplete` | apps/api/src/broadcasts/broadcasts.service.ts:606-672 | after the queueing loop, counting and completing turn a RUNNING broadcast COMPLETED if and only if no recipient is PENDING, QUEUED or PROCESSING; nothing else changes |
| `BroadcastLaws.ReportCompletes` | apps/worker/src/telegram-outbound/telegram-outbound-processor.service.ts:1149-1165 | a counted delivery report completes a RUNNING broadcast if and only if it leaves no recipient PENDING, QUEUED or PROCESSING |
| `BroadcastLaws.CompletedIsFinished` | apps/api/src/broadcasts/broadcasts.service.ts:489-672 | in every run in which no step revives a recipient between count and completion or later, a COMPLETED broadcast has no recipient PENDING, QUEUED or PROCESSING |
| `BroadcastLaws.RevivingSteps` | apps/api/src/broadcasts/broadcasts.service.ts:346-386 | only a late preparation, a deferral, a retry of failed recipients and an operator can revive one |
| `BroadcastRuns.CompletedWhileQueued` | apps/api/src/broadcasts/broadcasts.service.ts:346-386 | a run from the creation in which a retry commits between the count and the completion: the broadcast is COMPLETED with a QUEUED recipient |
| `BroadcastDiagrams.BroadcastMoves` | apps/api/src/broadcasts/broadcasts.service.ts:136-433 | the status diagram over all steps: the broadcast goes from one status to another if and only if the diagram says so |
| `BroadcastDiagrams.RecipientMoves` | apps/api/src/broadcasts/broadcasts.service.ts:303-606 | the diagram of a recipient over all steps of calls, queueing, workers and operators: its status changes if and only if the diagram says so |
| `BroadcastDiagrams.OutboxMoves` | apps/api/src/operations/operations.service.ts:476-628 | the diagram of an outbox row: claimed under a lease, closed or given back under that lease only, failed by a cancellation, pending again by a retry, requeued by hand |
| `BroadcastDiagrams.MessagesMove` | apps/api/src/broadcasts/broadcasts.service.ts:303-386 | the diagram of a message: which step marks it, through which link |
| `BroadcastDiagrams.RowsAreAdded` | apps/api/src/broadcasts/broadcasts.service.ts:523-604 | rows and messages are added by the queueing loop alone, one of each, for a recipient without a row while the broadcast is RUNNING |
| `BroadcastDiagrams.LinksMove` | apps/api/src/broadcasts/broadcasts.service.ts:523-604 | a recipient is linked to its message and row when it is queued from PENDING, and its links never change otherwise |
| `BroadcastStages.PreparationsMove` | apps/api/src/broadcasts/broadcasts.service.ts:489-610 | the stages of a preparation: loaded, stored, the list of exactly the PENDING recipients taken one by one, ended by a taken key, counted, completed |
| `BroadcastStages.RetriesMove` | apps/api/src/broadcasts/broadcasts.service.ts:346-380 | the stages of a retry: started while RUNNING, then the list of exactly the FAILED recipients with a row, then its transaction |
| `BroadcastCancellation.QueuedIffRequeued` | apps/api/src/operations/operations.service.ts:574-628 | in every run after a cancellation a recipient is QUEUED if and only if a requeue of a failed attempt, a deferral, a retry listed before, or the retry or reconciliation of its row by hand wrote QUEUED and no later step took it up or settled it |
| `BroadcastCancellation.RequeuedIffAtRisk` | apps/api/src/operations/operations.service.ts:476-596 | some run queues a recipient after the cancellation if and only if, at the cancellation, it had an outbox row and: a retry under way had listed it or could still list it; or, on Telegram, it was PROCESSING or its row had not succeeded; or, on WhatsApp, a worker that had found the broadcast PAUSED held its row. Without an operator the same, but for rows that have not succeeded |
| `BroadcastCancellation.CancellationIsFinal` | apps/api/src/broadcasts/broadcasts.service.ts:303-344 | no run after a cancellation ever has a QUEUED recipient if and only if no recipient was at that risk, with or without an operator |
| `BroadcastRuns.RequeueAfterCancel` | apps/worker/src/telegram-outbound/telegram-outbound-processor.service.ts:1102-1116 | a run from the creation in which a delivery fails for now after the cancellation: its recipient is QUEUED in a CANCELLED broadcast |
| `BroadcastRuns.DeferralAfterCancel` | apps/worker/src/whatsapp-outbound/whatsapp-outbound-processor.service.ts:1806-1828 | a run from the creation in which a worker reads PAUSED before the cancellation and defers after it: its recipient is QUEUED in a CANCELLED broadcast |
| `BroadcastRuns.RetryRowAfterCancel` | apps/api/src/operations/operations.service.ts:476-628 | a run from the creation in which cancelling fails the row of a QUEUED recipient and an operator retries that row: the recipient is QUEUED in a CANCELLED broadcast, although no worker or retry put anybody at risk |
| `BroadcastRuns.RetryAfterCancel` | apps/api/src/broadcasts/broadcasts.service.ts:346-380 | a run from the creation in which `retryFailed` lists a recipient before the cancellation and commits after it: the recipient is QUEUED in a CANCELLED broadcast |
| `LatePreparations.LatePreparationAddsRecipients` | apps/api/src/broadcasts/broadcasts.service.ts:489-517 | a cancelled broadcast can have a PENDING recipient later if and only if a preparation had loaded it before the cancellation and nobody had stored it yet |
| `Broadcasts.BroadcastStore.Cancel` | apps/api/src/broadcasts/broadcasts.service.ts:303-344 | the loops over recipients, linked messages and linked outbox rows leave exactly the state of the cancel step: nobody PENDING or QUEUED, everybody else unchanged; refused in the other statuses |
| `Broadcasts.BroadcastStore.RetryListed` | apps/api/src/broadcasts/broadcasts.service.ts:357-380 | the updates by id lists leave exactly the state of the retry transaction: every listed recipient QUEUED whatever it has become, everybody else unchanged |
| `Broadcasts.BroadcastStore.RequeueOutbox` | apps/api/src/operations/operations.service.ts:574-628 | refused unless the channel is Telegram and the row still has the expected status; otherwise the loops leave exactly the state of the step, with every recipient of the row QUEUED |
| `Broadcasts.BroadcastStore.StoreRecipients` | apps/api/src/broadcasts/broadcasts.service.ts:498-517 | adds exactly the missing recipients as PENDING and moves a PREPARING broadcast to RUNNING or COMPLETED |
| `Broadcasts.BroadcastStore.QueueRecipient` | apps/api/src/broadcasts/broadcasts.service.ts:523-606 | one turn of the queueing loop: missing variable, stopped broadcast, taken key, or new message and outbox row |
| `WebhookSplitter.SplitEnvelope` | packages/channel-whatsapp/src/index.ts:109-205 | the nested loops with their three limits compute the specified split, or fail |
| `WebhookSplitter.SplitExact` | packages/channel-whatsapp/src/index.ts:109-205 | every object message and status of every accepted change becomes one item, once and in order; at most 500; it fails if and only if the envelope is too large; what each item says is `WebhookLaws.ItemsComeFrom` |
| `WebhookLaws.ItemsComeFrom` | packages/channel-whatsapp/src/index.ts:109-205 | a call fails if and only if it has over 100 entries, an entry over 100 changes, or elements beyond 500 items; otherwise there is one item for each place of an object in the call, in the order of places, with the account of its entry, the phone number of its change, its event id and its own payload |
| `WebhookLaws.EventsTell` | packages/channel-whatsapp/src/index.ts:139-191 | no message shares an event id with a status; two messages share one if and only if they share the id, one without an id being told by its digest; two statuses if and only if id, status and timestamp joined by colons agree |
| `WebhookLaws.ToldApartIff` | packages/channel-whatsapp/src/index.ts:183-186 | a status is told apart from every other if and only if no other two colons cut its joined text into three parts |
| `WebhookLaws.PlainStatusesTold` | packages/channel-whatsapp/src/index.ts:183-186 | without colons in status and timestamp two statuses share an event id if and only if id, status and timestamp agree |
| `WebhookLaws.ColonConfuses` | packages/channel-whatsapp/src/index.ts:183-186 | a colon in a name is enough for two different statuses to share an event id |
| `WebhookLaws.NormalizedFrom` | packages/channel-whatsapp/src/index.ts:206-244 | normalizing any item of a call gives its message with sender and profile name, unless sender, id or type is missing, or its status, unless id, status or timestamp is |
| `WebhookSplitter.ResplitsItself` | packages/channel-whatsapp/src/index.ts:145-200 | splitting the payload of an item gives exactly that item |
| `WebhookSplitter.NormalizesItsSource` | packages/channel-whatsapp/src/index.ts:145-244 | normalizing an item gives the same message with the profile of the first contact whose `wa_id` is the sender, or the same status |
| `TemplateChecker.CollectRequirements` | packages/channel-whatsapp/src/index.ts:373-417 | the loops over components and buttons list the specified requirements |
| `TemplateChecker.CheckSupplied` | packages/channel-whatsapp/src/index.ts:418-499 | the loop over supplied components with its key set accepts if and only if each fits its first match, no slot is filled twice and none is left |
| `TemplateChecker.AssertTemplateComponents` | packages/channel-whatsapp/src/index.ts:360-500 | the three verdicts, each with its exact condition |
| `TemplateChecker.AcceptedIffAssigned` | packages/channel-whatsapp/src/index.ts:360-500 | with distinct requirement places, a list is accepted if and only if its components satisfy the requirements one to one, in any order |
| `TemplateChecker.RepeatedPlaceNeverAssigned` | packages/channel-whatsapp/src/index.ts:434-444 | when requirements repeat a place, an accepted list is never a one-to-one assignment: only the first of them is looked at |
| `TemplateLaws.AcceptedInJson` | packages/channel-whatsapp/src/index.ts:310-500 | unless two things are asked for at one place, a list is accepted if and only if the definition can be used and every component is, as JSON, exactly an answer to something asked for, no two to the same, nothing left open, at most 64 |
| `TemplateLaws.UsableIff` | packages/channel-whatsapp/src/index.ts:310-358 | when a definition can be used: no location header, no unsupported part, no named placeholder, no dynamic URL button but positional ones |
| `TemplateLaws.AsksIff` | packages/channel-whatsapp/src/index.ts:373-417 | what a definition asks for, component by component: places, counts of different placeholders, parameter types |
| `TemplateLaws.HeldAgainstFirst` | packages/channel-whatsapp/src/index.ts:434-444 | a component is held against the first requirement that it matches |
| `TemplateLaws.RequirementsInOrder` | packages/channel-whatsapp/src/index.ts:373-417 | requirements come in the order of the components |
| `TemplateComposer.TemplateComponents` | apps/web/src/whatsapp-template-composer.ts:111-159 | the composing loops with their map of text groups compute the specified components |
| `TemplateComposer.GroupLength` | apps/web/src/whatsapp-template-composer.ts:146-157 | a group has as many entries as its side has text slots if and only if all of them are filled |
| `ComposerLaws.SlotsOffered` | apps/web/src/whatsapp-template-composer.ts:41-104 | the slots of a template: header media, one for each position that a text refers to, one for each button with a value |
| `ComposerLaws.SlotsInOrder` | apps/web/src/whatsapp-template-composer.ts:41-104 | slots come component by component, media before texts, texts by position, buttons by index |
| `ComposerLaws.ComposedExactly` | apps/web/src/whatsapp-template-composer.ts:111-159 | exactly this is composed: one component for every slot of media or button with a trimmed value, and for each side one of all its trimmed texts in ascending order |
| `ComposerLaws.StrippedIsTrim` | apps/web/src/whatsapp-template-composer.ts:118 | the value of a slot is the text without the white space around it |
| `ComposerLaws.SinglesInOrder` | apps/web/src/whatsapp-template-composer.ts:116-145 | components of one value come in the order of their slots, before all texts |
| `ComposerLaws.TextsInOrder` | apps/web/src/whatsapp-template-composer.ts:146-157 | components of texts come last, by the first text of their side that has a value |
| `TemplateAgreement.CompleteIffAgrees` | packages/channel-whatsapp/src/index.ts:418-499 | for composed components acceptance means: at most 64, each meets the requirement at its place, and every requirement has its component |
| `TemplateAgreement.ComposedPlaces` | apps/web/src/whatsapp-template-composer.ts:111-159 | no two composed components are for the same place |
| `ComposableTemplates.TemplateLinked` | apps/web/src/whatsapp-template-composer.ts:41-104 | the slots of a composable template ask for exactly what the checker requires |
| `ComposableTemplates.ComposedAccepted` | apps/web/src/whatsapp-template-composer.ts:41-159 | what is composed for a composable template is accepted if and only if the definition is supported, every slot is filled within its bound and there are at most 64 components |
| `ComposerRoundTrip.ParameterValues` | apps/web/src/whatsapp-template-composer.ts:161-196 | the reading loop computes the specified map of values |
| `ComposerLaws.ReadBackExactly` | apps/web/src/whatsapp-template-composer.ts:161-196 | from any components, the value read for a slot is the one shown to it by the first component it looks at, or none |
| `ComposerRoundTrip.RoundTripExact` | apps/web/src/whatsapp-template-composer.ts:111-196 | reading back gives exactly the trimmed filled values if and only if the filled orders of header and body are 1 to k and the header has not both media and text filled |
| `ComposerRoundTrip.TemplateRoundTrip` | apps/web/src/whatsapp-template-composer.ts:41-196 | the same for the slots of every template with one header, body and button list at most |
| `JpegScan.JpegDimensions` | packages/media-core/src/index.ts:157-181 | the scanning loops terminate on any bytes, read nothing out of range and compute the specified scan |
| `JpegScan.StreamIsRead` | packages/media-core/src/index.ts:157-181 | for any skippable segments with stray and fill bytes before a complete frame header the scan returns that header's height and width |
| `JpegScan.ReadIsStream` | packages/media-core/src/index.ts:157-181 | whatever the scan accepts has that form |
| `JpegScan.ScanExact` | packages/media-core/src/index.ts:157-181 | the scan returns a size if and only if the bytes are a stream whose first frame header has that size |
| `DocumentStructure.ContainsSequence` | packages/media-core/src/index.ts:403-411 | true if and only if the sequence occurs at or after the given offset |
| `DocumentStructure.ValidateDocumentStructure` | packages/media-core/src/index.ts:413-438 | a PDF is accepted if and only if its end marker lies in the last 1024 bytes, a ZIP if and only if some end record reaches the end of the file; the search window misses none |
| `DocumentStructure.ZipAcceptsArchives` | packages/media-core/src/index.ts:425-437 | a ZIP is accepted if and only if it is entries followed by an end record with its whole comment |
| `PhotoCanvas.AcceptedIffLegal` | packages/media-core/src/index.ts:216-230 | the photo check accepts exactly positive sides with sum at most 10000 and ratio at most 20 |
| `PhotoCanvas.TelegramPhotoCanvas` | packages/media-core/src/index.ts:484-501 | scaling, widening and the final loop compute the specified canvas; its sides in whole numbers are `CanvasLaws.CanvasInWholeNumbers` |
| `PhotoCanvas.ShrunkLegal` | packages/media-core/src/index.ts:496-499 | from any positive proportionate pair the loop ends with a legal size |
| `PhotoCanvas.CanvasLegal` | packages/media-core/src/index.ts:484-501 | the canvas is legal for every source and scale |
| `PhotoCanvas.OwnCanvasIffLegal` | packages/media-core/src/index.ts:484-501 | at scale 1 a source is its own canvas if and only if it is legal |
| `PhotoCanvas.CanvasSwap` | packages/media-core/src/index.ts:484-501 | swapping width and height of the source swaps the canvas |
| `CanvasLaws.CanvasInWholeNumbers` | packages/media-core/src/index.ts:484-501 | for every source and scale: both sides scaled and rounded down, brought under the sum of 10000 in proportion and rounded down, a sliver widened to a twentieth of its length, and what then exceeds the sum taken from the length |
| `CanvasLaws.LegalSidesAreKept` | packages/media-core/src/index.ts:485-486 | while the sides times the scale, rounded down, can be sent, they are the canvas |
| `CanvasLaws.ProportionsAreKept` | packages/media-core/src/index.ts:487-491 | a proportionate source over the sum gets sides that sum to 9999 or 10000, each within a pixel of its share: 10000 times the side divided by the sum, rounded down, but 9523 by 477 where rounding tips the ratio |
| `CanvasLaws.SliverWithinSum` | packages/media-core/src/index.ts:492-499 | a sliver within the sum gets a twentieth of its length, rounded up, and of the length what the sum leaves |
| `CanvasLaws.SliverOverSum` | packages/media-core/src/index.ts:487-499 | a sliver over the sum uses all of it, with 477 to 500 for the shorter side |
| `PhotoCanvas.PlaceOnCanvas` | packages/media-core/src/index.ts:509-521 | the content fits source and canvas, fills one side, keeps its proportions up to rounding, and has non-negative padding that sums exactly and is centred within one pixel |
| `PhotoCanvas.PreparePhoto` | packages/media-core/src/index.ts:612-634 | the first of five attempts that is small enough is returned with a legal size; otherwise all five were too large |
| `CanvasLaws.RunOfAttempts` | packages/media-core/src/index.ts:612-634 | each attempt of a run: scale 1 first, then the last scale times the factor for the last size; a canvas of those sides; qualities 90, 82, 74, 66, 58; at most five |
| `PathUpdate.ObjectStore.SetAt` | packages/automation-http/src/index.ts:401-413 | the loop over path parts changes the objects as the specified write, including what it leaves behind when it throws |
| `PathUpdate.ObjectStore.MapResponse` | packages/automation-http/src/index.ts:117-133 | the mapping loop computes the specified objects and failure flag |
| `PathUpdate.WriteLaws` | packages/automation-http/src/index.ts:393-413 | a write throws if and only if a part is dangerous; else the written value is read back; in any case paths neither prefix nor extension read as before and no response object is touched |
| `PathUpdate.ResponseUntouched` | packages/automation-http/src/index.ts:117-133 | if no target runs through an earlier one, the loop never writes into the response or a default, although it shares them |
| `PathUpdate.MappingsLand` | packages/automation-http/src/index.ts:117-133 | with pairwise incomparable targets each target ends with exactly the value converted from the original response, or nothing, as does a target with a dangerous part |
| `PathUpdate.FailureReported` | packages/automation-http/src/index.ts:121-132 | `mappingFailed` is set if and only if a required value is missing, a conversion fails or a target with a dangerous part is to be written |
| `PathUpdate.TargetBelowAltersResponse` | packages/automation-http/src/index.ts:117-133 | for every two targets of which one runs through the other there is a response that the loop alters |
| `PathLaws.TargetsLead` | packages/automation-http/src/index.ts:117-133 | after the loop a target leads, field by field, to a value if and only if the source or else the default provides one that converts to it: `json` as it is, `string` as text, `number` as a number, `boolean` from true, false and their names |
| `PathLaws.LeadsIff` | packages/automation-http/src/index.ts:393-399 | reading a path is following it field by field, never through a forbidden part |
| `PathLaws.NothingElseLeads` | packages/automation-http/src/index.ts:117-133 | after the loop no path leads anywhere unless it is a prefix or an extension of a target |
| `PathLaws.FailureMeans` | packages/automation-http/src/index.ts:117-133 | failure is reported if and only if some mapping lacks a required value, cannot convert what is provided, or may not write it |
| `FlowLayout.SpreadCompactFlowNodes` | apps/web/src/automation-editor-graph.ts:22-43 | the nested loops compute the specified layout |
| `FlowLayout.SortOrder` | apps/web/src/automation-editor-graph.ts:28-30 | the sort is stable: it handles nodes by height, then horizontal position, then listing |
| `FlowLayout.SpreadIsLayout` | apps/web/src/automation-editor-graph.ts:22-43 | nodes keep order and x, none moves up, each clears the lane nodes handled before it, and is where it was or rests on one of them |
| `FlowLayout.LayoutUnique` | apps/web/src/automation-editor-graph.ts:22-43 | no other arrangement has these properties: each height is the least possible |
| `FlowLayout.SpreadSeparates` | apps/web/src/automation-editor-graph.ts:22-43 | two nodes less than 250 apart horizontally end at least 128 apart vertically |
| `FlowLayout.FixedIffSeparated` | apps/web/src/automation-editor-graph.ts:22-43 | the layout changes nothing if and only if the nodes are apart already |
| `FlowLayout.SpreadIdempotent` | apps/web/src/automation-editor-graph.ts:22-43 | spreading twice is spreading once |

## Left out

- Configuration schemas of nodes: the validator's checks of a node's own configuration are one flag of the node.
- Simulation.Simulate: evaluating one comparison against the test event is a parameter, because its cases are independent one-line facts.
- GraphValidation.Validate: does not look into a node's own configuration, whose checks are that flag.
- CycleCheck.SilenceGuardsComponents: does not say that every simple cycle is guarded, because the code does not ensure it (see `MissedCycle.ValidatorMissesACycle`).
- CycleOrder.SomeOrderReportsIffUnguardedCycle: the listing order it speaks of need not be the given one; for a graph whose unguarded cycle shares a component with a suspending node, no condition on the given listing is stated.
- Sessions.RevocationIsFinal: a completed password reset is not a step of its own in `Sessions`; `AccountLifecycle.ResetIsFinal` carries the result over to it.
- ScenarioVersions.PublishedGraphNeverChanges: assumes that updates carry `expectedUpdatedAt`, because without it the property fails (`ScenarioVersions.UnguardedUpdateOverwrites`).
- ScenarioVersions.OnePublished: is about atomic calls; interleaved publications can leave two (`ScenarioVersions.TwoPublished`), exactly when the active version has changed since it was read (`ScenarioVersions.StalePublishLeavesTwo`).
- BroadcastLaws.CompletedIsFinished: speaks of runs in which nobody is revived between count and completion or later, because the code does not keep that apart (`BroadcastRuns.CompletedWhileQueued`).
- WebhookLaws.EventsTell: a status whose names hold colons can share its event id with another (`WebhookLaws.ColonConfuses`); the exact condition is `WebhookLaws.ToldApartIff`.
- TemplateLaws.AcceptedInJson: assumes that no two things are asked for at one place; with repeated places a component is held against the first (`TemplateLaws.HeldAgainstFirst`).
- ScenarioLaws.RestoreExactly: the hash of a restored graph is supplied to the step, since it depends on the order in which the database returns keys.
- BroadcastCancellation.CancellationIsFinal: updating, cancelling, archiving and restoring a broadcast check its status and write it in two statements, which are one step here; the status check and the list of `retryFailed`, and its transaction, are three.
- Merging contacts moves recipients to another channel identity; a recipient keeps its identity here.
- Users: disabling a user is taken as its two writes in a row, `SetUser` and `RevokeAll`; changing a password by an administrator, which may keep one session, and deleting a user with all sessions are not steps.
- Broadcasts.QueuedOwnsOneOfEach: is about one broadcast; conversations, queues and message contents are not modelled.
- Delivery workers are steps of the state machine without methods of their own: when a row is due, how often it is tried and what is sent are left to the steps of the environment; an outcome may be reported at any time, and leases are lost at any time.
- Continuations and inbound messages are not modelled.
- TemplateChecker.AcceptedIffAssigned: assumes distinct requirement places, because with repeated places it fails for every accepted list (`TemplateChecker.RepeatedPlaceNeverAssigned`).
- TemplateComposer.TemplateComponents: takes slots as the slot list of a template yields them; a media slot without a media type or a button slot without an index cannot be expressed.
- PathUpdate.MappingsLand: arrays are never entered by paths and are plain values; the shape checks of the configuration schema are not modelled.
- PhotoCanvas.PreparePhoto: the image library is a function from layout and quality to a size; rounding of IEEE numbers is not modelled.
- PNG and WebP headers, media signatures and filename checks are one-step reads without loops.
- The mapping between scenario graphs and editor nodes is a field-by-field copy.
- Duplicating scenarios, running a broadcast again, listing and previewing create or read rows only.
- Controllers, guards, audit writes, user interface code, HTTP, DNS, storage and cryptography are foreign or stateless here.
