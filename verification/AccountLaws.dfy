/**
  What it takes to accept an invitation, to revoke one and to reset a password, by the
  marks on the rows and the clock; and where a completed one comes from.
*/
module AccountLaws {
  import opened Collections
  import opened Sessions
  import opened AccountLifecycle

  /** Neither accepted nor revoked, and before its expiry. */
  predicate StillOpen(w: World, id: Uuid) {
    id in w.invites && w.invites[id].acceptedAt == None && w.invites[id].revokedAt == None && w.now < w.invites[id].expiresAt
  }

  /** Not used yet, and before its expiry. */
  predicate StillWorks(w: World, id: Uuid) {
    id in w.resets && w.resets[id].usedAt == None && w.now < w.resets[id].expiresAt
  }

  predicate Does(w: World, request: Uuid, t: Task) {
    request in w.tasks && w.tasks[request] == t
  }

  // --- Requests ---

  predicate Starts(w: World, e: Event, t: Task) {
    match t
    case Accepting(id) => e.ReadForAccept? && e.id == id && StillOpen(w, id)
    case Revoking(id) =>
      e.ReadForRevoke? && e.id == id && id in w.invites && w.invites[id].acceptedAt == None && w.invites[id].revokedAt == None
    case Resetting(id, user) =>
      e.ReadForReset? && e.id == id && StillWorks(w, id) && w.resets[id].user == user && user in w.activeUsers
  }

  /** A request goes on from its read exactly under these conditions. */
  lemma ReadsStart(w: World, e: Event, t: Task)
    requires (e.ReadForAccept? || e.ReadForRevoke? || e.ReadForReset?) && e.request !in w.tasks
    ensures Does(Next(w, e), e.request, t) <==> Starts(w, e, t)
    ensures Next(w, e) == w.(tasks := Next(w, e).tasks)
  {}

  lemma OthersStartNothing(w: World, e: Event, request: Uuid)
    requires request in Next(w, e).tasks
    requires !((e.ReadForAccept? || e.ReadForRevoke? || e.ReadForReset?) && e.request == request && request !in w.tasks)
    ensures request in w.tasks && w.tasks[request] == Next(w, e).tasks[request]
  {}

  // --- Rows ---

  /** The invitation that an event accepts, and the one that it revokes. */
  predicate AcceptsIt(w: World, e: Event, id: Uuid) {
    e.CommitAccept? && Does(w, e.request, Accepting(id)) && StillOpen(w, id)
  }

  predicate RevokesIt(w: World, e: Event, id: Uuid) {
    e.CommitRevoke? && Does(w, e.request, Revoking(id))
  }

  /** An invitation is marked exactly by its acceptance and its revocation, at that time. */
  lemma InvitationAfter(w: World, e: Event, id: Uuid)
    requires id in w.invites
    ensures id in Next(w, e).invites
    ensures var i, j := w.invites[id], Next(w, e).invites[id];
      && j.scope == i.scope && j.expiresAt == i.expiresAt
      && j.acceptedAt == (if AcceptsIt(w, e, id) then Some(w.now) else i.acceptedAt)
      && j.revokedAt == (if RevokesIt(w, e, id) then Some(w.now) else i.revokedAt)
  {}

  /** A new one comes only from a creation, and only if none of its scope is open. */
  lemma InvitationIsNew(w: World, e: Event, id: Uuid)
    requires Consistent(w) && id !in w.invites
    ensures id in Next(w, e).invites <==>
      e.CreateInvite? && e.id == id && forall other :: StillOpen(w, other) ==> w.invites[other].scope != e.scope
    ensures id in Next(w, e).invites ==>
      Next(w, e).invites[id] == Invite(e.scope, e.expiresAt, None, None) && Next(w, e).reservations == w.reservations[e.scope := id]
  {
    if e.CreateInvite? && e.id == id && e.scope in w.reservations {
      assert StillOpen(w, w.reservations[e.scope]) <==> IsPending(w.invites[w.reservations[e.scope]], w.now);
    }
  }

  /** Acceptance and revocation give up every reservation of the invitation, and nothing else does. */
  lemma ReservationAfter(w: World, e: Event, k: Scope)
    requires k in w.reservations && !e.CreateInvite? && TasksKnown(w)
    ensures k in Next(w, e).reservations <==> !(AcceptsIt(w, e, w.reservations[k]) || RevokesIt(w, e, w.reservations[k]))
    ensures k in Next(w, e).reservations ==> Next(w, e).reservations[k] == w.reservations[k]
  {}

  predicate UsesIt(w: World, e: Event, id: Uuid) {
    && StillWorks(w, id)
    && ((e.CommitReset? && Does(w, e.request, Resetting(id, w.resets[id].user)))
        || (e.CreateResetLink? && e.id !in w.resets && e.user == w.resets[id].user))
  }

  /** A link is used up by its own reset, or by a new link of its user. */
  lemma LinkAfter(w: World, e: Event, id: Uuid)
    requires id in w.resets && TasksKnown(w)
    ensures id in Next(w, e).resets
    ensures Next(w, e).resets[id] == w.resets[id].(usedAt := if UsesIt(w, e, id) then Some(w.now) else w.resets[id].usedAt)
  {}

  /** A new link works for half an hour. */
  lemma LinkIsNew(w: World, e: Event, id: Uuid)
    requires id !in w.resets
    ensures id in Next(w, e).resets <==> e.CreateResetLink? && e.id == id
    ensures id in Next(w, e).resets ==> Next(w, e).resets[id] == Reset(e.user, w.now + 1800000, None)
  {}

  /** The sessions are touched by a completed reset alone: the ACTIVE ones of its user are REVOKED. */
  lemma SessionAfter(w: World, e: Event, k: Uuid)
    requires k in w.sessions
    ensures k in Next(w, e).sessions
    ensures Next(w, e).sessions[k] ==
      if e.CommitReset? && e.request in w.tasks && w.tasks[e.request].Resetting? && StillWorks(w, w.tasks[e.request].id)
         && w.sessions[k].user == w.tasks[e.request].user && w.sessions[k].status == ACTIVE
      then w.sessions[k].(status := REVOKED) else w.sessions[k]
  {}

  /** Time passes and users come and go by themselves. */
  lemma ClockAndUsers(w: World, e: Event, user: Uuid)
    ensures Next(w, e).now == if e.Elapse? then w.now + e.millis else w.now
    ensures user in Next(w, e).activeUsers <==> if e.SetActive? && e.user == user then e.active else user in w.activeUsers
  {}

  // --- Where it comes from ---

  ghost function StateAt(events: seq<Event>, k: nat): World
    requires k <= |events|
  {
    After(Empty, events[..k])
  }

  lemma {:induction false} AfterSnoc(w: World, events: seq<Event>, e: Event)
    ensures After(w, events + [e]) == Next(After(w, events), e)
    decreases |events|
  {
    if events == [] {
      assert ([] + [e])[1..] == [];
      assert After(Next(w, e), []) == Next(w, e);
    } else {
      assert (events + [e])[1..] == events[1..] + [e];
      AfterSnoc(Next(w, events[0]), events[1..], e);
    }
  }

  lemma NextState(events: seq<Event>, k: nat)
    requires k < |events|
    ensures StateAt(events, k + 1) == Next(StateAt(events, k), events[k])
  {
    assert events[..k + 1] == events[..k] + [events[k]];
    AfterSnoc(Empty, events[..k], events[k]);
  }

  ghost predicate StartedAt(events: seq<Event>, k: nat, request: Uuid, t: Task) {
    k < |events| && (events[k].ReadForAccept? || events[k].ReadForRevoke? || events[k].ReadForReset?)
    && events[k].request == request && Starts(StateAt(events, k), events[k], t)
  }

  lemma {:induction false} TaskStarted(events: seq<Event>, n: nat, request: Uuid) returns (k: nat)
    requires n <= |events| && request in StateAt(events, n).tasks
    ensures k < n && StartedAt(events, k, request, StateAt(events, n).tasks[request])
    decreases n
  {
    assert n > 0;
    var w, e := StateAt(events, n - 1), events[n - 1];
    NextState(events, n - 1);
    if (e.ReadForAccept? || e.ReadForRevoke? || e.ReadForReset?) && e.request == request && request !in w.tasks {
      k := n - 1;
      ReadsStart(w, e, Next(w, e).tasks[request]);
    } else {
      OthersStartNothing(w, e, request);
      k := TaskStarted(events, n - 1, request);
    }
  }

  /** An accepted invitation was open when its request read it, and still when it was marked. */
  lemma AcceptanceGoesBack(events: seq<Event>, n: nat, id: Uuid) returns (k: nat)
    requires n < |events| && events[n].CommitAccept? && id in StateAt(events, n).invites
    requires id in StateAt(events, n + 1).invites && StateAt(events, n + 1).invites[id] != StateAt(events, n).invites[id]
    ensures k < n && events[k] == ReadForAccept(events[n].request, id) && StillOpen(StateAt(events, k), id)
    ensures StillOpen(StateAt(events, n), id)
  {
    NextState(events, n);
    InvitationAfter(StateAt(events, n), events[n], id);
    k := TaskStarted(events, n, events[n].request);
  }

  /** A completed reset was asked for with a working link while its user was active. */
  lemma ResetGoesBack(events: seq<Event>, n: nat) returns (k: nat, id: Uuid)
    requires n < |events| && events[n].CommitReset? && StateAt(events, n + 1).resets != StateAt(events, n).resets
    ensures k < n && events[k] == ReadForReset(events[n].request, id) && StillWorks(StateAt(events, k), id)
    ensures StateAt(events, k).resets[id].user in StateAt(events, k).activeUsers
    ensures StillWorks(StateAt(events, n), id)
  {
    NextState(events, n);
    k := TaskStarted(events, n, events[n].request);
    id := StateAt(events, n).tasks[events[n].request].id;
  }
}
