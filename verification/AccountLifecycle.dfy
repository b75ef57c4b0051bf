/**
  Invitations and password-reset links (`account-lifecycle.service.ts`), as a state
  machine over database statements and transactions, with time passing in between.

  An invitation is reserved: one reservation row per project and email, and one per
  email and global role, names the token that may still be accepted. Both kinds follow
  the same code with different keys, so one model serves for both.
*/
module AccountLifecycle {
  import opened Collections
  import opened Sessions

  datatype Scope =
    | ProjectScope(project: Uuid, email: string)
    | GlobalScope(email: string, role: Uuid)

  datatype Invite = Invite(scope: Scope, expiresAt: nat, acceptedAt: Option<nat>, revokedAt: Option<nat>)

  datatype Reset = Reset(user: Uuid, expiresAt: nat, usedAt: Option<nat>)

  /** What an in-flight request will do next; it has read the row it names. */
  datatype Task =
    | Revoking(id: Uuid)
    | Accepting(id: Uuid)
    | Resetting(id: Uuid, user: Uuid)

  datatype World = World(
    invites: map<Uuid, Invite>,
    reservations: map<Scope, Uuid>,
    resets: map<Uuid, Reset>,
    sessions: Rows,
    activeUsers: set<Uuid>,
    now: nat,
    tasks: map<Uuid, Task>)

  datatype Event =
    | Elapse(millis: nat)
    | SetActive(user: Uuid, active: bool)
    | CreateInvite(id: Uuid, scope: Scope, expiresAt: nat)
    | ReadForRevoke(request: Uuid, id: Uuid)
    | CommitRevoke(request: Uuid)
    | ReadForAccept(request: Uuid, id: Uuid)
    | CommitAccept(request: Uuid)
    | CreateResetLink(id: Uuid, user: Uuid)
    | ReadForReset(request: Uuid, id: Uuid)
    | CommitReset(request: Uuid)

  const RESET_TTL: nat := 30 * 60 * 1000

  const Empty := World(map[], map[], map[], map[], {}, 0, map[])

  predicate IsPending(i: Invite, now: nat) {
    i.acceptedAt.None? && i.revokedAt.None? && now < i.expiresAt
  }

  predicate Usable(r: Reset, now: nat) {
    r.usedAt.None? && now < r.expiresAt
  }

  /** `deleteMany({ where: { inviteTokenId } })`. */
  function WithoutToken(reservations: map<Scope, Uuid>, id: Uuid): map<Scope, Uuid> {
    map k | k in reservations && reservations[k] != id :: reservations[k]
  }

  /** The update at the start of `createPasswordResetLink`. */
  function LinksUsed(resets: map<Uuid, Reset>, user: Uuid, now: nat): map<Uuid, Reset> {
    map id | id in resets ::
      if resets[id].user == user && Usable(resets[id], now) then resets[id].(usedAt := Some(now)) else resets[id]
  }

  function Finish(w: World, request: Uuid): World {
    w.(tasks := w.tasks - {request})
  }

  function Begin(w: World, request: Uuid, t: Task): World {
    w.(tasks := w.tasks[request := t])
  }

  /** The state after one event; an event that is not enabled, or whose transaction is
      refused, leaves the tables as they are. */
  function Next(w: World, e: Event): World {
    match e
    case Elapse(millis) => w.(now := w.now + millis)
    case SetActive(user, active) =>
      w.(activeUsers := if active then w.activeUsers + {user} else w.activeUsers - {user})
    case CreateInvite(id, scope, expiresAt) =>
      if id in w.invites then w
      else if scope in w.reservations && w.reservations[scope] in w.invites
        && IsPending(w.invites[w.reservations[scope]], w.now) then w
      else w.(invites := w.invites[id := Invite(scope, expiresAt, None, None)],
              reservations := w.reservations[scope := id])
    case ReadForRevoke(request, id) =>
      if request !in w.tasks && id in w.invites && w.invites[id].acceptedAt.None? && w.invites[id].revokedAt.None?
      then Begin(w, request, Revoking(id)) else w
    case CommitRevoke(request) =>
      if request in w.tasks && w.tasks[request].Revoking? && w.tasks[request].id in w.invites then
        var id := w.tasks[request].id;
        Finish(w.(invites := w.invites[id := w.invites[id].(revokedAt := Some(w.now))],
                  reservations := WithoutToken(w.reservations, id)), request)
      else w
    case ReadForAccept(request, id) =>
      if request !in w.tasks && id in w.invites && IsPending(w.invites[id], w.now)
      then Begin(w, request, Accepting(id)) else w
    case CommitAccept(request) =>
      if request in w.tasks && w.tasks[request].Accepting? then
        var id := w.tasks[request].id;
        if id in w.invites && IsPending(w.invites[id], w.now)
        then Finish(w.(invites := w.invites[id := w.invites[id].(acceptedAt := Some(w.now))],
                       reservations := WithoutToken(w.reservations, id)), request)
        else Finish(w, request)
      else w
    case CreateResetLink(id, user) =>
      if id in w.resets then w
      else w.(resets := LinksUsed(w.resets, user, w.now)[id := Reset(user, w.now + RESET_TTL, None)])
    case ReadForReset(request, id) =>
      if request !in w.tasks && id in w.resets && Usable(w.resets[id], w.now) && w.resets[id].user in w.activeUsers
      then Begin(w, request, Resetting(id, w.resets[id].user)) else w
    case CommitReset(request) =>
      if request in w.tasks && w.tasks[request].Resetting? then
        var t := w.tasks[request];
        if t.id in w.resets && Usable(w.resets[t.id], w.now)
        then Finish(w.(resets := w.resets[t.id := w.resets[t.id].(usedAt := Some(w.now))],
                       sessions := UserRevoked(w.sessions, t.user)), request)
        else Finish(w, request)
      else w
  }

  function After(w: World, events: seq<Event>): World
    decreases |events|
  {
    if events == [] then w else After(Next(w, events[0]), events[1..])
  }

  // --- The invariant ---

  /** A reservation names a token of its own scope. */
  predicate ReservationsMatch(w: World) {
    forall k :: k in w.reservations ==> w.reservations[k] in w.invites && w.invites[w.reservations[k]].scope == k
  }

  /** Every token that may still be accepted is the one its reservation names. */
  predicate PendingReserved(w: World) {
    forall id :: id in w.invites && IsPending(w.invites[id], w.now) ==>
      w.invites[id].scope in w.reservations && w.reservations[w.invites[id].scope] == id
  }

  predicate OneUsableLink(w: World) {
    forall a, b ::
      (a in w.resets && b in w.resets && w.resets[a].user == w.resets[b].user
       && Usable(w.resets[a], w.now) && Usable(w.resets[b], w.now)) ==> a == b
  }

  predicate TasksKnown(w: World) {
    forall r :: r in w.tasks ==>
      match w.tasks[r]
      case Revoking(id) => id in w.invites
      case Accepting(id) => id in w.invites
      case Resetting(id, user) => id in w.resets && w.resets[id].user == user
  }

  predicate Consistent(w: World) {
    ReservationsMatch(w) && PendingReserved(w) && OneUsableLink(w) && TasksKnown(w)
  }

  lemma NextReserved(w: World, e: Event)
    requires ReservationsMatch(w) && PendingReserved(w)
    ensures ReservationsMatch(Next(w, e)) && PendingReserved(Next(w, e))
  {}

  lemma NextOneLink(w: World, e: Event)
    requires OneUsableLink(w)
    ensures OneUsableLink(Next(w, e))
  {}

  lemma NextTasks(w: World, e: Event)
    requires TasksKnown(w)
    ensures TasksKnown(Next(w, e))
  {}

  lemma NextConsistent(w: World, e: Event)
    requires Consistent(w)
    ensures Consistent(Next(w, e))
  {
    NextReserved(w, e);
    NextOneLink(w, e);
    NextTasks(w, e);
  }

  lemma {:induction false} AfterConsistent(w: World, events: seq<Event>)
    requires Consistent(w)
    ensures Consistent(After(w, events))
    decreases |events|
  {
    if events != [] {
      NextConsistent(w, events[0]);
      AfterConsistent(Next(w, events[0]), events[1..]);
    }
  }

  /** At most one pending invitation exists per project and email, and per email and role. */
  lemma OnePendingInvite(events: seq<Event>, a: Uuid, b: Uuid)
    requires var w := After(Empty, events);
      && a in w.invites && b in w.invites && w.invites[a].scope == w.invites[b].scope
      && IsPending(w.invites[a], w.now) && IsPending(w.invites[b], w.now)
    ensures a == b
  {
    AfterConsistent(Empty, events);
  }

  /** At most one reset link of a user still works. */
  lemma OneUsableReset(events: seq<Event>, a: Uuid, b: Uuid)
    requires var w := After(Empty, events);
      && a in w.resets && b in w.resets && w.resets[a].user == w.resets[b].user
      && Usable(w.resets[a], w.now) && Usable(w.resets[b], w.now)
    ensures a == b
  {
    AfterConsistent(Empty, events);
  }

  /** A new invitation is refused exactly while another one for its scope is pending. */
  lemma RefusedIffPending(w: World, id: Uuid, scope: Scope, expiresAt: nat)
    requires Consistent(w) && id !in w.invites
    ensures Next(w, CreateInvite(id, scope, expiresAt)) == w <==>
      exists other :: other in w.invites && w.invites[other].scope == scope && IsPending(w.invites[other], w.now)
  {
    var t := Next(w, CreateInvite(id, scope, expiresAt));
    if scope in w.reservations && IsPending(w.invites[w.reservations[scope]], w.now) {
      assert w.reservations[scope] in w.invites;
    } else {
      assert id in t.invites;
    }
  }

  // --- Tokens are consumed at most once ---

  predicate Accepts(w: World, e: Event, id: Uuid) {
    && e.CommitAccept? && e.request in w.tasks && w.tasks[e.request] == Accepting(id)
    && id in w.invites && w.invites[id].acceptedAt.None?
    && id in Next(w, e).invites && Next(w, e).invites[id].acceptedAt.Some?
  }

  predicate Resets(w: World, e: Event, id: Uuid) {
    && e.CommitReset? && e.request in w.tasks && w.tasks[e.request].Resetting? && w.tasks[e.request].id == id
    && id in w.resets && w.resets[id].usedAt.None?
    && id in Next(w, e).resets && Next(w, e).resets[id].usedAt.Some?
  }

  /** A token that has stopped being pending stays so: marks are never taken off, the
      expiry never moves, and the clock only goes forward. */
  predicate Ages(v: World, w: World) {
    && v.now <= w.now
    && (forall id :: id in v.invites ==>
          && id in w.invites && w.invites[id].scope == v.invites[id].scope
          && (IsPending(w.invites[id], w.now) ==> IsPending(v.invites[id], v.now)))
    && (forall id :: id in v.resets ==>
          && id in w.resets && w.resets[id].user == v.resets[id].user
          && (Usable(w.resets[id], w.now) ==> Usable(v.resets[id], v.now)))
  }

  lemma NextAges(w: World, e: Event)
    ensures Ages(w, Next(w, e))
  {}

  lemma {:induction false} AfterAges(w: World, events: seq<Event>)
    ensures Ages(w, After(w, events))
    decreases |events|
  {
    if events != [] {
      NextAges(w, events[0]);
      AfterAges(Next(w, events[0]), events[1..]);
    }
  }

  /** An acceptance succeeds only on a token pending at that moment. */
  lemma AcceptsOnlyPending(w: World, e: Event, id: Uuid)
    requires id in w.invites && !IsPending(w.invites[id], w.now)
    ensures !Accepts(w, e, id)
  {}

  /** Whatever runs in between, an invitation once accepted is never accepted again. */
  lemma AcceptedOnce(w: World, first: Event, between: seq<Event>, second: Event, id: Uuid)
    requires Accepts(w, first, id)
    ensures !Accepts(After(Next(w, first), between), second, id)
  {
    AfterAges(Next(w, first), between);
    AcceptsOnlyPending(After(Next(w, first), between), second, id);
  }

  /** A revocation that commits before an acceptance does prevents it. */
  lemma RevokedNeverAccepted(w: World, request: Uuid, between: seq<Event>, e: Event)
    requires request in w.tasks && w.tasks[request].Revoking? && w.tasks[request].id in w.invites
    ensures !Accepts(After(Next(w, CommitRevoke(request)), between), e, w.tasks[request].id)
  {
    var t := Next(w, CommitRevoke(request));
    AfterAges(t, between);
    AcceptsOnlyPending(After(t, between), e, w.tasks[request].id);
  }

  lemma ResetsOnlyUsable(w: World, e: Event, id: Uuid)
    requires id in w.resets && !Usable(w.resets[id], w.now)
    ensures !Resets(w, e, id)
  {}

  /** Whatever runs in between, a reset link once used never works again. */
  lemma ResetOnce(w: World, first: Event, between: seq<Event>, second: Event, id: Uuid)
    requires Resets(w, first, id)
    ensures !Resets(After(Next(w, first), between), second, id)
  {
    AfterAges(Next(w, first), between);
    ResetsOnlyUsable(After(Next(w, first), between), second, id);
  }

  /** Issuing a link kills every earlier link of the user, even one a request has
      already read. */
  lemma NewLinkSupersedes(w: World, id: Uuid, user: Uuid, older: Uuid, between: seq<Event>, e: Event)
    requires id !in w.resets && older in w.resets && w.resets[older].user == user
    ensures !Resets(After(Next(w, CreateResetLink(id, user)), between), e, older)
  {
    var t := Next(w, CreateResetLink(id, user));
    AfterAges(t, between);
    ResetsOnlyUsable(After(t, between), e, older);
  }

  /** A completed reset leaves its user no ACTIVE session, and touches nobody else's. */
  lemma ResetRevokesSessions(w: World, e: Event, id: Uuid)
    requires Consistent(w) && Resets(w, e, id)
    ensures var t := Next(w, e); var user := w.resets[id].user;
      forall k :: k in w.sessions ==>
        && k in t.sessions
        && (w.sessions[k].user == user ==> t.sessions[k].status != ACTIVE)
        && (w.sessions[k].user != user ==> t.sessions[k] == w.sessions[k])
  {}

  /**
    To the sessions a completed reset is a logout-all of its user: every later ACTIVE
    session of the user belongs to a family created afterwards.
  */
  lemma ResetIsFinal(w: World, e: Event, link: Uuid, s: State, steps: seq<Step>, id: Uuid)
    requires Consistent(w) && Resets(w, e, link) && Inv(s) && s.rows == w.sessions
    ensures s.(rows := Next(w, e).sessions) == Apply(s, RevokeAll(w.resets[link].user))
    ensures var later := Run(s.(rows := Next(w, e).sessions), steps).rows;
      id in later && later[id].user == w.resets[link].user && later[id].status == ACTIVE ==>
        later[id].family !in Families(w.sessions)
  {
    var user := w.resets[link].user;
    var later := Run(Apply(s, RevokeAll(user)), steps).rows;
    if id in later && later[id].user == user && later[id].status == ACTIVE {
      RevocationIsFinal(s, user, steps, id);
    }
  }

  // --- The service and its tables, updated in place ---

  class AccountServer {
    var invites: map<Uuid, Invite>
    var reservations: map<Scope, Uuid>
    var resets: map<Uuid, Reset>
    var sessions: Rows
    var activeUsers: set<Uuid>
    var now: nat
    var tasks: map<Uuid, Task>

    function Snapshot(): World
      reads this
    {
      World(invites, reservations, resets, sessions, activeUsers, now, tasks)
    }

    /** The transaction of `createGlobalInvitation` and `createProjectInvitation`. */
    method CreateInvitation(id: Uuid, scope: Scope, expiresAt: nat) returns (created: bool)
      requires id !in invites && ReservationsMatch(Snapshot())
      modifies this`invites, this`reservations
      ensures Snapshot() == Next(old(Snapshot()), CreateInvite(id, scope, expiresAt))
      ensures created <==> id in invites
    {
      if scope in reservations {
        if IsPending(invites[reservations[scope]], now) {
          return false;
        }
        reservations := reservations - {scope};
      }
      invites := invites[id := Invite(scope, expiresAt, None, None)];
      reservations := reservations[scope := id];
      return true;
    }

    method DeleteReservations(id: Uuid)
      modifies this`reservations
      ensures reservations == WithoutToken(old(reservations), id)
    {
      ghost var before := reservations;
      var rest := reservations.Keys;
      while rest != {}
        invariant rest <= reservations.Keys <= before.Keys
        invariant forall k :: k in reservations ==> reservations[k] == before[k]
        invariant forall k :: k in before && k !in rest ==> (k in reservations <==> before[k] != id)
        decreases rest
      {
        var k :| k in rest;
        if reservations[k] == id {
          reservations := reservations - {k};
        }
        rest := rest - {k};
      }
      assert reservations == WithoutToken(before, id);
    }

    method RevokeInvitation(request: Uuid)
      requires request in tasks && tasks[request].Revoking? && tasks[request].id in invites
      modifies this`invites, this`reservations, this`tasks
      ensures Snapshot() == Next(old(Snapshot()), CommitRevoke(request))
    {
      var id := tasks[request].id;
      invites := invites[id := invites[id].(revokedAt := Some(now))];
      DeleteReservations(id);
      tasks := tasks - {request};
    }

    /** The transaction of `acceptInvitation`: the guarded update decides. */
    method AcceptInvitation(request: Uuid) returns (accepted: bool)
      requires request in tasks && tasks[request].Accepting? && tasks[request].id in invites
      modifies this`invites, this`reservations, this`tasks
      ensures Snapshot() == Next(old(Snapshot()), CommitAccept(request))
      ensures accepted <==> Accepts(old(Snapshot()), CommitAccept(request), old(tasks[request]).id)
    {
      var id := tasks[request].id;
      tasks := tasks - {request};
      if !IsPending(invites[id], now) {
        return false;
      }
      invites := invites[id := invites[id].(acceptedAt := Some(now))];
      DeleteReservations(id);
      return true;
    }

    method CreatePasswordResetLink(id: Uuid, user: Uuid)
      requires id !in resets
      modifies this`resets
      ensures Snapshot() == Next(old(Snapshot()), CreateResetLink(id, user))
    {
      ghost var before := resets;
      var rest := resets.Keys;
      while rest != {}
        invariant resets.Keys == before.Keys && rest <= before.Keys
        invariant forall k :: k in rest ==> resets[k] == before[k]
        invariant forall k :: k in before && k !in rest ==> resets[k] == LinksUsed(before, user, now)[k]
        decreases rest
      {
        var k :| k in rest;
        if resets[k].user == user && Usable(resets[k], now) {
          resets := resets[k := resets[k].(usedAt := Some(now))];
        }
        rest := rest - {k};
      }
      assert resets == LinksUsed(before, user, now);
      resets := resets[id := Reset(user, now + RESET_TTL, None)];
    }

    method RevokeSessions(user: Uuid)
      modifies this`sessions
      ensures sessions == UserRevoked(old(sessions), user)
    {
      ghost var before := sessions;
      var rest := sessions.Keys;
      while rest != {}
        invariant sessions.Keys == before.Keys && rest <= before.Keys
        invariant forall k :: k in rest ==> sessions[k] == before[k]
        invariant forall k :: k in before && k !in rest ==> sessions[k] == UserRevoked(before, user)[k]
        decreases rest
      {
        var k :| k in rest;
        if sessions[k].user == user && sessions[k].status == ACTIVE {
          sessions := sessions[k := sessions[k].(status := REVOKED)];
        }
        rest := rest - {k};
      }
      assert sessions == UserRevoked(before, user);
    }

    /** The transaction of `resetPassword`. */
    method ResetPassword(request: Uuid) returns (done: bool)
      requires request in tasks && tasks[request].Resetting? && tasks[request].id in resets
      modifies this`resets, this`sessions, this`tasks
      ensures Snapshot() == Next(old(Snapshot()), CommitReset(request))
      ensures done <==> Resets(old(Snapshot()), CommitReset(request), old(tasks[request]).id)
    {
      var t := tasks[request];
      tasks := tasks - {request};
      if !Usable(resets[t.id], now) {
        return false;
      }
      resets := resets[t.id := resets[t.id].(usedAt := Some(now))];
      RevokeSessions(t.user);
      return true;
    }
  }
}
