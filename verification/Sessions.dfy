/**
  Browser sessions and refresh-token rotation (`auth.service.ts`), as a state machine.

  A request is a program counter between database statements: it reads a row, decides,
  and writes later, while other requests run in between. Each step below is one
  statement or one transaction. Random ids and tokens are fresh; a created session is
  ACTIVE, as the schema's default says.
*/
module Sessions {
  import opened Collections

  type Uuid = nat

  datatype Status = ACTIVE | ROTATED | REVOKED | REUSED | EXPIRED

  datatype Session = Session(
    user: Uuid,
    family: Uuid,
    token: Uuid,
    csrf: Uuid,
    status: Status,
    expiresAt: nat,
    replacedBy: Option<Uuid>)

  type Rows = map<Uuid, Session>

  /** What an in-flight request will do next. */
  datatype Pending =
    | LoginVerified(user: Uuid)
    | LoginReady(user: Uuid)
    | RefreshChecked(id: Uuid, family: Uuid, user: Uuid)
    | RefreshReady(id: Uuid, family: Uuid, user: Uuid)
    | MarkingReused(family: Uuid, user: Uuid)
    | MarkingExpired(id: Uuid)
    | LoggingOut(id: Uuid)

  /** When the database checks that `replacedBySessionId` names a session of the family. */
  datatype Check = AT_STATEMENT | AT_COMMIT

  /** The schema fixes `check`; no step changes it. */
  datatype State = State(
    rows: Rows,
    activeUsers: set<Uuid>,
    now: nat,
    requests: map<Uuid, Pending>,
    check: Check)

  datatype Step =
    | Tick
    | SetUser(user: Uuid, active: bool)
    | Login(request: Uuid, user: Uuid)
    | ReadIdentity(request: Uuid)
    | CreateSession(request: Uuid, id: Uuid, session: Session)
    | ReadForRefresh(request: Uuid, token: Uuid, csrf: Uuid)
    | Rotate(request: Uuid, id: Uuid, session: Session)
    | MarkReused(request: Uuid)
    | MarkExpired(request: Uuid)
    | ReadForLogout(request: Uuid, token: Uuid, csrf: Uuid)
    | WriteLogout(request: Uuid)
    | RevokeAll(user: Uuid)

  function Init(check: Check): State {
    State(map[], {}, 0, map[], check)
  }

  // --- Statements on the session table ---

  predicate FamilyRow(s: Session, family: Uuid, user: Uuid) {
    s.family == family && s.user == user
  }

  /** `updateMany` of `markFamilyReused`. */
  function FamilyReused(rows: Rows, family: Uuid, user: Uuid): Rows {
    map id | id in rows :: if FamilyRow(rows[id], family, user) then rows[id].(status := REUSED) else rows[id]
  }

  /** `updateMany` of `revokeAllSessions` and of a completed password reset. */
  function UserRevoked(rows: Rows, user: Uuid): Rows {
    map id | id in rows ::
      if rows[id].user == user && rows[id].status == ACTIVE then rows[id].(status := REVOKED) else rows[id]
  }

  function WithStatus(rows: Rows, id: Uuid, status: Status): Rows
    requires id in rows
  {
    rows[id := rows[id].(status := status)]
  }

  /** Whether a new row may be inserted: a fresh id and a fresh token. */
  predicate Fresh(rows: Rows, id: Uuid, session: Session) {
    id !in rows && forall other :: other in rows ==> rows[other].token != session.token
  }

  predicate FreshFamily(rows: Rows, family: Uuid) {
    forall other :: other in rows ==> rows[other].family != family
  }

  /** The update of `refresh`, which names a session that is inserted after it. */
  function Replaced(rows: Rows, previous: Uuid, id: Uuid): Rows
    requires previous in rows
  {
    rows[previous := rows[previous].(status := ROTATED, replacedBy := Some(id))]
  }

  /** The foreign key of a session to the one that replaced it. */
  predicate Resolves(rows: Rows, id: Uuid)
    requires id in rows
  {
    rows[id].replacedBy.Some? ==>
      rows[id].replacedBy.value in rows && FamilyRow(rows[rows[id].replacedBy.value], rows[id].family, rows[id].user)
  }

  /** Whether the database lets the transaction of `refresh` commit. */
  predicate Commits(rows: Rows, check: Check, previous: Uuid, id: Uuid, session: Session)
    requires previous in rows
  {
    (check == AT_STATEMENT ==> Resolves(Replaced(rows, previous, id), previous))
    && Resolves(Rotated(rows, previous, id, session), previous)
  }

  /** The transaction of `refresh`: the guarded update and the insert. */
  function Rotated(rows: Rows, previous: Uuid, id: Uuid, session: Session): Rows
    requires previous in rows
  {
    Replaced(rows, previous, id)[id := session]
  }

  /** `findUnique({ where: { refreshTokenHash } })`. */
  ghost predicate Names(rows: Rows, token: Uuid, id: Uuid) {
    id in rows && rows[id].token == token
  }

  // --- Steps ---

  function Drop(s: State, request: Uuid): State {
    s.(requests := s.requests - {request})
  }

  function Hold(s: State, request: Uuid, p: Pending): State {
    s.(requests := s.requests[request := p])
  }

  predicate NewRow(session: Session) {
    session.status == ACTIVE && session.replacedBy.None?
  }

  /** What `refresh` decides on the row it has read. */
  function RefreshDecision(s: State, request: Uuid, id: Uuid): State
    requires id in s.rows
  {
    var row := s.rows[id];
    if row.status != ACTIVE || row.expiresAt <= s.now || row.user !in s.activeUsers then
      if row.status == ROTATED then Hold(s, request, MarkingReused(row.family, row.user))
      else if row.status == ACTIVE && row.expiresAt <= s.now then Hold(s, request, MarkingExpired(id))
      else s
    else Hold(s, request, RefreshChecked(id, row.family, row.user))
  }

  /** The state after one step; a step that is not enabled changes nothing. */
  ghost function Apply(s: State, step: Step): State {
    match step
    case Tick => s.(now := s.now + 1)
    case SetUser(user, active) =>
      s.(activeUsers := if active then s.activeUsers + {user} else s.activeUsers - {user})
    case Login(request, user) =>
      if request !in s.requests && user in s.activeUsers then Hold(s, request, LoginVerified(user)) else s
    case ReadIdentity(request) =>
      if request !in s.requests then s else
      (match s.requests[request]
       case LoginVerified(user) =>
         if user in s.activeUsers then Hold(s, request, LoginReady(user)) else Drop(s, request)
       case RefreshChecked(id, family, user) =>
         if user in s.activeUsers then Hold(s, request, RefreshReady(id, family, user)) else Drop(s, request)
       case _ => s)
    case CreateSession(request, id, session) =>
      if request in s.requests && s.requests[request].LoginReady? && Fresh(s.rows, id, session)
        && FreshFamily(s.rows, session.family) && NewRow(session) && session.user == s.requests[request].user
      then Drop(s.(rows := s.rows[id := session]), request) else s
    case ReadForRefresh(request, token, csrf) =>
      if request !in s.requests && (exists id :: Names(s.rows, token, id)) then
        var id :| Names(s.rows, token, id);
        if s.rows[id].csrf == csrf then RefreshDecision(s, request, id) else s
      else s
    case Rotate(request, id, session) =>
      if request in s.requests && s.requests[request].RefreshReady? && Fresh(s.rows, id, session) && NewRow(session)
        && FamilyRow(session, s.requests[request].family, s.requests[request].user)
      then
        var p := s.requests[request];
        if p.id in s.rows && s.rows[p.id].status == ACTIVE
        then
          if Commits(s.rows, s.check, p.id, id, session)
          then Drop(s.(rows := Rotated(s.rows, p.id, id, session)), request)
          else Drop(s, request)
        else Hold(s, request, MarkingReused(p.family, p.user))
      else s
    case MarkReused(request) =>
      if request in s.requests && s.requests[request].MarkingReused?
      then Drop(s.(rows := FamilyReused(s.rows, s.requests[request].family, s.requests[request].user)), request) else s
    case MarkExpired(request) =>
      if request in s.requests && s.requests[request].MarkingExpired? && s.requests[request].id in s.rows
      then Drop(s.(rows := WithStatus(s.rows, s.requests[request].id, EXPIRED)), request) else s
    case ReadForLogout(request, token, csrf) =>
      if request !in s.requests && (exists id :: Names(s.rows, token, id)) then
        var id :| Names(s.rows, token, id);
        if s.rows[id].csrf == csrf then Hold(s, request, LoggingOut(id)) else s
      else s
    case WriteLogout(request) =>
      if request in s.requests && s.requests[request].LoggingOut? && s.requests[request].id in s.rows
      then Drop(s.(rows := WithStatus(s.rows, s.requests[request].id, REVOKED)), request) else s
    case RevokeAll(user) => s.(rows := UserRevoked(s.rows, user))
  }

  ghost function Run(s: State, steps: seq<Step>): State
    decreases |steps|
  {
    if steps == [] then s else Run(Apply(s, steps[0]), steps[1..])
  }

  // --- The invariant ---

  predicate TokensUnique(rows: Rows) {
    forall a, b :: a in rows && b in rows && rows[a].token == rows[b].token ==> a == b
  }

  /** A family belongs to one user. */
  predicate FamiliesOwned(rows: Rows) {
    forall a, b :: a in rows && b in rows && rows[a].family == rows[b].family ==> rows[a].user == rows[b].user
  }

  function Families(rows: Rows): set<Uuid> {
    set id | id in rows :: rows[id].family
  }

  predicate InFamily(rows: Rows, family: Uuid, id: Uuid) {
    id in rows && rows[id].family == family
  }

  /** The `replacedBySessionId` links of a family form one simple path through all its
      sessions, and only the last of them can be ACTIVE. */
  predicate Lineage(rows: Rows, family: Uuid, path: seq<Uuid>) {
    && path != [] && Distinct(path)
    && (forall i :: 0 <= i < |path| ==> InFamily(rows, family, path[i]))
    && (forall id :: id in rows && rows[id].family == family ==> id in path)
    && (forall i :: 0 <= i < |path| - 1 ==>
          rows[path[i]].replacedBy == Some(path[i + 1]) && rows[path[i]].status != ACTIVE)
    && rows[path[|path| - 1]].replacedBy == None
  }

  ghost predicate HasLineage(rows: Rows, family: Uuid) {
    exists path :: Lineage(rows, family, path)
  }

  /** What a request remembers about a session agrees with the table. */
  predicate Sound(rows: Rows, p: Pending) {
    match p
    case RefreshChecked(id, family, user) => id in rows && FamilyRow(rows[id], family, user)
    case RefreshReady(id, family, user) => id in rows && FamilyRow(rows[id], family, user)
    case MarkingReused(family, user) => exists id :: id in rows && FamilyRow(rows[id], family, user)
    case MarkingExpired(id) => id in rows
    case LoggingOut(id) => id in rows
    case _ => true
  }

  ghost predicate Inv(s: State) {
    && TokensUnique(s.rows)
    && FamiliesOwned(s.rows)
    && (forall f :: f in Families(s.rows) ==> HasLineage(s.rows, f))
    && (forall r :: r in s.requests ==> Sound(s.rows, s.requests[r]))
  }

  lemma InitInv(check: Check)
    ensures Inv(Init(check))
  {}

  // --- What one step does to the table ---

  /** Rows are never deleted, and who they belong to never changes; a session that is not
      ACTIVE stays so, and a link once set stays. */
  predicate Extends(before: Rows, after: Rows) {
    forall id :: id in before ==>
      && id in after
      && after[id].user == before[id].user && after[id].family == before[id].family
      && after[id].token == before[id].token && after[id].csrf == before[id].csrf
      && (after[id].status == ACTIVE ==> before[id].status == ACTIVE)
      && (before[id].replacedBy.Some? ==> after[id].replacedBy == before[id].replacedBy)
  }

  /** No row changes but by losing its ACTIVE status: links and membership are as before. */
  predicate OnlyStatuses(before: Rows, after: Rows) {
    after.Keys == before.Keys && Extends(before, after)
    && forall id :: id in before ==> after[id].replacedBy == before[id].replacedBy
  }

  lemma StatusesKeepLineage(before: Rows, after: Rows, f: Uuid)
    requires OnlyStatuses(before, after) && f in Families(before) && HasLineage(before, f)
    ensures HasLineage(after, f)
  {
    var path :| Lineage(before, f, path);
    assert Lineage(after, f, path);
  }

  lemma StatusesKeepInv(s: State, t: State)
    requires Inv(s) && OnlyStatuses(s.rows, t.rows)
    requires forall r :: r in t.requests ==> Sound(s.rows, t.requests[r])
    ensures Inv(t)
  {
    forall f | f in Families(t.rows) ensures HasLineage(t.rows, f) {
      var id :| id in t.rows && t.rows[id].family == f;
      assert s.rows[id].family == f;
      StatusesKeepLineage(s.rows, t.rows, f);
    }
    forall r | r in t.requests ensures Sound(t.rows, t.requests[r]) {
      SoundExtends(s.rows, t.rows, t.requests[r]);
    }
  }

  lemma SoundExtends(before: Rows, after: Rows, p: Pending)
    requires Extends(before, after) && Sound(before, p)
    ensures Sound(after, p)
  {
    if p.MarkingReused? {
      var id :| id in before && FamilyRow(before[id], p.family, p.user);
      assert id in after && FamilyRow(after[id], p.family, p.user);
    }
  }

  /** A rotation adds the new session to the end of its family's path. */
  lemma RotationExtendsLineage(rows: Rows, previous: Uuid, id: Uuid, session: Session, path: seq<Uuid>)
    requires previous in rows && rows[previous].status == ACTIVE && id !in rows && NewRow(session)
    requires session.family == rows[previous].family && Lineage(rows, session.family, path)
    ensures path[|path| - 1] == previous
    ensures Lineage(Rotated(rows, previous, id, session), session.family, path + [id])
  {
    var after := Rotated(rows, previous, id, session);
    var longer := path + [id];
    assert previous in path;
    assert path[|path| - 1] == previous;
    forall i | 0 <= i < |longer| - 1
      ensures after[longer[i]].replacedBy == Some(longer[i + 1]) && after[longer[i]].status != ACTIVE
    {
      if i < |path| - 1 {
        assert longer[i] == path[i] && longer[i + 1] == path[i + 1] && path[i] != previous;
      }
    }
    forall k | k in after && after[k].family == session.family ensures k in longer {
      if k != id { assert k in path; }
    }
  }

  lemma OtherLineage(rows: Rows, after: Rows, f: Uuid)
    requires HasLineage(rows, f)
    requires forall id :: InFamily(rows, f, id) ==> id in after && after[id] == rows[id]
    requires forall id :: InFamily(after, f, id) ==> InFamily(rows, f, id)
    ensures HasLineage(after, f)
  {
    var path :| Lineage(rows, f, path);
    assert Lineage(after, f, path);
  }

  lemma RotationKeepsLineage(rows: Rows, previous: Uuid, id: Uuid, session: Session, f: Uuid)
    requires FamiliesOwned(rows) && previous in rows && id !in rows && NewRow(session)
    requires rows[previous].status == ACTIVE && FamilyRow(session, rows[previous].family, rows[previous].user)
    requires f in Families(rows) && HasLineage(rows, f)
    ensures HasLineage(Rotated(rows, previous, id, session), f)
  {
    if f == rows[previous].family {
      var path :| Lineage(rows, f, path);
      RotationExtendsLineage(rows, previous, id, session, path);
    } else {
      OtherLineage(rows, Rotated(rows, previous, id, session), f);
    }
  }

  lemma RotationKeepsInv(s: State, t: State, request: Uuid, id: Uuid, session: Session)
    requires Inv(s) && request in s.requests && s.requests[request].RefreshReady?
    requires var p := s.requests[request];
      && Fresh(s.rows, id, session) && NewRow(session) && FamilyRow(session, p.family, p.user)
      && p.id in s.rows && s.rows[p.id].status == ACTIVE
      && t == Drop(s.(rows := Rotated(s.rows, p.id, id, session)), request)
    ensures Inv(t)
  {
    var p := s.requests[request];
    assert Sound(s.rows, p);
    assert p.family in Families(s.rows) by { assert s.rows[p.id].family == p.family; }
    assert Extends(s.rows, t.rows);
    forall f | f in Families(t.rows) ensures HasLineage(t.rows, f) {
      var k :| k in t.rows && t.rows[k].family == f;
      assert f in Families(s.rows) by {
        assert k == id || s.rows[k].family == f;
      }
      RotationKeepsLineage(s.rows, p.id, id, session, f);
    }
    forall r | r in t.requests ensures Sound(t.rows, t.requests[r]) {
      SoundExtends(s.rows, t.rows, s.requests[r]);
    }
  }

  lemma CreationKeepsInv(s: State, t: State, request: Uuid, id: Uuid, session: Session)
    requires Inv(s) && Fresh(s.rows, id, session) && FreshFamily(s.rows, session.family) && NewRow(session)
    requires t == Drop(s.(rows := s.rows[id := session]), request)
    ensures Inv(t)
  {
    assert Extends(s.rows, t.rows);
    forall f | f in Families(t.rows) ensures HasLineage(t.rows, f) {
      var k :| k in t.rows && t.rows[k].family == f;
      if f == session.family {
        assert Lineage(t.rows, f, [id]);
      } else {
        assert k in s.rows && s.rows[k].family == f;
        OtherLineage(s.rows, t.rows, f);
      }
    }
    forall r | r in t.requests ensures Sound(t.rows, t.requests[r]) {
      SoundExtends(s.rows, t.rows, s.requests[r]);
    }
  }

  predicate TableStep(step: Step) {
    step.CreateSession? || step.Rotate? || step.MarkReused? || step.MarkExpired? || step.WriteLogout? || step.RevokeAll?
  }

  /** Steps that only read, or touch users and the clock. */
  lemma ReadingKeepsInv(s: State, step: Step)
    requires Inv(s) && !TableStep(step)
    ensures Inv(Apply(s, step)) && Apply(s, step).rows == s.rows
  {}

  lemma FamilyReusedStatuses(rows: Rows, family: Uuid, user: Uuid)
    ensures OnlyStatuses(rows, FamilyReused(rows, family, user))
  {}

  lemma UserRevokedStatuses(rows: Rows, user: Uuid)
    ensures OnlyStatuses(rows, UserRevoked(rows, user))
  {}

  lemma WithStatusStatuses(rows: Rows, id: Uuid, status: Status)
    requires id in rows && status != ACTIVE
    ensures OnlyStatuses(rows, WithStatus(rows, id, status))
  {}

  lemma WritingStatuses(s: State, step: Step)
    requires step.MarkReused? || step.MarkExpired? || step.WriteLogout? || step.RevokeAll?
    ensures OnlyStatuses(s.rows, Apply(s, step).rows)
    ensures forall r :: r in Apply(s, step).requests ==> r in s.requests && Apply(s, step).requests[r] == s.requests[r]
  {
    if step.RevokeAll? {
      UserRevokedStatuses(s.rows, step.user);
    } else if Apply(s, step) != s {
      var p := s.requests[step.request];
      match step
      case MarkReused(_) => FamilyReusedStatuses(s.rows, p.family, p.user);
      case MarkExpired(_) => WithStatusStatuses(s.rows, p.id, EXPIRED);
      case WriteLogout(_) => WithStatusStatuses(s.rows, p.id, REVOKED);
    }
  }

  lemma WritingStatusKeepsInv(s: State, step: Step)
    requires Inv(s) && (step.MarkReused? || step.MarkExpired? || step.WriteLogout? || step.RevokeAll?)
    ensures Inv(Apply(s, step)) && OnlyStatuses(s.rows, Apply(s, step).rows)
  {
    WritingStatuses(s, step);
    StatusesKeepInv(s, Apply(s, step));
  }

  /** The invariant holds after every step of every request. */
  lemma StepKeepsInv(s: State, step: Step)
    requires Inv(s)
    ensures Inv(Apply(s, step))
  {
    var t := Apply(s, step);
    match step
    case CreateSession(request, id, session) =>
      if t != s { CreationKeepsInv(s, t, request, id, session); }
    case Rotate(request, id, session) =>
      if request in s.requests && s.requests[request].RefreshReady? && Sound(s.rows, s.requests[request]) {
        var p := s.requests[request];
        if t.rows != s.rows { RotationKeepsInv(s, t, request, id, session); }
      }
    case _ =>
      if TableStep(step) { WritingStatusKeepsInv(s, step); } else { ReadingKeepsInv(s, step); }
  }

  /** Every reachable state satisfies the invariant, whatever the interleaving. */
  lemma {:induction false} RunKeepsInv(s: State, steps: seq<Step>)
    requires Inv(s)
    ensures Inv(Run(s, steps))
    decreases |steps|
  {
    if steps != [] {
      StepKeepsInv(s, steps[0]);
      RunKeepsInv(Apply(s, steps[0]), steps[1..]);
    }
  }

  // --- What the invariant gives ---

  /** In every reachable state a family has at most one ACTIVE session. */
  lemma AtMostOneActive(check: Check, steps: seq<Step>, a: Uuid, b: Uuid)
    requires var rows := Run(Init(check), steps).rows;
      && a in rows && b in rows && rows[a].family == rows[b].family
      && rows[a].status == ACTIVE && rows[b].status == ACTIVE
    ensures a == b
  {
    InitInv(check);
    RunKeepsInv(Init(check), steps);
    var rows := Run(Init(check), steps).rows;
    var f := rows[a].family;
    assert f in Families(rows);
    var path :| Lineage(rows, f, path);
    assert a in path && b in path;
  }

  /** In every reachable state the links of a family form one simple path, with the
      ACTIVE session, if there is one, at its end. */
  lemma ReachableLineage(check: Check, steps: seq<Step>, f: Uuid) returns (path: seq<Uuid>)
    requires f in Families(Run(Init(check), steps).rows)
    ensures Lineage(Run(Init(check), steps).rows, f, path)
  {
    InitInv(check);
    RunKeepsInv(Init(check), steps);
    path :| Lineage(Run(Init(check), steps).rows, f, path);
  }

  lemma ActiveIsLast(rows: Rows, id: Uuid)
    requires id in rows && rows[id].status == ACTIVE && HasLineage(rows, rows[id].family)
    ensures rows[id].replacedBy.None?
  {
    var path :| Lineage(rows, rows[id].family, path);
    assert id in path;
  }

  lemma StepExtends(s: State, step: Step)
    requires Inv(s)
    ensures Extends(s.rows, Apply(s, step).rows)
  {
    if step.Rotate? {
      if Apply(s, step).rows != s.rows {
        var id := s.requests[step.request].id;
        assert s.rows[id].family in Families(s.rows);
        ActiveIsLast(s.rows, id);
      }
    } else if step.CreateSession? {
    } else if TableStep(step) {
      WritingStatusKeepsInv(s, step);
    } else {
      ReadingKeepsInv(s, step);
    }
  }

  lemma {:induction false} RunExtends(s: State, steps: seq<Step>)
    requires Inv(s)
    ensures Extends(s.rows, Run(s, steps).rows)
    decreases |steps|
  {
    if steps != [] {
      StepExtends(s, steps[0]);
      StepKeepsInv(s, steps[0]);
      RunExtends(Apply(s, steps[0]), steps[1..]);
    }
  }

  /** The step is a refresh of session `id` that succeeds. */
  ghost predicate Succeeds(s: State, step: Step, id: Uuid) {
    && step.Rotate? && step.request in s.requests && s.requests[step.request].RefreshReady?
    && s.requests[step.request].id == id && id in s.rows && s.rows[id].status == ACTIVE
    && Apply(s, step).rows != s.rows
  }

  /** After a successful refresh of a token, no later refresh of it succeeds, whatever
      runs in between. */
  lemma TokenSucceedsOnce(s: State, first: Step, between: seq<Step>, second: Step, id: Uuid)
    requires Inv(s) && Succeeds(s, first, id)
    ensures !Succeeds(Run(Apply(s, first), between), second, id)
  {
    StepKeepsInv(s, first);
    RunExtends(Apply(s, first), between);
  }

  /** The family exists and none of its sessions is ACTIVE. */
  ghost predicate Dead(rows: Rows, family: Uuid) {
    family in Families(rows) && forall id :: InFamily(rows, family, id) ==> rows[id].status != ACTIVE
  }

  lemma DeadStaysDead(s: State, step: Step, family: Uuid)
    requires Inv(s) && Dead(s.rows, family)
    ensures Dead(Apply(s, step).rows, family)
  {
    var t := Apply(s, step);
    StepExtends(s, step);
    var k :| k in s.rows && s.rows[k].family == family;
    assert t.rows[k].family == family;
    forall id | InFamily(t.rows, family, id) ensures t.rows[id].status != ACTIVE {
      if id !in s.rows {
        NewRowNeedsActive(s, step, id);
        assert false;
      } else {
        assert InFamily(s.rows, family, id);
      }
    }
  }

  /** A new row either starts a family or takes over from an ACTIVE session of it. */
  lemma NewRowNeedsActive(s: State, step: Step, id: Uuid)
    requires Inv(s) && id in Apply(s, step).rows && id !in s.rows
    ensures var f := Apply(s, step).rows[id].family; f in Families(s.rows) ==> !Dead(s.rows, f)
  {
    if step.Rotate? {
      var p := s.requests[step.request];
      assert Sound(s.rows, p) && InFamily(s.rows, p.family, p.id);
    } else {
      assert step.CreateSession? by {
        if !TableStep(step) { ReadingKeepsInv(s, step); }
      }
      assert FreshFamily(s.rows, step.session.family);
    }
  }

  /** A family with no ACTIVE session never regains one. */
  lemma {:induction false} NeverRevived(s: State, steps: seq<Step>, family: Uuid)
    requires Inv(s) && Dead(s.rows, family)
    ensures Dead(Run(s, steps).rows, family)
    decreases |steps|
  {
    if steps != [] {
      DeadStaysDead(s, steps[0], family);
      StepKeepsInv(s, steps[0]);
      NeverRevived(Apply(s, steps[0]), steps[1..], family);
    }
  }

  /**
    After logout-all, every later ACTIVE session of the user belongs to a family created
    afterwards, even with refreshes in flight.
  */
  lemma RevocationIsFinal(s: State, user: Uuid, steps: seq<Step>, id: Uuid)
    requires Inv(s)
    requires var later := Run(Apply(s, RevokeAll(user)), steps).rows;
      id in later && later[id].user == user && later[id].status == ACTIVE
    ensures var later := Run(Apply(s, RevokeAll(user)), steps).rows;
      later[id].family !in Families(s.rows)
  {
    var t := Apply(s, RevokeAll(user));
    StepKeepsInv(s, RevokeAll(user));
    var later := Run(t, steps);
    RunKeepsInv(t, steps);
    RunExtends(t, steps);
    var f := later.rows[id].family;
    if f in Families(s.rows) {
      var k :| k in s.rows && s.rows[k].family == f;
      assert k in t.rows && t.rows[k].family == f;
      assert later.rows[k].family == later.rows[id].family;
      assert t.rows[k].user == user;
      assert Dead(t.rows, f);
      NeverRevived(t, steps, f);
      assert InFamily(later.rows, f, id);
      assert false;
    }
  }

  /** Once reuse is marked, the family is dead for good. */
  lemma ReuseIsFinal(s: State, request: Uuid, steps: seq<Step>)
    requires Inv(s) && request in s.requests && s.requests[request].MarkingReused?
    ensures Dead(Run(Apply(s, MarkReused(request)), steps).rows, s.requests[request].family)
  {
    var t := Apply(s, MarkReused(request));
    var p := s.requests[request];
    assert Sound(s.rows, p);
    var k :| k in s.rows && FamilyRow(s.rows[k], p.family, p.user);
    assert t.rows[k].family == p.family;
    forall id | InFamily(t.rows, p.family, id) ensures t.rows[id].status != ACTIVE {
      assert s.rows[id].user == s.rows[k].user;
    }
    StepKeepsInv(s, MarkReused(request));
    NeverRevived(t, steps, p.family);
  }

  // --- What a login and a refresh do ---

  /** An unhindered login adds one session, alone in a family of its own, and leaves the other families alone. */
  lemma LoginStartsFamily(s: State, r: Uuid, id: Uuid, session: Session)
    requires r !in s.requests && session.user in s.activeUsers
    requires Fresh(s.rows, id, session) && FreshFamily(s.rows, session.family) && NewRow(session)
    ensures var t := Run(s, [Login(r, session.user), ReadIdentity(r), CreateSession(r, id, session)]);
      && t == s.(rows := s.rows[id := session])
      && Lineage(t.rows, session.family, [id])
      && forall f, path :: f != session.family ==> (Lineage(t.rows, f, path) <==> Lineage(s.rows, f, path))
  {
    var one, two, three := Login(r, session.user), ReadIdentity(r), CreateSession(r, id, session);
    var s1 := Apply(s, one);
    var s2 := Apply(s1, two);
    assert s2.requests[r] == LoginReady(session.user);
    assert Apply(s2, three).requests == s.requests;
    RunThree(s, one, two, three);
    forall f, path | f != session.family
      ensures Lineage(s.rows[id := session], f, path) <==> Lineage(s.rows, f, path)
    {
      LineageApart(s.rows, id, session, f, path);
    }
  }

  lemma LineageApart(rows: Rows, id: Uuid, session: Session, f: Uuid, path: seq<Uuid>)
    requires id !in rows && f != session.family
    ensures Lineage(rows[id := session], f, path) <==> Lineage(rows, f, path)
  {
    var t := rows[id := session];
    assert forall i :: InFamily(t, f, i) <==> InFamily(rows, f, i);
    assert forall i :: i in rows ==> t[i] == rows[i];
  }

  /** A fresh replacement resolves the link once it is inserted, and not before. */
  lemma FreshResolvesLate(rows: Rows, check: Check, previous: Uuid, id: Uuid, session: Session)
    requires previous in rows && id !in rows && FamilyRow(session, rows[previous].family, rows[previous].user)
    ensures Commits(rows, check, previous, id, session) <==> check == AT_COMMIT
  {}

  /**
    An unhindered refresh of a live session hands its place to the new one if the foreign
    key is checked at commit, and changes nothing if it is checked with each statement.
  */
  lemma RefreshCommitsIffDeferred(s: State, r: Uuid, id: Uuid, newId: Uuid, session: Session)
    requires Inv(s) && r !in s.requests && id in s.rows
    requires s.rows[id].status == ACTIVE && s.now < s.rows[id].expiresAt && s.rows[id].user in s.activeUsers
    requires Fresh(s.rows, newId, session) && NewRow(session) && FamilyRow(session, s.rows[id].family, s.rows[id].user)
    ensures var t := Run(s, [ReadForRefresh(r, s.rows[id].token, s.rows[id].csrf), ReadIdentity(r), Rotate(r, newId, session)]);
      && (t.rows != s.rows <==> s.check == AT_COMMIT)
      && t == if s.check == AT_STATEMENT then s else
           s.(rows := s.rows[id := s.rows[id].(status := ROTATED, replacedBy := Some(newId))][newId := session])
  {
    var row := s.rows[id];
    var one, two, three := ReadForRefresh(r, row.token, row.csrf), ReadIdentity(r), Rotate(r, newId, session);
    assert Names(s.rows, row.token, id);
    var s1 := Apply(s, one);
    assert s1 == Hold(s, r, RefreshChecked(id, row.family, row.user));
    var s2 := Apply(s1, two);
    assert s2.requests[r] == RefreshReady(id, row.family, row.user);
    FreshResolvesLate(s.rows, s.check, id, newId, session);
    var s3 := Apply(s2, three);
    assert s3.requests == s.requests;
    RunThree(s, one, two, three);
  }

  /** While the key is checked with each statement, no refresh ever changes a row. */
  lemma ImmediateNeverRotates(s: State, step: Step)
    requires s.check == AT_STATEMENT && step.Rotate?
    ensures Apply(s, step).rows == s.rows
  {}

  /** Nobody was replaced, and every family has one session. */
  predicate Unrotated(rows: Rows) {
    && (forall id :: id in rows ==> rows[id].status != ROTATED && rows[id].replacedBy.None?)
    && (forall a, b :: a in rows && b in rows && rows[a].family == rows[b].family ==> a == b)
  }

  lemma StaysUnrotated(s: State, step: Step)
    requires Inv(s) && s.check == AT_STATEMENT && Unrotated(s.rows)
    ensures Unrotated(Apply(s, step).rows)
  {
    if step.Rotate? {
      ImmediateNeverRotates(s, step);
    } else if !step.CreateSession? {
      if TableStep(step) { WritingUnrotated(s, step); } else { ReadingKeepsInv(s, step); }
    }
  }

  lemma WritingUnrotated(s: State, step: Step)
    requires step.MarkReused? || step.MarkExpired? || step.WriteLogout? || step.RevokeAll?
    requires Unrotated(s.rows)
    ensures Unrotated(Apply(s, step).rows)
  {
    WritingStatuses(s, step);
    var t := Apply(s, step).rows;
    forall id | id in t ensures t[id].status != ROTATED && t[id].replacedBy.None? {
      assert id in s.rows;
    }
  }

  /** So no token is ever rotated in any run: every session is the only one of its family. */
  lemma {:induction false} ImmediateNobodyRotated(s: State, steps: seq<Step>)
    requires Inv(s) && s.check == AT_STATEMENT && Unrotated(s.rows)
    ensures Unrotated(Run(s, steps).rows)
    decreases |steps|
  {
    if steps != [] {
      StaysUnrotated(s, steps[0]);
      StepKeepsInv(s, steps[0]);
      ImmediateNobodyRotated(Apply(s, steps[0]), steps[1..]);
    }
  }

  lemma RunOne(s: State, step: Step)
    ensures Run(s, [step]) == Apply(s, step)
  {
    assert [step][1..] == [];
    assert Run(Apply(s, step), []) == Apply(s, step);
  }

  lemma RunTwo(s: State, one: Step, two: Step)
    ensures Run(s, [one, two]) == Apply(Apply(s, one), two)
  {
    assert [one, two][1..] == [two];
    RunOne(Apply(s, one), two);
  }

  lemma RunThree(s: State, one: Step, two: Step, three: Step)
    ensures Run(s, [one, two, three]) == Apply(Apply(Apply(s, one), two), three)
  {
    assert [one, two, three][1..] == [two, three];
    RunTwo(Apply(s, one), two, three);
  }

  /** Presenting a rotated token again makes every session of its family REUSED. */
  lemma ReplayMarksFamily(s: State, r: Uuid, id: Uuid, member: Uuid)
    requires Inv(s) && r !in s.requests && id in s.rows && s.rows[id].status == ROTATED
    requires InFamily(s.rows, s.rows[id].family, member)
    ensures var t := Run(s, [ReadForRefresh(r, s.rows[id].token, s.rows[id].csrf), MarkReused(r)]);
      member in t.rows && t.rows[member] == s.rows[member].(status := REUSED)
  {
    var row := s.rows[id];
    assert Names(s.rows, row.token, id);
    var s1 := Apply(s, ReadForRefresh(r, row.token, row.csrf));
    assert s1 == Hold(s, r, MarkingReused(row.family, row.user));
    RunTwo(s, ReadForRefresh(r, row.token, row.csrf), MarkReused(r));
  }

  /**
    When two requests carry the same token past the checks, the second to rotate
    marks the family, and the family never has an ACTIVE session again.
  */
  lemma RaceKillsFamily(s: State, r1: Uuid, r2: Uuid, id: Uuid, family: Uuid, user: Uuid,
                        new1: Uuid, session1: Session, new2: Uuid, session2: Session, steps: seq<Step>)
    requires Inv(s) && r1 != r2 && r1 in s.requests && r2 in s.requests
    requires s.requests[r1] == RefreshReady(id, family, user) && s.requests[r2] == RefreshReady(id, family, user)
    requires Succeeds(s, Rotate(r1, new1, session1), id)
    requires Fresh(Apply(s, Rotate(r1, new1, session1)).rows, new2, session2) && NewRow(session2) && FamilyRow(session2, family, user)
    ensures var t := Run(s, [Rotate(r1, new1, session1), Rotate(r2, new2, session2), MarkReused(r2)]);
      Dead(Run(t, steps).rows, family)
  {
    var one, two := Rotate(r1, new1, session1), Rotate(r2, new2, session2);
    var s1 := Apply(s, one);
    StepKeepsInv(s, one);
    assert s1.requests[r2] == RefreshReady(id, family, user) && id != new1;
    assert s1.rows[id].status == ROTATED;
    var s2 := Apply(s1, two);
    assert s2 == Hold(s1, r2, MarkingReused(family, user));
    StepKeepsInv(s1, two);
    RunThree(s, one, two, MarkReused(r2));
    ReuseIsFinal(s2, r2, steps);
  }

  // --- The service and its database, updated in place ---

  /** How the transaction of `refresh` ends. */
  datatype Rotation = Committed | Lost | RolledBack

  class AuthServer {
    const check: Check
    var rows: Rows
    var activeUsers: set<Uuid>
    var now: nat
    var requests: map<Uuid, Pending>

    function Snapshot(): State
      reads this
    {
      State(rows, activeUsers, now, requests, check)
    }

    constructor (check: Check)
      ensures Snapshot() == Init(check)
    {
      this.check := check;
      rows, activeUsers, now, requests := map[], {}, 0, map[];
    }

    /** `session.findUnique({ where: { refreshTokenHash } })`. */
    method FindByToken(token: Uuid) returns (found: Option<Uuid>)
      ensures found.Some? ==> Names(rows, token, found.value)
      ensures found.None? ==> forall id :: !Names(rows, token, id)
    {
      var rest := rows.Keys;
      while rest != {}
        invariant rest <= rows.Keys
        invariant forall id :: Names(rows, token, id) ==> id in rest
        decreases rest
      {
        var id :| id in rest;
        if rows[id].token == token {
          return Some(id);
        }
        rest := rest - {id};
      }
      return None;
    }

    method ReadRefreshSession(request: Uuid, token: Uuid, csrf: Uuid)
      requires request !in requests && TokensUnique(rows)
      modifies this`requests
      ensures Snapshot() == Apply(old(Snapshot()), ReadForRefresh(request, token, csrf))
    {
      var found := FindByToken(token);
      if found.None? {
        return;
      }
      var session := rows[found.value];
      if session.csrf != csrf {
        return;
      }
      if session.status != ACTIVE || session.expiresAt <= now || session.user !in activeUsers {
        if session.status == ROTATED {
          requests := requests[request := MarkingReused(session.family, session.user)];
        } else if session.status == ACTIVE && session.expiresAt <= now {
          requests := requests[request := MarkingExpired(found.value)];
        }
        return;
      }
      requests := requests[request := RefreshChecked(found.value, session.family, session.user)];
    }

    method ReadUser(request: Uuid)
      requires request in requests && (requests[request].LoginVerified? || requests[request].RefreshChecked?)
      modifies this`requests
      ensures Snapshot() == Apply(old(Snapshot()), ReadIdentity(request))
    {
      var p := requests[request];
      if p.user !in activeUsers {
        requests := requests - {request};
      } else if p.LoginVerified? {
        requests := requests[request := LoginReady(p.user)];
      } else {
        requests := requests[request := RefreshReady(p.id, p.family, p.user)];
      }
    }

    method CreateLoginSession(request: Uuid, id: Uuid, session: Session)
      requires request in requests && requests[request].LoginReady? && session.user == requests[request].user
      requires Fresh(rows, id, session) && FreshFamily(rows, session.family) && NewRow(session)
      modifies this`rows, this`requests
      ensures Snapshot() == Apply(old(Snapshot()), CreateSession(request, id, session))
      ensures Lineage(rows, session.family, [id])
    {
      rows := rows[id := session];
      requests := requests - {request};
    }

    /**
      The transaction: a guarded update that counts its rows, then the insert. When the
      foreign key does not hold at the time it is checked, everything is rolled back.
    */
    method RotateSession(request: Uuid, id: Uuid, session: Session) returns (rotation: Rotation)
      requires request in requests && requests[request].RefreshReady?
      requires Fresh(rows, id, session) && NewRow(session)
      requires FamilyRow(session, requests[request].family, requests[request].user)
      modifies this`rows, this`requests
      ensures Snapshot() == Apply(old(Snapshot()), Rotate(request, id, session))
      ensures rotation.Committed? <==> Succeeds(old(Snapshot()), Rotate(request, id, session), old(requests[request]).id)
      ensures rotation.Lost? <==> request in requests
      ensures !rotation.Committed? ==> rows == old(rows)
      ensures rotation.Committed? ==> check == AT_COMMIT
    {
      var p := requests[request];
      var saved := rows;
      var count := 0;
      if p.id in rows && rows[p.id].status == ACTIVE {
        rows := rows[p.id := rows[p.id].(status := ROTATED, replacedBy := Some(id))];
        count := 1;
      }
      if count != 1 {
        requests := requests[request := MarkingReused(p.family, p.user)];
        return Lost;
      }
      if check == AT_STATEMENT && !Resolves(rows, p.id) {
        rows, requests := saved, requests - {request};
        return RolledBack;
      }
      rows := rows[id := session];
      requests := requests - {request};
      if !Resolves(rows, p.id) {
        rows := saved;
        return RolledBack;
      }
      return Committed;
    }

    /** `updateMany` over every session of the family. */
    method MarkFamilyReused(request: Uuid)
      requires request in requests && requests[request].MarkingReused?
      modifies this`rows, this`requests
      ensures Snapshot() == Apply(old(Snapshot()), MarkReused(request))
    {
      var p := requests[request];
      ghost var before := rows;
      var rest := rows.Keys;
      while rest != {}
        invariant rows.Keys == before.Keys && rest <= before.Keys
        invariant forall id :: id in rest ==> rows[id] == before[id]
        invariant forall id :: id in before && id !in rest ==> rows[id] == FamilyReused(before, p.family, p.user)[id]
        modifies this`rows
        decreases rest
      {
        var id :| id in rest;
        if rows[id].family == p.family && rows[id].user == p.user {
          rows := rows[id := rows[id].(status := REUSED)];
        }
        rest := rest - {id};
      }
      assert rows == FamilyReused(before, p.family, p.user);
      requests := requests - {request};
    }

    method RevokeAllSessions(user: Uuid)
      modifies this`rows
      ensures Snapshot() == Apply(old(Snapshot()), RevokeAll(user))
    {
      ghost var before := rows;
      var rest := rows.Keys;
      while rest != {}
        invariant rows.Keys == before.Keys && rest <= before.Keys
        invariant forall id :: id in rest ==> rows[id] == before[id]
        invariant forall id :: id in before && id !in rest ==> rows[id] == UserRevoked(before, user)[id]
        decreases rest
      {
        var id :| id in rest;
        if rows[id].user == user && rows[id].status == ACTIVE {
          rows := rows[id := rows[id].(status := REVOKED)];
        }
        rest := rest - {id};
      }
      assert rows == UserRevoked(before, user);
    }

    method ReadLogoutSession(request: Uuid, token: Uuid, csrf: Uuid)
      requires request !in requests && TokensUnique(rows)
      modifies this`requests
      ensures Snapshot() == Apply(old(Snapshot()), ReadForLogout(request, token, csrf))
    {
      var found := FindByToken(token);
      if found.Some? && rows[found.value].csrf == csrf {
        requests := requests[request := LoggingOut(found.value)];
      }
    }

    /** The unguarded updates: whatever the row has become since it was read. */
    method WriteStatus(request: Uuid)
      requires request in requests && (requests[request].MarkingExpired? || requests[request].LoggingOut?)
      requires requests[request].id in rows
      modifies this`rows, this`requests
      ensures Snapshot() == Apply(old(Snapshot()),
        if old(requests[request]).LoggingOut? then WriteLogout(request) else MarkExpired(request))
    {
      var p := requests[request];
      rows := rows[p.id := rows[p.id].(status := if p.LoggingOut? then REVOKED else EXPIRED)];
      requests := requests - {request};
    }
  }
}
