/**
  What it takes to refresh, log in and log out, said of the session table and the clock,
  and why a session has the status it has.
*/
module SessionLaws {
  import opened Collections
  import opened Sessions

  // --- One read ---

  /** The token and its csrf token are those of the session. */
  predicate Presents(s: State, id: Uuid, token: Uuid, csrf: Uuid) {
    id in s.rows && s.rows[id].token == token && s.rows[id].csrf == csrf
  }

  /** ACTIVE, before its expiry, and of an active user. */
  predicate Live(s: State, id: Uuid)
    requires id in s.rows
  {
    s.rows[id].status == ACTIVE && s.now < s.rows[id].expiresAt && s.rows[id].user in s.activeUsers
  }

  ghost predicate After(s: State, step: Step, r: Uuid, p: Pending) {
    r in Apply(s, step).requests && Apply(s, step).requests[r] == p
  }

  /**
    A read leads on to a rotation exactly for a live session presented with its own tokens;
    to the marking of the family exactly for a ROTATED one; to the marking of the session
    exactly for an ACTIVE one whose time has come; otherwise the request ends there.
  */
  lemma ReadDecides(s: State, r: Uuid, token: Uuid, csrf: Uuid, p: Pending)
    requires Inv(s) && r !in s.requests
    ensures After(s, ReadForRefresh(r, token, csrf), r, p) <==>
      exists id :: Presents(s, id, token, csrf) && Leads(s, id, p)
    ensures Apply(s, ReadForRefresh(r, token, csrf)).rows == s.rows
  {
    var step := ReadForRefresh(r, token, csrf);
    if id :| Presents(s, id, token, csrf) {
      assert Names(s.rows, token, id);
      forall other | Names(s.rows, token, other) ensures other == id {}
      assert After(s, step, r, p) <==> Leads(s, id, p);
      forall other | Presents(s, other, token, csrf) ensures other == id {
        assert Names(s.rows, token, other);
      }
    } else {
      forall id | Names(s.rows, token, id) ensures s.rows[id].csrf != csrf {
        assert !Presents(s, id, token, csrf);
      }
    }
  }

  predicate Leads(s: State, id: Uuid, p: Pending)
    requires id in s.rows
  {
    var row := s.rows[id];
    match p
    case RefreshChecked(i, family, user) => i == id && family == row.family && user == row.user && Live(s, id)
    case MarkingReused(family, user) => family == row.family && user == row.user && row.status == ROTATED
    case MarkingExpired(i) => i == id && row.status == ACTIVE && row.expiresAt <= s.now
    case _ => false
  }

  /** A logout reads on exactly for a session presented with its own tokens, whatever its status. */
  lemma LogoutReads(s: State, r: Uuid, token: Uuid, csrf: Uuid, id: Uuid)
    requires Inv(s) && r !in s.requests
    ensures After(s, ReadForLogout(r, token, csrf), r, LoggingOut(id)) <==> Presents(s, id, token, csrf)
  {
    if other :| Presents(s, other, token, csrf) {
      assert Names(s.rows, token, other);
      forall x | Names(s.rows, token, x) ensures x == other {}
      assert Presents(s, id, token, csrf) ==> Names(s.rows, token, id);
    } else {
      forall x | Names(s.rows, token, x) ensures s.rows[x].csrf != csrf {
        assert !Presents(s, x, token, csrf);
      }
    }
  }

  /** An unhindered logout revokes the session and touches no other row. */
  lemma LogoutRevokes(s: State, r: Uuid, id: Uuid)
    requires Inv(s) && r !in s.requests && id in s.rows
    ensures Run(s, [ReadForLogout(r, s.rows[id].token, s.rows[id].csrf), WriteLogout(r)]) ==
      s.(rows := s.rows[id := s.rows[id].(status := REVOKED)])
  {
    var one, two := ReadForLogout(r, s.rows[id].token, s.rows[id].csrf), WriteLogout(r);
    LogoutReads(s, r, s.rows[id].token, s.rows[id].csrf, id);
    var t := Apply(s, one);
    assert t == Hold(s, r, LoggingOut(id));
    assert Apply(t, two).requests == s.requests;
    RunTwo(s, one, two);
  }

  /** Time passes and users come and go by themselves; no request changes either. */
  lemma ClockAndUsers(s: State, step: Step, user: Uuid)
    ensures Apply(s, step).now == if step.Tick? then s.now + 1 else s.now
    ensures user in Apply(s, step).activeUsers <==>
      if step.SetUser? && step.user == user then step.active else user in s.activeUsers
  {}

  // --- Where a rotation or a login comes from ---

  lemma {:induction false} RunSnoc(s: State, steps: seq<Step>, step: Step)
    ensures Run(s, steps + [step]) == Apply(Run(s, steps), step)
    decreases |steps|
  {
    if steps == [] {
      assert [] + [step] == [step];
      RunOne(s, step);
    } else {
      assert (steps + [step])[0] == steps[0] && (steps + [step])[1..] == steps[1..] + [step];
      RunSnoc(Apply(s, steps[0]), steps[1..], step);
    }
  }

  /** The state before the k-th step of a run from the empty table. */
  ghost function StateAt(check: Check, steps: seq<Step>, k: nat): State
    requires k <= |steps|
  {
    Run(Init(check), steps[..k])
  }

  lemma NextState(check: Check, steps: seq<Step>, k: nat)
    requires k < |steps|
    ensures StateAt(check, steps, k + 1) == Apply(StateAt(check, steps, k), steps[k])
  {
    assert steps[..k + 1] == steps[..k] + [steps[k]];
    RunSnoc(Init(check), steps[..k], steps[k]);
  }

  lemma SoundAt(check: Check, steps: seq<Step>, k: nat)
    requires k <= |steps|
    ensures Inv(StateAt(check, steps, k))
  {
    InitInv(check);
    RunKeepsInv(Init(check), steps[..k]);
  }

  /** Step k of the run presents the session's tokens for request r while the session is live. */
  ghost predicate ReadAt(check: Check, steps: seq<Step>, k: nat, r: Uuid, id: Uuid) {
    k < |steps| && steps[k].ReadForRefresh? && steps[k].request == r
    && Presents(StateAt(check, steps, k), id, steps[k].token, steps[k].csrf) && Live(StateAt(check, steps, k), id)
  }

  /** Step k of the run finds the user of request r active. */
  ghost predicate IdentifiedAt(check: Check, steps: seq<Step>, k: nat, r: Uuid, user: Uuid) {
    k < |steps| && steps[k] == ReadIdentity(r) && user in StateAt(check, steps, k).activeUsers
  }

  ghost predicate LoggedInAt(check: Check, steps: seq<Step>, k: nat, r: Uuid, user: Uuid) {
    k < |steps| && steps[k] == Login(r, user) && user in StateAt(check, steps, k).activeUsers
  }

  ghost predicate ReadBefore(check: Check, steps: seq<Step>, n: nat, r: Uuid, id: Uuid) {
    exists j :: 0 <= j < n && ReadAt(check, steps, j, r, id)
  }

  ghost predicate LoggedInBefore(check: Check, steps: seq<Step>, n: nat, r: Uuid, user: Uuid) {
    exists j :: 0 <= j < n && LoggedInAt(check, steps, j, r, user)
  }

  /** What has to have happened for a request to hold what it holds before step n. */
  ghost predicate Earned(check: Check, steps: seq<Step>, n: nat, r: Uuid, p: Pending) {
    match p
    case RefreshChecked(id, family, user) => ReadBefore(check, steps, n, r, id)
    case RefreshReady(id, family, user) =>
      exists k :: 0 <= k < n && ReadBefore(check, steps, k, r, id) && IdentifiedAt(check, steps, k, r, user)
    case LoginVerified(user) => LoggedInBefore(check, steps, n, r, user)
    case LoginReady(user) =>
      exists k :: 0 <= k < n && LoggedInBefore(check, steps, k, r, user) && IdentifiedAt(check, steps, k, r, user)
    case _ => true
  }

  lemma EarnedLater(check: Check, steps: seq<Step>, n: nat, r: Uuid, p: Pending)
    requires Earned(check, steps, n, r, p)
    ensures Earned(check, steps, n + 1, r, p)
  {
    match p
    case RefreshChecked(id, _, _) =>
      var j :| 0 <= j < n && ReadAt(check, steps, j, r, id);
    case RefreshReady(id, _, user) =>
      var k :| 0 <= k < n && ReadBefore(check, steps, k, r, id) && IdentifiedAt(check, steps, k, r, user);
    case LoginVerified(user) =>
      var j :| 0 <= j < n && LoggedInAt(check, steps, j, r, user);
    case LoginReady(user) =>
      var k :| 0 <= k < n && LoggedInBefore(check, steps, k, r, user) && IdentifiedAt(check, steps, k, r, user);
    case _ =>
  }

  lemma ReadEarns(check: Check, steps: seq<Step>, n: nat, r: Uuid)
    requires n < |steps| && steps[n].ReadForRefresh? && steps[n].request == r && r !in StateAt(check, steps, n).requests
    requires r in StateAt(check, steps, n + 1).requests
    ensures Earned(check, steps, n + 1, r, StateAt(check, steps, n + 1).requests[r])
  {
    var s, p := StateAt(check, steps, n), StateAt(check, steps, n + 1).requests[r];
    SoundAt(check, steps, n);
    NextState(check, steps, n);
    ReadDecides(s, r, steps[n].token, steps[n].csrf, p);
    var id :| Presents(s, id, steps[n].token, steps[n].csrf) && Leads(s, id, p);
    if p.RefreshChecked? {
      assert ReadAt(check, steps, n, r, id);
    }
  }

  lemma IdentityEarns(check: Check, steps: seq<Step>, n: nat, r: Uuid)
    requires n < |steps| && steps[n] == ReadIdentity(r) && r in StateAt(check, steps, n).requests
    requires Earned(check, steps, n, r, StateAt(check, steps, n).requests[r])
    requires r in StateAt(check, steps, n + 1).requests
    ensures Earned(check, steps, n + 1, r, StateAt(check, steps, n + 1).requests[r])
  {
    var s := StateAt(check, steps, n);
    NextState(check, steps, n);
    var before, after := s.requests[r], StateAt(check, steps, n + 1).requests[r];
    if before == after {
      EarnedLater(check, steps, n, r, before);
    } else {
      assert IdentifiedAt(check, steps, n, r, before.user);
    }
  }

  lemma LoginEarns(check: Check, steps: seq<Step>, n: nat, r: Uuid)
    requires n < |steps| && steps[n].Login? && steps[n].request == r && r !in StateAt(check, steps, n).requests
    requires r in StateAt(check, steps, n + 1).requests
    ensures Earned(check, steps, n + 1, r, StateAt(check, steps, n + 1).requests[r])
  {
    NextState(check, steps, n);
    assert LoggedInAt(check, steps, n, r, steps[n].user);
  }

  /** Only its own read, identity check or login makes a request hold more than before. */
  lemma OthersEarnNothing(s: State, step: Step, r: Uuid)
    requires r in Apply(s, step).requests
    requires !((step.ReadForRefresh? || step.Login?) && step.request == r && r !in s.requests)
    requires step != ReadIdentity(r)
    ensures var p := Apply(s, step).requests[r];
      (r in s.requests && s.requests[r] == p) || p.MarkingReused? || p.LoggingOut?
  {}

  lemma {:induction false} EverythingEarned(check: Check, steps: seq<Step>, n: nat, r: Uuid)
    requires n <= |steps| && r in StateAt(check, steps, n).requests
    ensures Earned(check, steps, n, r, StateAt(check, steps, n).requests[r])
    decreases n
  {
    if n > 0 {
      var s, step := StateAt(check, steps, n - 1), steps[n - 1];
      NextState(check, steps, n - 1);
      if r in s.requests { EverythingEarned(check, steps, n - 1, r); }
      if step.ReadForRefresh? && step.request == r && r !in s.requests {
        ReadEarns(check, steps, n - 1, r);
      } else if step.Login? && step.request == r && r !in s.requests {
        LoginEarns(check, steps, n - 1, r);
      } else if step == ReadIdentity(r) {
        IdentityEarns(check, steps, n - 1, r);
      } else {
        OthersEarnNothing(s, step, r);
        if r in s.requests && s.requests[r] == Apply(s, step).requests[r] {
          EarnedLater(check, steps, n - 1, r, s.requests[r]);
        }
      }
    }
  }

  /**
    Every rotation of a session goes back to a read of its token, with its own csrf token,
    while it was ACTIVE and unexpired and its user active, and then to a check that the
    user was still active.
  */
  lemma RotationGoesBack(check: Check, steps: seq<Step>, n: nat) returns (id: Uuid, j: nat, k: nat)
    requires n < |steps| && steps[n].Rotate? && StateAt(check, steps, n + 1).rows != StateAt(check, steps, n).rows
    ensures j < k < n && ReadAt(check, steps, j, steps[n].request, id)
    ensures id in StateAt(check, steps, n).rows && StateAt(check, steps, n).rows[id].status == ACTIVE
    ensures IdentifiedAt(check, steps, k, steps[n].request, StateAt(check, steps, n).rows[id].user)
    ensures id in StateAt(check, steps, n + 1).rows && StateAt(check, steps, n + 1).rows[id].status == ROTATED
  {
    var s, r := StateAt(check, steps, n), steps[n].request;
    NextState(check, steps, n);
    SoundAt(check, steps, n);
    EverythingEarned(check, steps, n, r);
    var p := s.requests[r];
    assert Sound(s.rows, p);
    id := p.id;
    k :| 0 <= k < n && ReadBefore(check, steps, k, r, id) && IdentifiedAt(check, steps, k, r, p.user);
    j :| 0 <= j < k && ReadAt(check, steps, j, r, id);
  }

  /** Every login session goes back to a login and an identity check of its user, both while active. */
  lemma LoginGoesBack(check: Check, steps: seq<Step>, n: nat) returns (j: nat, k: nat)
    requires n < |steps| && steps[n].CreateSession? && StateAt(check, steps, n + 1).rows != StateAt(check, steps, n).rows
    ensures j < k < n && LoggedInAt(check, steps, j, steps[n].request, steps[n].session.user)
    ensures IdentifiedAt(check, steps, k, steps[n].request, steps[n].session.user)
  {
    var s, r := StateAt(check, steps, n), steps[n].request;
    NextState(check, steps, n);
    EverythingEarned(check, steps, n, r);
    var user := s.requests[r].user;
    k :| 0 <= k < n && LoggedInBefore(check, steps, k, r, user) && IdentifiedAt(check, steps, k, r, user);
    j :| 0 <= j < k && LoggedInAt(check, steps, j, r, user);
  }

  // --- Why a session has the status it has ---

  /** Whom a step takes the status of, and which one it gets. */
  predicate Hits(s: State, step: Step, id: Uuid, status: Status)
    requires id in s.rows
  {
    var row := s.rows[id];
    match step
    case Rotate(r, newId, session) =>
      status == ROTATED && row.status == ACTIVE && s.check == AT_COMMIT
      && r in s.requests && s.requests[r].RefreshReady? && s.requests[r].id == id
      && newId !in s.rows && (forall other :: other in s.rows ==> s.rows[other].token != session.token)
      && session.status == ACTIVE && session.replacedBy.None? && session.family == row.family && session.user == row.user
    case MarkReused(r) =>
      status == REUSED && r in s.requests && s.requests[r] == MarkingReused(row.family, row.user)
    case MarkExpired(r) => status == EXPIRED && r in s.requests && s.requests[r] == MarkingExpired(id)
    case WriteLogout(r) => status == REVOKED && r in s.requests && s.requests[r] == LoggingOut(id)
    case RevokeAll(user) => status == REVOKED && row.user == user && row.status == ACTIVE
    case _ => false
  }

  /** A step changes the status of exactly the sessions it is for. */
  lemma StatusAfter(s: State, step: Step, id: Uuid)
    requires Inv(s) && id in s.rows
    ensures id in Apply(s, step).rows
    ensures forall status: Status ::
      Hits(s, step, id, status) ==> Apply(s, step).rows[id].status == status
    ensures (forall status: Status :: !Hits(s, step, id, status)) ==> Apply(s, step).rows[id] == s.rows[id]
  {
    if step.Rotate? {
      RotateHits(s, step, id);
    } else if TableStep(step) && !step.CreateSession? {
      assert Apply(s, step).rows[id] == s.rows[id] || Hits(s, step, id, REUSED) || Hits(s, step, id, EXPIRED) || Hits(s, step, id, REVOKED);
    } else if !TableStep(step) {
      ReadingKeepsInv(s, step);
    }
  }

  lemma RotateHits(s: State, step: Step, id: Uuid)
    requires Inv(s) && id in s.rows && step.Rotate?
    ensures id in Apply(s, step).rows
    ensures if Hits(s, step, id, ROTATED) then Apply(s, step).rows[id].status == ROTATED
            else Apply(s, step).rows[id] == s.rows[id]
  {
    if step.request in s.requests && s.requests[step.request].RefreshReady? {
      var p := s.requests[step.request];
      assert Sound(s.rows, p);
      if Fresh(s.rows, step.id, step.session) && FamilyRow(step.session, p.family, p.user) {
        FreshResolvesLate(s.rows, s.check, p.id, step.id, step.session);
      }
    }
  }

  /** EXPIRED sessions are past their time, and ROTATED ones name their replacement. */
  predicate Reasonable(s: State) {
    RowsReasonable(s.rows, s.now) && forall r :: r in s.requests ==> Timely(s, s.requests[r])
  }

  predicate RowsReasonable(rows: Rows, now: nat) {
    forall id :: id in rows ==>
      (rows[id].status == EXPIRED ==> rows[id].expiresAt <= now) && (rows[id].status == ROTATED ==> rows[id].replacedBy.Some?)
  }

  predicate Timely(s: State, p: Pending) {
    p.MarkingExpired? ==> p.id in s.rows && s.rows[p.id].expiresAt <= s.now
  }

  lemma ReadTimely(s: State, step: Step)
    requires Inv(s) && Reasonable(s) && step.ReadForRefresh? && step.request !in s.requests
    requires step.request in Apply(s, step).requests
    ensures Timely(s, Apply(s, step).requests[step.request])
  {
    var p := Apply(s, step).requests[step.request];
    ReadDecides(s, step.request, step.token, step.csrf, p);
    var id :| Presents(s, id, step.token, step.csrf) && Leads(s, id, p);
  }

  /** Of all steps only a read makes a request about to mark a session EXPIRED. */
  lemma OthersNotTimed(s: State, step: Step, r: Uuid)
    requires r in Apply(s, step).requests && Apply(s, step).requests[r].MarkingExpired?
    requires !(step.ReadForRefresh? && step.request == r && r !in s.requests)
    ensures r in s.requests && s.requests[r] == Apply(s, step).requests[r]
  {}

  lemma RowsStayReasonable(s: State, step: Step)
    requires Inv(s) && Reasonable(s)
    ensures RowsReasonable(Apply(s, step).rows, s.now) && Apply(s, step).now >= s.now
  {}

  /** Rows stay, with their time. */
  lemma RowsKeepTime(s: State, step: Step, id: Uuid)
    requires Inv(s) && id in s.rows
    ensures id in Apply(s, step).rows && Apply(s, step).rows[id].expiresAt == s.rows[id].expiresAt
  {}

  lemma StepStaysReasonable(s: State, step: Step)
    requires Inv(s) && Reasonable(s)
    ensures Reasonable(Apply(s, step))
  {
    var t := Apply(s, step);
    RowsStayReasonable(s, step);
    forall r | r in t.requests && t.requests[r].MarkingExpired? ensures Timely(t, t.requests[r]) {
      if step.ReadForRefresh? && step.request == r && r !in s.requests {
        ReadTimely(s, step);
      } else {
        OthersNotTimed(s, step, r);
      }
      assert Timely(s, t.requests[r]);
      RowsKeepTime(s, step, t.requests[r].id);
    }
  }

  lemma {:induction false} RunStaysReasonable(s: State, steps: seq<Step>)
    requires Inv(s) && Reasonable(s)
    ensures Reasonable(Run(s, steps))
    decreases |steps|
  {
    if steps != [] {
      StepStaysReasonable(s, steps[0]);
      StepKeepsInv(s, steps[0]);
      RunStaysReasonable(Apply(s, steps[0]), steps[1..]);
    }
  }
}
