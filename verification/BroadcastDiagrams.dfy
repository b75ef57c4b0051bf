/**
  The life of a broadcast, of a recipient, of a message and of an outbox row: which step
  moves it from which status to which, over all steps, and in no other case.
*/
module BroadcastDiagrams {
  import opened Collections
  import opened Broadcasts
  import opened BroadcastLaws

  // --- The broadcast ---

  predicate CallMoves(b: Broadcast, s: Step, to: Status) {
    match s
    case Reschedule(later) => b.status in {DRAFT, SCHEDULED} && to == if later then SCHEDULED else DRAFT
    case Launch => b.status in {DRAFT, SCHEDULED} && to == PREPARING
    case Due => b.status == SCHEDULED && b.scheduledAt && to == PREPARING
    case Pause => b.status == RUNNING && to == PAUSED
    case Resume => b.status == PAUSED && to == RUNNING
    case Cancel => b.status in {DRAFT, SCHEDULED, PREPARING, RUNNING, PAUSED} && to == CANCELLED
    case FailPreparing => b.status == PREPARING && to == FAILED
    case Archive => b.status in {DRAFT, SCHEDULED, COMPLETED, CANCELLED, FAILED} && to == ARCHIVED
    case Restore => b.status == ARCHIVED &&
      if b.completedAt then to == COMPLETED
      else if b.cancelledAt then to == CANCELLED
      else if b.failedAt then to == FAILED
      else to == DRAFT
    case _ => false
  }

  predicate HasCall(w: World, call: Uuid, p: Preparation) {
    call in w.preparations && w.preparations[call] == p
  }

  /** Everybody else has come to an end, and the report reaches this one if it has not. */
  predicate LastOne(w: World, to: Identity) {
    && (forall id :: id in w.recipients && id != to ==> !Unfinished(w.recipients[id]))
    && (to in w.recipients && w.recipients[to].status == R_PENDING ==> w.channel == WHATSAPP)
  }

  predicate StatusMoves(w: World, s: Step, to: Status) {
    || CallMoves(w.broadcast, s, to)
    || (s.Store? && w.broadcast.status == PREPARING && HasCall(w, s.call, Loaded([])) && to == COMPLETED)
    || (s.Store? && w.broadcast.status == PREPARING && s.call in w.preparations && w.preparations[s.call].Loaded?
        && |w.preparations[s.call].identities| > 0 && to == RUNNING)
    || (s.Complete? && w.broadcast.status == RUNNING && HasCall(w, s.call, Counted) && to == COMPLETED)
    || (s.Deliver? && w.broadcast.status == RUNNING && IsReport(w, s.to, s.report) && s.report.counted
        && LastOne(w, s.to) && to == COMPLETED)
  }

  lemma PlanningMoves(b: Broadcast, s: Step, to: Status)
    requires (s.Reschedule? || s.Launch? || s.Due? || s.Pause? || s.Resume?) && to != b.status
    ensures Called(b, s).status == to <==> CallMoves(b, s, to)
  {}

  lemma EndingMoves(b: Broadcast, s: Step, to: Status)
    requires (s.Cancel? || s.FailPreparing? || s.Archive? || s.Restore?) && to != b.status
    ensures Called(b, s).status == to <==> CallMoves(b, s, to)
  {}

  lemma CalledMoves(b: Broadcast, s: Step, to: Status)
    requires IsCall(s) && to != b.status
    ensures Called(b, s).status == to <==> CallMoves(b, s, to)
  {
    if s.Reschedule? || s.Launch? || s.Due? || s.Pause? || s.Resume? {
      PlanningMoves(b, s, to);
    } else {
      EndingMoves(b, s, to);
    }
  }

  lemma CallsMove(w: World, s: Step, to: Status)
    requires IsCall(s) && to != w.broadcast.status
    ensures ApplyCall(w, s).broadcast.status == to <==> StatusMoves(w, s, to)
  {
    CallWritesBroadcast(w, s);
    CalledMoves(w.broadcast, s, to);
  }

  lemma StoreMoves(w: World, s: Step, to: Status)
    requires s.Store? && to != w.broadcast.status
    ensures ApplyPreparation(w, s).broadcast.status == to <==> StatusMoves(w, s, to)
  {
    if At(w, s.call) && w.preparations[s.call].Loaded? { StoreMovesOn(w, s.call); }
  }

  lemma PreparationMoves(w: World, s: Step, to: Status)
    requires IsPreparation(s) && to != w.broadcast.status
    ensures ApplyPreparation(w, s).broadcast.status == to <==> StatusMoves(w, s, to)
  {
    if s.QueueNext? {
      QueueCountsNobody(w, s);
    } else if s.Store? {
      StoreMoves(w, s, to);
    } else if s.Complete? {
      CompleteWrites(w, s.call);
    } else {
      BookkeepingUntouched(w, s);
    }
  }

  lemma ReportEnds(w: World, to: Identity, report: Report)
    requires Linked(w, to) && Reportable(report)
    ensures NobodyUnfinished(Delivered(w, to, report).recipients) <==> LastOne(w, to)
  {
    var rs := Delivered(w, to, report).recipients;
    forall id | id in w.recipients && id != to ensures id in rs && rs[id] == w.recipients[id] {}
    assert to in rs && (Unfinished(rs[to]) <==> w.recipients[to].status == R_PENDING && w.channel == TELEGRAM);
  }

  lemma ReportMoves(w: World, s: Step, to: Status)
    requires s.Deliver? && to != w.broadcast.status
    ensures ApplyDelivery(w, s).broadcast.status == to <==> StatusMoves(w, s, to)
  {
    if Linked(w, s.to) && Reportable(s.report) {
      TerminalMeans(Delivered(w, s.to, s.report).recipients);
      ReportEnds(w, s.to, s.report);
    }
  }

  lemma DeliveryMoves(w: World, s: Step, to: Status)
    requires IsDelivery(s) && to != w.broadcast.status
    ensures ApplyDelivery(w, s).broadcast.status == to <==> StatusMoves(w, s, to)
  {
    if s.Deliver? {
      ReportMoves(w, s, to);
    } else {
      assert ApplyDelivery(w, s).broadcast == w.broadcast;
    }
  }

  predicate StatusMovesTo(w: World, s: Step, t: World, to: Status) {
    t.broadcast.status == to <==> StatusMoves(w, s, to)
  }

  /** The broadcast goes from one status to another exactly in these cases. */
  lemma BroadcastMoves(w: World, s: Step, to: Status)
    requires to != w.broadcast.status
    ensures StatusMovesTo(w, s, Apply(w, s), to)
  {
    if IsCall(s) {
      CallsMove(w, s, to);
    } else if IsPreparation(s) {
      PreparationMoves(w, s, to);
    } else if IsDelivery(s) {
      DeliveryMoves(w, s, to);
    } else {
      OthersLeaveBroadcast(w, s);
    }
  }

  predicate DateAs(b: Broadcast, s: Step, scheduled: bool) {
    scheduled ==
      if s.Reschedule? && b.status in {DRAFT, SCHEDULED} then s.later
      else if s.Launch? && b.status in {DRAFT, SCHEDULED} then false
      else if s.Due? && b.status == SCHEDULED then false
      else b.scheduledAt
  }

  lemma CallDates(w: World, s: Step)
    requires IsCall(s)
    ensures DateAs(w.broadcast, s, ApplyCall(w, s).broadcast.scheduledAt)
  {
    CallWritesBroadcast(w, s);
  }

  lemma PreparationDates(w: World, s: Step)
    requires IsPreparation(s)
    ensures ApplyPreparation(w, s).broadcast.scheduledAt == w.broadcast.scheduledAt
  {
    if s.QueueNext? { QueueCountsNobody(w, s); }
  }

  /** Only rescheduling, launching and the due date touch the date. */
  lemma DateMoves(w: World, s: Step)
    ensures DateAs(w.broadcast, s, Apply(w, s).broadcast.scheduledAt)
  {
    if IsCall(s) {
      CallDates(w, s);
    } else if IsDelivery(s) {
      DeliveryDates(w, s);
    } else if IsPreparation(s) {
      PreparationDates(w, s);
    } else {
      OthersLeaveBroadcast(w, s);
    }
  }

  lemma DeliveryDates(w: World, s: Step)
    requires IsDelivery(s)
    ensures ApplyDelivery(w, s).broadcast.scheduledAt == w.broadcast.scheduledAt
  {}

  // --- Links ---

  predicate LinkedTo(w: World, id: Identity, o: Uuid) {
    id in w.recipients && w.recipients[id].outbox == Some(o)
  }

  predicate Wrote(w: World, id: Identity, m: Uuid) {
    id in w.recipients && w.recipients[id].message == Some(m)
  }

  predicate HasRow(w: World, id: Identity) {
    id in w.recipients && w.recipients[id].outbox.Some?
  }

  /** The worker with this lease has the row. */
  predicate Leased(w: World, lease: Uuid, o: Uuid) {
    o in w.outboxes && w.outboxes[o].status == O_TAKEN(lease)
  }

  predicate LeaseOf(w: World, lease: Uuid, id: Identity) {
    HasRow(w, id) && Leased(w, lease, w.recipients[id].outbox.value)
  }

  predicate IsReport(w: World, id: Identity, report: Report) {
    && HasRow(w, id) && report.outcome !in {R_PENDING, R_QUEUED, R_PROCESSING}
    && (report.row.Some? ==> report.row.value == O_FAILED || report.row.value == O_UNKNOWN || report.row.value == O_DONE)
  }

  predicate ListedBy(w: World, call: Uuid, id: Identity) {
    call in w.retries && w.retries[call].Listed? && id in w.retries[call].ids
  }

  predicate DefersTo(w: World, lease: Uuid, id: Identity) {
    w.channel == WHATSAPP && lease in w.deferrals && w.deferrals[lease] == id && LeaseOf(w, lease, id)
  }

  predicate HandMoves(w: World, s: Step, o: Uuid, requeues: bool) {
    && w.channel == TELEGRAM && o in w.outboxes
    && ((s.RetryRow? && s.outbox == o && w.outboxes[o].status == O_FAILED && requeues)
        || (s.Reconcile? && s.outbox == o && w.outboxes[o].status == O_UNKNOWN && requeues == !s.applied))
  }

  predicate Cancels(w: World, s: Step) {
    s.Cancel? && w.broadcast.status in {DRAFT, SCHEDULED, PREPARING, RUNNING, PAUSED}
  }

  predicate StillWaiting(w: World, id: Identity) {
    id in w.recipients && (w.recipients[id].status == R_PENDING || w.recipients[id].status == R_QUEUED)
  }

  // --- Outbox rows ---

  predicate SomebodyWaits(w: World, o: Uuid) {
    exists id :: id in w.recipients && StillWaiting(w, id) && LinkedTo(w, id, o)
  }

  predicate SomebodyListed(w: World, call: Uuid, o: Uuid) {
    exists id :: id in w.recipients && ListedBy(w, call, id) && LinkedTo(w, id, o)
  }

  predicate RowMoves(w: World, s: Step, o: Uuid, to: OutboxStatus)
    requires o in w.outboxes
  {
    var from := w.outboxes[o].status;
    || (s.Claim? && s.outbox == o && (from == O_PENDING || from == O_RETRY) && Fresh(w, s.lease) && to == O_TAKEN(s.lease))
    || (s.Release? && s.outbox == o && from.O_TAKEN? && to == O_RETRY)
    || (s.Finish? && s.outbox == o && from == O_TAKEN(s.lease) && to == s.row && (to == O_FAILED || to == O_UNKNOWN || to == O_DONE))
    || (s.Deliver? && IsReport(w, s.to, s.report) && LinkedTo(w, s.to, o) && from == O_TAKEN(s.report.lease) && s.report.row == Some(to))
    || (s.Requeue? && w.channel == TELEGRAM && LinkedTo(w, s.to, o) && from == O_TAKEN(s.lease) && to == O_RETRY)
    || (s.Defer? && w.channel == WHATSAPP && s.lease in w.deferrals && LinkedTo(w, w.deferrals[s.lease], o)
        && from == O_TAKEN(s.lease) && to == O_RETRY)
    || (Cancels(w, s) && (from == O_PENDING || from == O_RETRY) && SomebodyWaits(w, o) && to == O_FAILED)
    || (s.CommitRetry? && from == O_FAILED && SomebodyListed(w, s.call, o) && to == O_PENDING)
    || (HandMoves(w, s, o, true) && to == O_RETRY)
    || (HandMoves(w, s, o, false) && to == O_DONE)
  }

  predicate RowAs(w: World, t: World, o: Uuid, to: OutboxStatus)
    requires o in w.outboxes
  {
    o in t.outboxes && t.outboxes[o] == w.outboxes[o].(status := to)
  }

  predicate RowKept(w: World, t: World, o: Uuid)
    requires o in w.outboxes
  {
    o in t.outboxes && t.outboxes[o].recipient == w.outboxes[o].recipient && t.outboxes[o].message == w.outboxes[o].message
  }

  lemma WaitersOfRow(w: World, o: Uuid)
    ensures OutboxOf(w.recipients, WaitingIds(w.recipients), o) <==> SomebodyWaits(w, o)
  {
    if id :| id in w.recipients && StillWaiting(w, id) && LinkedTo(w, id, o) {
      assert id in WaitingIds(w.recipients);
    }
    if OutboxOf(w.recipients, WaitingIds(w.recipients), o) {
      var id :| id in w.recipients && id in WaitingIds(w.recipients) && w.recipients[id].outbox == Some(o);
      assert StillWaiting(w, id) && LinkedTo(w, id, o);
    }
  }

  lemma CancelMovesRow(w: World, s: Step, o: Uuid, to: OutboxStatus)
    requires s.Cancel? && o in w.outboxes && to != w.outboxes[o].status
    ensures RowKept(w, ApplyCall(w, s), o)
    ensures RowAs(w, ApplyCall(w, s), o, to) <==> RowMoves(w, s, o, to)
  {
    WaitersOfRow(w, o);
  }

  lemma CallMovesRow(w: World, s: Step, o: Uuid, to: OutboxStatus)
    requires IsCall(s) && o in w.outboxes && to != w.outboxes[o].status
    ensures RowKept(w, ApplyCall(w, s), o)
    ensures RowAs(w, ApplyCall(w, s), o, to) <==> RowMoves(w, s, o, to)
  {
    if s.Cancel? {
      CancelMovesRow(w, s, o, to);
    } else {
      assert ApplyCall(w, s).outboxes == w.outboxes;
    }
  }

  lemma ListedOfRow(w: World, call: Uuid, o: Uuid)
    requires call in w.retries && w.retries[call].Listed?
    ensures OutboxOf(w.recipients, w.retries[call].ids, o) <==> SomebodyListed(w, call, o)
  {
    var ids := w.retries[call].ids;
    if id :| id in w.recipients && ListedBy(w, call, id) && LinkedTo(w, id, o) {
      assert id in ids;
    }
    if OutboxOf(w.recipients, ids, o) {
      var id :| id in w.recipients && id in ids && w.recipients[id].outbox == Some(o);
      assert ListedBy(w, call, id) && LinkedTo(w, id, o);
    }
  }

  lemma CommitMovesRow(w: World, s: Step, o: Uuid, to: OutboxStatus)
    requires s.CommitRetry? && o in w.outboxes && to != w.outboxes[o].status
    ensures RowKept(w, ApplyRetry(w, s), o)
    ensures RowAs(w, ApplyRetry(w, s), o, to) <==> RowMoves(w, s, o, to)
  {
    if s.call in w.retries && w.retries[s.call].Listed? { ListedOfRow(w, s.call, o); }
  }

  lemma RetryMovesRow(w: World, s: Step, o: Uuid, to: OutboxStatus)
    requires IsRetry(s) && o in w.outboxes && to != w.outboxes[o].status
    ensures RowKept(w, ApplyRetry(w, s), o)
    ensures RowAs(w, ApplyRetry(w, s), o, to) <==> RowMoves(w, s, o, to)
  {
    if s.CommitRetry? {
      CommitMovesRow(w, s, o, to);
    } else {
      assert ApplyRetry(w, s).outboxes == w.outboxes;
    }
  }

  lemma ClaimMovesRow(w: World, s: Step, o: Uuid, to: OutboxStatus)
    requires s.Claim? && o in w.outboxes && to != w.outboxes[o].status
    ensures RowKept(w, ApplyDelivery(w, s), o)
    ensures RowAs(w, ApplyDelivery(w, s), o, to) <==> RowMoves(w, s, o, to)
  {}

  lemma ReleaseMovesRow(w: World, s: Step, o: Uuid, to: OutboxStatus)
    requires s.Release? && o in w.outboxes && to != w.outboxes[o].status
    ensures RowKept(w, ApplyDelivery(w, s), o)
    ensures RowAs(w, ApplyDelivery(w, s), o, to) <==> RowMoves(w, s, o, to)
  {}

  lemma FinishMovesRow(w: World, s: Step, o: Uuid, to: OutboxStatus)
    requires s.Finish? && o in w.outboxes && to != w.outboxes[o].status
    ensures RowKept(w, ApplyDelivery(w, s), o)
    ensures RowAs(w, ApplyDelivery(w, s), o, to) <==> RowMoves(w, s, o, to)
  {}

  lemma ReportMovesRow(w: World, s: Step, o: Uuid, to: OutboxStatus)
    requires s.Deliver? && o in w.outboxes && to != w.outboxes[o].status
    ensures RowKept(w, ApplyDelivery(w, s), o)
    ensures RowAs(w, ApplyDelivery(w, s), o, to) <==> RowMoves(w, s, o, to)
  {}

  lemma RequeueingMovesRow(w: World, s: Step, o: Uuid, to: OutboxStatus)
    requires s.Requeue? && o in w.outboxes && to != w.outboxes[o].status
    ensures RowKept(w, ApplyDelivery(w, s), o)
    ensures RowAs(w, ApplyDelivery(w, s), o, to) <==> RowMoves(w, s, o, to)
  {}

  lemma DeferralMovesRow(w: World, s: Step, o: Uuid, to: OutboxStatus)
    requires (s.ReadPaused? || s.Defer?) && o in w.outboxes && to != w.outboxes[o].status
    ensures RowKept(w, ApplyDelivery(w, s), o)
    ensures RowAs(w, ApplyDelivery(w, s), o, to) <==> RowMoves(w, s, o, to)
  {}

  lemma DeliveryMovesRow(w: World, s: Step, o: Uuid, to: OutboxStatus)
    requires IsDelivery(s) && o in w.outboxes && to != w.outboxes[o].status
    ensures RowKept(w, ApplyDelivery(w, s), o)
    ensures RowAs(w, ApplyDelivery(w, s), o, to) <==> RowMoves(w, s, o, to)
  {
    if s.Deliver? {
      ReportMovesRow(w, s, o, to);
    } else if s.Requeue? {
      RequeueingMovesRow(w, s, o, to);
    } else if s.ReadPaused? || s.Defer? {
      DeferralMovesRow(w, s, o, to);
    } else if s.Claim? {
      ClaimMovesRow(w, s, o, to);
    } else if s.Release? {
      ReleaseMovesRow(w, s, o, to);
    } else if s.Finish? {
      FinishMovesRow(w, s, o, to);
    } else {
      assert ApplyDelivery(w, s).outboxes == w.outboxes;
    }
  }

  lemma MarkedRow(w: World, outbox: Uuid, row: OutboxStatus, r: RecipientStatus, m: MessageStatus, o: Uuid)
    requires outbox in w.outboxes && o in w.outboxes
    ensures var t := RelationsMarked(w, outbox, row, r, m);
      o in t.outboxes && t.outboxes[o] == if o == outbox then w.outboxes[o].(status := row) else w.outboxes[o]
  {}

  lemma RetryRowMovesRow(w: World, s: Step, o: Uuid, to: OutboxStatus)
    requires s.RetryRow? && o in w.outboxes && to != w.outboxes[o].status
    ensures RowKept(w, ApplyOperator(w, s), o)
    ensures RowAs(w, ApplyOperator(w, s), o, to) <==> RowMoves(w, s, o, to)
  {
    if s.outbox in w.outboxes { MarkedRow(w, s.outbox, O_RETRY, R_QUEUED, M_QUEUED, o); }
  }

  lemma AppliedMovesRow(w: World, s: Step, o: Uuid, to: OutboxStatus)
    requires s.Reconcile? && s.applied && o in w.outboxes && to != w.outboxes[o].status
    ensures RowKept(w, ApplyOperator(w, s), o)
    ensures RowAs(w, ApplyOperator(w, s), o, to) <==> RowMoves(w, s, o, to)
  {
    if s.outbox in w.outboxes { MarkedRow(w, s.outbox, O_DONE, R_SENT, M_OTHER, o); }
  }

  lemma NotAppliedMovesRow(w: World, s: Step, o: Uuid, to: OutboxStatus)
    requires s.Reconcile? && !s.applied && o in w.outboxes && to != w.outboxes[o].status
    ensures RowKept(w, ApplyOperator(w, s), o)
    ensures RowAs(w, ApplyOperator(w, s), o, to) <==> RowMoves(w, s, o, to)
  {
    if s.outbox in w.outboxes { MarkedRow(w, s.outbox, O_RETRY, R_QUEUED, M_QUEUED, o); }
  }

  lemma OperatorMovesRow(w: World, s: Step, o: Uuid, to: OutboxStatus)
    requires IsOperator(s) && o in w.outboxes && to != w.outboxes[o].status
    ensures RowKept(w, ApplyOperator(w, s), o)
    ensures RowAs(w, ApplyOperator(w, s), o, to) <==> RowMoves(w, s, o, to)
  {
    if s.RetryRow? {
      RetryRowMovesRow(w, s, o, to);
    } else if s.applied {
      AppliedMovesRow(w, s, o, to);
    } else {
      NotAppliedMovesRow(w, s, o, to);
    }
  }

  lemma PreparationKeepsRow(w: World, s: Step, o: Uuid)
    requires IsPreparation(s) && o in w.outboxes
    ensures o in ApplyPreparation(w, s).outboxes && ApplyPreparation(w, s).outboxes[o] == w.outboxes[o]
  {}

  predicate RowMovesTo(w: World, s: Step, t: World, o: Uuid, to: OutboxStatus)
    requires o in w.outboxes
  {
    RowKept(w, t, o) && (t.outboxes[o].status == to <==> RowMoves(w, s, o, to))
  }

  lemma WorkerMovesRow(w: World, s: Step, o: Uuid, to: OutboxStatus)
    requires IsDelivery(s) && o in w.outboxes && to != w.outboxes[o].status
    ensures RowMovesTo(w, s, Apply(w, s), o, to)
  {
    DeliveryMovesRow(w, s, o, to);
  }

  lemma PreparationMovesNoRow(w: World, s: Step, o: Uuid, to: OutboxStatus)
    requires IsPreparation(s) && o in w.outboxes
    ensures !RowMoves(w, s, o, to)
  {}

  lemma PreparationMovesRow(w: World, s: Step, o: Uuid, to: OutboxStatus)
    requires IsPreparation(s) && o in w.outboxes && to != w.outboxes[o].status
    ensures RowMovesTo(w, s, ApplyPreparation(w, s), o, to)
  {
    PreparationKeepsRow(w, s, o);
    PreparationMovesNoRow(w, s, o, to);
  }

  /** A row's status changes exactly in these cases; whose row it is never changes. */
  lemma OutboxMoves(w: World, s: Step, o: Uuid, to: OutboxStatus)
    requires o in w.outboxes && to != w.outboxes[o].status
    ensures RowMovesTo(w, s, Apply(w, s), o, to)
  {
    if IsCall(s) {
      CallMovesRow(w, s, o, to);
    } else if IsRetry(s) {
      RetryMovesRow(w, s, o, to);
    } else if IsOperator(s) {
      OperatorMovesRow(w, s, o, to);
    } else if IsDelivery(s) {
      WorkerMovesRow(w, s, o, to);
    } else {
      PreparationMovesRow(w, s, o, to);
    }
  }

  // --- Recipients ---

  predicate TurnOf(w: World, call: Uuid, id: Identity) {
    && call in w.preparations && w.preparations[call].Queueing? && w.preparations[call].pending != []
    && w.preparations[call].pending[0] == id && id in w.preparations[call].identities && id in w.recipients
  }

  /** The turn of the queueing loop that writes message and row. */
  predicate Writes(w: World, s: Step, id: Identity) {
    && s.QueueNext? && TurnOf(w, s.call, id) && !s.missing && w.broadcast.status == RUNNING
    && (forall o :: o in w.outboxes ==> w.outboxes[o].recipient != id)
    && s.message !in w.messages && s.outbox !in w.outboxes
  }

  predicate Moves(w: World, s: Step, id: Identity, to: RecipientStatus)
    requires id in w.recipients
  {
    var from := w.recipients[id].status;
    || (Cancels(w, s) && (from == R_PENDING || from == R_QUEUED) && to == R_CANCELLED)
    || (s.CommitRetry? && ListedBy(w, s.call, id) && to == R_QUEUED)
    || (s.QueueNext? && TurnOf(w, s.call, id) && s.missing && from == R_PENDING && to == R_FAILED)
    || (Writes(w, s, id) && from == R_PENDING && to == R_QUEUED)
    || (s.Process? && s.to == id && HasRow(w, id) && from == R_QUEUED && to == R_PROCESSING)
    || (s.Deliver? && s.to == id && IsReport(w, id, s.report) && to == s.report.outcome
        && (w.channel == WHATSAPP || from == R_QUEUED || from == R_PROCESSING))
    || (s.Requeue? && s.to == id && w.channel == TELEGRAM && HasRow(w, id) && from == R_PROCESSING && to == R_QUEUED)
    || (s.Defer? && DefersTo(w, s.lease, id) && to == R_QUEUED)
    || ((s.RetryRow? || s.Reconcile?) && LinkedTo(w, id, s.outbox) && HandMoves(w, s, s.outbox, true) && to == R_QUEUED)
    || ((s.RetryRow? || s.Reconcile?) && LinkedTo(w, id, s.outbox) && HandMoves(w, s, s.outbox, false) && to == R_SENT)
  }

  predicate RecipientAs(w: World, t: World, id: Identity, to: RecipientStatus) {
    id in t.recipients && t.recipients[id].status == to
  }

  lemma CallMovesRecipient(w: World, s: Step, id: Identity, to: RecipientStatus)
    requires IsCall(s) && id in w.recipients && to != w.recipients[id].status
    ensures RecipientAs(w, ApplyCall(w, s), id, to) <==> Moves(w, s, id, to)
  {}

  lemma RetryMovesRecipient(w: World, s: Step, id: Identity, to: RecipientStatus)
    requires IsRetry(s) && id in w.recipients && to != w.recipients[id].status
    ensures RecipientAs(w, ApplyRetry(w, s), id, to) <==> Moves(w, s, id, to)
  {}

  lemma ClaimingMovesRecipient(w: World, s: Step, id: Identity, to: RecipientStatus)
    requires (s.Claim? || s.Release? || s.Finish?) && id in w.recipients && to != w.recipients[id].status
    ensures RecipientAs(w, ApplyDelivery(w, s), id, to) <==> Moves(w, s, id, to)
  {}

  lemma ReportMovesRecipient(w: World, s: Step, id: Identity, to: RecipientStatus)
    requires s.Deliver? && id in w.recipients && to != w.recipients[id].status
    ensures RecipientAs(w, ApplyDelivery(w, s), id, to) <==> Moves(w, s, id, to)
  {}

  lemma RequeueingMovesRecipient(w: World, s: Step, id: Identity, to: RecipientStatus)
    requires s.Requeue? && id in w.recipients && to != w.recipients[id].status
    ensures RecipientAs(w, ApplyDelivery(w, s), id, to) <==> Moves(w, s, id, to)
  {}

  lemma DeferralMovesRecipient(w: World, s: Step, id: Identity, to: RecipientStatus)
    requires (s.ReadPaused? || s.Defer?) && id in w.recipients && to != w.recipients[id].status
    ensures RecipientAs(w, ApplyDelivery(w, s), id, to) <==> Moves(w, s, id, to)
  {}

  lemma TakingMovesRecipient(w: World, s: Step, id: Identity, to: RecipientStatus)
    requires s.Process? && id in w.recipients && to != w.recipients[id].status
    ensures RecipientAs(w, ApplyDelivery(w, s), id, to) <==> Moves(w, s, id, to)
  {}

  lemma DeliveryMovesRecipient(w: World, s: Step, id: Identity, to: RecipientStatus)
    requires IsDelivery(s) && id in w.recipients && to != w.recipients[id].status
    ensures RecipientAs(w, ApplyDelivery(w, s), id, to) <==> Moves(w, s, id, to)
  {
    if s.Deliver? {
      ReportMovesRecipient(w, s, id, to);
    } else if s.Requeue? {
      RequeueingMovesRecipient(w, s, id, to);
    } else if s.ReadPaused? || s.Defer? {
      DeferralMovesRecipient(w, s, id, to);
    } else if s.Process? {
      TakingMovesRecipient(w, s, id, to);
    } else {
      ClaimingMovesRecipient(w, s, id, to);
    }
  }

  lemma OperatorMovesRecipient(w: World, s: Step, id: Identity, to: RecipientStatus)
    requires IsOperator(s) && id in w.recipients && to != w.recipients[id].status
    ensures RecipientAs(w, ApplyOperator(w, s), id, to) <==> Moves(w, s, id, to)
  {}

  lemma TurnMovesRecipient(w: World, s: Step, id: Identity, to: RecipientStatus)
    requires s.QueueNext? && id in w.recipients && to != w.recipients[id].status
    ensures RecipientAs(w, ApplyPreparation(w, s), id, to) <==> Moves(w, s, id, to)
  {}

  lemma PreparationMovesRecipient(w: World, s: Step, id: Identity, to: RecipientStatus)
    requires IsPreparation(s) && id in w.recipients && to != w.recipients[id].status
    ensures RecipientAs(w, ApplyPreparation(w, s), id, to) <==> Moves(w, s, id, to)
  {
    if s.QueueNext? { TurnMovesRecipient(w, s, id, to); }
  }

  predicate RecipientMovesTo(w: World, s: Step, t: World, id: Identity, to: RecipientStatus)
    requires id in w.recipients
  {
    id in t.recipients && (t.recipients[id].status == to <==> Moves(w, s, id, to))
  }

  lemma WorkerMovesRecipient(w: World, s: Step, id: Identity, to: RecipientStatus)
    requires IsDelivery(s) && id in w.recipients && to != w.recipients[id].status
    ensures RecipientMovesTo(w, s, Apply(w, s), id, to)
  {
    DeliveryMovesRecipient(w, s, id, to);
    DeliveryKeepsKeys(w, s);
  }

  lemma PreparedMovesRecipient(w: World, s: Step, id: Identity, to: RecipientStatus)
    requires IsPreparation(s) && id in w.recipients && to != w.recipients[id].status
    ensures RecipientMovesTo(w, s, ApplyPreparation(w, s), id, to)
  {
    PreparationMovesRecipient(w, s, id, to);
    if !s.Store? { PreparationKeepsKeys(w, s); }
  }

  lemma HandMovesRecipient(w: World, s: Step, id: Identity, to: RecipientStatus)
    requires (IsCall(s) || IsRetry(s) || IsOperator(s)) && id in w.recipients && to != w.recipients[id].status
    ensures RecipientMovesTo(w, s, Apply(w, s), id, to)
  {
    OthersKeepKeys(w, s);
    if IsCall(s) {
      CallMovesRecipient(w, s, id, to);
    } else if IsRetry(s) {
      RetryMovesRecipient(w, s, id, to);
    } else {
      OperatorMovesRecipient(w, s, id, to);
    }
  }

  /** A recipient's status changes exactly in these cases. */
  lemma RecipientMoves(w: World, s: Step, id: Identity, to: RecipientStatus)
    requires id in w.recipients && to != w.recipients[id].status
    ensures RecipientMovesTo(w, s, Apply(w, s), id, to)
  {
    if IsPreparation(s) {
      PreparedMovesRecipient(w, s, id, to);
    } else if IsDelivery(s) {
      WorkerMovesRecipient(w, s, id, to);
    } else {
      HandMovesRecipient(w, s, id, to);
    }
  }

  // --- Messages ---

  predicate WaiterWrote(w: World, m: Uuid) {
    exists id :: id in w.recipients && StillWaiting(w, id) && Wrote(w, id, m)
  }

  predicate ListedWrote(w: World, call: Uuid, m: Uuid) {
    exists id :: id in w.recipients && ListedBy(w, call, id) && Wrote(w, id, m)
  }

  predicate OwnerWrote(w: World, o: Uuid, m: Uuid) {
    exists id :: id in w.recipients && LinkedTo(w, id, o) && Wrote(w, id, m)
  }

  predicate MessageMoves(w: World, s: Step, m: Uuid, to: MessageStatus)
    requires m in w.messages
  {
    || (Cancels(w, s) && w.messages[m].status == M_QUEUED && WaiterWrote(w, m) && to == M_FAILED)
    || (s.CommitRetry? && ListedWrote(w, s.call, m) && to == M_QUEUED)
    || (s.Deliver? && IsReport(w, s.to, s.report) && Wrote(w, s.to, m) && s.report.message == Some(to))
    || (s.Requeue? && w.channel == TELEGRAM && HasRow(w, s.to) && Wrote(w, s.to, m) && to == M_QUEUED)
    || ((s.RetryRow? || s.Reconcile?) && OwnerWrote(w, s.outbox, m) && HandMoves(w, s, s.outbox, true) && to == M_QUEUED)
    || ((s.RetryRow? || s.Reconcile?) && OwnerWrote(w, s.outbox, m) && HandMoves(w, s, s.outbox, false) && to == M_OTHER)
  }

  predicate MessageAs(w: World, t: World, m: Uuid, to: MessageStatus)
    requires m in w.messages
  {
    m in t.messages && t.messages[m] == w.messages[m].(status := to)
  }

  predicate MessageKept(w: World, t: World, m: Uuid)
    requires m in w.messages
  {
    m in t.messages && t.messages[m].recipient == w.messages[m].recipient
  }

  lemma CallMovesMessage(w: World, s: Step, m: Uuid, to: MessageStatus)
    requires IsCall(s) && m in w.messages && to != w.messages[m].status
    ensures MessageKept(w, ApplyCall(w, s), m)
    ensures MessageAs(w, ApplyCall(w, s), m, to) <==> MessageMoves(w, s, m, to)
  {
    assert MessageOf(w.recipients, WaitingIds(w.recipients), m) <==> WaiterWrote(w, m) by {
      if id :| StillWaiting(w, id) && Wrote(w, id, m) {
        assert id in WaitingIds(w.recipients);
      }
      if MessageOf(w.recipients, WaitingIds(w.recipients), m) {
        var id :| id in w.recipients && id in WaitingIds(w.recipients) && w.recipients[id].message == Some(m);
        assert StillWaiting(w, id) && Wrote(w, id, m);
      }
    }
  }

  lemma RetryMovesMessage(w: World, s: Step, m: Uuid, to: MessageStatus)
    requires IsRetry(s) && m in w.messages && to != w.messages[m].status
    ensures MessageKept(w, ApplyRetry(w, s), m)
    ensures MessageAs(w, ApplyRetry(w, s), m, to) <==> MessageMoves(w, s, m, to)
  {
    if s.CommitRetry? && s.call in w.retries && w.retries[s.call].Listed? {
      var ids := w.retries[s.call].ids;
      assert MessageOf(w.recipients, ids, m) <==> ListedWrote(w, s.call, m) by {
        if id :| id in w.recipients && ListedBy(w, s.call, id) && Wrote(w, id, m) {
          assert id in ids;
        }
        if MessageOf(w.recipients, ids, m) {
          var id :| id in w.recipients && id in ids && w.recipients[id].message == Some(m);
          assert ListedBy(w, s.call, id) && Wrote(w, id, m);
        }
      }
    }
  }

  lemma ClaimingMovesMessage(w: World, s: Step, m: Uuid, to: MessageStatus)
    requires (s.Claim? || s.Release? || s.Finish?) && m in w.messages && to != w.messages[m].status
    ensures MessageKept(w, ApplyDelivery(w, s), m)
    ensures MessageAs(w, ApplyDelivery(w, s), m, to) <==> MessageMoves(w, s, m, to)
  {}

  lemma ReportMovesMessage(w: World, s: Step, m: Uuid, to: MessageStatus)
    requires s.Deliver? && m in w.messages && to != w.messages[m].status
    ensures MessageKept(w, ApplyDelivery(w, s), m)
    ensures MessageAs(w, ApplyDelivery(w, s), m, to) <==> MessageMoves(w, s, m, to)
  {}

  lemma RequeueingMovesMessage(w: World, s: Step, m: Uuid, to: MessageStatus)
    requires s.Requeue? && m in w.messages && to != w.messages[m].status
    ensures MessageKept(w, ApplyDelivery(w, s), m)
    ensures MessageAs(w, ApplyDelivery(w, s), m, to) <==> MessageMoves(w, s, m, to)
  {}

  lemma DeferralMovesMessage(w: World, s: Step, m: Uuid, to: MessageStatus)
    requires (s.ReadPaused? || s.Defer?) && m in w.messages && to != w.messages[m].status
    ensures MessageKept(w, ApplyDelivery(w, s), m)
    ensures MessageAs(w, ApplyDelivery(w, s), m, to) <==> MessageMoves(w, s, m, to)
  {}

  lemma TakingMovesMessage(w: World, s: Step, m: Uuid, to: MessageStatus)
    requires s.Process? && m in w.messages && to != w.messages[m].status
    ensures MessageKept(w, ApplyDelivery(w, s), m)
    ensures MessageAs(w, ApplyDelivery(w, s), m, to) <==> MessageMoves(w, s, m, to)
  {}

  lemma DeliveryMovesMessage(w: World, s: Step, m: Uuid, to: MessageStatus)
    requires IsDelivery(s) && m in w.messages && to != w.messages[m].status
    ensures MessageKept(w, ApplyDelivery(w, s), m)
    ensures MessageAs(w, ApplyDelivery(w, s), m, to) <==> MessageMoves(w, s, m, to)
  {
    if s.Deliver? {
      ReportMovesMessage(w, s, m, to);
    } else if s.Requeue? {
      RequeueingMovesMessage(w, s, m, to);
    } else if s.ReadPaused? || s.Defer? {
      DeferralMovesMessage(w, s, m, to);
    } else if s.Process? {
      TakingMovesMessage(w, s, m, to);
    } else {
      ClaimingMovesMessage(w, s, m, to);
    }
  }

  lemma OwnersOfMessage(w: World, o: Uuid, m: Uuid)
    ensures MessageOf(w.recipients, OwnersOf(w.recipients, o), m) <==> OwnerWrote(w, o, m)
  {
    var ids := OwnersOf(w.recipients, o);
    if id :| id in w.recipients && LinkedTo(w, id, o) && Wrote(w, id, m) {
      assert id in ids;
    }
    if MessageOf(w.recipients, ids, m) {
      var id :| id in w.recipients && id in ids && w.recipients[id].message == Some(m);
      assert LinkedTo(w, id, o) && Wrote(w, id, m);
    }
  }

  lemma RetryRowMovesMessage(w: World, s: Step, m: Uuid, to: MessageStatus)
    requires s.RetryRow? && m in w.messages && to != w.messages[m].status
    ensures MessageKept(w, ApplyOperator(w, s), m)
    ensures MessageAs(w, ApplyOperator(w, s), m, to) <==> MessageMoves(w, s, m, to)
  {
    OwnersOfMessage(w, s.outbox, m);
  }

  lemma ReconcileMovesMessage(w: World, s: Step, m: Uuid, to: MessageStatus)
    requires s.Reconcile? && m in w.messages && to != w.messages[m].status
    ensures MessageKept(w, ApplyOperator(w, s), m)
    ensures MessageAs(w, ApplyOperator(w, s), m, to) <==> MessageMoves(w, s, m, to)
  {
    OwnersOfMessage(w, s.outbox, m);
  }

  lemma OperatorMovesMessage(w: World, s: Step, m: Uuid, to: MessageStatus)
    requires IsOperator(s) && m in w.messages && to != w.messages[m].status
    ensures MessageKept(w, ApplyOperator(w, s), m)
    ensures MessageAs(w, ApplyOperator(w, s), m, to) <==> MessageMoves(w, s, m, to)
  {
    if s.RetryRow? {
      RetryRowMovesMessage(w, s, m, to);
    } else {
      ReconcileMovesMessage(w, s, m, to);
    }
  }

  lemma PreparationKeepsMessage(w: World, s: Step, m: Uuid)
    requires IsPreparation(s) && m in w.messages
    ensures m in ApplyPreparation(w, s).messages && ApplyPreparation(w, s).messages[m] == w.messages[m]
  {}

  /** A message's status changes exactly in these cases; whose message it is never changes. */
  lemma MessagesMove(w: World, s: Step, m: Uuid, to: MessageStatus)
    requires m in w.messages && to != w.messages[m].status
    ensures MessageKept(w, Apply(w, s), m)
    ensures Apply(w, s).messages[m].status == to <==> MessageMoves(w, s, m, to)
  {
    if IsCall(s) {
      CallMovesMessage(w, s, m, to);
    } else if IsRetry(s) {
      RetryMovesMessage(w, s, m, to);
    } else if IsDelivery(s) {
      DeliveryMovesMessage(w, s, m, to);
    } else if IsOperator(s) {
      OperatorMovesMessage(w, s, m, to);
    } else {
      PreparationKeepsMessage(w, s, m);
    }
  }

  // --- What is new ---

  predicate SameRows(w: World, t: World) {
    t.outboxes.Keys == w.outboxes.Keys && t.messages.Keys == w.messages.Keys
  }

  lemma CallsAddNoRows(w: World, s: Step)
    requires IsCall(s)
    ensures SameRows(w, Apply(w, s))
  {
    assert SameRows(w, ApplyCall(w, s));
  }

  lemma RetriesAddNoRows(w: World, s: Step)
    requires IsRetry(s)
    ensures SameRows(w, ApplyRetry(w, s))
  {}

  lemma OperatorsAddNoRows(w: World, s: Step)
    requires IsOperator(s)
    ensures SameRows(w, ApplyOperator(w, s))
  {}

  lemma DeliveriesAddNoRows(w: World, s: Step)
    requires IsDelivery(s)
    ensures SameRows(w, Apply(w, s))
  {
    assert SameRows(w, ApplyDelivery(w, s));
  }

  lemma PreparationsAddNoRows(w: World, s: Step)
    requires IsPreparation(s) && !s.QueueNext?
    ensures SameRows(w, Apply(w, s))
  {
    OthersPrepare(w, s);
  }

  lemma OthersAddNoRows(w: World, s: Step)
    requires !s.QueueNext?
    ensures SameRows(w, Apply(w, s))
  {
    if IsCall(s) {
      CallsAddNoRows(w, s);
    } else if IsDelivery(s) {
      DeliveriesAddNoRows(w, s);
    } else if IsPreparation(s) {
      PreparationsAddNoRows(w, s);
    } else if IsRetry(s) {
      RetriesAddNoRows(w, s);
    } else {
      OperatorsAddNoRows(w, s);
    }
  }

  lemma OthersPrepare(w: World, s: Step)
    requires IsPreparation(s) && !s.QueueNext?
    ensures ApplyPreparation(w, s).outboxes == w.outboxes && ApplyPreparation(w, s).messages == w.messages
  {}

  lemma TurnAdds(w: World, s: Step, o: Uuid)
    requires s.QueueNext? && o !in w.outboxes
    ensures var t := ApplyPreparation(w, s);
      o in t.outboxes <==> o == s.outbox && exists id :: Writes(w, s, id)
    ensures forall id :: Writes(w, s, id) ==>
      var t := ApplyPreparation(w, s);
      && t.outboxes == w.outboxes[s.outbox := Outbox(id, s.message, O_PENDING)]
      && t.messages == w.messages[s.message := Message(id, M_QUEUED)]
  {
    if At(w, s.call) && w.preparations[s.call].Queueing? && w.preparations[s.call].pending != [] {
      var id := w.preparations[s.call].pending[0];
      assert Writes(w, s, id) ==> !KeyTaken(w.outboxes, id);
    }
  }

  /** Rows and messages are added by the queueing loop alone, one of each for the recipient whose turn it is. */
  lemma RowsAreAdded(w: World, s: Step, o: Uuid)
    requires o !in w.outboxes
    ensures o in Apply(w, s).outboxes <==> s.QueueNext? && o == s.outbox && exists id :: Writes(w, s, id)
    ensures forall id :: Writes(w, s, id) ==>
      && Apply(w, s).outboxes == w.outboxes[s.outbox := Outbox(id, s.message, O_PENDING)]
      && Apply(w, s).messages == w.messages[s.message := Message(id, M_QUEUED)]
  {
    if s.QueueNext? {
      TurnAdds(w, s, o);
    } else {
      OthersAddNoRows(w, s);
    }
  }

  /** Recipients are added by storing alone: those found and not there yet, PENDING and without links. */
  lemma RecipientsAreAdded(w: World, s: Step, id: Identity)
    requires id !in w.recipients
    ensures id in Apply(w, s).recipients <==>
      s.Store? && s.call in w.preparations && w.preparations[s.call].Loaded? && id in w.preparations[s.call].identities
    ensures id in Apply(w, s).recipients ==> Apply(w, s).recipients[id] == Recipient(R_PENDING, None, None)
  {
    if !s.Store? {
      RecipientsComeByStoring(w, s);
    }
  }

  // --- Links ---

  predicate LinksAs(w: World, s: Step, t: World, id: Identity)
    requires id in w.recipients
  {
    var r := w.recipients[id];
    && id in t.recipients
    && if Writes(w, s, id) && r.status == R_PENDING
       then t.recipients[id].message == Some(s.message) && t.recipients[id].outbox == Some(s.outbox)
       else t.recipients[id].message == r.message && t.recipients[id].outbox == r.outbox
  }

  lemma TurnLinks(w: World, s: Step, id: Identity)
    requires s.QueueNext? && id in w.recipients
    ensures LinksAs(w, s, ApplyPreparation(w, s), id)
  {}

  lemma DeliveryLinks(w: World, s: Step, id: Identity)
    requires IsDelivery(s) && id in w.recipients
    ensures LinksAs(w, s, ApplyDelivery(w, s), id)
  {}

  lemma PreparationLinks(w: World, s: Step, id: Identity)
    requires IsPreparation(s) && !s.QueueNext? && id in w.recipients
    ensures LinksAs(w, s, ApplyPreparation(w, s), id)
  {}

  lemma OtherLinks(w: World, s: Step, id: Identity)
    requires (IsCall(s) || IsRetry(s) || IsOperator(s)) && id in w.recipients
    ensures LinksAs(w, s, Apply(w, s), id)
  {}

  lemma WorkerLinks(w: World, s: Step, id: Identity)
    requires IsDelivery(s) && id in w.recipients
    ensures LinksAs(w, s, Apply(w, s), id)
  {
    DeliveryLinks(w, s, id);
  }

  lemma PreparedLinks(w: World, s: Step, id: Identity)
    requires IsPreparation(s) && id in w.recipients
    ensures LinksAs(w, s, Apply(w, s), id)
  {
    if s.QueueNext? {
      TurnLinks(w, s, id);
    } else {
      PreparationLinks(w, s, id);
    }
  }

  /** A recipient is linked when it is queued from PENDING, and its links never change otherwise. */
  lemma LinksMove(w: World, s: Step, id: Identity)
    requires id in w.recipients
    ensures LinksAs(w, s, Apply(w, s), id)
  {
    if IsPreparation(s) {
      PreparedLinks(w, s, id);
    } else if IsDelivery(s) {
      WorkerLinks(w, s, id);
    } else {
      OtherLinks(w, s, id);
    }
  }
}
