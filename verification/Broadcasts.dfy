/**
  One broadcast with its recipients, messages and outbox rows. Calls that change the
  status are atomic; preparing, queueing and retrying are split at their reads and
  transactions, so that any number of them interleave with each other and with the calls.
  The delivery workers are steps too: they claim outbox rows, take recipients up, report
  outcomes, requeue and defer. So are the operator's retry and reconciliation of a row.
*/
module Broadcasts {
  import opened Collections

  type Identity = nat
  type Uuid = nat

  datatype Status = DRAFT | SCHEDULED | PREPARING | RUNNING | PAUSED | COMPLETED | CANCELLED | FAILED | ARCHIVED

  /** The row itself; of each time stamp only whether it is set matters. */
  datatype Broadcast = Broadcast(status: Status, scheduledAt: bool, completedAt: bool, cancelledAt: bool, failedAt: bool)

  datatype Channel = TELEGRAM | WHATSAPP

  datatype RecipientStatus =
    | R_PENDING | R_QUEUED | R_PROCESSING | R_SENT | R_DELIVERED | R_READ | R_FAILED | R_SKIPPED | R_CANCELLED | R_UNKNOWN

  /** A recipient, known by its channel identity, with its links. */
  datatype Recipient = Recipient(status: RecipientStatus, message: Option<Uuid>, outbox: Option<Uuid>)

  datatype MessageStatus = M_QUEUED | M_FAILED | M_OTHER

  datatype Message = Message(recipient: Identity, status: MessageStatus)

  /** A worker holds a row under a lease that no other claim has. */
  datatype OutboxStatus = O_PENDING | O_RETRY | O_FAILED | O_TAKEN(lease: Uuid) | O_UNKNOWN | O_DONE

  /** An outbox row; its idempotency key is its recipient. */
  datatype Outbox = Outbox(recipient: Identity, message: Uuid, status: OutboxStatus)

  type Recipients = map<Identity, Recipient>
  type Messages = map<Uuid, Message>
  type Outboxes = map<Uuid, Outbox>

  /** How far a preparation has come. */
  datatype Preparation =
    | Loaded(identities: seq<Identity>)
    | Stored(identities: seq<Identity>)
    | Queueing(identities: seq<Identity>, pending: seq<Identity>)
    | Counted

  /** How far a call of `retryFailed` has come: past its status check, or past its list of recipients. */
  datatype Retry = Started | Listed(ids: set<Identity>)

  /** `deferrals` are the workers that found the broadcast PAUSED and have not committed yet. */
  datatype World = World(
    broadcast: Broadcast, channel: Channel, recipients: Recipients, messages: Messages, outboxes: Outboxes,
    preparations: map<Uuid, Preparation>, deferrals: map<Uuid, Identity>, retries: map<Uuid, Retry>)

  /** What a worker or a provider's status report writes; None leaves a row as it is. */
  datatype Report = Report(
    outcome: RecipientStatus, message: Option<MessageStatus>, lease: Uuid, row: Option<OutboxStatus>, counted: bool)

  datatype Step =
    | Reschedule(later: bool) | Launch | Due | Pause | Resume | Cancel | Archive | Restore | FailPreparing
    | StartRetry(call: Uuid)
    | ListFailed(call: Uuid)
    | CommitRetry(call: Uuid)
    | Load(call: Uuid, found: seq<Identity>)
    | Store(call: Uuid)
    | List(call: Uuid, pending: seq<Identity>)
    | QueueNext(call: Uuid, missing: bool, message: Uuid, outbox: Uuid)
    | Count(call: Uuid)
    | Complete(call: Uuid)
    | Claim(lease: Uuid, outbox: Uuid)
    | Release(outbox: Uuid)
    | Finish(lease: Uuid, outbox: Uuid, row: OutboxStatus)
    | Process(to: Identity)
    | Deliver(to: Identity, report: Report)
    | Requeue(lease: Uuid, to: Identity)
    | ReadPaused(lease: Uuid, to: Identity)
    | Defer(lease: Uuid)
    | RetryRow(outbox: Uuid)
    | Reconcile(outbox: Uuid, applied: bool)

  // --- Transactions ---

  predicate Waiting(r: Recipient) {
    r.status == R_PENDING || r.status == R_QUEUED
  }

  predicate Retryable(r: Recipient) {
    r.status == R_FAILED && r.outbox.Some?
  }

  function WaitingIds(rs: Recipients): set<Identity> {
    set id | id in rs && Waiting(rs[id])
  }

  function RetryableIds(rs: Recipients): set<Identity> {
    set id | id in rs && Retryable(rs[id])
  }

  function OwnersOf(rs: Recipients, outbox: Uuid): set<Identity> {
    set id | id in rs && rs[id].outbox == Some(outbox)
  }

  /** A message or outbox row that one of the chosen recipients links to. */
  predicate MessageOf(rs: Recipients, ids: set<Identity>, m: Uuid) {
    exists id :: id in rs && id in ids && rs[id].message == Some(m)
  }

  predicate OutboxOf(rs: Recipients, ids: set<Identity>, o: Uuid) {
    exists id :: id in rs && id in ids && rs[id].outbox == Some(o)
  }

  function SetRecipients(rs: Recipients, ids: set<Identity>, s: RecipientStatus): Recipients {
    map id | id in rs :: if id in ids then rs[id].(status := s) else rs[id]
  }

  function MarkMessages(rs: Recipients, ids: set<Identity>, ms: Messages, s: MessageStatus): Messages {
    map m | m in ms :: if MessageOf(rs, ids, m) then ms[m].(status := s) else ms[m]
  }

  function CancelMessages(rs: Recipients, ids: set<Identity>, ms: Messages): Messages {
    map m | m in ms :: if ms[m].status == M_QUEUED && MessageOf(rs, ids, m) then ms[m].(status := M_FAILED) else ms[m]
  }

  function CancelOutboxes(rs: Recipients, ids: set<Identity>, os: Outboxes): Outboxes {
    map o | o in os ::
      if (os[o].status == O_PENDING || os[o].status == O_RETRY) && OutboxOf(rs, ids, o)
      then os[o].(status := O_FAILED) else os[o]
  }

  function RetryOutboxes(rs: Recipients, ids: set<Identity>, os: Outboxes): Outboxes {
    map o | o in os ::
      if os[o].status == O_FAILED && OutboxOf(rs, ids, o) then os[o].(status := O_PENDING) else os[o]
  }

  function CancelTransaction(w: World): World {
    var ids := WaitingIds(w.recipients);
    w.(broadcast := w.broadcast.(status := CANCELLED, cancelledAt := true),
       recipients := SetRecipients(w.recipients, ids, R_CANCELLED),
       messages := CancelMessages(w.recipients, ids, w.messages),
       outboxes := CancelOutboxes(w.recipients, ids, w.outboxes))
  }

  /** The transaction of `retryFailed`: whatever the listed recipients have become since. */
  function RetryTransaction(w: World, ids: set<Identity>): World {
    w.(recipients := SetRecipients(w.recipients, ids, R_QUEUED),
       messages := MarkMessages(w.recipients, ids, w.messages, M_QUEUED),
       outboxes := RetryOutboxes(w.recipients, ids, w.outboxes))
  }

  /** `createMany` with `skipDuplicates`. */
  function Added(rs: Recipients, identities: seq<Identity>): Recipients {
    map id | id in rs.Keys + Elements(identities) :: if id in rs then rs[id] else Recipient(R_PENDING, None, None)
  }

  function StoreTransaction(w: World, identities: seq<Identity>): World {
    w.(recipients := Added(w.recipients, identities),
       broadcast :=
         if w.broadcast.status != PREPARING then w.broadcast
         else if identities == [] then w.broadcast.(status := COMPLETED, completedAt := true)
         else w.broadcast.(status := RUNNING, completedAt := false))
  }

  predicate KeyTaken(os: Outboxes, id: Identity) {
    exists o :: o in os && os[o].recipient == id
  }

  /** The transaction for one recipient, once the broadcast was found running and the key free. */
  function QueueTransaction(w: World, id: Identity, message: Uuid, outbox: Uuid): World
    requires id in w.recipients
  {
    var r := w.recipients[id];
    w.(messages := w.messages[message := Message(id, M_QUEUED)],
       outboxes := w.outboxes[outbox := Outbox(id, message, O_PENDING)],
       recipients :=
         if r.status == R_PENDING then w.recipients[id := Recipient(R_QUEUED, Some(message), Some(outbox))]
         else w.recipients)
  }

  // --- Steps ---

  predicate NonTerminal(r: Recipient) {
    Waiting(r) || r.status == R_PROCESSING
  }

  predicate AllTerminal(rs: Recipients) {
    forall id :: id in rs ==> !NonTerminal(rs[id])
  }

  function Restored(b: Broadcast): Status {
    if b.completedAt then COMPLETED else if b.cancelledAt then CANCELLED else if b.failedAt then FAILED else DRAFT
  }

  predicate IsPendingList(rs: Recipients, pending: seq<Identity>) {
    && Distinct(pending)
    && (forall id :: id in pending ==> id in rs && rs[id].status == R_PENDING)
    && (forall id :: id in rs && rs[id].status == R_PENDING ==> id in pending)
  }

  predicate At(w: World, call: Uuid) {
    call in w.preparations
  }

  predicate CanCancel(s: Status) {
    s in {DRAFT, SCHEDULED, PREPARING, RUNNING, PAUSED}
  }

  /** What a call makes of the broadcast's own row. */
  function Called(b: Broadcast, s: Step): Broadcast {
    match s
    case Reschedule(later) =>
      if b.status == DRAFT || b.status == SCHEDULED
      then b.(status := if later then SCHEDULED else DRAFT, scheduledAt := later) else b
    case Launch => if b.status == DRAFT || b.status == SCHEDULED then b.(status := PREPARING, scheduledAt := false) else b
    case Due => if b.status == SCHEDULED && b.scheduledAt then b.(status := PREPARING, scheduledAt := false) else b
    case Pause => if b.status == RUNNING then b.(status := PAUSED) else b
    case Resume => if b.status == PAUSED then b.(status := RUNNING) else b
    case Cancel => if CanCancel(b.status) then b.(status := CANCELLED, cancelledAt := true) else b
    case Archive => if b.status in {PREPARING, RUNNING, PAUSED} then b else b.(status := ARCHIVED)
    case Restore => if b.status == ARCHIVED then b.(status := Restored(b)) else b
    case FailPreparing => if b.status == PREPARING then b.(status := FAILED, failedAt := true) else b
    case _ => b
  }

  /** The calls on the broadcast itself; only cancelling writes other tables. */
  function ApplyCall(w: World, s: Step): World {
    if s.Cancel? && CanCancel(w.broadcast.status) then CancelTransaction(w)
    else w.(broadcast := Called(w.broadcast, s))
  }

  /** `retryFailed`: the status check, the list of failed recipients, and the transaction. */
  function ApplyRetry(w: World, s: Step): World {
    match s
    case StartRetry(call) =>
      if w.broadcast.status == RUNNING && call !in w.retries then w.(retries := w.retries[call := Started]) else w
    case ListFailed(call) =>
      if call in w.retries && w.retries[call].Started?
      then w.(retries := w.retries[call := Listed(RetryableIds(w.recipients))]) else w
    case CommitRetry(call) =>
      if call in w.retries && w.retries[call].Listed?
      then RetryTransaction(w.(retries := w.retries - {call}), w.retries[call].ids) else w
    case _ => w
  }

  /** One recipient of the queueing loop; a taken key makes the whole preparation throw. */
  function ApplyQueue(w: World, call: Uuid, missing: bool, message: Uuid, outbox: Uuid): World
    requires At(w, call) && w.preparations[call].Queueing? && w.preparations[call].pending != []
  {
    var p := w.preparations[call];
    var id := p.pending[0];
    var next := w.(preparations := w.preparations[call := Queueing(p.identities, p.pending[1..])]);
    if id !in p.identities || id !in w.recipients then next
    else if missing then
      if w.recipients[id].status == R_PENDING
      then next.(recipients := w.recipients[id := w.recipients[id].(status := R_FAILED)]) else next
    else if w.broadcast.status != RUNNING then next
    else if KeyTaken(w.outboxes, id) then w.(preparations := w.preparations - {call})
    else if message in w.messages || outbox in w.outboxes then w
    else QueueTransaction(next, id, message, outbox)
  }

  /** The steps of preparing, queueing and completing. */
  function ApplyPreparation(w: World, s: Step): World {
    match s
    case Load(call, found) =>
      if w.broadcast.status == PREPARING && !At(w, call) then w.(preparations := w.preparations[call := Loaded(found)]) else w
    case Store(call) =>
      if At(w, call) && w.preparations[call].Loaded? then
        var found := w.preparations[call].identities;
        StoreTransaction(w.(preparations := w.preparations[call := Stored(found)]), found)
      else w
    case List(call, pending) =>
      if At(w, call) && w.preparations[call].Stored? && IsPendingList(w.recipients, pending)
      then w.(preparations := w.preparations[call := Queueing(w.preparations[call].identities, pending)]) else w
    case QueueNext(call, missing, message, outbox) =>
      if At(w, call) && w.preparations[call].Queueing? && w.preparations[call].pending != []
      then ApplyQueue(w, call, missing, message, outbox) else w
    case Count(call) =>
      if At(w, call) && w.preparations[call].Queueing? && w.preparations[call].pending == [] then
        w.(preparations := if AllTerminal(w.recipients) then w.preparations[call := Counted] else w.preparations - {call})
      else w
    case Complete(call) =>
      if At(w, call) && w.preparations[call].Counted? then
        w.(preparations := w.preparations - {call},
           broadcast := if w.broadcast.status == RUNNING then w.broadcast.(status := COMPLETED, completedAt := true) else w.broadcast)
      else w
    case _ => w
  }

  // --- Delivery ---

  predicate Linked(w: World, id: Identity) {
    id in w.recipients && w.recipients[id].outbox.Some?
  }

  /** The recipient's outbox row is claimed under the lease. */
  predicate Holds(w: World, lease: Uuid, id: Identity) {
    Linked(w, id) && w.recipients[id].outbox.value in w.outboxes
    && w.outboxes[w.recipients[id].outbox.value].status == O_TAKEN(lease)
  }

  predicate Fresh(w: World, lease: Uuid) {
    lease !in w.deferrals && forall o :: o in w.outboxes ==> w.outboxes[o].status != O_TAKEN(lease)
  }

  predicate Busy(r: Recipient) {
    r.status == R_QUEUED || r.status == R_PROCESSING
  }

  function SetStatus(rs: Recipients, id: Identity, s: RecipientStatus): Recipients
    requires id in rs
  {
    rs[id := rs[id].(status := s)]
  }

  function SetMessage(ms: Messages, m: Option<Uuid>, s: Option<MessageStatus>): Messages {
    if m.Some? && m.value in ms && s.Some? then ms[m.value := ms[m.value].(status := s.value)] else ms
  }

  function SetOutbox(os: Outboxes, o: Option<Uuid>, s: Option<OutboxStatus>): Outboxes {
    if o.Some? && o.value in os && s.Some? then os[o.value := os[o.value].(status := s.value)] else os
  }

  /** The statuses a row is not delivered from again, unless by hand. */
  predicate Closed(s: OutboxStatus) {
    s == O_FAILED || s == O_UNKNOWN || s == O_DONE
  }

  /** Outcomes end the delivery; requeueing and deferring have steps of their own. */
  predicate Reportable(report: Report) {
    && report.outcome !in {R_PENDING, R_QUEUED, R_PROCESSING}
    && (report.row.Some? ==> Closed(report.row.value))
  }

  /** Telegram workers settle only recipients still QUEUED or PROCESSING. */
  predicate Reached(w: World, to: Identity) {
    Linked(w, to) && (w.channel == WHATSAPP || Busy(w.recipients[to]))
  }

  /** The row is closed only under its lease; the last settled recipient may complete the broadcast. */
  function Delivered(w: World, to: Identity, report: Report): World
    requires Linked(w, to)
  {
    var r := w.recipients[to];
    var rs := if Reached(w, to) then SetStatus(w.recipients, to, report.outcome) else w.recipients;
    w.(recipients := rs,
       messages := SetMessage(w.messages, r.message, report.message),
       outboxes := if Holds(w, report.lease, to) then SetOutbox(w.outboxes, r.outbox, report.row) else w.outboxes,
       broadcast := if report.counted && AllTerminal(rs) && w.broadcast.status == RUNNING
                    then w.broadcast.(status := COMPLETED, completedAt := true) else w.broadcast)
  }

  /** A delivery that failed for now: only a recipient still QUEUED or PROCESSING is queued again. */
  function Requeued(w: World, lease: Uuid, to: Identity): World
    requires Linked(w, to)
  {
    var r := w.recipients[to];
    w.(recipients := if Busy(r) then SetStatus(w.recipients, to, R_QUEUED) else w.recipients,
       messages := SetMessage(w.messages, r.message, Some(M_QUEUED)),
       outboxes := if Holds(w, lease, to) then SetOutbox(w.outboxes, r.outbox, Some(O_RETRY)) else w.outboxes)
  }

  /** A deferral commits while its worker still holds the row, and then queues the recipient whatever its status. */
  function Deferred(w: World, lease: Uuid): World
    requires lease in w.deferrals
  {
    var id := w.deferrals[lease];
    var next := w.(deferrals := w.deferrals - {lease});
    if !Holds(w, lease, id) then next
    else next.(recipients := SetStatus(w.recipients, id, R_QUEUED),
               outboxes := SetOutbox(w.outboxes, w.recipients[id].outbox, Some(O_RETRY)))
  }

  function ApplyDelivery(w: World, s: Step): World {
    match s
    case Claim(lease, outbox) =>
      if outbox in w.outboxes && (w.outboxes[outbox].status == O_PENDING || w.outboxes[outbox].status == O_RETRY)
         && Fresh(w, lease)
      then w.(outboxes := SetOutbox(w.outboxes, Some(outbox), Some(O_TAKEN(lease)))) else w
    case Release(outbox) =>
      if outbox in w.outboxes && w.outboxes[outbox].status.O_TAKEN?
      then w.(outboxes := SetOutbox(w.outboxes, Some(outbox), Some(O_RETRY))) else w
    case Finish(lease, outbox, row) =>
      if outbox in w.outboxes && w.outboxes[outbox].status == O_TAKEN(lease) && Closed(row)
      then w.(outboxes := SetOutbox(w.outboxes, Some(outbox), Some(row))) else w
    case Process(to) =>
      if Linked(w, to) && Busy(w.recipients[to]) then w.(recipients := SetStatus(w.recipients, to, R_PROCESSING)) else w
    case Deliver(to, report) => if Linked(w, to) && Reportable(report) then Delivered(w, to, report) else w
    case Requeue(lease, to) => if w.channel == TELEGRAM && Linked(w, to) then Requeued(w, lease, to) else w
    case ReadPaused(lease, to) =>
      if w.channel == WHATSAPP && w.broadcast.status == PAUSED && Holds(w, lease, to) && lease !in w.deferrals
      then w.(deferrals := w.deferrals[lease := to]) else w
    case Defer(lease) => if w.channel == WHATSAPP && lease in w.deferrals then Deferred(w, lease) else w
    case _ => w
  }

  // --- The operator ---

  predicate RowIs(w: World, outbox: Uuid, s: OutboxStatus) {
    outbox in w.outboxes && w.outboxes[outbox].status == s
  }

  /** `markTelegramRelations`: every recipient and message of the row, whatever their status. */
  function RelationsMarked(w: World, outbox: Uuid, row: OutboxStatus, r: RecipientStatus, m: MessageStatus): World {
    var ids := OwnersOf(w.recipients, outbox);
    w.(outboxes := SetOutbox(w.outboxes, Some(outbox), Some(row)),
       recipients := SetRecipients(w.recipients, ids, r),
       messages := MarkMessages(w.recipients, ids, w.messages, m))
  }

  function RowRequeued(w: World, outbox: Uuid): World {
    RelationsMarked(w, outbox, O_RETRY, R_QUEUED, M_QUEUED)
  }

  /** Only Telegram rows can be retried or reconciled by hand. */
  function ApplyOperator(w: World, s: Step): World {
    match s
    case RetryRow(outbox) =>
      if w.channel == TELEGRAM && RowIs(w, outbox, O_FAILED) then RowRequeued(w, outbox) else w
    case Reconcile(outbox, applied) =>
      if w.channel == TELEGRAM && RowIs(w, outbox, O_UNKNOWN) then
        if applied then RelationsMarked(w, outbox, O_DONE, R_SENT, M_OTHER) else RowRequeued(w, outbox)
      else w
    case _ => w
  }

  predicate IsCall(s: Step) {
    s.Reschedule? || s.Launch? || s.Due? || s.Pause? || s.Resume? || s.Cancel? || s.Archive? || s.Restore?
    || s.FailPreparing?
  }

  predicate IsRetry(s: Step) {
    s.StartRetry? || s.ListFailed? || s.CommitRetry?
  }

  predicate IsDelivery(s: Step) {
    s.Claim? || s.Release? || s.Finish? || s.Process? || s.Deliver? || s.Requeue? || s.ReadPaused? || s.Defer?
  }

  predicate IsOperator(s: Step) {
    s.RetryRow? || s.Reconcile?
  }

  predicate IsPreparation(s: Step) {
    s.Load? || s.Store? || s.List? || s.QueueNext? || s.Count? || s.Complete?
  }

  function Apply(w: World, s: Step): World {
    if IsCall(s) then ApplyCall(w, s)
    else if IsRetry(s) then ApplyRetry(w, s)
    else if IsDelivery(s) then ApplyDelivery(w, s)
    else if IsOperator(s) then ApplyOperator(w, s)
    else ApplyPreparation(w, s)
  }

  function Run(w: World, steps: seq<Step>): World
    decreases |steps|
  {
    if steps == [] then w else Run(Apply(w, steps[0]), steps[1..])
  }

  function Created(scheduled: bool, channel: Channel): World {
    World(Broadcast(if scheduled then SCHEDULED else DRAFT, scheduled, false, false, false), channel,
          map[], map[], map[], map[], map[], map[])
  }

  // --- The status and its stamps ---

  /** The stamps tell how the broadcast ended; one that has not ended has none. */
  predicate Stamped(b: Broadcast) {
    match b.status
    case COMPLETED => b.completedAt && !b.cancelledAt && !b.failedAt
    case CANCELLED => !b.completedAt && b.cancelledAt && !b.failedAt
    case FAILED => !b.completedAt && !b.cancelledAt && b.failedAt
    case ARCHIVED => !(b.completedAt && b.cancelledAt) && !(b.completedAt && b.failedAt) && !(b.cancelledAt && b.failedAt)
    case _ => !b.completedAt && !b.cancelledAt && !b.failedAt
  }

  lemma CallWritesBroadcast(w: World, s: Step)
    ensures ApplyCall(w, s).broadcast == Called(w.broadcast, s)
  {}

  lemma StampedCall(b: Broadcast, s: Step)
    requires Stamped(b)
    ensures Stamped(Called(b, s))
  {}

  lemma StampedDelivery(w: World, s: Step)
    requires Stamped(w.broadcast) && IsDelivery(s)
    ensures Stamped(ApplyDelivery(w, s).broadcast)
  {}

  lemma StampedPreparation(w: World, s: Step)
    requires Stamped(w.broadcast) && IsPreparation(s)
    ensures Stamped(ApplyPreparation(w, s).broadcast)
  {}

  lemma OthersLeaveBroadcast(w: World, s: Step)
    requires IsRetry(s) || IsOperator(s)
    ensures Apply(w, s).broadcast == w.broadcast
  {}

  lemma StampedStep(w: World, s: Step)
    requires Stamped(w.broadcast)
    ensures Stamped(Apply(w, s).broadcast)
  {
    if IsCall(s) {
      CallWritesBroadcast(w, s);
      StampedCall(w.broadcast, s);
    } else if IsDelivery(s) {
      StampedDelivery(w, s);
    } else if IsPreparation(s) {
      StampedPreparation(w, s);
    } else {
      OthersLeaveBroadcast(w, s);
    }
  }

  lemma DeliveryLeavesBroadcast(w: World, s: Step)
    requires IsDelivery(s) && w.broadcast.status != RUNNING
    ensures ApplyDelivery(w, s).broadcast == w.broadcast
  {}

  lemma PreparationLeavesBroadcast(w: World, s: Step)
    requires IsPreparation(s) && w.broadcast.status != RUNNING && w.broadcast.status != PREPARING
    ensures ApplyPreparation(w, s).broadcast == w.broadcast
  {}

  /** Only a broadcast being prepared or sent is changed by anything but a call. */
  lemma OnlyCallsChange(w: World, s: Step)
    requires !IsCall(s) && w.broadcast.status != RUNNING && w.broadcast.status != PREPARING
    ensures Apply(w, s).broadcast == w.broadcast
  {
    if IsDelivery(s) {
      DeliveryLeavesBroadcast(w, s);
    } else if IsPreparation(s) {
      PreparationLeavesBroadcast(w, s);
    } else {
      OthersLeaveBroadcast(w, s);
    }
  }

  predicate EndStamps(b: Broadcast, completed: bool, cancelled: bool, failed: bool) {
    b.completedAt == completed && b.cancelledAt == cancelled && b.failedAt == failed
  }

  lemma EndCall(b: Broadcast, s: Step)
    requires Stamped(b) && (b.completedAt || b.cancelledAt || b.failedAt)
    ensures var c := Called(b, s);
      && EndStamps(c, b.completedAt, b.cancelledAt, b.failedAt)
      && (c.status == ARCHIVED || c.status == Restored(b))
  {}

  /** A stamp, once set, is never changed, and the broadcast never leaves the state it names but for the archive. */
  lemma EndStep(w: World, s: Step)
    requires Stamped(w.broadcast) && (w.broadcast.completedAt || w.broadcast.cancelledAt || w.broadcast.failedAt)
    ensures var b, c := w.broadcast, Apply(w, s).broadcast;
      && EndStamps(c, b.completedAt, b.cancelledAt, b.failedAt)
      && (c.status == ARCHIVED || c.status == Restored(b))
  {
    if IsCall(s) {
      CallWritesBroadcast(w, s);
      EndCall(w.broadcast, s);
    } else {
      OnlyCallsChange(w, s);
    }
  }

  /** COMPLETED, CANCELLED and FAILED are final: later only the archive is left. */
  lemma {:induction false} EndIsFinal(w: World, steps: seq<Step>)
    requires Stamped(w.broadcast) && (w.broadcast.status in {COMPLETED, CANCELLED, FAILED})
    ensures var s := Run(w, steps).broadcast.status; s == w.broadcast.status || s == ARCHIVED
  {
    EndStampsKept(w, steps);
  }

  lemma {:induction false} EndStampsKept(w: World, steps: seq<Step>)
    requires Stamped(w.broadcast) && (w.broadcast.completedAt || w.broadcast.cancelledAt || w.broadcast.failedAt)
    ensures var b, c := w.broadcast, Run(w, steps).broadcast;
      && Stamped(c) && EndStamps(c, b.completedAt, b.cancelledAt, b.failedAt)
      && (steps == [] || c.status == ARCHIVED || c.status == Restored(b))
    decreases |steps|
  {
    if steps != [] {
      EndStep(w, steps[0]);
      StampedStep(w, steps[0]);
      EndStampsKept(Apply(w, steps[0]), steps[1..]);
    }
  }

  predicate NoRestore(steps: seq<Step>) {
    forall s :: s in steps ==> !s.Restore?
  }

  lemma {:induction false} StaysArchived(w: World, steps: seq<Step>)
    requires w.broadcast.status == ARCHIVED && NoRestore(steps)
    ensures Run(w, steps).broadcast == w.broadcast
    decreases |steps|
  {
    if steps != [] {
      assert steps[0] in steps;
      if !IsCall(steps[0]) {
        OnlyCallsChange(w, steps[0]);
      }
      StaysArchived(Apply(w, steps[0]), steps[1..]);
    }
  }

  /** Restoring returns the status that was archived, whatever happened meanwhile; SCHEDULED returns as DRAFT. */
  lemma RestoreReturnsArchived(w: World, steps: seq<Step>)
    requires Stamped(w.broadcast) && NoRestore(steps)
    requires w.broadcast.status in {DRAFT, SCHEDULED, COMPLETED, CANCELLED, FAILED}
    ensures Apply(Run(Apply(w, Archive), steps), Restore).broadcast.status ==
      if w.broadcast.status == SCHEDULED then DRAFT else w.broadcast.status
  {
    StaysArchived(Apply(w, Archive), steps);
  }

  // --- Recipients and the rows they own ---

  predicate LinksTo(os: Outboxes, o: Uuid, id: Identity, m: Uuid) {
    o in os && os[o].recipient == id && os[o].message == m
  }

  /** A queued recipient has its rows; a pending one has none yet. */
  predicate LinkSound(w: World, id: Identity)
    requires id in w.recipients
  {
    var r := w.recipients[id];
    && (r.outbox.Some? <==> r.message.Some?)
    && (r.outbox.Some? ==> LinksTo(w.outboxes, r.outbox.value, id, r.message.value))
    && (r.status == R_QUEUED ==> r.outbox.Some?)
    && (r.status == R_PENDING ==> r.outbox.None? && !KeyTaken(w.outboxes, id))
  }

  predicate LinksSound(w: World) {
    forall id :: id in w.recipients ==> LinkSound(w, id)
  }

  predicate OutboxSound(w: World, o: Uuid)
    requires o in w.outboxes
  {
    var row := w.outboxes[o];
    row.recipient in w.recipients && row.message in w.messages && w.messages[row.message].recipient == row.recipient
  }

  predicate OutboxesSound(w: World) {
    forall o :: o in w.outboxes ==> OutboxSound(w, o)
  }

  /** The unique index on the idempotency key. */
  predicate KeysUnique(os: Outboxes) {
    forall o, p :: o in os && p in os && os[o].recipient == os[p].recipient ==> o == p
  }

  predicate Carried(os: Outboxes, m: Uuid) {
    exists o :: o in os && os[o].message == m
  }

  /** Every message was created together with an outbox row. */
  predicate MessagesCarried(w: World) {
    forall m :: m in w.messages ==> Carried(w.outboxes, m)
  }

  predicate RowsSound(w: World) {
    LinksSound(w) && OutboxesSound(w) && KeysUnique(w.outboxes) && MessagesCarried(w)
  }

  /** Only statuses differ, none becomes pending, and none becomes queued without rows. */
  predicate SettlesOnly(w: World, t: World) {
    && t.recipients.Keys == w.recipients.Keys && t.messages.Keys == w.messages.Keys && t.outboxes.Keys == w.outboxes.Keys
    && (forall id :: id in w.recipients ==> Settles(w.recipients[id], t.recipients[id]))
    && (forall m :: m in w.messages ==> t.messages[m].recipient == w.messages[m].recipient)
    && (forall o :: o in w.outboxes ==>
          t.outboxes[o].recipient == w.outboxes[o].recipient && t.outboxes[o].message == w.outboxes[o].message)
  }

  predicate Settles(a: Recipient, b: Recipient) {
    && b.message == a.message && b.outbox == a.outbox
    && (b.status == R_PENDING ==> a.status == R_PENDING)
    && (b.status == R_QUEUED ==> a.outbox.Some?)
  }

  lemma SettlingKeepsRows(w: World, t: World)
    requires RowsSound(w) && SettlesOnly(w, t)
    ensures RowsSound(t)
  {
    forall id | id in t.recipients ensures LinkSound(t, id) {
      assert LinkSound(w, id) && Settles(w.recipients[id], t.recipients[id]);
      if KeyTaken(t.outboxes, id) {
        var o :| o in t.outboxes && t.outboxes[o].recipient == id;
        assert w.outboxes[o].recipient == id;
      }
    }
    forall o | o in t.outboxes ensures OutboxSound(t, o) {
      assert OutboxSound(w, o);
    }
    forall m | m in t.messages ensures Carried(t.outboxes, m) {
      assert Carried(w.outboxes, m);
      var o :| o in w.outboxes && w.outboxes[o].message == m;
      assert t.outboxes[o].message == m;
    }
  }

  lemma StoringKeepsRows(w: World, identities: seq<Identity>)
    requires RowsSound(w)
    ensures RowsSound(StoreTransaction(w, identities))
  {
    var t := StoreTransaction(w, identities);
    forall id | id in t.recipients ensures LinkSound(t, id) {
      if id in w.recipients {
        assert LinkSound(w, id);
      } else {
        forall o | o in w.outboxes ensures w.outboxes[o].recipient != id {
          assert OutboxSound(w, o);
        }
      }
    }
    forall o | o in t.outboxes ensures OutboxSound(t, o) {
      assert OutboxSound(w, o);
    }
    forall m | m in t.messages ensures Carried(t.outboxes, m) {
      assert Carried(w.outboxes, m);
    }
  }

  lemma QueueingKeepsLink(w: World, id: Identity, message: Uuid, outbox: Uuid, x: Identity)
    requires LinksSound(w) && id in w.recipients && !KeyTaken(w.outboxes, id) && x in w.recipients
    requires message !in w.messages && outbox !in w.outboxes
    ensures LinkSound(QueueTransaction(w, id, message, outbox), x)
  {
    var t := QueueTransaction(w, id, message, outbox);
    assert LinkSound(w, x);
    if x != id && KeyTaken(t.outboxes, x) {
      var o :| o in t.outboxes && t.outboxes[o].recipient == x;
      assert w.outboxes[o].recipient == x;
    }
  }

  lemma QueueingKeepsMessages(w: World, id: Identity, message: Uuid, outbox: Uuid)
    requires MessagesCarried(w) && id in w.recipients && outbox !in w.outboxes
    ensures MessagesCarried(QueueTransaction(w, id, message, outbox))
  {
    var t := QueueTransaction(w, id, message, outbox);
    forall m | m in t.messages ensures Carried(t.outboxes, m) {
      if m == message {
        assert t.outboxes[outbox].message == m;
      } else {
        assert Carried(w.outboxes, m);
        var o :| o in w.outboxes && w.outboxes[o].message == m;
        assert t.outboxes[o].message == m;
      }
    }
  }

  lemma QueueingKeepsRows(w: World, id: Identity, message: Uuid, outbox: Uuid)
    requires RowsSound(w) && id in w.recipients && !KeyTaken(w.outboxes, id)
    requires message !in w.messages && outbox !in w.outboxes
    ensures RowsSound(QueueTransaction(w, id, message, outbox))
  {
    var t := QueueTransaction(w, id, message, outbox);
    forall x | x in t.recipients ensures LinkSound(t, x) {
      QueueingKeepsLink(w, id, message, outbox, x);
    }
    forall o | o in t.outboxes ensures OutboxSound(t, o) {
      assert o in w.outboxes ==> OutboxSound(w, o);
    }
    QueueingKeepsMessages(w, id, message, outbox);
  }

  /** RowsSound does not look at the broadcast row or at preparations. */
  lemma SameRows(w: World, t: World)
    requires RowsSound(w) && RowsUntouched(w, t)
    ensures RowsSound(t)
  {
    SettlingKeepsRows(w, t);
  }

  lemma CancelSettles(w: World)
    ensures SettlesOnly(w, CancelTransaction(w))
  {
  }

  lemma RetrySettles(w: World, ids: set<Identity>)
    requires LinksSound(w) && forall id :: id in ids ==> Linked(w, id)
    ensures SettlesOnly(w, RetryTransaction(w, ids))
  {
  }

  lemma CancelKeepsRows(w: World)
    requires RowsSound(w)
    ensures RowsSound(CancelTransaction(w))
  {
    CancelSettles(w);
    SettlingKeepsRows(w, CancelTransaction(w));
  }

  lemma RetryKeepsRows(w: World, ids: set<Identity>)
    requires RowsSound(w) && forall id :: id in ids ==> Linked(w, id)
    ensures RowsSound(RetryTransaction(w, ids))
  {
    RetrySettles(w, ids);
    SettlingKeepsRows(w, RetryTransaction(w, ids));
  }

  /** Recipients listed for a retry had an outbox row when they were listed, and keep it. */
  predicate RetriesSound(w: World) {
    forall call, id :: call in w.retries && w.retries[call].Listed? && id in w.retries[call].ids ==> Linked(w, id)
  }

  predicate RowsUntouched(w: World, t: World) {
    t.recipients == w.recipients && t.messages == w.messages && t.outboxes == w.outboxes
  }

  lemma StatusCallUntouched(w: World, s: Step)
    requires IsCall(s) && !s.Cancel?
    ensures RowsUntouched(w, ApplyCall(w, s))
  {
  }

  lemma BookkeepingUntouched(w: World, s: Step)
    requires s.Load? || s.List? || s.Count? || s.Complete?
    ensures RowsUntouched(w, ApplyPreparation(w, s))
  {
  }

  lemma CommitKeepsRows(w: World, call: Uuid)
    requires RowsSound(w) && RetriesSound(w)
    ensures RowsSound(ApplyRetry(w, CommitRetry(call)))
  {
    if call in w.retries && w.retries[call].Listed? {
      var next := w.(retries := w.retries - {call});
      SameRows(w, next);
      forall id | id in w.retries[call].ids ensures Linked(next, id) {
        assert Linked(w, id);
      }
      RetryKeepsRows(next, w.retries[call].ids);
    }
  }

  lemma RetryStepKeepsRows(w: World, s: Step)
    requires RowsSound(w) && RetriesSound(w) && IsRetry(s)
    ensures RowsSound(ApplyRetry(w, s))
  {
    if s.CommitRetry? {
      CommitKeepsRows(w, s.call);
    } else {
      SameRows(w, ApplyRetry(w, s));
    }
  }

  lemma CallKeepsRows(w: World, s: Step)
    requires RowsSound(w) && IsCall(s)
    ensures RowsSound(ApplyCall(w, s))
  {
    if s.Cancel? {
      CancelKeepsRows(w);
      SameRows(w, w.(broadcast := Called(w.broadcast, s)));
    } else {
      StatusCallUntouched(w, s);
      SameRows(w, ApplyCall(w, s));
    }
  }

  lemma StatusSettles(w: World, id: Identity, s: RecipientStatus)
    requires LinksSound(w) && id in w.recipients && s != R_PENDING && (s == R_QUEUED ==> Linked(w, id))
    ensures SettlesOnly(w, w.(recipients := SetStatus(w.recipients, id, s)))
  {
    forall x | x in w.recipients ensures Settles(w.recipients[x], SetStatus(w.recipients, id, s)[x]) {
      assert LinkSound(w, x);
    }
  }

  lemma QueueKeepsRows(w: World, call: Uuid, missing: bool, message: Uuid, outbox: Uuid)
    requires RowsSound(w) && At(w, call) && w.preparations[call].Queueing? && w.preparations[call].pending != []
    ensures RowsSound(ApplyQueue(w, call, missing, message, outbox))
  {
    var p := w.preparations[call];
    var id := p.pending[0];
    var next := w.(preparations := w.preparations[call := Queueing(p.identities, p.pending[1..])]);
    var t := ApplyQueue(w, call, missing, message, outbox);
    SameRows(w, next);
    if id in p.identities && id in w.recipients && !missing && w.broadcast.status == RUNNING
       && !KeyTaken(w.outboxes, id) && message !in w.messages && outbox !in w.outboxes {
      QueueingKeepsRows(next, id, message, outbox);
    } else if id in p.identities && id in w.recipients && missing && w.recipients[id].status == R_PENDING {
      var failed := w.(recipients := SetStatus(w.recipients, id, R_FAILED));
      StatusSettles(w, id, R_FAILED);
      SettlingKeepsRows(w, failed);
      SameRows(failed, t);
    } else {
      SameRows(w, t);
    }
  }

  /** Statuses of messages and outbox rows do not matter. */
  lemma SettlingGoesOn(w: World, t: World, u: World)
    requires SettlesOnly(w, t) && u.recipients == t.recipients
    requires exists m: Option<Uuid>, s: Option<MessageStatus> :: u.messages == SetMessage(w.messages, m, s)
    requires exists o: Option<Uuid>, s: Option<OutboxStatus> :: u.outboxes == SetOutbox(w.outboxes, o, s)
    ensures SettlesOnly(w, u)
  {}

  lemma NothingSettles(w: World)
    requires LinksSound(w)
    ensures SettlesOnly(w, w)
  {
    forall x | x in w.recipients ensures Settles(w.recipients[x], w.recipients[x]) {
      assert LinkSound(w, x);
    }
  }

  lemma DeliveredSettles(w: World, to: Identity, report: Report)
    requires LinksSound(w) && Linked(w, to) && Reportable(report)
    ensures SettlesOnly(w, Delivered(w, to, report))
  {
    var t := Delivered(w, to, report);
    NothingSettles(w);
    StatusSettles(w, to, report.outcome);
    assert SetOutbox(w.outboxes, None, None) == w.outboxes;
    SettlingGoesOn(w, w.(recipients := t.recipients), t);
  }

  lemma MarkingSettles(w: World, outbox: Uuid, row: OutboxStatus, r: RecipientStatus, m: MessageStatus)
    requires LinksSound(w) && r != R_PENDING
    ensures SettlesOnly(w, RelationsMarked(w, outbox, row, r, m))
  {
    var t := RelationsMarked(w, outbox, row, r, m);
    forall x | x in w.recipients ensures Settles(w.recipients[x], t.recipients[x]) {
      assert LinkSound(w, x);
    }
  }

  lemma OperatorSettles(w: World, s: Step)
    requires LinksSound(w) && IsOperator(s)
    ensures SettlesOnly(w, ApplyOperator(w, s))
  {
    NothingSettles(w);
    match s
    case RetryRow(outbox) => MarkingSettles(w, outbox, O_RETRY, R_QUEUED, M_QUEUED);
    case Reconcile(outbox, applied) =>
      MarkingSettles(w, outbox, O_RETRY, R_QUEUED, M_QUEUED);
      MarkingSettles(w, outbox, O_DONE, R_SENT, M_OTHER);
  }

  lemma RequeuedSettles(w: World, lease: Uuid, to: Identity)
    requires LinksSound(w) && Linked(w, to)
    ensures SettlesOnly(w, Requeued(w, lease, to))
  {
    var t := Requeued(w, lease, to);
    NothingSettles(w);
    StatusSettles(w, to, R_QUEUED);
    assert SetOutbox(w.outboxes, None, None) == w.outboxes;
    SettlingGoesOn(w, w.(recipients := t.recipients), t);
  }

  lemma DeferredSettles(w: World, lease: Uuid)
    requires LinksSound(w) && lease in w.deferrals
    ensures SettlesOnly(w, Deferred(w, lease))
  {
    var t := Deferred(w, lease);
    var id := w.deferrals[lease];
    NothingSettles(w);
    if Holds(w, lease, id) {
      StatusSettles(w, id, R_QUEUED);
      assert SetMessage(w.messages, None, None) == w.messages;
      SettlingGoesOn(w, w.(recipients := t.recipients), t);
    }
  }

  lemma ClaimingSettles(w: World, o: Uuid, s: OutboxStatus)
    requires LinksSound(w)
    ensures SettlesOnly(w, w.(outboxes := SetOutbox(w.outboxes, Some(o), Some(s))))
  {
    NothingSettles(w);
    assert SetMessage(w.messages, None, None) == w.messages;
    SettlingGoesOn(w, w, w.(outboxes := SetOutbox(w.outboxes, Some(o), Some(s))));
  }

  lemma DeliverySettles(w: World, s: Step)
    requires LinksSound(w) && IsDelivery(s)
    ensures SettlesOnly(w, ApplyDelivery(w, s))
  {
    NothingSettles(w);
    match s
    case Claim(lease, outbox) => ClaimingSettles(w, outbox, O_TAKEN(lease));
    case Release(outbox) => ClaimingSettles(w, outbox, O_RETRY);
    case Finish(_, outbox, row) => ClaimingSettles(w, outbox, row);
    case Process(to) => if Linked(w, to) { StatusSettles(w, to, R_PROCESSING); }
    case Deliver(to, report) => if Linked(w, to) && Reportable(report) { DeliveredSettles(w, to, report); }
    case Requeue(lease, to) => if Linked(w, to) { RequeuedSettles(w, lease, to); }
    case ReadPaused(_, _) =>
    case Defer(lease) => if lease in w.deferrals { DeferredSettles(w, lease); }
  }

  lemma PreparationKeepsRows(w: World, s: Step)
    requires RowsSound(w) && IsPreparation(s)
    ensures RowsSound(ApplyPreparation(w, s))
  {
    var t := ApplyPreparation(w, s);
    match s
    case Store(call) =>
      if At(w, call) && w.preparations[call].Loaded? {
        var found := w.preparations[call].identities;
        var stored := w.(preparations := w.preparations[call := Stored(found)]);
        SameRows(w, stored);
        StoringKeepsRows(stored, found);
      }
    case QueueNext(call, missing, message, outbox) =>
      if At(w, call) && w.preparations[call].Queueing? && w.preparations[call].pending != [] {
        QueueKeepsRows(w, call, missing, message, outbox);
      }
    case _ =>
      BookkeepingUntouched(w, s);
      SameRows(w, t);
  }

  lemma StepKeepsRows(w: World, s: Step)
    requires RowsSound(w) && RetriesSound(w)
    ensures RowsSound(Apply(w, s))
  {
    if IsCall(s) {
      CallKeepsRows(w, s);
    } else if IsRetry(s) {
      RetryStepKeepsRows(w, s);
    } else if IsDelivery(s) {
      DeliverySettles(w, s);
      SettlingKeepsRows(w, Apply(w, s));
    } else if IsOperator(s) {
      OperatorSettles(w, s);
      SettlingKeepsRows(w, Apply(w, s));
    } else {
      PreparationKeepsRows(w, s);
    }
  }

  /** A link to an outbox row stays. */
  predicate LinksStay(w: World, t: World) {
    forall id :: id in w.recipients && Linked(w, id) ==> Linked(t, id)
  }

  lemma CallLinksStay(w: World, s: Step)
    requires IsCall(s)
    ensures LinksStay(w, ApplyCall(w, s)) && ApplyCall(w, s).retries == w.retries
  {}

  lemma RetryLinksStay(w: World, s: Step)
    requires IsRetry(s)
    ensures LinksStay(w, ApplyRetry(w, s))
  {}

  lemma DeliveryLinksStay(w: World, s: Step)
    requires IsDelivery(s)
    ensures LinksStay(w, ApplyDelivery(w, s)) && ApplyDelivery(w, s).retries == w.retries
  {}

  lemma OperatorLinksStay(w: World, s: Step)
    requires IsOperator(s)
    ensures LinksStay(w, ApplyOperator(w, s)) && ApplyOperator(w, s).retries == w.retries
  {}

  lemma QueueLinksStay(w: World, call: Uuid, missing: bool, message: Uuid, outbox: Uuid)
    requires At(w, call) && w.preparations[call].Queueing? && w.preparations[call].pending != []
    ensures var t := ApplyQueue(w, call, missing, message, outbox); LinksStay(w, t) && t.retries == w.retries
  {}

  lemma PreparationLinksStay(w: World, s: Step)
    requires IsPreparation(s)
    ensures LinksStay(w, ApplyPreparation(w, s)) && ApplyPreparation(w, s).retries == w.retries
  {
    if s.QueueNext? && At(w, s.call) && w.preparations[s.call].Queueing? && w.preparations[s.call].pending != [] {
      QueueLinksStay(w, s.call, s.missing, s.message, s.outbox);
    }
  }

  lemma SameRetries(w: World, t: World)
    requires RetriesSound(w) && LinksStay(w, t) && t.retries == w.retries
    ensures RetriesSound(t)
  {
    forall call, id | call in t.retries && t.retries[call].Listed? && id in t.retries[call].ids ensures Linked(t, id) {
      assert Linked(w, id);
    }
  }

  lemma RetryKeepsRetries(w: World, s: Step)
    requires RetriesSound(w) && IsRetry(s)
    ensures RetriesSound(ApplyRetry(w, s))
  {
    var t := ApplyRetry(w, s);
    RetryLinksStay(w, s);
    forall call, id | call in t.retries && t.retries[call].Listed? && id in t.retries[call].ids ensures Linked(t, id) {
      assert s.ListFailed? && s.call == call ==> t == w || id in RetryableIds(w.recipients);
      assert Linked(w, id);
    }
  }

  lemma StepKeepsRetries(w: World, s: Step)
    requires RetriesSound(w)
    ensures RetriesSound(Apply(w, s))
  {
    if IsCall(s) {
      CallLinksStay(w, s);
      SameRetries(w, ApplyCall(w, s));
    } else if IsRetry(s) {
      RetryKeepsRetries(w, s);
    } else if IsDelivery(s) {
      DeliveryLinksStay(w, s);
      SameRetries(w, ApplyDelivery(w, s));
    } else if IsOperator(s) {
      OperatorLinksStay(w, s);
      SameRetries(w, ApplyOperator(w, s));
    } else {
      PreparationLinksStay(w, s);
      SameRetries(w, ApplyPreparation(w, s));
    }
  }

  /** In every run from the creation of the broadcast the stamps and the rows are sound. */
  lemma {:induction false} RunKeepsRows(w: World, steps: seq<Step>)
    requires Stamped(w.broadcast) && RowsSound(w) && RetriesSound(w)
    ensures Stamped(Run(w, steps).broadcast) && RowsSound(Run(w, steps)) && RetriesSound(Run(w, steps))
    decreases |steps|
  {
    if steps != [] {
      StampedStep(w, steps[0]);
      StepKeepsRows(w, steps[0]);
      StepKeepsRetries(w, steps[0]);
      RunKeepsRows(Apply(w, steps[0]), steps[1..]);
    }
  }

  /** Every queued recipient owns exactly one outbox row and exactly one message, linked to each other. */
  lemma QueuedOwnsOneOfEach(scheduled: bool, channel: Channel, steps: seq<Step>, id: Identity) returns (message: Uuid, outbox: Uuid)
    requires id in Run(Created(scheduled, channel), steps).recipients
    requires Run(Created(scheduled, channel), steps).recipients[id].status == R_QUEUED
    ensures var w := Run(Created(scheduled, channel), steps);
      && w.recipients[id].message == Some(message) && w.recipients[id].outbox == Some(outbox)
      && (forall o :: o in w.outboxes && w.outboxes[o].recipient == id <==> o == outbox)
      && (forall m :: m in w.messages && w.messages[m].recipient == id <==> m == message)
      && w.outboxes[outbox].message == message
  {
    var w := Run(Created(scheduled, channel), steps);
    RunKeepsRows(Created(scheduled, channel), steps);
    assert LinkSound(w, id);
    message, outbox := w.recipients[id].message.value, w.recipients[id].outbox.value;
    assert OutboxSound(w, outbox);
    forall m | m in w.messages && w.messages[m].recipient == id ensures m == message {
      assert Carried(w.outboxes, m);
      var o :| o in w.outboxes && w.outboxes[o].message == m;
      assert OutboxSound(w, o);
    }
  }

  // --- The service, updating the rows in place ---

  function SetMessages(ms: Messages, ids: set<Uuid>, onlyQueued: bool, s: MessageStatus): Messages {
    map m | m in ms :: if m in ids && (!onlyQueued || ms[m].status == M_QUEUED) then ms[m].(status := s) else ms[m]
  }

  function SetOutboxes(os: Outboxes, ids: set<Uuid>, from: set<OutboxStatus>, s: OutboxStatus): Outboxes {
    map o | o in os :: if o in ids && os[o].status in from then os[o].(status := s) else os[o]
  }

  /** The update by id lists is the update by links. */
  lemma CancelsByIds(w: World, ids: set<Identity>, messageIds: set<Uuid>, outboxIds: set<Uuid>)
    requires forall m: Uuid :: m in messageIds <==> MessageOf(w.recipients, ids, m)
    requires forall o: Uuid :: o in outboxIds <==> OutboxOf(w.recipients, ids, o)
    ensures SetMessages(w.messages, messageIds, true, M_FAILED) == CancelMessages(w.recipients, ids, w.messages)
    ensures SetOutboxes(w.outboxes, outboxIds, {O_PENDING, O_RETRY}, O_FAILED) == CancelOutboxes(w.recipients, ids, w.outboxes)
  {}

  lemma RetriesByIds(w: World, ids: set<Identity>, messageIds: set<Uuid>, outboxIds: set<Uuid>)
    requires forall m: Uuid :: m in messageIds <==> MessageOf(w.recipients, ids, m)
    requires forall o: Uuid :: o in outboxIds <==> OutboxOf(w.recipients, ids, o)
    ensures SetMessages(w.messages, messageIds, false, M_QUEUED) == MarkMessages(w.recipients, ids, w.messages, M_QUEUED)
    ensures SetOutboxes(w.outboxes, outboxIds, {O_FAILED}, O_PENDING) == RetryOutboxes(w.recipients, ids, w.outboxes)
  {}

  lemma MarksByIds(rs: Recipients, ids: set<Identity>, ms: Messages, messageIds: set<Uuid>, m: MessageStatus)
    requires forall x: Uuid :: x in messageIds <==> MessageOf(rs, ids, x)
    ensures SetMessages(ms, messageIds, false, m) == MarkMessages(rs, ids, ms, m)
  {}

  lemma ClosesById(w: World, outbox: Uuid, from: OutboxStatus, row: OutboxStatus)
    requires RowIs(w, outbox, from)
    ensures SetOutboxes(w.outboxes, {outbox}, {from}, row) == SetOutbox(w.outboxes, Some(outbox), Some(row))
  {}

  /** An operator's requeue, by the status the operator saw. */
  function HandStep(outbox: Uuid, expected: OutboxStatus): Step {
    if expected == O_FAILED then RetryRow(outbox) else Reconcile(outbox, false)
  }

  lemma HandRequeues(w: World, outbox: Uuid, expected: OutboxStatus)
    requires expected == O_FAILED || expected == O_UNKNOWN
    ensures ApplyOperator(w, HandStep(outbox, expected)) ==
      if w.channel == TELEGRAM && RowIs(w, outbox, expected) then RowRequeued(w, outbox) else w
  {}

  lemma AddedGrows(rs: Recipients, identities: seq<Identity>, id: Identity)
    ensures var a := Added(rs, identities);
      Added(rs, identities + [id]) == if id in a then a else a[id := Recipient(R_PENDING, None, None)]
  {
    assert Elements(identities + [id]) == Elements(identities) + {id};
  }

  lemma LinkedGrows(seen: Recipients, id: Identity, r: Recipient, ids: set<Identity>)
    requires id !in seen
    ensures forall m: Uuid ::
      MessageOf(seen[id := r], ids, m) <==> MessageOf(seen, ids, m) || (id in ids && r.message == Some(m))
    ensures forall o: Uuid ::
      OutboxOf(seen[id := r], ids, o) <==> OutboxOf(seen, ids, o) || (id in ids && r.outbox == Some(o))
  {
    var next := seen[id := r];
    forall m: Uuid | MessageOf(seen, ids, m) ensures MessageOf(next, ids, m) {
      var x :| x in seen && x in ids && seen[x].message == Some(m);
      assert next[x] == seen[x];
    }
    forall o: Uuid | OutboxOf(seen, ids, o) ensures OutboxOf(next, ids, o) {
      var x :| x in seen && x in ids && seen[x].outbox == Some(o);
      assert next[x] == seen[x];
    }
    assert next[id] == r;
  }

  class BroadcastStore {
    var broadcast: Broadcast
    const channel: Channel
    var recipients: Recipients
    var messages: Messages
    var outboxes: Outboxes
    var preparations: map<Uuid, Preparation>
    var deferrals: map<Uuid, Identity>
    var retries: map<Uuid, Retry>

    constructor (scheduled: bool, channel: Channel)
      ensures Snapshot() == Created(scheduled, channel)
    {
      broadcast := Broadcast(if scheduled then SCHEDULED else DRAFT, scheduled, false, false, false);
      this.channel := channel;
      recipients, messages, outboxes := map[], map[], map[];
      preparations, deferrals, retries := map[], map[], map[];
    }

    function Snapshot(): World
      reads this
    {
      World(broadcast, channel, recipients, messages, outboxes, preparations, deferrals, retries)
    }

    /** `findMany` on recipients. */
    method FindRecipients(chosen: Recipient -> bool) returns (ids: set<Identity>)
      ensures forall id :: id in ids <==> id in recipients && chosen(recipients[id])
    {
      ids := {};
      var rest := recipients.Keys;
      while rest != {}
        invariant rest <= recipients.Keys
        invariant forall id :: id in ids <==> id in recipients && id !in rest && chosen(recipients[id])
        decreases rest
      {
        var id :| id in rest;
        if chosen(recipients[id]) {
          ids := ids + {id};
        }
        rest := rest - {id};
      }
    }

    /** `updateMany` on the recipients with the given ids. */
    method UpdateRecipients(ids: set<Identity>, status: RecipientStatus)
      modifies this`recipients
      ensures recipients == SetRecipients(old(recipients), ids, status)
    {
      ghost var before := recipients;
      var rest := ids;
      while rest != {}
        invariant recipients.Keys == before.Keys && rest <= ids
        invariant forall id :: id in before && (id in rest || id !in ids) ==> recipients[id] == before[id]
        invariant forall id :: id in before && id !in rest ==> recipients[id] == SetRecipients(before, ids, status)[id]
        modifies this`recipients
        decreases rest
      {
        var id :| id in rest;
        if id in recipients {
          recipients := recipients[id := recipients[id].(status := status)];
        }
        rest := rest - {id};
      }
      assert recipients == SetRecipients(before, ids, status);
    }

    /** The message and outbox ids the chosen recipients link to. */
    method LinkedRows(ids: set<Identity>) returns (messageIds: set<Uuid>, outboxIds: set<Uuid>)
      ensures forall m: Uuid :: m in messageIds <==> MessageOf(recipients, ids, m)
      ensures forall o: Uuid :: o in outboxIds <==> OutboxOf(recipients, ids, o)
    {
      messageIds, outboxIds := {}, {};
      var rest := recipients.Keys;
      while rest != {}
        invariant rest <= recipients.Keys
        invariant forall m: Uuid :: m in messageIds <==> MessageOf(recipients - rest, ids, m)
        invariant forall o: Uuid :: o in outboxIds <==> OutboxOf(recipients - rest, ids, o)
        decreases rest
      {
        var id :| id in rest;
        var r := recipients[id];
        ghost var seen := recipients - rest;
        rest := rest - {id};
        assert recipients - rest == seen[id := r];
        if id in ids && r.message.Some? {
          messageIds := messageIds + {r.message.value};
        }
        if id in ids && r.outbox.Some? {
          outboxIds := outboxIds + {r.outbox.value};
        }
        LinkedGrows(seen, id, r, ids);
      }
      assert recipients - {} == recipients;
    }

    method UpdateMessages(ids: set<Uuid>, onlyQueued: bool, status: MessageStatus)
      modifies this`messages
      ensures messages == SetMessages(old(messages), ids, onlyQueued, status)
    {
      ghost var before := messages;
      var rest := ids;
      while rest != {}
        invariant messages.Keys == before.Keys && rest <= ids
        invariant forall m :: m in before && (m in rest || m !in ids) ==> messages[m] == before[m]
        invariant forall m :: m in before && m !in rest ==> messages[m] == SetMessages(before, ids, onlyQueued, status)[m]
        modifies this`messages
        decreases rest
      {
        var m :| m in rest;
        if m in messages && (!onlyQueued || messages[m].status == M_QUEUED) {
          messages := messages[m := messages[m].(status := status)];
        }
        rest := rest - {m};
      }
      assert messages == SetMessages(before, ids, onlyQueued, status);
    }

    method UpdateOutboxes(ids: set<Uuid>, from: set<OutboxStatus>, status: OutboxStatus)
      modifies this`outboxes
      ensures outboxes == SetOutboxes(old(outboxes), ids, from, status)
    {
      ghost var before := outboxes;
      var rest := ids;
      while rest != {}
        invariant outboxes.Keys == before.Keys && rest <= ids
        invariant forall o :: o in before && (o in rest || o !in ids) ==> outboxes[o] == before[o]
        invariant forall o :: o in before && o !in rest ==> outboxes[o] == SetOutboxes(before, ids, from, status)[o]
        modifies this`outboxes
        decreases rest
      {
        var o :| o in rest;
        if o in outboxes && outboxes[o].status in from {
          outboxes := outboxes[o := outboxes[o].(status := status)];
        }
        rest := rest - {o};
      }
      assert outboxes == SetOutboxes(before, ids, from, status);
    }

    method Cancel() returns (done: bool)
      modifies this
      ensures Snapshot() == Apply(old(Snapshot()), Step.Cancel)
      ensures done <==> CanCancel(old(broadcast.status))
      ensures done ==> forall id :: id in recipients ==>
        id in old(recipients) && !Waiting(recipients[id])
        && (!Waiting(old(recipients)[id]) ==> recipients[id] == old(recipients)[id])
    {
      if !CanCancel(broadcast.status) {
        return false;
      }
      broadcast := broadcast.(status := CANCELLED, cancelledAt := true);
      var ids := FindRecipients(Waiting);
      assert ids == WaitingIds(recipients);
      var messageIds, outboxIds := LinkedRows(ids);
      CancelsByIds(Snapshot(), ids, messageIds, outboxIds);
      UpdateRecipients(ids, R_CANCELLED);
      UpdateMessages(messageIds, true, M_FAILED);
      UpdateOutboxes(outboxIds, {O_PENDING, O_RETRY}, O_FAILED);
      return true;
    }

    /** The first `findMany` of `retryFailed`, once the broadcast was found RUNNING. */
    method ListFailedRecipients(call: Uuid)
      requires call in retries && retries[call].Started?
      modifies this`retries
      ensures Snapshot() == Apply(old(Snapshot()), ListFailed(call))
    {
      var ids := FindRecipients(Retryable);
      assert ids == RetryableIds(recipients);
      retries := retries[call := Listed(ids)];
    }

    /** Its transaction, by the ids listed before. */
    method RetryListed(call: Uuid)
      requires call in retries && retries[call].Listed?
      modifies this
      ensures Snapshot() == Apply(old(Snapshot()), CommitRetry(call))
      ensures recipients.Keys == old(recipients).Keys
      ensures forall id :: id in recipients && id in old(retries)[call].ids ==> recipients[id].status == R_QUEUED
      ensures forall id :: id in recipients && id !in old(retries)[call].ids ==> recipients[id] == old(recipients)[id]
    {
      var ids := retries[call].ids;
      retries := retries - {call};
      var messageIds, outboxIds := LinkedRows(ids);
      RetriesByIds(Snapshot(), ids, messageIds, outboxIds);
      UpdateRecipients(ids, R_QUEUED);
      UpdateMessages(messageIds, false, M_QUEUED);
      UpdateOutboxes(outboxIds, {O_FAILED}, O_PENDING);
    }

    /** The recipients of the row and their messages, whatever their status. */
    method MarkTelegramRelations(outbox: Uuid, status: RecipientStatus, messageStatus: MessageStatus)
      modifies this`recipients, this`messages
      ensures recipients == SetRecipients(old(recipients), OwnersOf(old(recipients), outbox), status)
      ensures messages == MarkMessages(old(recipients), OwnersOf(old(recipients), outbox), old(messages), messageStatus)
    {
      var ids := FindRecipients((r: Recipient) => r.outbox == Some(outbox));
      assert ids == OwnersOf(recipients, outbox);
      var messageIds, _ := LinkedRows(ids);
      MarksByIds(recipients, ids, messages, messageIds, messageStatus);
      UpdateMessages(messageIds, false, messageStatus);
      UpdateRecipients(ids, status);
    }

    /** `requeueTelegramOutbox`: only for Telegram, and only if the row still has the status the operator saw. */
    method RequeueOutbox(outbox: Uuid, expected: OutboxStatus) returns (done: bool)
      requires expected == O_FAILED || expected == O_UNKNOWN
      modifies this`recipients, this`messages, this`outboxes
      ensures Snapshot() == ApplyOperator(old(Snapshot()), HandStep(outbox, expected))
      ensures done <==> channel == TELEGRAM && outbox in old(outboxes) && old(outboxes)[outbox].status == expected
      ensures done ==> forall id :: id in recipients && recipients[id].outbox == Some(outbox) ==> recipients[id].status == R_QUEUED
    {
      HandRequeues(Snapshot(), outbox, expected);
      if channel != TELEGRAM || outbox !in outboxes || outboxes[outbox].status != expected {
        return false;
      }
      ClosesById(Snapshot(), outbox, expected, O_RETRY);
      UpdateOutboxes({outbox}, {expected}, O_RETRY);
      MarkTelegramRelations(outbox, R_QUEUED, M_QUEUED);
      return true;
    }

    /** `createMany` with `skipDuplicates`, row by row, and the guarded update of the broadcast. */
    method StoreRecipients(call: Uuid)
      requires call in preparations && preparations[call].Loaded?
      modifies this
      ensures Snapshot() == ApplyPreparation(old(Snapshot()), Store(call))
    {
      var identities := preparations[call].identities;
      for k := 0 to |identities|
        modifies this`recipients
        invariant recipients == Added(old(recipients), identities[..k])
      {
        assert identities[..k + 1] == identities[..k] + [identities[k]];
        AddedGrows(old(recipients), identities[..k], identities[k]);
        if identities[k] !in recipients {
          recipients := recipients[identities[k] := Recipient(R_PENDING, None, None)];
        }
      }
      assert identities[..|identities|] == identities;
      if broadcast.status == PREPARING {
        if |identities| > 0 {
          broadcast := broadcast.(status := RUNNING, completedAt := false);
        } else {
          broadcast := broadcast.(status := COMPLETED, completedAt := true);
        }
      }
      preparations := preparations[call := Stored(identities)];
    }

    /** One turn of the queueing loop; false when the row's unique key is taken and the preparation throws. */
    method QueueRecipient(call: Uuid, missing: bool, message: Uuid, outbox: Uuid) returns (ok: bool)
      requires call in preparations && preparations[call].Queueing? && preparations[call].pending != []
      requires message !in messages && outbox !in outboxes
      modifies this
      ensures Snapshot() == ApplyPreparation(old(Snapshot()), QueueNext(call, missing, message, outbox))
      ensures ok <==> call in preparations
    {
      var p := preparations[call];
      var id := p.pending[0];
      preparations := preparations[call := Queueing(p.identities, p.pending[1..])];
      if id !in p.identities || id !in recipients {
        return true;
      }
      if missing {
        if recipients[id].status == R_PENDING {
          recipients := recipients[id := recipients[id].(status := R_FAILED)];
        }
        return true;
      }
      if broadcast.status != RUNNING {
        return true;
      }
      if exists o :: o in outboxes && outboxes[o].recipient == id {
        preparations := preparations - {call};
        return false;
      }
      messages := messages[message := Message(id, M_QUEUED)];
      outboxes := outboxes[outbox := Outbox(id, message, O_PENDING)];
      if recipients[id].status == R_PENDING {
        recipients := recipients[id := Recipient(R_QUEUED, Some(message), Some(outbox))];
      }
      return true;
    }

    method RestoreArchived() returns (done: bool)
      modifies this
      ensures Snapshot() == Apply(old(Snapshot()), Restore)
      ensures done <==> old(broadcast.status) == ARCHIVED
    {
      if broadcast.status != ARCHIVED {
        return false;
      }
      var status := if broadcast.completedAt then COMPLETED
                    else if broadcast.cancelledAt then CANCELLED
                    else if broadcast.failedAt then FAILED
                    else DRAFT;
      broadcast := broadcast.(status := status);
      return true;
    }
  }
}
